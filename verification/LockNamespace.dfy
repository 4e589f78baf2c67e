/** The directory that holds one lock: candidates being prepared, candidates being
    thrown away, and the published claim. Every primitive is atomic, and is None
    where the file system refuses. */
module LockNamespace {
  import opened Options

  datatype Record = Record(id: nat, owner: string, scope: string, expiresAt: int)

  /** A directory name carries the digest of the record, which is injective. */
  datatype Name = NameOf(record: Record)

  datatype File = Torn | Whole(record: Record)

  /** A generation directory. The names of the tombstone and of the cleanup marker
      carry the digest that the generation's own name carries. */
  datatype Generation = Generation(record: Option<File>, tombstone: Option<File>, marker: bool)

  type Directory = map<Name, Generation>

  /** The two renames that can move a candidate. */
  datatype Rename = Publication(name: Name) | Quarantine(name: Name)

  /** `made` and `renames` record what has happened; no step reads them. */
  datatype Namespace = Namespace(
    candidates: map<Name, Directory>,
    quarantines: map<Name, Directory>,
    claim: Option<Directory>,
    made: set<Name>,
    renames: seq<Rename>)

  const BARE := Generation(None, None, false)
  const VACANT := Namespace(map[], map[], None, {}, [])

  predicate Published(ns: Namespace, n: Name) {
    Publication(n) in ns.renames
  }

  /** What the claim directory holds under this name. */
  function At(ns: Namespace, n: Name): Option<Generation> {
    if ns.claim.Some? && n in ns.claim.value then Some(ns.claim.value[n]) else None
  }

  predicate HasRecord(ns: Namespace, n: Name) {
    At(ns, n).Some? && At(ns, n).value.record.Some?
  }

  predicate HasTombstone(ns: Namespace, n: Name) {
    At(ns, n).Some? && At(ns, n).value.tombstone.Some?
  }

  predicate HasMarker(ns: Namespace, n: Name) {
    At(ns, n).Some? && At(ns, n).value.marker
  }

  /** Listing the claim directory can show this generation, or none. */
  predicate Lists(ns: Namespace, located: Option<Name>) {
    if located.Some? then At(ns, located.value).Some?
    else ns.claim.None? || ns.claim.value == map[]
  }

  function CreateCandidate(ns: Namespace, n: Name): Option<Namespace> {
    if n in ns.candidates then None
    else Some(ns.(candidates := ns.candidates[n := map[]], made := ns.made + {n}))
  }

  function CreateGeneration(ns: Namespace, n: Name): Option<Namespace> {
    if n !in ns.candidates || n in ns.candidates[n] then None
    else Some(ns.(candidates := ns.candidates[n := ns.candidates[n][n := BARE]]))
  }

  /** Creating the record file, still empty. */
  function OpenRecord(ns: Namespace, n: Name): Option<Namespace> {
    if n !in ns.candidates || n !in ns.candidates[n] || ns.candidates[n][n].record.Some? then None
    else Some(ns.(candidates := ns.candidates[n := ns.candidates[n][n := ns.candidates[n][n].(record := Some(Torn))]]))
  }

  /** Writing through the open handle, wherever the file has been moved since. */
  function WriteRecord(ns: Namespace, n: Name): Namespace {
    var file := Some(Whole(n.record));
    if n in ns.candidates && n in ns.candidates[n] && ns.candidates[n][n].record.Some? then
      ns.(candidates := ns.candidates[n := ns.candidates[n][n := ns.candidates[n][n].(record := file)]])
    else if n in ns.quarantines && n in ns.quarantines[n] && ns.quarantines[n][n].record.Some? then
      ns.(quarantines := ns.quarantines[n := ns.quarantines[n][n := ns.quarantines[n][n].(record := file)]])
    else ns
  }

  /** The exclusive rename of a candidate to the claim directory. */
  function Publish(ns: Namespace, n: Name): Option<Namespace> {
    if n !in ns.candidates || ns.claim.Some? then None
    else Some(ns.(claim := Some(ns.candidates[n]), candidates := ns.candidates - {n}, renames := ns.renames + [Publication(n)]))
  }

  /** The exclusive rename of a candidate to its quarantine. */
  function MoveToQuarantine(ns: Namespace, n: Name): Option<Namespace> {
    if n !in ns.candidates || n in ns.quarantines then None
    else
      Some(ns.(quarantines := ns.quarantines[n := ns.candidates[n]], candidates := ns.candidates - {n},
               renames := ns.renames + [Quarantine(n)]))
  }

  function RemoveQuarantinedRecord(ns: Namespace, n: Name): Option<Namespace> {
    if n !in ns.quarantines || n !in ns.quarantines[n] || ns.quarantines[n][n].record.None? then None
    else Some(ns.(quarantines := ns.quarantines[n := ns.quarantines[n][n := ns.quarantines[n][n].(record := None)]]))
  }

  function RemoveQuarantinedGeneration(ns: Namespace, n: Name): Option<Namespace> {
    if n !in ns.quarantines || n !in ns.quarantines[n] || ns.quarantines[n][n] != BARE then None
    else Some(ns.(quarantines := ns.quarantines[n := ns.quarantines[n] - {n}]))
  }

  function RemoveQuarantine(ns: Namespace, n: Name): Option<Namespace> {
    if n !in ns.quarantines || ns.quarantines[n] != map[] then None
    else Some(ns.(quarantines := ns.quarantines - {n}))
  }

  function Put(ns: Namespace, n: Name, g: Generation): Namespace
    requires ns.claim.Some?
  {
    ns.(claim := Some(ns.claim.value[n := g]))
  }

  /** A second link to the record, under the tombstone's name. */
  function LinkTombstone(ns: Namespace, n: Name): Option<Namespace> {
    if !HasRecord(ns, n) || HasTombstone(ns, n) then None
    else Some(Put(ns, n, At(ns, n).value.(tombstone := At(ns, n).value.record)))
  }

  function RemoveRecord(ns: Namespace, n: Name): Option<Namespace> {
    if !HasRecord(ns, n) then None else Some(Put(ns, n, At(ns, n).value.(record := None)))
  }

  function RemoveTombstone(ns: Namespace, n: Name): Option<Namespace> {
    if !HasTombstone(ns, n) then None else Some(Put(ns, n, At(ns, n).value.(tombstone := None)))
  }

  function CreateMarker(ns: Namespace, n: Name): Option<Namespace> {
    if At(ns, n).None? || HasMarker(ns, n) then None else Some(Put(ns, n, At(ns, n).value.(marker := true)))
  }

  function RemoveMarker(ns: Namespace, n: Name): Option<Namespace> {
    if !HasMarker(ns, n) then None else Some(Put(ns, n, At(ns, n).value.(marker := false)))
  }

  /** Only an empty generation directory can be removed. */
  function RemoveGeneration(ns: Namespace, n: Name): Option<Namespace> {
    if At(ns, n) != Some(BARE) then None else Some(ns.(claim := Some(ns.claim.value - {n})))
  }

  /** Only an empty claim directory can be removed. */
  function RemoveClaim(ns: Namespace): Option<Namespace> {
    if ns.claim != Some(map[]) then None else Some(ns.(claim := None))
  }
}
