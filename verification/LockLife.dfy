/** What each operation on a lock comes to when its worker is not disturbed: a claim is
    published, let go, helped to its end or recovered, and a candidate is thrown away. */
module LockLife {
  import opened Options
  import opened LockNamespace
  import opened LockWorkers
  import opened LockSafety
  import opened LockProgress

  /** The directory of a candidate whose record has come this far. */
  function Content(file: Option<File>, n: Name): Directory {
    map[n := Generation(file, None, false)]
  }

  /** What a publisher can have left. */
  predicate Unfinished(content: Directory, n: Name) {
    content == map[] || exists file <- {None, Some(Torn), Some(Whole(n.record))} :: content == Content(file, n)
  }

  /** The namespace once a candidate of this content has been made in it. */
  function Prepared(ns: Namespace, n: Name, content: Directory): Namespace {
    ns.(candidates := ns.candidates[n := content], made := ns.made + {n})
  }

  lemma PreparedAgain(ns: Namespace, n: Name, before: Directory, file: Option<File>)
    requires before == map[] || exists g :: before == map[n := g]
    ensures
      var after := before[n := Generation(file, None, false)];
      && after == Content(file, n)
      && Prepared(ns, n, before).(candidates := Prepared(ns, n, before).candidates[n := after]) == Prepared(ns, n, after)
  {
    var after := before[n := Generation(file, None, false)];
    assert after == Content(file, n);
    assert ns.candidates[n := before][n := after] == ns.candidates[n := after];
  }

  /** Undisturbed, a publisher prepares the whole candidate before its rename. */
  lemma ReachesRename(kind: Kind, ns: Namespace, now: int, n: Name, last: Effect)
    requires n !in ns.candidates
    requires Ends(kind, Prepared(ns, n, Content(Some(Whole(n.record)), n)), now, n, Publishing(n.record, RenameCandidate), last)
    ensures Ends(kind, ns, now, n, Publishing(n.record, MakeCandidate), last)
  {
    var r, torn, whole := n.record, Some(Torn), Some(Whole(n.record));
    var after := if kind.Scope? then CheckRecord else RenameCandidate;
    PreparedAgain(ns, n, map[], None);
    PreparedAgain(ns, n, Content(None, n), torn);
    PreparedAgain(ns, n, Content(torn, n), whole);
    var ready := Prepared(ns, n, Content(whole, n));
    if kind.Scope? {
      Onward(kind, ready, now, n, Publishing(r, CheckRecord), Effect(ready, Publishing(r, RenameCandidate)), last);
    }
    Onward(kind, Prepared(ns, n, Content(torn, n)), now, n, Publishing(r, WriteRecordFile), Effect(ready, Publishing(r, after)), last);
    Onward(kind, Prepared(ns, n, Content(None, n)), now, n, Publishing(r, OpenRecordFile),
           Effect(Prepared(ns, n, Content(torn, n)), Publishing(r, WriteRecordFile)), last);
    Onward(kind, Prepared(ns, n, map[]), now, n, Publishing(r, MakeGeneration),
           Effect(Prepared(ns, n, Content(None, n)), Publishing(r, OpenRecordFile)), last);
    Onward(kind, ns, now, n, Publishing(r, MakeCandidate), Effect(Prepared(ns, n, map[]), Publishing(r, MakeGeneration)), last);
  }

  /** A claim with a fresh name is published where there is none, and its owner holds it. */
  lemma PublisherHolds(kind: Kind, ns: Namespace, now: int, n: Name)
    requires n !in ns.candidates && ns.claim.None?
    ensures Ends(kind, ns, now, n, Publishing(n.record, MakeCandidate), Effect(
      ns.(claim := Some(map[n := Generation(Some(Whole(n.record)), None, false)]), made := ns.made + {n},
          renames := ns.renames + [Publication(n)]),
      Held(n.record)))
  {
    var ready := Prepared(ns, n, Content(Some(Whole(n.record)), n));
    var done := ns.(claim := Some(Content(Some(Whole(n.record)), n)), made := ns.made + {n}, renames := ns.renames + [Publication(n)]);
    assert ready.candidates - {n} == ns.candidates;
    EndsNow(kind, done, now, n, Held(n.record));
    Onward(kind, ready, now, n, Publishing(n.record, RenameCandidate), Effect(done, Held(n.record)), Effect(done, Held(n.record)));
    ReachesRename(kind, ns, now, n, Effect(done, Held(n.record)));
  }

  /** The namespace once this candidate has gone by way of its quarantine. */
  function Discarded(ns: Namespace, n: Name): Namespace {
    ns.(candidates := ns.candidates - {n}, renames := ns.renames + [Quarantine(n)])
  }

  function Quarantined(ns: Namespace, n: Name, content: Directory): Namespace {
    Discarded(ns, n).(quarantines := ns.quarantines[n := content])
  }

  /** A candidate is thrown away, whatever its publisher has left of it. */
  lemma ReclaimerDiscards(kind: Kind, ns: Namespace, now: int, n: Name)
    requires n in ns.candidates && Unfinished(ns.candidates[n], n) && n !in ns.quarantines
    ensures Ends(kind, ns, now, n, Reclaiming(n, MoveAway), Effect(Discarded(ns, n), Idle))
  {
    var last := Effect(Discarded(ns, n), Idle);
    var content := ns.candidates[n];
    var moved := Quarantined(ns, n, content);
    EmptyQuarantineGoes(kind, ns, now, n);
    if content == map[] {
      Onward(kind, moved, now, n, Reclaiming(n, LookAtGeneration), Effect(moved, Reclaiming(n, DropQuarantine)), last);
      Onward(kind, moved, now, n, Reclaiming(n, LookAtRecord), Effect(moved, Reclaiming(n, LookAtGeneration)), last);
    } else {
      BareQuarantineGoes(kind, ns, now, n);
      if content == Content(None, n) {
        Onward(kind, moved, now, n, Reclaiming(n, LookAtRecord), Effect(moved, Reclaiming(n, LookAtGeneration)), last);
      } else {
        var bare := Quarantined(ns, n, Content(None, n));
        assert content[n := content[n].(record := None)] == Content(None, n);
        assert moved.quarantines[n := Content(None, n)] == bare.quarantines;
        Onward(kind, moved, now, n, Reclaiming(n, DropRecord), Effect(bare, Reclaiming(n, LookAtGeneration)), last);
        Onward(kind, moved, now, n, Reclaiming(n, LookAtRecord), Effect(moved, Reclaiming(n, DropRecord)), last);
      }
    }
    Onward(kind, ns, now, n, Reclaiming(n, MoveAway), Effect(moved, Reclaiming(n, LookAtRecord)), last);
  }

  lemma EmptyQuarantineGoes(kind: Kind, ns: Namespace, now: int, n: Name)
    requires n !in ns.quarantines
    ensures Ends(kind, Quarantined(ns, n, map[]), now, n, Reclaiming(n, DropQuarantine), Effect(Discarded(ns, n), Idle))
  {
    var last := Effect(Discarded(ns, n), Idle);
    assert ns.quarantines[n := map[]] - {n} == ns.quarantines;
    EndsNow(kind, Discarded(ns, n), now, n, Idle);
    Onward(kind, Quarantined(ns, n, map[]), now, n, Reclaiming(n, DropQuarantine), last, last);
  }

  lemma BareQuarantineGoes(kind: Kind, ns: Namespace, now: int, n: Name)
    requires n !in ns.quarantines
    ensures Ends(kind, Quarantined(ns, n, Content(None, n)), now, n, Reclaiming(n, LookAtGeneration), Effect(Discarded(ns, n), Idle))
  {
    var last := Effect(Discarded(ns, n), Idle);
    var bare, empty := Quarantined(ns, n, Content(None, n)), Quarantined(ns, n, map[]);
    assert Content(None, n) - {n} == map[];
    assert bare.quarantines[n := map[]] == empty.quarantines;
    EmptyQuarantineGoes(kind, ns, now, n);
    Onward(kind, bare, now, n, Reclaiming(n, DropGeneration), Effect(empty, Reclaiming(n, DropQuarantine)), last);
    Onward(kind, bare, now, n, Reclaiming(n, LookAtGeneration), Effect(bare, Reclaiming(n, DropGeneration)), last);
  }

  /** Where there is a claim already the publisher gives up: an admission candidate is
      thrown away, and a scope's is left. */
  lemma PublisherGivesUp(kind: Kind, ns: Namespace, now: int, n: Name)
    requires n !in ns.candidates && n !in ns.quarantines && ns.claim.Some?
    ensures Ends(kind, ns, now, n, Publishing(n.record, MakeCandidate), Effect(
      (if kind.Scope? then ns.(candidates := ns.candidates[n := Content(Some(Whole(n.record)), n)])
       else ns.(renames := ns.renames + [Quarantine(n)])).(made := ns.made + {n}),
      Idle))
  {
    var ready := Prepared(ns, n, Content(Some(Whole(n.record)), n));
    var last := Effect(if kind.Scope? then ready else Discarded(ready, n), Idle);
    assert ready.candidates - {n} == ns.candidates;
    if kind.Scope? {
      EndsNow(kind, ready, now, n, Idle);
    } else {
      ReclaimerDiscards(kind, ready, now, n);
    }
    Onward(kind, ready, now, n, Publishing(n.record, RenameCandidate), Effect(ready, GiveUp(kind, n)), last);
    ReachesRename(kind, ns, now, n, last);
  }

  /** The owner of an admission claim retires it. */
  lemma OwnerRetires(ns: Namespace, now: int, n: Name, g: Generation)
    requires Holds(ns, n, g) && g.record.Some?
    ensures Clears(Admission, ns, now, n, Retiring(n.record, None))
  {
    var last := Effect(ns.(claim := None), Idle);
    var marked := g.(marker := true);
    PutAt(ns, n, g, g);
    if g.marker {
      ClearsMarked(ns, now, n, g);
      Onward(Admission, ns, now, n, Retiring(n.record, Some(false)), Effect(ns, Cleaning(n.record, ConfirmMarker)), last);
    } else {
      PutAt(ns, n, g, marked);
      ClearsMarked(Put(ns, n, marked), now, n, marked);
      Onward(Admission, ns, now, n, Retiring(n.record, Some(true)), Effect(Put(ns, n, marked), Cleaning(n.record, ConfirmMarker)), last);
      Onward(Admission, ns, now, n, Retiring(n.record, Some(false)), Effect(ns, Retiring(n.record, Some(true))), last);
    }
    Onward(Admission, ns, now, n, Retiring(n.record, None), Effect(ns, Retiring(n.record, Some(false))), last);
  }

  /** A resolver that loses the election helps the winner to the end. */
  lemma LoserHelps(ns: Namespace, now: int, n: Name, g: Generation)
    requires Holds(ns, n, g) && g.marker && (g.record.Some? || g.tombstone.Some?)
    requires g.tombstone.Some? || now >= n.record.expiresAt + 5_000
    ensures Clears(Admission, ns, now, n, Resolving(Elect(Readable(g.record, n), Readable(g.tombstone, n))))
  {
    var last := Effect(ns.(claim := None), Idle);
    PutAt(ns, n, g, g);
    ClearsMarked(ns, now, n, g);
    Onward(Admission, ns, now, n, Resolving(SeekElected(n.record)), Effect(ns, Cleaning(n.record, ConfirmMarker)), last);
    Onward(Admission, ns, now, n, Resolving(Elect(Readable(g.record, n), Readable(g.tombstone, n))), Effect(ns, Resolving(SeekElected(n.record))), last);
  }

  /** A helper that finds the tombstone linked by another goes on from there. */
  lemma LateLinkerHelps(ns: Namespace, now: int, n: Name, g: Generation)
    requires Holds(ns, n, g) && g.marker && g.tombstone.Some?
    ensures Clears(Admission, ns, now, n, Cleaning(n.record, LinkRecord))
  {
    var last := Effect(ns.(claim := None), Idle);
    PutAt(ns, n, g, g);
    ClearsMarked(ns, now, n, g);
    Onward(Admission, ns, now, n, Cleaning(n.record, LinkFailed), Effect(ns, Cleaning(n.record, ConfirmMarker)), last);
    Onward(Admission, ns, now, n, Cleaning(n.record, LinkRecord), Effect(ns, Cleaning(n.record, LinkFailed)), last);
  }

  /** A record or tombstone that does not say what its name digests stops a resolver. */
  lemma UnreadableStops(ns: Namespace, now: int, n: Name, g: Generation)
    requires ns.claim == Some(map[n := g]) && !GenerationOk(g, n)
    ensures Ends(Admission, ns, now, n, Resolving(ReadHolder), Effect(ns, Idle))
  {
    var last := Effect(ns, Idle);
    PutAt(ns, n, g, g);
    EndsNow(Admission, ns, now, n, Idle);
    if FileOk(g.record, n) {
      Onward(Admission, ns, now, n, Resolving(ReadRetired(Readable(g.record, n))), last, last);
      Onward(Admission, ns, now, n, Resolving(ReadHolder), Effect(ns, Resolving(ReadRetired(Readable(g.record, n)))), last);
    } else {
      Onward(Admission, ns, now, n, Resolving(ReadHolder), last, last);
    }
  }

  /** And any worker that releases or recovers a scope's claim. */
  lemma UnreadableIsKept(ns: Namespace, now: int, n: Name, g: Generation, recovering: bool)
    requires ns.claim == Some(map[n := g]) && g.record.Some? && !FileOk(g.record, n) && !g.marker
    ensures Ends(Scope, ns, now, n, Releasing(n.record, SeekPending, recovering), Effect(ns, Idle))
  {
    var last := Effect(ns, Idle);
    PutAt(ns, n, g, g);
    EndsNow(Scope, ns, now, n, Idle);
    Onward(Scope, ns, now, n, Releasing(n.record, ReadCurrent, recovering), last, last);
    Onward(Scope, ns, now, n, Releasing(n.record, LookForEmpty, recovering), Effect(ns, Releasing(n.record, ReadCurrent, recovering)), last);
    Onward(Scope, ns, now, n, Releasing(n.record, SeekPending, recovering), Effect(ns, Releasing(n.record, LookForEmpty, recovering)), last);
  }

  /** The claim of a scope, in a state that its owner and helpers can have left it in. */
  predicate HoldsScope(ns: Namespace, n: Name, g: Generation) {
    Holds(ns, n, g) && g.tombstone.None?
  }

  lemma HelpsBare(ns: Namespace, now: int, n: Name)
    requires HoldsScope(ns, n, BARE)
    ensures Clears(Scope, ns, now, n, Helping(n, RemoveGenerationDirectory))
  {
    var last := Effect(ns.(claim := None), Idle);
    var empty := ns.(claim := Some(map[]));
    assert map[n := BARE] - {n} == map[];
    EndsNow(Scope, last.ns, now, n, Idle);
    Onward(Scope, empty, now, n, Helping(n, RemoveClaimDirectory), last, last);
    Onward(Scope, ns, now, n, Helping(n, RemoveGenerationDirectory), Effect(empty, Helping(n, RemoveClaimDirectory)), last);
  }

  lemma HelpsUnrecorded(ns: Namespace, now: int, n: Name, g: Generation)
    requires HoldsScope(ns, n, g) && g.record.None?
    ensures Clears(Scope, ns, now, n, Helping(n, RemoveMarkerDirectory))
  {
    var last := Effect(ns.(claim := None), Idle);
    var bare := Put(ns, n, BARE);
    PutAt(ns, n, g, BARE);
    assert !g.marker ==> bare == ns;
    HelpsBare(bare, now, n);
    Onward(Scope, bare, now, n, Helping(n, InspectGeneration), Effect(bare, Helping(n, RemoveGenerationDirectory)), last);
    Onward(Scope, ns, now, n, Helping(n, RemoveMarkerDirectory), Effect(bare, Helping(n, InspectGeneration)), last);
  }

  lemma HelpsMarked(ns: Namespace, now: int, n: Name, g: Generation)
    requires HoldsScope(ns, n, g) && g.marker
    ensures Clears(Scope, ns, now, n, Helping(n, ConfirmScopeMarker))
  {
    var last := Effect(ns.(claim := None), Idle);
    PutAt(ns, n, g, g);
    if g.record.Some? {
      var unrecorded := g.(record := None);
      var next := Put(ns, n, unrecorded);
      PutAt(ns, n, g, unrecorded);
      HelpsUnrecorded(next, now, n, unrecorded);
      Onward(Scope, ns, now, n, Helping(n, RemoveRecordFile), Effect(next, Helping(n, RemoveMarkerDirectory)), last);
      Onward(Scope, ns, now, n, Helping(n, InspectRecord), Effect(ns, Helping(n, RemoveRecordFile)), last);
    } else {
      HelpsUnrecorded(ns, now, n, g);
      Onward(Scope, ns, now, n, Helping(n, InspectRecord), Effect(ns, Helping(n, RemoveMarkerDirectory)), last);
    }
    Onward(Scope, ns, now, n, Helping(n, ConfirmScopeMarker), Effect(ns, Helping(n, InspectRecord)), last);
  }

  /** A helper clears a scope's claim exactly if its end has begun, and leaves any other. */
  lemma HelperClears(ns: Namespace, now: int, n: Name, g: Generation)
    requires HoldsScope(ns, n, g)
    ensures g.marker ==> Clears(Scope, ns, now, n, Pending)
    ensures !g.marker ==> Ends(Scope, ns, now, n, Pending, Effect(ns, Idle))
  {
    PutAt(ns, n, g, g);
    if g.marker {
      HelpsMarked(ns, now, n, g);
      Onward(Scope, ns, now, n, Pending, Effect(ns, Helping(n, ConfirmScopeMarker)), Effect(ns.(claim := None), Idle));
    } else {
      EndsNow(Scope, ns, now, n, Idle);
      Onward(Scope, ns, now, n, Pending, Effect(ns, Idle), Effect(ns, Idle));
    }
  }

  lemma ReleasesRecorded(ns: Namespace, now: int, n: Name, g: Generation, recovering: bool)
    requires HoldsScope(ns, n, g) && g.record.Some? && !g.marker
    ensures !recovering || now >= n.record.expiresAt + 5_000 ==> Clears(Scope, ns, now, n, Releasing(n.record, ReadCurrent, recovering))
    ensures recovering && now < n.record.expiresAt + 5_000 ==> Ends(Scope, ns, now, n, Releasing(n.record, ReadCurrent, recovering), Effect(ns, Idle))
  {
    PutAt(ns, n, g, g);
    if recovering && now < n.record.expiresAt + 5_000 {
      EndsNow(Scope, ns, now, n, Idle);
      Onward(Scope, ns, now, n, Releasing(n.record, ReadCurrent, recovering), Effect(ns, Idle), Effect(ns, Idle));
    } else {
      var last := Effect(ns.(claim := None), Idle);
      var marked := g.(marker := true);
      PutAt(ns, n, g, marked);
      HelpsMarked(Put(ns, n, marked), now, n, marked);
      Onward(Scope, ns, now, n, Releasing(n.record, MarkRecord, recovering), Effect(Put(ns, n, marked), Helping(n, ConfirmScopeMarker)), last);
      Onward(Scope, ns, now, n, Releasing(n.record, VerifyRecord, recovering), Effect(ns, Releasing(n.record, MarkRecord, recovering)), last);
      Onward(Scope, ns, now, n, Releasing(n.record, ReadCurrent, recovering), Effect(ns, Releasing(n.record, VerifyRecord, recovering)), last);
    }
  }

  /** A scope's claim is cleared by its owner always, and by recovery exactly if its end
      has begun or it expired five seconds ago; otherwise it is left as it was. */
  lemma ReleaseClears(ns: Namespace, now: int, n: Name, g: Generation, recovering: bool)
    requires HoldsScope(ns, n, g)
    ensures !recovering || g.marker || g.record.None? || now >= n.record.expiresAt + 5_000 ==>
      Clears(Scope, ns, now, n, Releasing(n.record, SeekPending, recovering))
    ensures recovering && !g.marker && g.record.Some? && now < n.record.expiresAt + 5_000 ==>
      Ends(Scope, ns, now, n, Releasing(n.record, SeekPending, recovering), Effect(ns, Idle))
  {
    var cleared := Effect(ns.(claim := None), Idle);
    PutAt(ns, n, g, g);
    if g.marker {
      HelpsMarked(ns, now, n, g);
      Onward(Scope, ns, now, n, Releasing(n.record, SeekPending, recovering), Effect(ns, Helping(n, ConfirmScopeMarker)), cleared);
    } else if g.record.None? {
      HelpsBare(ns, now, n);
      Onward(Scope, ns, now, n, Releasing(n.record, LookForEmpty, recovering), Effect(ns, Helping(n, RemoveGenerationDirectory)), cleared);
      Onward(Scope, ns, now, n, Releasing(n.record, SeekPending, recovering), Effect(ns, Releasing(n.record, LookForEmpty, recovering)), cleared);
    } else {
      var last := if recovering && now < n.record.expiresAt + 5_000 then Effect(ns, Idle) else cleared;
      ReleasesRecorded(ns, now, n, g, recovering);
      Onward(Scope, ns, now, n, Releasing(n.record, LookForEmpty, recovering), Effect(ns, Releasing(n.record, ReadCurrent, recovering)), last);
      Onward(Scope, ns, now, n, Releasing(n.record, SeekPending, recovering), Effect(ns, Releasing(n.record, LookForEmpty, recovering)), last);
    }
  }
}
