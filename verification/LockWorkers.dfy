/** The workers of one lock. Each step is one durable call or one reading; steps of
    different workers interleave in any order, and any worker can stop anywhere. */
module LockWorkers {
  import opened Options
  import opened LockNamespace

  const LEASE_SKEW_MS := 5_000

  /** The admission lock retires a record behind a tombstone; a scope's claim is
      cleaned up behind a marker. */
  datatype Kind = Admission | Scope

  datatype PublishPoint = MakeCandidate | MakeGeneration | OpenRecordFile | WriteRecordFile | CheckRecord | RenameCandidate

  datatype ReclaimPoint = MoveAway | LookAtRecord | DropRecord | LookAtGeneration | DropGeneration | DropQuarantine

  datatype ResolvePoint =
    | ReadHolder
    | ReadRetired(holder: Option<Record>)
    | SeekMarker(holder: Option<Record>, retired: Option<Record>)
    | SeekEmpty
    | Elect(holder: Option<Record>, retired: Option<Record>)
    | SeekElected(expected: Record)

  datatype CleanPoint =
    | ConfirmMarker
    | RereadHolder
    | RereadRetired(held: bool)
    | LinkRecord
    | LinkFailed
    | UnlinkRecord
    | LookAtTombstone
    | UnlinkTombstone
    | UnlinkMarker
    | UnlinkGeneration
    | UnlinkClaim

  datatype ReleasePoint = SeekPending | LookForEmpty | ReadCurrent | VerifyRecord | MarkRecord

  datatype ScopePoint = ConfirmScopeMarker | InspectRecord | RemoveRecordFile | RemoveMarkerDirectory | InspectGeneration | RemoveGenerationDirectory | RemoveClaimDirectory

  datatype Worker =
    | Idle
    | Publishing(record: Record, publishAt: PublishPoint)
    | Held(record: Record)
    | Reclaiming(name: Name, reclaimAt: ReclaimPoint)
    | Resolving(resolveAt: ResolvePoint)
    | Retiring(record: Record, marking: Option<bool>)
    | Cleaning(record: Record, cleanAt: CleanPoint)
    | Releasing(record: Record, releaseAt: ReleasePoint, recovering: bool)
    | Helping(name: Name, scopeAt: ScopePoint)
    | Pending

  datatype Effect = Effect(ns: Namespace, worker: Worker)

  datatype Reading = Nothing | Found(record: Record) | Corrupt

  predicate Expired(n: Name, now: int) {
    n.record.expiresAt + LEASE_SKEW_MS <= now
  }

  function Validated(file: Option<File>, located: Name): Reading {
    if file.None? then Nothing
    else if file.value.Whole? && NameOf(file.value.record) == located then Found(file.value.record)
    else Corrupt
  }

  /** The record of the generation that the listing showed. */
  function ReadRecord(ns: Namespace, located: Option<Name>): Reading {
    if located.None? || At(ns, located.value).None? then Nothing
    else Validated(At(ns, located.value).value.record, located.value)
  }

  function ReadTombstone(ns: Namespace, located: Option<Name>): Reading {
    if located.None? || At(ns, located.value).None? then Nothing
    else Validated(At(ns, located.value).value.tombstone, located.value)
  }

  /** Goes on if the file system agrees, and otherwise stops. */
  function OrStop(ns: Namespace, next: Option<Namespace>, worker: Worker): Effect {
    if next.Some? then Effect(next.value, worker) else Effect(ns, Idle)
  }

  function OrElse(ns: Namespace, next: Option<Namespace>, worker: Worker, otherwise: Worker): Effect {
    if next.Some? then Effect(next.value, worker) else Effect(ns, otherwise)
  }

  /** A failed admission candidate is thrown away; a scope's is left to expire. */
  function GiveUp(kind: Kind, n: Name): Worker {
    if kind.Admission? then Reclaiming(n, MoveAway) else Idle
  }

  function ActPublishing(kind: Kind, ns: Namespace, r: Record, at: PublishPoint): Effect {
    var n := NameOf(r);
    var failed := GiveUp(kind, n);
    match at
    case MakeCandidate => OrElse(ns, CreateCandidate(ns, n), Publishing(r, MakeGeneration), failed)
    case MakeGeneration => OrElse(ns, CreateGeneration(ns, n), Publishing(r, OpenRecordFile), failed)
    case OpenRecordFile => OrElse(ns, OpenRecord(ns, n), Publishing(r, WriteRecordFile), failed)
    case WriteRecordFile =>
      Effect(WriteRecord(ns, n), Publishing(r, if kind.Scope? then CheckRecord else RenameCandidate))
    case CheckRecord =>
      if n in ns.candidates && n in ns.candidates[n] && ns.candidates[n][n].record == Some(Whole(r)) then
        Effect(ns, Publishing(r, RenameCandidate))
      else Effect(ns, Idle)
    case RenameCandidate => OrElse(ns, Publish(ns, n), Held(r), failed)
  }

  function ActReclaiming(ns: Namespace, n: Name, at: ReclaimPoint): Effect {
    match at
    case MoveAway => OrStop(ns, MoveToQuarantine(ns, n), Reclaiming(n, LookAtRecord))
    case LookAtRecord =>
      var present := n in ns.quarantines && n in ns.quarantines[n] && ns.quarantines[n][n].record.Some?;
      Effect(ns, Reclaiming(n, if present then DropRecord else LookAtGeneration))
    case DropRecord => OrStop(ns, RemoveQuarantinedRecord(ns, n), Reclaiming(n, LookAtGeneration))
    case LookAtGeneration =>
      var present := n in ns.quarantines && n in ns.quarantines[n];
      Effect(ns, Reclaiming(n, if present then DropGeneration else DropQuarantine))
    case DropGeneration => OrStop(ns, RemoveQuarantinedGeneration(ns, n), Reclaiming(n, DropQuarantine))
    case DropQuarantine => OrStop(ns, RemoveQuarantine(ns, n), Idle)
  }

  /** Recovery before an admission election. */
  function ActResolving(ns: Namespace, now: int, at: ResolvePoint, located: Option<Name>): Effect {
    match at
    case ReadHolder =>
      (match ReadRecord(ns, located)
       case Nothing => Effect(ns, Resolving(ReadRetired(None)))
       case Found(r) => Effect(ns, Resolving(ReadRetired(Some(r))))
       case Corrupt => Effect(ns, Idle))
    case ReadRetired(holder) =>
      (match ReadTombstone(ns, located)
       case Nothing => Effect(ns, Resolving(if holder.Some? then SeekMarker(holder, None) else SeekEmpty))
       case Found(r) =>
         if holder.Some? && holder.value != r then Effect(ns, Idle)
         else Effect(ns, Resolving(SeekMarker(holder, Some(r))))
       case Corrupt => Effect(ns, Idle))
    case SeekMarker(holder, retired) =>
      var target := if holder.Some? then holder else retired;
      if target.Some? && HasMarker(ns, NameOf(target.value)) then Effect(ns, Cleaning(target.value, ConfirmMarker))
      else Effect(ns, Resolving(Elect(holder, retired)))
    case SeekEmpty =>
      if located.Some? && At(ns, located.value).Some? then
        var g := At(ns, located.value).value;
        if g.marker then Effect(ns, Cleaning(located.value.record, UnlinkMarker))
        else if g == BARE then Effect(ns, Cleaning(located.value.record, UnlinkGeneration))
        else Effect(ns, Resolving(Elect(None, None)))
      else Effect(ns, Resolving(Elect(None, None)))
    case Elect(holder, retired) =>
      var target := if holder.Some? then holder else retired;
      if target.None? then OrStop(ns, RemoveClaim(ns), Idle)
      else if retired.None? && !Expired(NameOf(target.value), now) then Effect(ns, Idle)
      else OrElse(ns, CreateMarker(ns, NameOf(target.value)), Cleaning(target.value, ConfirmMarker), Resolving(SeekElected(target.value)))
    case SeekElected(expected) =>
      if HasMarker(ns, NameOf(expected)) then Effect(ns, Cleaning(expected, ConfirmMarker)) else Effect(ns, Idle)
  }

  /** An owner retires its admission: it reads its own record back, then elects the marker. */
  function ActRetiring(ns: Namespace, r: Record, marking: Option<bool>, located: Option<Name>): Effect {
    match marking
    case None => if ReadRecord(ns, located) == Found(r) then Effect(ns, Retiring(r, Some(false))) else Effect(ns, Idle)
    case Some(false) => if HasMarker(ns, NameOf(r)) then Effect(ns, Cleaning(r, ConfirmMarker)) else Effect(ns, Retiring(r, Some(true)))
    case Some(true) => OrStop(ns, CreateMarker(ns, NameOf(r)), Cleaning(r, ConfirmMarker))
  }

  /** A helper finishes the retirement of an admission record. */
  function ActCleaning(ns: Namespace, r: Record, at: CleanPoint, located: Option<Name>): Effect {
    var n := NameOf(r);
    match at
    case ConfirmMarker => if HasMarker(ns, n) then Effect(ns, Cleaning(r, RereadHolder)) else Effect(ns, Idle)
    case RereadHolder =>
      (match ReadRecord(ns, located)
       case Nothing => Effect(ns, Cleaning(r, RereadRetired(false)))
       case Found(holder) => if holder == r then Effect(ns, Cleaning(r, RereadRetired(true))) else Effect(ns, Idle)
       case Corrupt => Effect(ns, Idle))
    case RereadRetired(held) =>
      (match ReadTombstone(ns, located)
       case Nothing => Effect(ns, Cleaning(r, if held then LinkRecord else LookAtTombstone))
       case Found(retired) =>
         if retired == r then Effect(ns, Cleaning(r, if held then UnlinkRecord else LookAtTombstone)) else Effect(ns, Idle)
       case Corrupt => Effect(ns, Idle))
    case LinkRecord => OrElse(ns, LinkTombstone(ns, n), Cleaning(r, UnlinkRecord), Cleaning(r, LinkFailed))
    case LinkFailed =>
      var holder := ReadRecord(ns, located);
      if ReadTombstone(ns, located) == Found(r) && (holder.Nothing? || holder == Found(r)) then Effect(ns, Cleaning(r, ConfirmMarker))
      else Effect(ns, Idle)
    case UnlinkRecord => OrStop(ns, RemoveRecord(ns, n), Cleaning(r, LookAtTombstone))
    case LookAtTombstone => Effect(ns, Cleaning(r, if HasTombstone(ns, n) then UnlinkTombstone else UnlinkMarker))
    case UnlinkTombstone => OrStop(ns, RemoveTombstone(ns, n), Cleaning(r, UnlinkMarker))
    case UnlinkMarker =>
      if HasMarker(ns, n) then OrStop(ns, RemoveMarker(ns, n), Cleaning(r, UnlinkGeneration)) else Effect(ns, Cleaning(r, UnlinkGeneration))
    case UnlinkGeneration => OrStop(ns, RemoveGeneration(ns, n), Cleaning(r, UnlinkClaim))
    case UnlinkClaim => OrStop(ns, RemoveClaim(ns), Idle)
  }

  /** Releasing or recovering a scope's claim. */
  function ActReleasing(ns: Namespace, now: int, r: Record, at: ReleasePoint, recovering: bool, located: Option<Name>): Effect {
    var n := NameOf(r);
    match at
    case SeekPending =>
      if located.Some? && HasMarker(ns, located.value) then Effect(ns, Helping(located.value, ConfirmScopeMarker))
      else Effect(ns, Releasing(r, LookForEmpty, recovering))
    case LookForEmpty =>
      if At(ns, n) == Some(BARE) then Effect(ns, Helping(n, RemoveGenerationDirectory))
      else Effect(ns, Releasing(r, ReadCurrent, recovering))
    case ReadCurrent =>
      if ReadRecord(ns, located) != Found(r) || (recovering && !Expired(n, now)) then Effect(ns, Idle)
      else Effect(ns, Releasing(r, VerifyRecord, recovering))
    case VerifyRecord =>
      if At(ns, n).Some? && At(ns, n).value.record == Some(Whole(r)) then Effect(ns, Releasing(r, MarkRecord, recovering))
      else Effect(ns, Idle)
    case MarkRecord => OrStop(ns, CreateMarker(ns, n), Helping(n, ConfirmScopeMarker))
  }

  /** A helper finishes the cleanup of a marked scope generation. */
  function ActHelping(ns: Namespace, n: Name, at: ScopePoint, located: Option<Name>): Effect {
    match at
    case ConfirmScopeMarker =>
      if located == Some(n) && HasMarker(ns, n) then Effect(ns, Helping(n, InspectRecord)) else Effect(ns, Idle)
    case InspectRecord =>
      if !HasRecord(ns, n) then Effect(ns, Helping(n, RemoveMarkerDirectory))
      else if At(ns, n).value.record == Some(Whole(n.record)) then Effect(ns, Helping(n, RemoveRecordFile))
      else Effect(ns, Idle)
    case RemoveRecordFile => OrStop(ns, RemoveRecord(ns, n), Helping(n, RemoveMarkerDirectory))
    case RemoveMarkerDirectory =>
      if HasMarker(ns, n) then OrStop(ns, RemoveMarker(ns, n), Helping(n, InspectGeneration)) else Effect(ns, Helping(n, InspectGeneration))
    case InspectGeneration => Effect(ns, if At(ns, n).Some? then Helping(n, RemoveGenerationDirectory) else Idle)
    case RemoveGenerationDirectory => OrStop(ns, RemoveGeneration(ns, n), Helping(n, RemoveClaimDirectory))
    case RemoveClaimDirectory => OrStop(ns, RemoveClaim(ns), Idle)
  }

  /** The worker's next step; `located` is what a listing of the claim directory shows it. */
  function Act(kind: Kind, ns: Namespace, now: int, worker: Worker, located: Option<Name>): Effect {
    match worker
    case Idle => Effect(ns, Idle)
    case Held(_) => Effect(ns, worker)
    case Publishing(r, at) => ActPublishing(kind, ns, r, at)
    case Reclaiming(n, at) => ActReclaiming(ns, n, at)
    case Resolving(at) => ActResolving(ns, now, at, located)
    case Retiring(r, marking) => ActRetiring(ns, r, marking, located)
    case Cleaning(r, at) => ActCleaning(ns, r, at, located)
    case Releasing(r, at, recovering) => ActReleasing(ns, now, r, at, recovering, located)
    case Helping(n, at) => ActHelping(ns, n, at, located)
    case Pending =>
      if located.Some? && HasMarker(ns, located.value) then Effect(ns, Helping(located.value, ConfirmScopeMarker)) else Effect(ns, Idle)
  }

  /** `used` holds the names of all publication attempts: claim identifiers are
      fresh. `released` holds the claims whose owner has asked for their end. */
  datatype World = World(kind: Kind, ns: Namespace, workers: seq<Worker>, now: int, used: set<Name>, released: set<Name>)

  datatype Choice =
    | Tick(now: int)
    | Begin(worker: nat, job: Worker)
    | Halt(worker: nat)
    | Fail(worker: nat)
    | Go(worker: nat, located: Option<Name>)

  /** What a worker that is doing nothing, or that holds a claim, can take up. */
  predicate CanBegin(w: World, idle: Worker, job: Worker) {
    match job
    case Publishing(r, at) => idle.Idle? && at.MakeCandidate? && NameOf(r) !in w.used
    case Reclaiming(n, at) => idle.Idle? && (at.MoveAway? || at.LookAtRecord?) && Expired(n, w.now)
    case Resolving(at) => idle.Idle? && w.kind.Admission? && at.ReadHolder?
    case Retiring(r, marking) => idle == Held(r) && w.kind.Admission? && marking.None?
    case Releasing(r, at, recovering) => w.kind.Scope? && at.SeekPending? && (if recovering then idle.Idle? else idle == Held(r))
    case Pending => idle.Idle? && w.kind.Scope?
    case _ => false
  }

  predicate Possible(w: World, choice: Choice) {
    match choice
    case Tick(now) => w.now <= now
    case Begin(i, job) => i < |w.workers| && CanBegin(w, w.workers[i], job)
    case Halt(i) => i < |w.workers|
    case Fail(i) => i < |w.workers| && w.workers[i].Publishing?
    case Go(i, located) => i < |w.workers| && Lists(w.ns, located)
  }

  function Begun(w: World, i: nat, job: Worker): World
    requires i < |w.workers|
  {
    var started := w.(workers := w.workers[i := job]);
    match job
    case Publishing(r, _) => started.(used := w.used + {NameOf(r)})
    case Retiring(r, _) => started.(released := w.released + {NameOf(r)})
    case Releasing(r, _, recovering) => if recovering then started else started.(released := w.released + {NameOf(r)})
    case _ => started
  }

  function After(w: World, choice: Choice): World
    requires Possible(w, choice)
  {
    match choice
    case Tick(now) => w.(now := now)
    case Begin(i, job) => Begun(w, i, job)
    case Halt(i) => w.(workers := w.workers[i := Idle])
    case Fail(i) => w.(workers := w.workers[i := GiveUp(w.kind, NameOf(w.workers[i].record))])
    case Go(i, located) =>
      var effect := Act(w.kind, w.ns, w.now, w.workers[i], located);
      w.(ns := effect.ns, workers := w.workers[i := effect.worker])
  }

  predicate Starts(w: World) {
    w.ns == VACANT && w.used == {} && w.released == {} && forall i | 0 <= i < |w.workers| :: w.workers[i].Idle?
  }

  ghost predicate StepAt(run: seq<World>, i: nat)
    requires i < |run| - 1
  {
    exists choice :: Possible(run[i], choice) && run[i + 1] == After(run[i], choice)
  }

  /** Any interleaving of any number of workers. */
  ghost predicate IsRun(run: seq<World>) {
    && run != [] && Starts(run[0])
    && forall i {:trigger StepAt(run, i)} | 0 <= i < |run| - 1 :: StepAt(run, i)
  }
}
