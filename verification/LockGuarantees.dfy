/** What the lock promises over every run: exclusion, single consumption of
    candidates, and helpers that only ever move a retirement forward. */
module LockGuarantees {
  import opened Options
  import opened LockNamespace
  import opened LockWorkers
  import opened LockSafety

  function Acted(w: World, choice: Choice): Option<Name>
    requires Possible(w, choice)
  {
    if choice.Go? then OwnName(w.workers[choice.worker]) else None
  }

  lemma StepEvolves(w: World, choice: Choice)
    requires Safe(w) && Possible(w, choice)
    ensures Evolves(w, After(w, choice).ns, Acted(w, choice)) && After(w, choice).kind == w.kind
  {
    if choice.Go? {
      ActKeeps(w, w.workers[choice.worker], choice.located);
    } else {
      NothingEvolves(w, None);
    }
  }

  /** 0: the record alone; 1: record and tombstone; 2: the tombstone alone; 3: neither. */
  function Stage(ns: Namespace, n: Name): nat {
    if HasRecord(ns, n) then if HasTombstone(ns, n) then 1 else 0
    else if HasTombstone(ns, n) then 2 else 3
  }

  /** One step of anyone moves the retirement of an admission by at most one stage, forward. */
  lemma StageStep(w: World, choice: Choice, n: Name)
    requires Safe(w) && Possible(w, choice) && w.kind.Admission? && Published(w.ns, n)
    ensures Published(After(w, choice).ns, n)
    ensures Stage(w.ns, n) <= Stage(After(w, choice).ns, n) <= Stage(w.ns, n) + 1
  {
    StepEvolves(w, choice);
    assert RecordEvolves(w.kind, w.ns, After(w, choice).ns, n);
  }

  /** The step from one moment of a run to the next. */
  lemma RunStep(run: seq<World>, i: nat) returns (choice: Choice)
    requires IsRun(run) && i < |run| - 1
    ensures Safe(run[i]) && Possible(run[i], choice) && run[i + 1] == After(run[i], choice)
    ensures run[i + 1].kind == run[i].kind && run[i].ns.renames <= run[i + 1].ns.renames
  {
    RunIsSafe(run, i);
    assert StepAt(run, i);
    choice :| Possible(run[i], choice) && run[i + 1] == After(run[i], choice);
    StepEvolves(run[i], choice);
  }

  lemma NextStage(run: seq<World>, i: nat, n: Name)
    requires IsRun(run) && i < |run| - 1 && run[i].kind.Admission? && Published(run[i].ns, n)
    ensures run[i + 1].kind.Admission? && Published(run[i + 1].ns, n)
    ensures Stage(run[i].ns, n) <= Stage(run[i + 1].ns, n)
  {
    var choice := RunStep(run, i);
    StageStep(run[i], choice, n);
  }

  /** Retirements never go back, whoever helps and whoever crashes. */
  lemma {:induction false} ForwardOnly(run: seq<World>, i: nat, j: nat, n: Name)
    requires IsRun(run) && i <= j < |run| && run[i].kind.Admission? && Published(run[i].ns, n)
    ensures run[j].kind.Admission? && Published(run[j].ns, n) && Stage(run[i].ns, n) <= Stage(run[j].ns, n)
  {
    if i < j {
      ForwardOnly(run, i, j - 1, n);
      NextStage(run, j - 1, n);
    }
  }

  /** A published record goes only behind its tombstone (admission) or marker (scope),
      which names the same claim and stands before and after; and it never comes back. */
  lemma RecordLeavesBehindGuard(w: World, choice: Choice, n: Name)
    requires Safe(w) && Possible(w, choice) && Published(w.ns, n)
    ensures HasRecord(w.ns, n) && !HasRecord(After(w, choice).ns, n) ==>
      && Guarded(w.kind, w.ns, n) && Guarded(w.kind, After(w, choice).ns, n)
      && (n in w.released || w.now >= n.record.expiresAt + 5_000)
    ensures !HasRecord(w.ns, n) ==> !HasRecord(After(w, choice).ns, n)
  {
    StepEvolves(w, choice);
    assert RecordEvolves(w.kind, w.ns, After(w, choice).ns, n);
    if HasRecord(w.ns, n) && Guarded(w.kind, w.ns, n) {
      EndingMayEnd(w, n);
    }
  }

  /** What this worker's next step is about. */
  function Target(worker: Worker): Option<Name> {
    match worker
    case Publishing(r, _) => Some(NameOf(r))
    case Reclaiming(n, _) => Some(n)
    case Resolving(Elect(holder, retired)) =>
      if holder.Some? then Some(NameOf(holder.value)) else if retired.Some? then Some(NameOf(retired.value)) else None
    case Retiring(r, _) => Some(NameOf(r))
    case Cleaning(r, _) => Some(NameOf(r))
    case Releasing(r, _, _) => Some(NameOf(r))
    case Helping(n, _) => Some(n)
    case _ => None
  }

  predicate SameFor(a: Namespace, b: Namespace, n: Name) {
    && At(a, n) == At(b, n)
    && (n in a.candidates <==> n in b.candidates)
    && (n in a.candidates ==> n in b.candidates && a.candidates[n] == b.candidates[n])
    && (n in a.quarantines <==> n in b.quarantines)
    && (n in a.quarantines ==> n in b.quarantines && a.quarantines[n] == b.quarantines[n])
  }

  /** The namespaces agree on everything about every claim but one. */
  ghost predicate OnlyFor(a: Namespace, b: Namespace, target: Option<Name>) {
    && (forall n | target != Some(n) :: SameFor(a, b, n))
    && (a.claim.Some? && b.claim.None? ==> a.claim.value == map[])
  }

  lemma PublishingTouches(w: World, r: Record, at: PublishPoint)
    requires NamespaceOk(w) && Knows(w, Publishing(r, at))
    ensures OnlyFor(w.ns, ActPublishing(w.kind, w.ns, r, at).ns, Some(NameOf(r)))
  {
  }

  lemma CleaningTouches(ns: Namespace, r: Record, at: CleanPoint, located: Option<Name>)
    ensures OnlyFor(ns, ActCleaning(ns, r, at, located).ns, Some(NameOf(r)))
  {
  }

  lemma HelpingTouches(ns: Namespace, n: Name, at: ScopePoint, located: Option<Name>)
    ensures OnlyFor(ns, ActHelping(ns, n, at, located).ns, Some(n))
  {
  }

  lemma ResolvingTouches(ns: Namespace, now: int, at: ResolvePoint, located: Option<Name>)
    ensures OnlyFor(ns, ActResolving(ns, now, at, located).ns, Target(Resolving(at)))
  {
    if at.Elect? {
      var target := if at.holder.Some? then at.holder else at.retired;
    }
  }

  lemma OtherTouches(w: World, worker: Worker, located: Option<Name>)
    requires worker.Reclaiming? || worker.Retiring? || worker.Releasing?
    ensures OnlyFor(w.ns, Act(w.kind, w.ns, w.now, worker, located).ns, Target(worker))
  {
  }

  /** A worker's step leaves everything of every other claim alone, and removes the
      claim directory only when it is empty. */
  lemma ActTouchesOnlyTarget(w: World, worker: Worker, located: Option<Name>)
    requires NamespaceOk(w) && Knows(w, worker)
    ensures OnlyFor(w.ns, Act(w.kind, w.ns, w.now, worker, located).ns, Target(worker))
  {
    match worker {
      case Publishing(r, at) => PublishingTouches(w, r, at);
      case Cleaning(r, at) => CleaningTouches(w.ns, r, at, located);
      case Helping(n, at) => HelpingTouches(w.ns, n, at, located);
      case Resolving(at) => ResolvingTouches(w.ns, w.now, at, located);
      case Reclaiming(_, _) => OtherTouches(w, worker, located);
      case Retiring(_, _) => OtherTouches(w, worker, located);
      case Releasing(_, _, _) => OtherTouches(w, worker, located);
      case _ =>
    }
  }

  /** A claim appears only by its owner's rename of the complete candidate, into a
      place where there is no claim directory. */
  lemma PublishedComplete(w: World, choice: Choice, n: Name)
    requires Safe(w) && Possible(w, choice) && !Published(w.ns, n) && Published(After(w, choice).ns, n)
    ensures choice.Go? && w.workers[choice.worker] == Publishing(n.record, RenameCandidate)
    ensures n in w.ns.candidates && w.ns.claim.None?
    ensures After(w, choice).ns.claim == Some(map[n := BARE.(record := Some(Whole(n.record)))])
    ensures n !in After(w, choice).ns.candidates
  {
    StepEvolves(w, choice);
    assert forall m | Acted(w, choice) != Some(m) :: CandidateEvolves(w.ns, After(w, choice).ns, m);
    var worker := w.workers[choice.worker];
    assert Knows(w, worker);
  }

  /** Each candidate is moved by at most one rename in the whole run, to the claim or
      to quarantine, and what has been recorded stays recorded. */
  lemma {:induction false} ConsumedOnce(run: seq<World>, i: nat, j: nat)
    requires IsRun(run) && i <= j < |run|
    ensures run[i].ns.renames <= run[j].ns.renames && DistinctNames(run[j].ns.renames)
    ensures forall n | n in run[j].ns.candidates :: !Consumed(run[j].ns, n)
  {
    RunIsSafe(run, j);
    if i < j {
      ConsumedOnce(run, i, j - 1);
      var choice := RunStep(run, j - 1);
    }
  }

  /** At any time at most one generation is published, with the record that its name digests. */
  lemma AtMostOneGeneration(run: seq<World>, i: nat, a: Name, b: Name)
    requires IsRun(run) && i < |run|
    ensures At(run[i].ns, a).Some? && At(run[i].ns, b).Some? ==> a == b
    ensures At(run[i].ns, a).Some? ==> Published(run[i].ns, a) && GenerationOk(At(run[i].ns, a).value, a)
  {
    RunIsSafe(run, i);
  }

  /** A published claim whose owner has not let it go stands, alone and intact, until
      five seconds after it has expired. */
  lemma ClaimStands(run: seq<World>, i: nat, n: Name)
    requires IsRun(run) && i < |run| && Published(run[i].ns, n)
    requires n !in run[i].released && run[i].now < n.record.expiresAt + 5_000
    ensures run[i].ns.claim == Some(map[n := BARE.(record := Some(Whole(n.record)))])
  {
    RunIsSafe(run, i);
    var w := run[i];
    assert !Ending(w.ns, n);
    assert w.ns.claim.value.Keys == {n};
    assert w.ns.claim.value == map[n := w.ns.claim.value[n]];
  }

  /** No two workers hold the lock at once, unless one of the claims has been let go or
      expired five seconds ago. */
  lemma MutualExclusion(run: seq<World>, k: nat, i: nat, j: nat)
    requires IsRun(run) && k < |run| && i < |run[k].workers| && j < |run[k].workers|
    requires run[k].workers[i].Held? && run[k].workers[j].Held?
    requires NameOf(run[k].workers[i].record) !in run[k].released && NameOf(run[k].workers[j].record) !in run[k].released
    requires run[k].now < run[k].workers[i].record.expiresAt + 5_000 && run[k].now < run[k].workers[j].record.expiresAt + 5_000
    ensures i == j
  {
    var w := run[k];
    RunIsSafe(run, k);
    assert Knows(w, w.workers[i]) && Knows(w, w.workers[j]);
    ClaimStands(run, k, NameOf(w.workers[i].record));
    ClaimStands(run, k, NameOf(w.workers[j].record));
    assert OwnName(w.workers[i]) == OwnName(w.workers[j]);
  }

  /** Only the worker that holds a claim lets it go, and nothing takes that back. */
  lemma LetGoByOwner(w: World, choice: Choice, n: Name)
    requires Possible(w, choice)
    ensures n in w.released ==> n in After(w, choice).released
    ensures n !in w.released && n in After(w, choice).released ==>
      choice.Begin? && w.workers[choice.worker].Held? && NameOf(w.workers[choice.worker].record) == n
  {
  }

  /** Candidates are taken away from the fifth second after their expiry on, no earlier. */
  lemma ReclaimedAfterExpiry(w: World, i: nat, n: Name)
    requires i < |w.workers|
    ensures Possible(w, Begin(i, Reclaiming(n, MoveAway))) <==> w.workers[i].Idle? && w.now >= n.record.expiresAt + 5_000
  {
  }
}
