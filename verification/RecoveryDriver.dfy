/** `driveRecovery` and `recoverWithoutManifest`. */
module RecoveryDriver {
  import opened Options
  import opened Plans
  import opened Recovery
  import opened Layouts
  import opened Traces
  import opened DurableStore
  import opened Conduct
  import opened Execution

  /** Every destination was seen as the observation says, and nothing has landed since. */
  ghost predicate Witnessed(trace: seq<Moment>, ops: seq<Operation>, obs: Observation) {
    forall i | 0 <= i < |ops| ::
      ops[i].path in obs.destinations && Confirmed(trace, ops[i].path, {obs.destinations[ops[i].path]})
  }

  lemma WitnessedNext(before: seq<Moment>, ops: seq<Operation>, i: nat, found: Fingerprint, destinations: map<Path, Fingerprint>)
    requires DistinctPaths(ops) && i < |ops|
    requires forall j | 0 <= j < i :: ops[j].path in destinations && Confirmed(before, ops[j].path, {destinations[ops[j].path]})
    ensures
      var next := destinations[ops[i].path := found];
      forall j | 0 <= j < i + 1 :: ops[j].path in next && Confirmed(before + [Looked(ops[i].path, found)], ops[j].path, {next[ops[j].path]})
  {
    AfterMoment(before, Looked(ops[i].path, found));
    Extend(before, Looked(ops[i].path, found));
  }

  /** `observeTransaction`. */
  method ObserveTransaction(s: Store, id: TxId, ops: seq<Operation>) returns (obs: Observation)
    requires id in s.disk.transactions && DistinctPaths(ops)
    modifies s`disk, s`trace
    ensures s.disk.transactions == old(s.disk.transactions)
    ensures s.quiet ==> s.disk == old(s.disk)
    ensures OnlyLooks(old(s.trace), s.trace)
    ensures Witnessed(s.trace, ops, obs)
    ensures obs.staged == if s.disk.transactions[id].staging.Some? then s.disk.transactions[id].staging.value else map[]
    ensures s.quiet ==> obs == Observed(s.disk.tree, s.disk.transactions[id], ops)
  {
    var destinations: map<Path, Fingerprint> := map[];
    for i := 0 to |ops|
      invariant s.disk.transactions == old(s.disk.transactions)
      invariant s.quiet ==> s.disk == old(s.disk)
      invariant OnlyLooks(old(s.trace), s.trace)
      invariant destinations.Keys == set op | op in ops[..i] :: op.path
      invariant s.quiet ==> forall path | path in destinations :: destinations[path] == At(s.disk.tree, path)
      invariant forall j | 0 <= j < i :: ops[j].path in destinations && Confirmed(s.trace, ops[j].path, {destinations[ops[j].path]})
    {
      ghost var before := s.trace;
      var found := s.Look(ops[i].path);
      WitnessedNext(before, ops, i, found, destinations);
      destinations := destinations[ops[i].path := found];
      assert ops[..i + 1] == ops[..i] + [ops[i]];
    }
    assert ops[..|ops|] == ops;
    var staging := s.disk.transactions[id].staging;
    obs := Observation(destinations, if staging.Some? then staging.value else map[]);
  }

  /** The state in which the recovery loop runs. */
  ghost predicate Recovering(s: Store, id: TxId, ops: seq<Operation>, fence: seq<Artifact>, p: Progress, authority: seq<Artifact>)
    reads s
  {
    && Sound(s, id, ops, fence) && FenceOf(fence, ops)
    && var d := s.disk.transactions[id];
    && d.progress.Some? && SameButSync(d.progress.value, p) && Bound(d, p, ops) && Remembers(d.progress.value, p)
    && (p.phase.Publishing? ==> authority == Authority(ops))
  }

  /** Recovery cannot go on: the next operation is neither on record nor published,
      and its parent is not ready. */
  ghost predicate NoParent(s: Store, id: TxId, ops: seq<Operation>)
    reads s
  {
    && id in s.disk.transactions && InPublishing(s.disk.transactions[id])
    && |s.disk.transactions[id].progress.value.published| == s.landed < |ops| && !ParentReady(s.base, ops, s.landed)
  }

  /** Recovery may stop short only by dying, by meeting other writers' changes, or
      at an operation whose parent directory nobody creates. */
  ghost predicate Stuck(s: Store, id: TxId, ops: seq<Operation>, stop: Outcome)
    reads s
  {
    !stop.Receipt? && (stop.Refused? && s.quiet ==> stop.reason.StateCorrupt? && NoParent(s, id, ops))
  }

  /** `record_published`: an operation found at its result joins the record. */
  method RecordPublishedOperation(s: Store, id: TxId, ops: seq<Operation>, p: Progress, ghost fence: seq<Artifact>, ghost authority: seq<Artifact>) returns (alive: bool, next: Progress)
    requires Recovering(s, id, ops, fence, p, authority) && p.phase.Publishing? && |p.published| < |ops|
    requires s.quiet ==> s.landed == |p.published| + 1
    modifies s`disk, s`budget, s`trace, s`unsupported
    ensures Recovering(s, id, ops, fence, if alive then next else p, authority)
    ensures Others(s.disk, id) == Others(old(s.disk), id)
    ensures alive ==> SameButSync(next, p.(published := p.published + [ops[|p.published|].operationId]))
    ensures alive ==> s.trace == old(s.trace) + [Recorded(Publishing)]
    ensures Paid(old(s.budget), s.budget, 4, alive)
    ensures alive ==> Synced(p.directorySync, next.directorySync, old(s.unsupported), s.unsupported)
    ensures old(s.unsupported) <= s.unsupported
    ensures !alive ==> s.disk.transactions[id].progress == old(s.disk).transactions[id].progress
  {
    var recorded := p.(published := p.published + [ops[|p.published|].operationId]);
    AfterMoment(s.trace, Recorded(Publishing));
    assert s.quiet ==> recorded.published == Ids(|p.published| + 1);
    alive, next := Advance(s, id, ops, recorded, fence);
  }

  /** The authority check keeps every look at the destination acceptable. */
  lemma StillPublishable(before: seq<Moment>, after: seq<Moment>, ops: seq<Operation>, i: nat)
    requires ValidPlan(ops) && i < |ops|
    requires LastSeen(before, ops[i].path) == Some(ops[i].expected)
    requires
      (forall w | w in WantsOfFence(Authority(ops)) :: w.path != ops[i].path)
        ==> LastSeen(after, ops[i].path) == LastSeen(before, ops[i].path)
    requires
      (exists w | w in WantsOfFence(Authority(ops)) :: w.path == ops[i].path)
        ==> LastSeenAmong(after, WantsOfFence(Authority(ops)), ops[i].path)
    ensures LastSeenPublishable(after, ops, ops[i])
  {
    var wants := WantsOfFence(Authority(ops));
    if w :| w in wants && w.path == ops[i].path {
      var seen :| seen in wants && seen.path == ops[i].path && LastSeen(after, ops[i].path).Some? && LastSeen(after, ops[i].path).value in seen.allowed;
      var k :| 0 <= k < |wants| && wants[k] == seen;
      assert Authority(ops)[k] == ArtifactOf(ops[k]) && ops[k].path == ops[i].path;
      assert k == i;
      assert ArtifactOf(ops[i]) in Authority(ops);
    }
  }

  /** The looks of the `publish` case, in order: parent, destination, authority.
      `found` tells that another process already published the operation. */
  method CheckNextInRecovery(s: Store, ops: seq<Operation>, count: nat, authority: seq<Artifact>, ghost fence: seq<Artifact>) returns (stop: Option<Outcome>, found: bool)
    requires ValidPlan(ops) && count < |ops| && FenceOf(fence, ops) && authority == Authority(ops)
    requires Disciplined(s.trace, ops, fence)
    requires s.quiet ==> s.landed == count && AllExpected(s.base, ops) && s.disk.tree == Applied(s.base, ops, count)
    modifies s`disk, s`trace
    ensures s.disk.transactions == old(s.disk.transactions) && (s.quiet ==> s.disk == old(s.disk))
    ensures OnlyLooks(old(s.trace), s.trace)
    ensures stop.Some? ==> stop.value.Refused? && (s.quiet ==> stop.value.reason.StateCorrupt? && !ParentReady(s.base, ops, count))
    ensures stop.None? && !found ==> MayFollow(s.trace, Landed(count + 1), ops, fence)
    ensures s.quiet && stop.None? ==> !found && ParentReady(s.base, ops, count)
    ensures s.quiet && stop.None? ==> At(s.disk.tree, Parent(ops[count].path)).Directory? && At(s.disk.tree, ops[count].path) == ops[count].expected
  {
    if s.quiet {
      ParentReadyExact(s.base, ops, count);
      AppliedDestinations(s.base, ops, count);
      assert WellShaped(ops[count]);
    }
    found := false;
    var parent := s.Look(Parent(ops[count].path));
    if !parent.Directory? {
      return Some(Refused(StateCorrupt)), found;
    }
    var target := s.Look(ops[count].path);
    Extend(old(s.trace) + [Looked(Parent(ops[count].path), parent)], Looked(ops[count].path, target));
    if target == ops[count].result {
      return None, true;
    }
    if target != ops[count].expected {
      return Some(Refused(StateCorrupt)), found;
    }
    ghost var before := s.trace;
    var met := CheckAll(s, WantsOfFence(authority));
    if !met {
      return Some(Refused(LeaseConflict)), found;
    }
    StillPublishable(before, s.trace, ops, count);
    forall i | 0 <= i < |authority| ensures Held(s.trace, authority[i]) {
      assert WantsOfFence(authority)[i] in WantsOfFence(authority);
    }
    stop := None;
  }

  /** `publishPersistedOperation`. */
  method LandNext(s: Store, id: TxId, ops: seq<Operation>, count: nat, ghost fence: seq<Artifact>) returns (stop: Option<Outcome>)
    requires Sound(s, id, ops, fence) && count < |ops| && MayFollow(s.trace, Landed(count + 1), ops, fence)
    requires s.disk.transactions[id].progress.Some? && s.disk.transactions[id].progress.value.phase.Publishing?
    requires |s.disk.transactions[id].progress.value.published| == count
    requires s.quiet ==> s.landed == count && Publishable(s.disk, id, ops[count]) && ParentReady(s.base, ops, count)
    modifies s`disk, s`budget, s`trace, s`landed
    ensures Sound(s, id, ops, fence)
    ensures s.disk.transactions[id] == old(s.disk).transactions[id].(staging := s.disk.transactions[id].staging)
    ensures Others(s.disk, id) == Others(old(s.disk), id)
    ensures stop.Some? ==> stop.value.Died? || (stop.value.Refused? && !s.quiet)
    ensures stop.None? && s.quiet ==> s.landed == count + 1
    ensures Paid(old(s.budget), s.budget, 1, stop != Some(Died))
  {
    assert WellShaped(ops[count]) && ops[count].operationId == count + 1;
    ghost var d, trace := s.disk.transactions[id], s.trace;
    DisciplinedExtend(trace, Landed(count + 1), ops, fence);
    if s.quiet {
      LandedTree(s.disk, id, ops, s.base, count);
    }
    var status := s.Publish(id, ops[count]);
    match status
    case Dead => stop := Some(Died);
    case Threw => stop := Some(Refused(InternalFailure));
    case Done =>
      LandedSound(s, id, ops, fence, d, count, trace);
      stop := None;
  }

  /** The look that confirms what has just landed. */
  method CheckLanded(s: Store, id: TxId, ops: seq<Operation>, ghost p: Progress, count: nat, ghost authority: seq<Artifact>, ghost fence: seq<Artifact>) returns (ok: bool)
    requires Recovering(s, id, ops, fence, p, authority) && count < |ops|
    modifies s`disk, s`trace
    ensures Recovering(s, id, ops, fence, p, authority)
    ensures s.disk.transactions == old(s.disk.transactions)
    ensures s.quiet && s.landed == count + 1 ==> ok
  {
    ghost var before := s.trace;
    if s.quiet {
      AppliedDestinations(s.base, ops, s.landed);
    }
    var result := s.Look(ops[count].path);
    AfterLooks(before, s.trace, ops, fence);
    ok := result == ops[count].result;
  }

  method LandAndCheck(s: Store, id: TxId, ops: seq<Operation>, p: Progress, ghost authority: seq<Artifact>, ghost fence: seq<Artifact>) returns (stop: Option<Outcome>, next: Progress)
    requires Recovering(s, id, ops, fence, p, authority) && p.phase.Publishing? && |p.published| < |ops|
    requires MayFollow(s.trace, Landed(|p.published| + 1), ops, fence)
    requires s.quiet ==> s.landed == |p.published| && Publishable(s.disk, id, ops[|p.published|]) && ParentReady(s.base, ops, |p.published|)
    modifies s`disk, s`budget, s`trace, s`landed, s`unsupported
    ensures Recovering(s, id, ops, fence, next, authority) && SameButSync(next, p)
    ensures Others(s.disk, id) == Others(old(s.disk), id)
    ensures stop.Some? ==> stop.value.Died? || (stop.value.Refused? && !s.quiet)
    ensures stop.None? && s.quiet ==> s.landed == |p.published| + 1
    ensures Paid(old(s.budget), s.budget, 1, stop != Some(Died))
    ensures stop.None? ==> Synced(p.directorySync, next.directorySync, old(s.unsupported), s.unsupported)
    ensures old(s.unsupported) <= s.unsupported
    ensures stop.Some? ==> next == p
    ensures s.disk.transactions[id].progress == old(s.disk).transactions[id].progress
  {
    next := p;
    stop := LandNext(s, id, ops, |p.published|, fence);
    if stop.Some? {
      return;
    }
    var observed := s.SyncDirectory();
    var ok := CheckLanded(s, id, ops, p, |p.published|, authority, fence);
    if !ok {
      return Some(Refused(StateCorrupt)), p;
    }
    next := p.(directorySync := MergeDirectorySync(p.directorySync, observed));
  }

  /** `publish`: look, land the next operation, check it, record it. */
  method PublishNext(s: Store, id: TxId, ops: seq<Operation>, p: Progress, authority: seq<Artifact>, ghost fence: seq<Artifact>) returns (stop: Option<Outcome>, next: Progress)
    requires Recovering(s, id, ops, fence, p, authority) && p.phase.Publishing? && |p.published| < |ops|
    requires s.quiet ==> s.landed == |p.published|
    requires
      var d := s.disk.transactions[id];
      Writes(ops, |p.published| + 1) ==> d.staging.Some? && |p.published| + 1 in d.staging.value
    modifies s`disk, s`budget, s`trace, s`landed, s`unsupported
    ensures Recovering(s, id, ops, fence, if stop.None? then next else p, authority)
    ensures Others(s.disk, id) == Others(old(s.disk), id)
    ensures stop.Some? ==> Stuck(s, id, ops, stop.value)
    ensures stop.None? ==> SameButSync(next, p.(published := p.published + [ops[|p.published|].operationId]))
    ensures Paid(old(s.budget), s.budget, 5, stop != Some(Died))
    ensures stop.None? ==> Synced(p.directorySync, next.directorySync, old(s.unsupported), s.unsupported)
    ensures old(s.unsupported) <= s.unsupported
  {
    next := p;
    ghost var before := s.trace;
    var found;
    stop, found := CheckNextInRecovery(s, ops, |p.published|, authority, fence);
    AfterLooks(before, s.trace, ops, fence);
    if stop.Some? {
      return;
    }
    if !found {
      assert WellShaped(ops[|p.published|]);
      stop, next := LandAndCheck(s, id, ops, p, authority, fence);
      if stop.Some? {
        return;
      }
    }
    var alive;
    alive, next := RecordPublishedOperation(s, id, ops, next, fence, authority);
    stop := if alive then None else Some(Died);
  }

  method AbortPrepared(s: Store, id: TxId, ops: seq<Operation>, p: Progress, ghost fence: seq<Artifact>, ghost authority: seq<Artifact>) returns (alive: bool, next: Progress)
    requires Recovering(s, id, ops, fence, p, authority) && p.phase.Prepared?
    modifies s`disk, s`budget, s`trace, s`unsupported
    ensures Recovering(s, id, ops, fence, if alive then next else p, authority)
    ensures Others(s.disk, id) == Others(old(s.disk), id)
    ensures alive ==> next.phase.Aborted? && next.recoveryToken == p.recoveryToken
    ensures Paid(old(s.budget), s.budget, 4, alive)
    ensures alive ==> Synced(p.directorySync, next.directorySync, old(s.unsupported), s.unsupported)
    ensures old(s.unsupported) <= s.unsupported
  {
    AfterMoment(s.trace, Recorded(Aborted));
    alive, next := Advance(s, id, ops, p.(phase := Aborted, published := []), fence);
  }

  function OperationIds(ops: seq<Operation>): (r: seq<nat>)
    ensures |r| == |ops| && forall i | 0 <= i < |r| :: r[i] == ops[i].operationId
  {
    seq(|ops|, i requires 0 <= i < |ops| => ops[i].operationId)
  }

  method CommitRecovered(s: Store, id: TxId, ops: seq<Operation>, p: Progress, ghost fence: seq<Artifact>, ghost authority: seq<Artifact>) returns (alive: bool, next: Progress)
    requires Recovering(s, id, ops, fence, p, authority) && p.phase.Publishing? && AllConfirmed(s.trace, ops)
    requires s.quiet ==> s.landed == |ops|
    modifies s`disk, s`budget, s`trace, s`unsupported
    ensures Recovering(s, id, ops, fence, if alive then next else p, authority)
    ensures Others(s.disk, id) == Others(old(s.disk), id)
    ensures alive ==> next.phase.Committed? && next.recoveryToken == p.recoveryToken
    ensures Paid(old(s.budget), s.budget, 4, alive)
    ensures alive ==> Synced(p.directorySync, next.directorySync, old(s.unsupported), s.unsupported)
    ensures old(s.unsupported) <= s.unsupported
  {
    AfterMoment(s.trace, Recorded(Committed));
    assert s.quiet ==> OperationIds(ops) == Ids(|ops|);
    assert s.quiet ==> Payloads(ops, |ops|) == map[];
    alive, next := Advance(s, id, ops, p.(phase := Committed, published := OperationIds(ops)), fence);
  }

  /** How far recovery still has to go; each turn of its loop makes this smaller. */
  function Rank(phase: Phase): nat {
    match phase
    case Begun => 3
    case Prepared => 3
    case Publishing => 2
    case Committed => 1
    case Aborted => 1
  }

  /** The durable changes that recovery makes at most from here on. */
  function Remaining(p: Progress, d: TxDir, n: nat): nat {
    match p.phase
    case Begun => 2 * n + 17
    case Prepared => 2 * n + 17
    case Publishing => (if |p.published| < n then 5 * (n - |p.published|) else 0) + 2 * n + 17
    case _ => if EmptyStaging(d) then n + 6 else 2 * n + 12
  }

  ghost predicate Closer(p: Progress, d: TxDir, next: Progress, after: TxDir, ops: seq<Operation>) {
    || Rank(next.phase) < Rank(p.phase)
    || (next.phase == p.phase && |p.published| < |next.published| <= |ops|)
    || (next.phase == p.phase && next.published == p.published && !EmptyStaging(d) && EmptyStaging(after))
  }

  /** The decision is the layout's, whatever directory sync the document in memory knows of. */
  lemma QuietDecision(s: Store, id: TxId, ops: seq<Operation>, fence: seq<Artifact>, p: Progress, authority: seq<Artifact>)
    requires Recovering(s, id, ops, fence, p, authority) && s.quiet
    ensures
      var d := s.disk.transactions[id];
      Expects(d, ops, s.landed, Decide(d.manifest.value.value, p, Observed(s.disk.tree, d, ops)))
  {
    var d := s.disk.transactions[id];
    var shown := d.(progress := Some(p));
    DecisionOfLayout(id, s.disk.tree, shown, ops, s.base, s.landed);
    assert Observed(s.disk.tree, shown, ops) == Observed(s.disk.tree, d, ops);
  }

  /** A decision to publish names the operation after the recorded ones, whose
      payload is still staged. */
  lemma PublishDecided(ops: seq<Operation>, m: Manifest, p: Progress, obs: Observation, number: nat)
    requires ValidPlan(ops) && m.operations == ops && Decide(m, p, obs) == Publish(number)
    ensures p.phase.Publishing? && |p.published| < |ops| && number == |p.published| + 1
    ensures Writes(ops, |p.published| + 1) ==> |p.published| + 1 in obs.staged
  {
    var results := LeadingResults(ops, obs);
    assert PayloadsInPlace(ops, obs, results)[results];
    assert WellShaped(ops[results]);
  }

  lemma RecordDecided(ops: seq<Operation>, m: Manifest, p: Progress, obs: Observation, number: nat)
    requires ValidPlan(ops) && m.operations == ops && Decide(m, p, obs) == RecordPublished(number)
    ensures p.phase.Publishing? && |p.published| < |ops| && number == |p.published| + 1
  {
  }

  /** Every destination was at its result when recovery commits or completes. */
  lemma ResultsWitnessed(trace: seq<Moment>, ops: seq<Operation>, m: Manifest, p: Progress, obs: Observation)
    requires ValidPlan(ops) && m.operations == ops && Witnessed(trace, ops, obs)
    requires Decide(m, p, obs).Commit? || (p.phase.Committed? && !Decide(m, p, obs).Blocked?)
    ensures AllConfirmed(trace, ops)
  {
    forall i | 0 <= i < |ops| ensures Confirmed(trace, ops[i].path, {ops[i].result}) {
      if p.phase.Committed? {
        assert AtResult(ops, obs)[i];
      } else {
        assert LeadingResults(ops, obs) == |ops|;
      }
      assert DestinationIs(obs, ops[i].path, ops[i].result);
    }
  }

  /** `cleanup`, and `complete` with residue. */
  method Tidy(s: Store, id: TxId, ops: seq<Operation>, p: Progress, ghost fence: seq<Artifact>, ghost authority: seq<Artifact>) returns (stop: Option<Outcome>, next: Progress)
    requires Recovering(s, id, ops, fence, p, authority) && Rank(p.phase) == 1
    modifies s`disk, s`budget, s`trace, s`unsupported
    ensures Recovering(s, id, ops, fence, if stop.None? then next else p, authority)
    ensures Others(s.disk, id) == Others(old(s.disk), id)
    ensures stop.Some? ==> stop.value.Died? || (stop.value.Refused? && !s.quiet)
    ensures SameButSync(next, p)
    ensures stop.None? ==> Finished(s.disk.transactions[id], p.phase)
    ensures Paid(old(s.budget), s.budget, |ops| + 6, stop != Some(Died))
    ensures stop.None? ==> Synced(p.directorySync, next.directorySync, old(s.unsupported), s.unsupported)
    ensures old(s.unsupported) <= s.unsupported
  {
    stop, next := CleanUp(s, id, ops, p, p.directorySync, fence);
  }

  /** What a decision entitles recovery to do. `landed` is known if there are no
      other writers. */
  ghost predicate Entitled(d: TxDir, ops: seq<Operation>, p: Progress, decision: Decision, trace: seq<Moment>, landed: Option<nat>) {
    match decision
    case Blocked(_) => landed.None?
    case Abort => p.phase.Prepared?
    case RecordPublished(_) => p.phase.Publishing? && |p.published| < |ops| && (landed.Some? ==> landed.value == |p.published| + 1)
    case Publish(number) =>
      && p.phase.Publishing? && |p.published| < |ops| && number == |p.published| + 1 && (landed.Some? ==> landed.value == |p.published|)
      && (Writes(ops, |p.published| + 1) ==> d.staging.Some? && |p.published| + 1 in d.staging.value)
    case Commit => p.phase.Publishing? && AllConfirmed(trace, ops) && (landed.Some? ==> landed.value == |ops|)
    case Cleanup => Rank(p.phase) == 1 && (p.phase.Committed? ==> AllConfirmed(trace, ops)) && !EmptyStaging(d)
    case Complete => Rank(p.phase) == 1 && (p.phase.Committed? ==> AllConfirmed(trace, ops))
  }

  lemma DecisionEntitles(id: TxId, d: TxDir, ops: seq<Operation>, p: Progress, obs: Observation, trace: seq<Moment>, landed: Option<nat>)
    requires ValidPlan(ops) && Kept(id, d, ops, trace)
    requires d.progress.Some? && SameButSync(d.progress.value, p) && Bound(d, p, ops)
    requires Witnessed(trace, ops, obs) && obs.staged == if d.staging.Some? then d.staging.value else map[]
    requires landed.Some? ==> Layout(id, d, ops, landed.value) && Expects(d, ops, landed.value, Decide(d.manifest.value.value, p, obs))
    ensures Entitled(d, ops, p, Decide(d.manifest.value.value, p, obs), trace, landed)
  {
    var m := d.manifest.value.value;
    match Decide(m, p, obs)
    case RecordPublished(number) => RecordDecided(ops, m, p, obs, number);
    case Publish(number) => PublishDecided(ops, m, p, obs, number);
    case Blocked(_) =>
    case Abort =>
    case _ =>
      if Decide(m, p, obs).Commit? || p.phase.Committed? {
        ResultsWitnessed(trace, ops, m, p, obs);
      }
  }

  /** Observe the transaction and decide. */
  method Consider(s: Store, id: TxId, ops: seq<Operation>, p: Progress, ghost authority: seq<Artifact>, ghost fence: seq<Artifact>) returns (decision: Decision)
    requires Recovering(s, id, ops, fence, p, authority)
    modifies s`disk, s`trace
    ensures Recovering(s, id, ops, fence, p, authority) && OnlyLooks(old(s.trace), s.trace)
    ensures s.disk.transactions == old(s.disk.transactions) && (s.quiet ==> s.disk == old(s.disk))
    ensures Entitled(s.disk.transactions[id], ops, p, decision, s.trace, if s.quiet then Some(s.landed) else None)
  {
    var m := s.disk.transactions[id].manifest.value.value;
    ghost var before := s.trace;
    var obs := ObserveTransaction(s, id, ops);
    AfterLooks(before, s.trace, ops, fence);
    assert Recovering(s, id, ops, fence, p, authority);
    decision := DecideRecovery(m, p, obs);
    if s.quiet {
      QuietDecision(s, id, ops, fence, p, authority);
    }
    DecisionEntitles(id, s.disk.transactions[id], ops, p, obs, s.trace, if s.quiet then Some(s.landed) else None);
  }

  predicate Authorized(p: Progress) {
    p.phase.Publishing? || p.phase.Committed?
  }

  /** What no turn of recovery changes: whether publication was authorized, and the
      token that recovery is asked for with. */
  predicate SamePromise(p: Progress, q: Progress) {
    (Authorized(p) <==> Authorized(q)) && p.recoveryToken == q.recoveryToken
  }

  /** What a turn spends, it no longer has ahead of it. */
  predicate TurnPaid(before: nat, after: nat, ahead: nat, left: nat, result: Option<Outcome>) {
    Paid(before, after, ahead, result != Some(Died)) && (result.None? ==> before + left <= after + ahead)
  }

  /** `cleanup` and `complete`. */
  method FinishTurn(s: Store, id: TxId, ops: seq<Operation>, p: Progress, authority: seq<Artifact>, ghost fence: seq<Artifact>, complete: bool) returns (result: Option<Outcome>, next: Progress)
    requires Recovering(s, id, ops, fence, p, authority) && Rank(p.phase) == 1
    requires p.phase.Committed? ==> AllConfirmed(s.trace, ops)
    requires !complete ==> !EmptyStaging(s.disk.transactions[id])
    modifies s`disk, s`budget, s`trace, s`landed, s`unsupported
    ensures Recovering(s, id, ops, fence, if result.None? || result.value.Receipt? then next else p, authority)
    ensures Others(s.disk, id) == Others(old(s.disk), id)
    ensures result.None? ==> SameButSync(next, p) && Closer(p, old(s.disk).transactions[id], next, s.disk.transactions[id], ops)
    ensures result.Some? && !result.value.Receipt? ==> result.value.Died? || (result.value.Refused? && !s.quiet)
    ensures result.Some? && result.value.Receipt? ==> result.value.phase == p.phase && Finished(s.disk.transactions[id], p.phase)
    ensures TurnPaid(old(s.budget), s.budget, Remaining(p, old(s.disk).transactions[id], |ops|), |ops| + 6, result)
    ensures result.None? ==> Synced(p.directorySync, next.directorySync, old(s.unsupported), s.unsupported)
    ensures result.Some? && result.value.Receipt? ==> Synced(p.directorySync, result.value.directorySync, old(s.unsupported), s.unsupported)
    ensures old(s.unsupported) <= s.unsupported
    ensures result.Some? && result.value.Receipt? ==> SameButSync(next, p)
  {
    result, next := None, p;
    if !complete || s.disk.transactions[id].staging.Some? || s.disk.transactions[id].next.Some? {
      result, next := Tidy(s, id, ops, p, fence, authority);
    }
    if complete && result.None? {
      result := Some(Receipt(p.phase, next.directorySync));
    }
  }

  /** A step on the way to the end: rolled back, committed, or further published. */
  predicate Advanced(p: Progress, next: Progress, n: nat) {
    && next.recoveryToken == p.recoveryToken
    && (|| (p.phase.Prepared? && next.phase.Aborted?)
        || (p.phase.Publishing? && next.phase.Committed?)
        || (p.phase.Publishing? && next.phase.Publishing? && |p.published| < |next.published| <= n))
  }

  lemma AdvancedPays(p: Progress, d: TxDir, next: Progress, after: TxDir, ops: seq<Operation>)
    requires Advanced(p, next, |ops|)
    ensures Closer(p, d, next, after, ops) && SamePromise(next, p)
    ensures Remaining(next, after, |ops|) + 5 <= Remaining(p, d, |ops|)
  {
  }

  /** `abort`, `record_published`, `publish` and `commit`. */
  method TakeStep(s: Store, id: TxId, ops: seq<Operation>, p: Progress, authority: seq<Artifact>, ghost fence: seq<Artifact>, decision: Decision) returns (stop: Option<Outcome>, next: Progress)
    requires Recovering(s, id, ops, fence, p, authority)
    requires Entitled(s.disk.transactions[id], ops, p, decision, s.trace, if s.quiet then Some(s.landed) else None)
    requires !decision.Blocked? && !decision.Cleanup? && !decision.Complete?
    modifies s`disk, s`budget, s`trace, s`landed, s`unsupported
    ensures Recovering(s, id, ops, fence, if stop.None? then next else p, authority)
    ensures Others(s.disk, id) == Others(old(s.disk), id)
    ensures stop.Some? ==> Stuck(s, id, ops, stop.value) && (stop.value.Died? || p.phase.Publishing?)
    ensures stop.None? ==> Advanced(p, next, |ops|)
    ensures Paid(old(s.budget), s.budget, 5, stop != Some(Died)) && (stop == Some(Died) ==> Rank(p.phase) > 1)
    ensures stop.None? ==> Synced(p.directorySync, next.directorySync, old(s.unsupported), s.unsupported)
    ensures old(s.unsupported) <= s.unsupported
  {
    stop, next := None, p;
    var alive := true;
    match decision {
    case Abort => alive, next := AbortPrepared(s, id, ops, p, fence, authority);
    case RecordPublished(_) => alive, next := RecordPublishedOperation(s, id, ops, p, fence, authority);
    case Publish(_) => stop, next := PublishNext(s, id, ops, p, authority, fence);
    case Commit => alive, next := CommitRecovered(s, id, ops, p, fence, authority);
    }
    if !alive {
      stop := Some(Died);
    }
  }

  /** The same, paid for out of the changes ahead. */
  method AdvanceTurn(s: Store, id: TxId, ops: seq<Operation>, p: Progress, authority: seq<Artifact>, ghost fence: seq<Artifact>, decision: Decision) returns (stop: Option<Outcome>, next: Progress)
    requires Recovering(s, id, ops, fence, p, authority)
    requires Entitled(s.disk.transactions[id], ops, p, decision, s.trace, if s.quiet then Some(s.landed) else None)
    requires !decision.Blocked? && !decision.Cleanup? && !decision.Complete?
    modifies s`disk, s`budget, s`trace, s`landed, s`unsupported
    ensures Recovering(s, id, ops, fence, if stop.None? then next else p, authority)
    ensures Others(s.disk, id) == Others(old(s.disk), id)
    ensures stop.Some? ==> Stuck(s, id, ops, stop.value) && (stop.value.Died? || p.phase.Publishing?)
    ensures stop.None? ==> Closer(p, old(s.disk).transactions[id], next, s.disk.transactions[id], ops) && SamePromise(next, p)
    ensures TurnPaid(old(s.budget), s.budget, Remaining(p, old(s.disk).transactions[id], |ops|), Remaining(next, s.disk.transactions[id], |ops|), stop)
    ensures stop.None? ==> Synced(p.directorySync, next.directorySync, old(s.unsupported), s.unsupported)
    ensures old(s.unsupported) <= s.unsupported
  {
    ghost var d := s.disk.transactions[id];
    stop, next := TakeStep(s, id, ops, p, authority, fence, decision);
    if stop.None? {
      AdvancedPays(p, d, next, s.disk.transactions[id], ops);
    }
  }

  /** One turn of the recovery loop. */
  method RecoveryTurn(s: Store, id: TxId, ops: seq<Operation>, p: Progress, authority: seq<Artifact>, ghost fence: seq<Artifact>) returns (result: Option<Outcome>, next: Progress)
    requires Recovering(s, id, ops, fence, p, authority)
    modifies s`disk, s`budget, s`trace, s`landed, s`unsupported
    ensures Recovering(s, id, ops, fence, if result.None? || result.value.Receipt? then next else p, authority)
    ensures Others(s.disk, id) == Others(old(s.disk), id)
    ensures result.None? ==> Closer(p, old(s.disk).transactions[id], next, s.disk.transactions[id], ops) && SamePromise(next, p)
    ensures result.Some? && !result.value.Receipt? ==> Stuck(s, id, ops, result.value)
    ensures result.Some? && result.value.Refused? && s.quiet ==> Authorized(p)
    ensures result.Some? && result.value.Receipt? ==> Finished(s.disk.transactions[id], result.value.phase)
    ensures TurnPaid(old(s.budget), s.budget, Remaining(p, old(s.disk).transactions[id], |ops|), Remaining(next, s.disk.transactions[id], |ops|), result)
    ensures result.None? ==> Synced(p.directorySync, next.directorySync, old(s.unsupported), s.unsupported)
    ensures result.Some? && result.value.Receipt? ==> Synced(p.directorySync, result.value.directorySync, old(s.unsupported), s.unsupported)
    ensures old(s.unsupported) <= s.unsupported
    ensures result.Some? && result.value.Receipt? ==> SamePromise(next, p)
  {
    var decision := Consider(s, id, ops, p, authority, fence);
    match decision
    case Blocked(_) =>
      result, next := Some(Refused(StateCorrupt)), p;
    case Cleanup =>
      result, next := FinishTurn(s, id, ops, p, authority, fence, false);
    case Complete =>
      result, next := FinishTurn(s, id, ops, p, authority, fence, true);
    case _ =>
      result, next := AdvanceTurn(s, id, ops, p, authority, fence, decision);
  }

  /** The recovery loop ends: no decision leads back to an earlier one. */
  method RecoveryLoop(s: Store, id: TxId, ops: seq<Operation>, initial: Progress, authority: seq<Artifact>, ghost fence: seq<Artifact>) returns (r: Outcome)
    requires Recovering(s, id, ops, fence, initial, authority)
    modifies s`disk, s`budget, s`trace, s`landed, s`unsupported
    ensures Sound(s, id, ops, fence)
    ensures Others(s.disk, id) == Others(old(s.disk), id)
    ensures Forward(s.disk.transactions[id]) <==> Forward(old(s.disk).transactions[id])
    ensures !r.Receipt? ==> Stuck(s, id, ops, r) && s.disk.transactions[id].progress.Some?
    ensures r.Refused? ==> s.disk.transactions[id].progress.value.recoveryToken == initial.recoveryToken
    ensures r.Refused? && s.quiet ==> Forward(s.disk.transactions[id])
    ensures r.Receipt? ==> Finished(s.disk.transactions[id], r.phase)
    ensures Paid(old(s.budget), s.budget, Remaining(initial, old(s.disk).transactions[id], |ops|), !r.Died?)
    ensures r.Receipt? ==> Synced(initial.directorySync, r.directorySync, old(s.unsupported), s.unsupported)
    ensures r.Refused? && s.disk.transactions[id].progress.value.directorySync.Unsupported? ==> initial.directorySync.Unsupported? || s.unsupported > old(s.unsupported)
    ensures old(s.unsupported) <= s.unsupported
  {
    var p := initial;
    while true
      invariant Recovering(s, id, ops, fence, p, authority)
      invariant old(s.budget) + Remaining(p, s.disk.transactions[id], |ops|) <= s.budget + Remaining(initial, old(s.disk).transactions[id], |ops|)
      invariant Others(s.disk, id) == Others(old(s.disk), id)
      invariant SamePromise(p, initial)
      invariant Synced(initial.directorySync, p.directorySync, old(s.unsupported), s.unsupported)
      decreases Rank(p.phase), |ops| - |p.published|, if EmptyStaging(s.disk.transactions[id]) then 0 else 1
    {
      var result;
      result, p := RecoveryTurn(s, id, ops, p, authority, fence);
      if result.Some? {
        return result.value;
      }
    }
  }

  /** A directory whose progress is not bound to a manifest, and nothing has landed. */
  ghost predicate Abandoned(d: TxDir, id: TxId) {
    && d.progress.Some?
    && var p := d.progress.value;
    && p.transactionId == id && Unbound(p) && p.published == [] && !p.directorySync.NotAttempted?
    && (p.phase.Begun? || p.phase.Aborted?)
  }

  lemma AbandonedSound(s: Store, id: TxId, d: TxDir, ops: seq<Operation>, fence: seq<Artifact>, before: TxDir)
    requires Abandoned(d, id) && Abandoned(before, id)
    requires Kept(id, before, ops, s.trace) && (s.quiet ==> Layout(id, before, ops, s.landed))
    ensures Fits(s, id, d, ops, s.trace)
  {
    NoneLanded(s.trace);
  }

  function StagedCount(d: TxDir): nat {
    if d.staging.Some? then |d.staging.value| else 0
  }

  /** Remove the residue of a transaction without a bound manifest: payloads,
      staging, scratch progress, manifest. */
  method RemoveAbandoned(s: Store, id: TxId) returns (alive: bool)
    requires id in s.disk.transactions
    modifies s`disk, s`budget
    ensures OnlyTouches(old(s.disk), s.disk, id)
    ensures s.disk.transactions[id].progress == old(s.disk).transactions[id].progress
    ensures alive ==> s.disk.transactions[id] == TxDir(old(s.disk).transactions[id].progress, None, None, None)
    ensures Paid(old(s.budget), s.budget, StagedCount(old(s.disk).transactions[id]) + 3, alive)
  {
    ghost var progress := s.disk.transactions[id].progress;
    if s.disk.transactions[id].staging.Some? {
      while s.disk.transactions[id].staging.value != map[]
        invariant OnlyTouches(old(s.disk), s.disk, id) && s.disk.transactions[id].progress == progress
        invariant s.disk.transactions[id].staging.Some?
        invariant old(s.budget) + StagedCount(s.disk.transactions[id]) <= s.budget + StagedCount(old(s.disk).transactions[id])
        decreases |s.disk.transactions[id].staging.value|
      {
        var number :| number in s.disk.transactions[id].staging.value;
        ghost var before := s.disk.transactions[id].staging.value;
        alive := s.RemovePayload(id, number);
        if !alive {
          return;
        }
        assert |before| == |before - {number}| + 1;
      }
      alive := s.RemoveStaging(id);
      if !alive {
        return;
      }
    }
    if s.disk.transactions[id].next.Some? {
      alive := s.RemoveNext(id);
      if !alive {
        return;
      }
    }
    if s.disk.transactions[id].manifest.Some? {
      alive := s.RemoveManifest(id);
      if !alive {
        return;
      }
    }
    alive := true;
  }

  /** `recoverWithoutManifest`. */
  method RecoverWithoutManifest(s: Store, id: TxId, ghost ops: seq<Operation>, ghost fence: seq<Artifact>) returns (r: Outcome)
    requires Sound(s, id, ops, fence) && Abandoned(s.disk.transactions[id], id)
    modifies s`disk, s`budget, s`trace, s`unsupported
    ensures Sound(s, id, ops, fence) && Abandoned(s.disk.transactions[id], id)
    ensures Others(s.disk, id) == Others(old(s.disk), id)
    ensures r.Died? || r.Receipt?
    ensures r.Receipt? ==> r.phase.Aborted? && Finished(s.disk.transactions[id], Aborted)
    ensures Paid(old(s.budget), s.budget, StagedCount(old(s.disk).transactions[id]) + 11, !r.Died?)
    ensures r.Receipt? ==> Synced(old(s.disk).transactions[id].progress.value.directorySync, r.directorySync, old(s.unsupported), s.unsupported)
    ensures old(s.unsupported) <= s.unsupported
  {
    var p := s.disk.transactions[id].progress.value;
    var alive := true;
    if p.phase.Begun? {
      alive, p := AbandonBegun(s, id, ops, p, fence);
      if !alive {
        return Died;
      }
    }
    ghost var d := s.disk.transactions[id];
    alive := RemoveAbandoned(s, id);
    AbandonedSound(s, id, s.disk.transactions[id], ops, fence, d);
    if !alive {
      return Died;
    }
    r := SettleAbandoned(s, id, ops, p, fence);
  }

  method AbandonBegun(s: Store, id: TxId, ghost ops: seq<Operation>, p: Progress, ghost fence: seq<Artifact>) returns (alive: bool, next: Progress)
    requires Sound(s, id, ops, fence) && Abandoned(s.disk.transactions[id], id)
    requires s.disk.transactions[id].progress == Some(p)
    modifies s`disk, s`budget, s`trace, s`unsupported
    ensures Sound(s, id, ops, fence) && Abandoned(s.disk.transactions[id], id)
    ensures Others(s.disk, id) == Others(old(s.disk), id)
    ensures alive ==> next.phase.Aborted? && s.disk.transactions[id].progress.Some? && SameButSync(s.disk.transactions[id].progress.value, next)
    ensures alive ==> s.disk.transactions[id].staging == old(s.disk).transactions[id].staging
    ensures Paid(old(s.budget), s.budget, 4, alive)
    ensures alive ==> Synced(p.directorySync, next.directorySync, old(s.unsupported), s.unsupported)
    ensures old(s.unsupported) <= s.unsupported
  {
    ghost var before, d := s.disk, s.disk.transactions[id];
    AfterMoment(s.trace, Recorded(Aborted));
    AbandonedSound(s, id, d.(progress := Some(p.(phase := Aborted)), next := None), ops, fence, d);
    alive, next := Advance(s, id, ops, p.(phase := Aborted, published := []), fence);
    OthersSame(before, s.disk, id);
  }

  method SettleAbandoned(s: Store, id: TxId, ghost ops: seq<Operation>, p: Progress, ghost fence: seq<Artifact>) returns (r: Outcome)
    requires Sound(s, id, ops, fence) && Abandoned(s.disk.transactions[id], id) && p.phase.Aborted?
    requires SameButSync(s.disk.transactions[id].progress.value, p)
    requires s.disk.transactions[id] == TxDir(s.disk.transactions[id].progress, None, None, None)
    requires !p.directorySync.NotAttempted?
    modifies s`disk, s`budget, s`trace, s`unsupported
    ensures Sound(s, id, ops, fence) && Abandoned(s.disk.transactions[id], id)
    ensures Others(s.disk, id) == Others(old(s.disk), id)
    ensures r.Died? || (r.Receipt? && r.phase.Aborted? && Finished(s.disk.transactions[id], Aborted))
    ensures Paid(old(s.budget), s.budget, 4, !r.Died?)
    ensures r.Receipt? ==> Synced(p.directorySync, r.directorySync, old(s.unsupported), s.unsupported)
    ensures old(s.unsupported) <= s.unsupported
  {
    ghost var before, d, trace := s.disk, s.disk.transactions[id], s.trace;
    AfterMoment(trace, Resynced);
    DisciplinedExtend(trace, Resynced, ops, fence);
    var observed := s.SyncDirectory();
    var alive, next := PersistTerminalDirectorySync(s, id, p, observed);
    TerminalAgain(id, d, s.disk.transactions[id], ops, s.landed, trace, Resynced);
    OthersSame(before, s.disk, id);
    r := if alive then Receipt(Aborted, next.directorySync) else Died;
  }

  /** Recovery starts over: what an earlier process has seen counts no longer. */
  ghost method Reopen(s: Store, id: TxId, ops: seq<Operation>, fence: seq<Artifact>)
    requires Sound(s, id, ops, fence)
    modifies s`trace
    ensures Sound(s, id, ops, fence) && s.trace == old(s.trace) + [Restarted]
  {
    DisciplinedExtend(s.trace, Restarted, ops, fence);
    RestartedKept(id, s.disk.transactions[id], ops, s.trace);
    s.trace := s.trace + [Restarted];
  }

  lemma RestartedKept(id: TxId, d: TxDir, ops: seq<Operation>, trace: seq<Moment>)
    requires Kept(id, d, ops, trace)
    ensures Kept(id, d, ops, trace + [Restarted])
  {
    AfterMoment(trace, Restarted);
  }

  /** The restart and, for a transaction that will publish or accept results, the
      first check of its authority. */
  method Restart(s: Store, ghost id: TxId, ghost ops: seq<Operation>, authority: seq<Artifact>, ghost fence: seq<Artifact>) returns (met: bool)
    requires Sound(s, id, ops, fence)
    requires authority == [] || (authority == Authority(ops) && s.disk.transactions[id].progress.Some? && Bound(s.disk.transactions[id], s.disk.transactions[id].progress.value, ops))
    modifies s`disk, s`trace
    ensures Sound(s, id, ops, fence) && s.disk.transactions == old(s.disk.transactions)
    ensures s.quiet ==> met && s.disk == old(s.disk)
    ensures OnlyLooks(old(s.trace) + [Restarted], s.trace)
  {
    Reopen(s, id, ops, fence);
    if s.quiet && authority != [] {
      FenceStands(s.base, ops, authority, s.landed);
    }
    ghost var before := s.trace;
    met := CheckAll(s, WantsOfFence(authority));
    AfterLooks(before, s.trace, ops, fence);
  }

  /** The durable changes that recovery of a transaction of `n` operations makes at most. */
  function RecoveryCost(d: TxDir, n: nat): nat {
    if d.progress.Some? && d.progress.value.manifestDigest.Some? then 7 * n + 17 else StagedCount(d) + 11
  }

  /** `driveRecovery`. An authorized publication is rolled forward and anything
      else rolled back; without other writers a process that lives long enough
      finishes, unless nobody creates the parent directory of a later operation. */
  method DriveRecovery(s: Store, id: TxId, ghost ops: seq<Operation>, ghost fence: seq<Artifact>) returns (r: Outcome)
    requires Sound(s, id, ops, fence) && FenceOf(fence, ops) && s.disk.transactions[id].progress.Some?
    modifies s`disk, s`budget, s`trace, s`landed, s`unsupported
    ensures Sound(s, id, ops, fence) && NoneTwice(ops, s.trace)
    ensures Others(s.disk, id) == Others(old(s.disk), id)
    ensures Forward(s.disk.transactions[id]) <==> Forward(old(s.disk).transactions[id])
    ensures r.Receipt? ==> Finished(s.disk.transactions[id], r.phase) && (r.phase.Committed? <==> Forward(old(s.disk).transactions[id]))
    ensures r.Refused? ==>
      && s.disk.transactions[id].progress.Some?
      && s.disk.transactions[id].progress.value.recoveryToken == old(s.disk).transactions[id].progress.value.recoveryToken
    ensures r.Refused? && s.quiet ==> r.reason.StateCorrupt? && NoParent(s, id, ops)
    ensures Paid(old(s.budget), s.budget, RecoveryCost(old(s.disk).transactions[id], |ops|), !r.Died?)
    ensures s.quiet && !r.Died? ==> (r.Receipt? <==> !Forward(old(s.disk).transactions[id]) || ParentsReady(s.base, ops))
    ensures r.Receipt? ==> r.directorySync == if old(s.disk).transactions[id].progress.value.directorySync.Unsupported? || s.unsupported > old(s.unsupported) then Unsupported else Supported
    ensures r.Refused? && s.disk.transactions[id].progress.value.directorySync.Unsupported? ==>
      old(s.disk).transactions[id].progress.value.directorySync.Unsupported? || s.unsupported > old(s.unsupported)
    ensures old(s.unsupported) <= s.unsupported
  {
    r := RecoverEither(s, id, ops, fence);
    AtMostOnce(s.disk.transactions[id], ops, s.trace);
  }

  method RecoverEither(s: Store, id: TxId, ghost ops: seq<Operation>, ghost fence: seq<Artifact>) returns (r: Outcome)
    requires Sound(s, id, ops, fence) && FenceOf(fence, ops) && s.disk.transactions[id].progress.Some?
    modifies s`disk, s`budget, s`trace, s`landed, s`unsupported
    ensures Sound(s, id, ops, fence)
    ensures Others(s.disk, id) == Others(old(s.disk), id)
    ensures Forward(s.disk.transactions[id]) <==> Forward(old(s.disk).transactions[id])
    ensures r.Receipt? ==> Finished(s.disk.transactions[id], r.phase)
    ensures r.Refused? ==>
      && s.disk.transactions[id].progress.Some?
      && s.disk.transactions[id].progress.value.recoveryToken == old(s.disk).transactions[id].progress.value.recoveryToken
    ensures r.Refused? && s.quiet ==> Forward(old(s.disk).transactions[id]) && r.reason.StateCorrupt? && NoParent(s, id, ops)
    ensures Paid(old(s.budget), s.budget, RecoveryCost(old(s.disk).transactions[id], |ops|), !r.Died?)
    ensures r.Receipt? ==> r.directorySync == if old(s.disk).transactions[id].progress.value.directorySync.Unsupported? || s.unsupported > old(s.unsupported) then Unsupported else Supported
    ensures r.Refused? && s.disk.transactions[id].progress.value.directorySync.Unsupported? ==>
      old(s.disk).transactions[id].progress.value.directorySync.Unsupported? || s.unsupported > old(s.unsupported)
    ensures old(s.unsupported) <= s.unsupported
  {
    var p := s.disk.transactions[id].progress.value;
    if p.manifestDigest.None? {
      var _ := Restart(s, id, ops, [], fence);
      r := RecoverWithoutManifest(s, id, ops, fence);
      return;
    }
    r := RecoverBound(s, id, ops, fence);
  }

  method RecoverBound(s: Store, id: TxId, ghost ops: seq<Operation>, ghost fence: seq<Artifact>) returns (r: Outcome)
    requires Sound(s, id, ops, fence) && FenceOf(fence, ops) && s.disk.transactions[id].progress.Some?
    requires s.disk.transactions[id].progress.value.manifestDigest.Some?
    modifies s`disk, s`budget, s`trace, s`landed, s`unsupported
    ensures Sound(s, id, ops, fence)
    ensures Others(s.disk, id) == Others(old(s.disk), id)
    ensures Forward(s.disk.transactions[id]) <==> Forward(old(s.disk).transactions[id])
    ensures r.Receipt? ==> Finished(s.disk.transactions[id], r.phase)
    ensures r.Refused? ==>
      && s.disk.transactions[id].progress.Some?
      && s.disk.transactions[id].progress.value.recoveryToken == old(s.disk).transactions[id].progress.value.recoveryToken
    ensures r.Refused? && s.quiet ==> Forward(old(s.disk).transactions[id]) && r.reason.StateCorrupt? && NoParent(s, id, ops)
    ensures Paid(old(s.budget), s.budget, RecoveryCost(old(s.disk).transactions[id], |ops|), !r.Died?)
    ensures r.Receipt? ==> r.directorySync == if old(s.disk).transactions[id].progress.value.directorySync.Unsupported? || s.unsupported > old(s.unsupported) then Unsupported else Supported
    ensures r.Refused? && s.disk.transactions[id].progress.value.directorySync.Unsupported? ==>
      old(s.disk).transactions[id].progress.value.directorySync.Unsupported? || s.unsupported > old(s.unsupported)
    ensures old(s.unsupported) <= s.unsupported
  {
    var p := s.disk.transactions[id].progress.value;
    var m := s.disk.transactions[id].manifest.value.value;
    var authority := if p.phase.Publishing? || p.phase.Committed? then Authority(m.operations) else [];
    var met := Restart(s, id, m.operations, authority, fence);
    if !met {
      return Refused(LeaseConflict);
    }
    r := RecoveryLoop(s, id, m.operations, p, authority, fence);
  }
}
