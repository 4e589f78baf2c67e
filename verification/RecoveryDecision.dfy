/** What the recovery decision means, for every pair of documents and every
    observation: which ones lead on, and to what. */
module RecoveryDecision {
  import opened Options
  import opened Plans
  import opened Recovery

  /** The two documents are about one transaction and fit each other. */
  ghost predicate Documented(m: Manifest, p: Progress) {
    var ops := m.operations;
    && m.transactionId == p.transactionId && m.createdAt == p.createdAt
    && (p.phase.Begun? || p.manifestDigest == Some(p.recoveryToken) || (p.phase.Aborted? && p.manifestDigest == None))
    && (forall i, j | 0 <= i < j < |ops| :: ops[i].operationId != ops[j].operationId && ops[i].path != ops[j].path)
    && (forall i | 0 <= i < |ops| :: ops[i].expected != ops[i].result)
    && |p.published| <= |ops|
    && (forall i | 0 <= i < |p.published| :: p.published[i] == ops[i].operationId)
    && (p.phase.Committed? ==> |p.published| == |ops|)
    && (p.published != [] ==> p.phase.Publishing? || p.phase.Committed?)
  }

  /** Whatever is staged belongs to some write. */
  ghost predicate StagedForWrites(ops: seq<Operation>, obs: Observation) {
    forall id | id in obs.staged && obs.staged[id] != Missing ::
      exists i :: 0 <= i < |ops| && ops[i].operationId == id && ops[i].kind.WriteFile?
  }

  /** Exactly the first `landed` operations are seen at their results, all others as expected. */
  ghost predicate SeenLanded(ops: seq<Operation>, obs: Observation, landed: nat) {
    forall i | 0 <= i < |ops| ::
      ops[i].path in obs.destinations
      && obs.destinations[ops[i].path] == if i < landed then ops[i].result else ops[i].expected
  }

  /** The payloads of the writes from `landed` on are staged, and no others. */
  ghost predicate StagedFrom(ops: seq<Operation>, obs: Observation, landed: nat) {
    forall i | 0 <= i < |ops| && ops[i].kind.WriteFile? ::
      Payload(obs, ops[i].operationId) == if landed <= i then ops[i].result else Missing
  }

  /** Some payloads are staged, each the one its operation writes. */
  ghost predicate StagedPartly(ops: seq<Operation>, obs: Observation) {
    forall i | 0 <= i < |ops| && ops[i].kind.WriteFile? ::
      Payload(obs, ops[i].operationId) == Missing || Payload(obs, ops[i].operationId) == ops[i].result
  }

  ghost predicate NothingStaged(ops: seq<Operation>, obs: Observation) {
    forall i | 0 <= i < |ops| && ops[i].kind.WriteFile? :: Payload(obs, ops[i].operationId) == Missing
  }

  /** What must have been found for each decision that leads on. */
  ghost predicate CalledFor(m: Manifest, p: Progress, obs: Observation, d: Decision) {
    var ops, recorded := m.operations, |p.published|;
    && Documented(m, p) && StagedForWrites(ops, obs)
    && match d
       case Abort =>
         && SeenLanded(ops, obs, 0)
         && (if p.phase.Begun? then StagedPartly(ops, obs) else p.phase.Prepared? && StagedFrom(ops, obs, 0))
       case RecordPublished(id) =>
         && p.phase.Publishing?
         && recorded < |ops| && id == ops[recorded].operationId
         && exists landed :: recorded < landed <= |ops| && SeenLanded(ops, obs, landed) && StagedFrom(ops, obs, landed)
       case Publish(id) =>
         && p.phase.Publishing?
         && recorded < |ops| && id == ops[recorded].operationId
         && SeenLanded(ops, obs, recorded) && StagedFrom(ops, obs, recorded)
       case Commit =>
         && p.phase.Publishing?
         && recorded == |ops|
         && SeenLanded(ops, obs, recorded) && StagedFrom(ops, obs, recorded)
       case Cleanup =>
         && (p.phase.Aborted? || (p.phase.Committed? && SeenLanded(ops, obs, |ops|)))
         && StagedPartly(ops, obs) && !NothingStaged(ops, obs)
       case Complete =>
         && (p.phase.Aborted? || (p.phase.Committed? && SeenLanded(ops, obs, |ops|)))
         && NothingStaged(ops, obs)
       case Blocked(_) => false
  }

  lemma DocumentedExact(m: Manifest, p: Progress)
    ensures Documented(m, p) <==>
      ValidIdentity(m, p) && ManifestFailure(m.operations).None? && ValidPublishedPrefix(p, m.operations)
  {
    var ops := m.operations;
    if ManifestFailure(ops).None? {
      forall i, j | 0 <= i < j < |ops| ensures ops[i].operationId != ops[j].operationId && ops[i].path != ops[j].path {
        assert !Repeats(ops, j);
      }
    }
    if Documented(m, p) {
      forall j | 0 <= j < |ops| ensures !Repeats(ops, j) && ops[j].expected != ops[j].result {
      }
    }
  }

  lemma StagedForWritesExact(ops: seq<Operation>, obs: Observation)
    ensures StagedForWrites(ops, obs) <==> !UnexpectedStagedContent(ops, obs)
  {
  }

  /** If operations change something, only one count can have landed. */
  lemma LeadingResultsOf(ops: seq<Operation>, obs: Observation)
    requires forall i | 0 <= i < |ops| :: ops[i].expected != ops[i].result
    ensures forall landed: nat :: landed <= |ops| && SeenLanded(ops, obs, landed) <==>
      landed == LeadingResults(ops, obs) && FirstFailing(ops, AtExpected(ops, obs), landed).None?
  {
    var results := LeadingResults(ops, obs);
    forall landed: nat | landed <= |ops| && SeenLanded(ops, obs, landed)
      ensures landed == results && FirstFailing(ops, AtExpected(ops, obs), landed).None?
    {
      assert results < |ops| ==> !DestinationIs(obs, ops[results].path, ops[results].result);
      assert landed < |ops| ==> !DestinationIs(obs, ops[landed].path, ops[landed].result);
    }
    if FirstFailing(ops, AtExpected(ops, obs), results).None? {
      forall i | 0 <= i < |ops|
        ensures ops[i].path in obs.destinations
        ensures obs.destinations[ops[i].path] == if i < results then ops[i].result else ops[i].expected
      {
        assert if i < results then DestinationIs(obs, ops[i].path, ops[i].result)
               else AtExpected(ops, obs)[i];
      }
    }
  }

  lemma NowhereLanded(ops: seq<Operation>, obs: Observation)
    ensures SeenLanded(ops, obs, 0) <==> FirstFailing(ops, AtExpected(ops, obs), 0).None?
    ensures SeenLanded(ops, obs, |ops|) <==> FirstFailing(ops, AtResult(ops, obs), 0).None?
  {
    assert forall i | 0 <= i < |ops| :: AtExpected(ops, obs)[i] <==> DestinationIs(obs, ops[i].path, ops[i].expected);
    assert forall i | 0 <= i < |ops| :: AtResult(ops, obs)[i] <==> DestinationIs(obs, ops[i].path, ops[i].result);
  }

  lemma PayloadsExact(ops: seq<Operation>, obs: Observation, landed: nat)
    ensures StagedFrom(ops, obs, landed) <==> FirstFailing(ops, PayloadsInPlace(ops, obs, landed), 0).None?
    ensures StagedPartly(ops, obs) <==> FirstFailing(ops, PayloadsAbsentOrExact(ops, obs), 0).None?
    ensures NothingStaged(ops, obs) <==> !HasPayload(ops, obs)
  {
    if StagedFrom(ops, obs, landed) {
      forall i | 0 <= i < |ops| ensures PayloadsInPlace(ops, obs, landed)[i] {
      }
    }
    if FirstFailing(ops, PayloadsInPlace(ops, obs, landed), 0).None? {
      forall i | 0 <= i < |ops| && ops[i].kind.WriteFile?
        ensures Payload(obs, ops[i].operationId) == if landed <= i then ops[i].result else Missing
      {
        assert PayloadsInPlace(ops, obs, landed)[i];
      }
    }
    if StagedPartly(ops, obs) {
      forall i | 0 <= i < |ops| ensures PayloadsAbsentOrExact(ops, obs)[i] {
      }
    }
    if FirstFailing(ops, PayloadsAbsentOrExact(ops, obs), 0).None? {
      forall i | 0 <= i < |ops| && ops[i].kind.WriteFile?
        ensures Payload(obs, ops[i].operationId) == Missing || Payload(obs, ops[i].operationId) == ops[i].result
      {
        assert PayloadsAbsentOrExact(ops, obs)[i];
      }
    }
  }

  lemma PublishingExact(m: Manifest, p: Progress, obs: Observation, d: Decision)
    requires Documented(m, p) && StagedForWrites(m.operations, obs) && p.phase.Publishing? && !d.Blocked?
    ensures DecidePublishing(m.operations, p, obs) == d <==> CalledFor(m, p, obs, d)
  {
    var ops := m.operations;
    var results := LeadingResults(ops, obs);
    LeadingResultsOf(ops, obs);
    PayloadsExact(ops, obs, results);
    LandedBeyond(ops, obs, |p.published|, results);
  }

  lemma LandedBeyond(ops: seq<Operation>, obs: Observation, recorded: nat, results: nat)
    requires results <= |ops| && forall landed: nat | landed <= |ops| && SeenLanded(ops, obs, landed) :: landed == results
    ensures
      (exists landed :: recorded < landed <= |ops| && SeenLanded(ops, obs, landed) && StagedFrom(ops, obs, landed)) <==>
      recorded < results && SeenLanded(ops, obs, results) && StagedFrom(ops, obs, results)
  {
  }

  /** The decision leads on in exactly the situations that call for it, and is
      `Blocked` in all others. */
  lemma DecisionExact(m: Manifest, p: Progress, obs: Observation, d: Decision)
    requires !d.Blocked?
    ensures Decide(m, p, obs) == d <==> CalledFor(m, p, obs, d)
  {
    var ops := m.operations;
    DocumentedExact(m, p);
    StagedForWritesExact(ops, obs);
    if Documented(m, p) && StagedForWrites(ops, obs) {
      if p.phase.Publishing? {
        PublishingExact(m, p, obs, d);
      } else {
        OthersExact(m, p, obs, d);
      }
    }
  }

  lemma OthersExact(m: Manifest, p: Progress, obs: Observation, d: Decision)
    requires Documented(m, p) && StagedForWrites(m.operations, obs) && !p.phase.Publishing? && !d.Blocked?
    ensures Decide(m, p, obs) == d <==> CalledFor(m, p, obs, d)
  {
    DocumentedExact(m, p);
    StagedForWritesExact(m.operations, obs);
    NowhereLanded(m.operations, obs);
    PayloadsExact(m.operations, obs, 0);
  }
}
