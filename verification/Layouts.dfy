/** The layouts a transaction directory can be left in, and what the recovery
    decision makes of each. */
module Layouts {
  import opened Options
  import opened Plans
  import opened Recovery

  /** A document on disk. A process that dies inside `writeSynced` leaves it torn. */
  datatype Doc<+T> = Torn | Whole(value: T)

  /** `.brain/transactions/<id>`: four fixed entries, `staging` keyed by payload number. */
  datatype TxDir = TxDir(
    progress: Option<Progress>,
    next: Option<Doc<Progress>>,
    staging: Option<map<nat, Fingerprint>>,
    manifest: Option<Doc<Manifest>>)

  datatype Disk = Disk(tree: Tree, transactions: map<TxId, TxDir>)

  predicate Writes(ops: seq<Operation>, id: nat)
    requires 0 < id <= |ops|
  {
    ops[id - 1].kind.WriteFile?
  }

  /** The payloads of the writes that come after the first `from` operations. */
  function Payloads(ops: seq<Operation>, from: nat): map<nat, Fingerprint> {
    map id: nat | from < id <= |ops| && Writes(ops, id) :: ops[id - 1].result
  }

  function Ids(n: nat): (r: seq<nat>)
    ensures |r| == n && forall i | 0 <= i < n :: r[i] == i + 1
  {
    seq(n, i => i + 1)
  }

  predicate Unbound(p: Progress) {
    p.manifestDigest.None? && p.recoveryToken == OfIdentity(p.transactionId, p.createdAt)
  }

  /** The progress document is bound to a whole manifest of `ops`, kept on disk. */
  predicate Bound(d: TxDir, p: Progress, ops: seq<Operation>) {
    var m := Manifest(p.transactionId, p.createdAt, ops);
    && d.manifest == Some(Whole(m))
    && p.manifestDigest == Some(OfManifest(m))
    && p.recoveryToken == OfManifest(m)
  }

  predicate Staged(d: TxDir, ops: seq<Operation>, from: nat) {
    d.staging == Some(Payloads(ops, from))
  }

  predicate EmptyStaging(d: TxDir) {
    d.staging.None? || d.staging == Some(map[])
  }

  /** Every directory layout a crash may leave behind, given that `landed`
      operations of `ops` have reached their destinations. */
  ghost predicate Layout(id: TxId, d: TxDir, ops: seq<Operation>, landed: nat) {
    && landed <= |ops|
    && match d.progress
       case None => landed == 0 && d.staging.None? && d.manifest.None?
       case Some(p) =>
         && p.transactionId == id
         && match p.phase
            case Begun => landed == 0 && p.published == [] && Unbound(p)
            case Prepared => landed == 0 && p.published == [] && Bound(d, p, ops) && Staged(d, ops, 0)
            case Publishing =>
              && Bound(d, p, ops)
              && Staged(d, ops, landed)
              && |p.published| <= landed <= |p.published| + 1
              && p.published == Ids(|p.published|)
            case Committed =>
              && Bound(d, p, ops)
              && landed == |ops|
              && p.published == Ids(|ops|)
              && EmptyStaging(d)
            case Aborted =>
              && landed == 0
              && p.published == []
              && (Unbound(p) || (Bound(d, p, ops) && (d.staging.Some? ==> d.staging.value.Items <= Payloads(ops, 0).Items)))
  }

  /** Publication was authorized: recovery must finish it, and may not abort it. */
  predicate Forward(d: TxDir) {
    d.progress.Some? && (d.progress.value.phase.Publishing? || d.progress.value.phase.Committed?)
  }

  predicate InPublishing(d: TxDir) {
    d.progress.Some? && d.progress.value.phase.Publishing?
  }

  predicate Terminal(d: TxDir) {
    d.progress.Some? && (d.progress.value.phase.Committed? || d.progress.value.phase.Aborted?)
  }

  /** No entry is left for recovery to remove. */
  predicate Clean(d: TxDir) {
    && d.staging.None?
    && d.next.None?
    && (d.progress.Some? && d.progress.value.manifestDigest.None? ==> d.manifest.None?)
  }

  /** `firstIncompleteSummary`'s test. */
  predicate Incomplete(d: TxDir) {
    !Terminal(d) || !Clean(d)
  }

  /** What `observeTransaction` collects. */
  function Observed(tree: Tree, d: TxDir, ops: seq<Operation>): Observation {
    Observation(
      map path | path in (set op | op in ops :: op.path) :: At(tree, path),
      if d.staging.Some? then d.staging.value else map[])
  }

  lemma ObservedDestination(tree: Tree, d: TxDir, ops: seq<Operation>, i: nat, f: Fingerprint)
    requires i < |ops|
    ensures DestinationIs(Observed(tree, d, ops), ops[i].path, f) <==> At(tree, ops[i].path) == f
  {
    assert ops[i] in ops;
  }

  /** The decision a layout leads to. */
  ghost predicate Expects(d: TxDir, ops: seq<Operation>, landed: nat, decision: Decision)
    requires d.progress.Some?
  {
    var p := d.progress.value;
    match p.phase
    case Begun => decision.Abort?
    case Prepared => decision.Abort?
    case Aborted => if EmptyStaging(d) then decision.Complete? else decision.Cleanup?
    case Committed => decision.Complete?
    case Publishing =>
      if |p.published| < landed then decision == RecordPublished(landed)
      else if landed < |ops| then decision == Publish(landed + 1)
      else decision.Commit?
  }

  lemma SoundManifest(ops: seq<Operation>)
    requires ValidPlan(ops)
    ensures ManifestFailure(ops).None?
  {
    forall j | 0 <= j < |ops| ensures !Repeats(ops, j) && ops[j].expected != ops[j].result {
      assert WellShaped(ops[j]);
    }
  }

  lemma NothingUnexpected(ops: seq<Operation>, obs: Observation)
    requires ValidPlan(ops) && obs.staged.Keys <= Payloads(ops, 0).Keys
    ensures !UnexpectedStagedContent(ops, obs)
  {
    forall id | id in obs.staged.Keys
      ensures exists i :: 0 <= i < |ops| && ops[i].kind.WriteFile? && ops[i].operationId == id
    {
      assert id in Payloads(ops, 0).Keys;
      assert ops[id - 1].operationId == id;
    }
  }

  lemma {:induction false} LeadingResultsIs(ops: seq<Operation>, obs: Observation, i: nat, n: nat)
    requires i <= n <= |ops|
    requires forall j | i <= j < n :: DestinationIs(obs, ops[j].path, ops[j].result)
    requires n < |ops| ==> !DestinationIs(obs, ops[n].path, ops[n].result)
    ensures LeadingResults(ops, obs, i) == n
    decreases n - i
  {
    if i < n {
      LeadingResultsIs(ops, obs, i + 1, n);
    }
  }

  lemma LeadingResultsExact(tree: Tree, d: TxDir, ops: seq<Operation>, base: Tree, landed: nat)
    requires ValidPlan(ops) && AllExpected(base, ops) && landed <= |ops| && tree == Applied(base, ops, landed)
    ensures LeadingResults(ops, Observed(tree, d, ops)) == landed
    ensures FirstFailing(ops, AtExpected(ops, Observed(tree, d, ops)), landed).None?
    ensures landed == |ops| ==> FirstFailing(ops, AtResult(ops, Observed(tree, d, ops)), 0).None?
  {
    AppliedDestinations(base, ops, landed);
    var obs := Observed(tree, d, ops);
    forall i | 0 <= i < |ops|
      ensures DestinationIs(obs, ops[i].path, ops[i].result) <==> i < landed
      ensures DestinationIs(obs, ops[i].path, ops[i].expected) <==> i >= landed
    {
      ObservedDestination(tree, d, ops, i, ops[i].result);
      ObservedDestination(tree, d, ops, i, ops[i].expected);
      assert WellShaped(ops[i]);
    }
    LeadingResultsIs(ops, obs, 0, landed);
  }

  lemma StagedInPlace(tree: Tree, d: TxDir, ops: seq<Operation>, from: nat)
    requires ValidPlan(ops) && Staged(d, ops, from)
    ensures FirstFailing(ops, PayloadsInPlace(ops, Observed(tree, d, ops), from), 0).None?
  {
  }

  lemma StagedExact(tree: Tree, d: TxDir, ops: seq<Operation>)
    requires ValidPlan(ops) && (d.staging.Some? ==> d.staging.value.Items <= Payloads(ops, 0).Items)
    ensures FirstFailing(ops, PayloadsAbsentOrExact(ops, Observed(tree, d, ops)), 0).None?
    ensures HasPayload(ops, Observed(tree, d, ops)) <==> !EmptyStaging(d)
    ensures !UnexpectedStagedContent(ops, Observed(tree, d, ops))
  {
    var obs := Observed(tree, d, ops);
    var all := Payloads(ops, 0);
    forall id | id in obs.staged ensures id in all && obs.staged[id] == all[id] {
      assert (id, obs.staged[id]) in all.Items;
    }
    NothingUnexpected(ops, obs);
    if !EmptyStaging(d) {
      var id :| id in obs.staged;
      assert ops[id - 1].operationId == id && WellShaped(ops[id - 1]);
      assert !Payload(obs, ops[id - 1].operationId).Missing?;
    }
  }

  /** What the publishing scan finds in order leads to the next thing to do. */
  lemma PublishingDecision(ops: seq<Operation>, p: Progress, obs: Observation, landed: nat)
    requires ValidPlan(ops) && landed <= |ops| && |p.published| <= landed <= |p.published| + 1
    requires LeadingResults(ops, obs) == landed
    requires FirstFailing(ops, AtExpected(ops, obs), landed).None?
    requires FirstFailing(ops, PayloadsInPlace(ops, obs, landed), 0).None?
    ensures DecidePublishing(ops, p, obs) ==
      if |p.published| < landed then RecordPublished(landed) else if landed == |ops| then Commit else Publish(landed + 1)
  {
    assert forall i | 0 <= i < |ops| :: ops[i].operationId == i + 1;
  }

  /** In these phases nothing but the observations can block the decision. */
  lemma DecisionReached(m: Manifest, p: Progress, obs: Observation)
    requires ValidIdentity(m, p) && ManifestFailure(m.operations).None? && ValidPublishedPrefix(p, m.operations)
    requires !UnexpectedStagedContent(m.operations, obs)
    ensures p.phase.Publishing? ==> Decide(m, p, obs) == DecidePublishing(m.operations, p, obs)
    ensures p.phase.Prepared? ==>
      FirstFailing(m.operations, AtExpected(m.operations, obs), 0).None? ==>
      FirstFailing(m.operations, PayloadsInPlace(m.operations, obs, 0), 0).None? ==> Decide(m, p, obs) == Abort
  {
  }

  lemma UnfinishedDecision(id: TxId, tree: Tree, d: TxDir, ops: seq<Operation>, base: Tree, landed: nat)
    requires ValidPlan(ops) && AllExpected(base, ops) && Layout(id, d, ops, landed)
    requires tree == Applied(base, ops, landed)
    requires d.progress.Some? && Bound(d, d.progress.value, ops)
    requires d.progress.value.phase.Prepared? || d.progress.value.phase.Publishing?
    ensures Expects(d, ops, landed, Decide(d.manifest.value.value, d.progress.value, Observed(tree, d, ops)))
  {
    var p, obs := d.progress.value, Observed(tree, d, ops);
    SoundManifest(ops);
    LeadingResultsExact(tree, d, ops, base, landed);
    assert ValidPublishedPrefix(p, ops);
    NothingUnexpected(ops, obs);
    StagedInPlace(tree, d, ops, landed);
    DecisionReached(d.manifest.value.value, p, obs);
    if p.phase.Publishing? {
      PublishingDecision(ops, p, obs, landed);
    }
  }

  lemma TerminalDecision(id: TxId, tree: Tree, d: TxDir, ops: seq<Operation>, base: Tree, landed: nat)
    requires ValidPlan(ops) && AllExpected(base, ops) && Layout(id, d, ops, landed)
    requires tree == Applied(base, ops, landed)
    requires d.progress.Some? && Bound(d, d.progress.value, ops) && Terminal(d)
    ensures Expects(d, ops, landed, Decide(d.manifest.value.value, d.progress.value, Observed(tree, d, ops)))
  {
    SoundManifest(ops);
    LeadingResultsExact(tree, d, ops, base, landed);
    assert ValidPublishedPrefix(d.progress.value, ops);
    StagedExact(tree, d, ops);
  }

  /** From every layout that is bound to its manifest the decision is the
      expected one, and in particular never `Blocked`. */
  lemma DecisionOfLayout(id: TxId, tree: Tree, d: TxDir, ops: seq<Operation>, base: Tree, landed: nat)
    requires ValidPlan(ops) && AllExpected(base, ops) && Layout(id, d, ops, landed)
    requires tree == Applied(base, ops, landed)
    requires d.progress.Some? && Bound(d, d.progress.value, ops)
    ensures Expects(d, ops, landed, Decide(d.manifest.value.value, d.progress.value, Observed(tree, d, ops)))
  {
    if Terminal(d) {
      TerminalDecision(id, tree, d, ops, base, landed);
    } else {
      UnfinishedDecision(id, tree, d, ops, base, landed);
    }
  }
}
