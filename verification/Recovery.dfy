/** The recovery decision: what a crashed transaction's own documents and the
    observed destinations say must happen next. */
module Recovery {
  import opened Options
  import opened Plans

  type TxId = string

  datatype Manifest = Manifest(transactionId: TxId, createdAt: string, operations: seq<Operation>)

  /** Digests as the injective functions they are assumed to be. */
  datatype Token = OfIdentity(transactionId: TxId, createdAt: string) | OfManifest(manifest: Manifest)

  datatype Phase = Begun | Prepared | Publishing | Committed | Aborted

  datatype Sync = NotAttempted | Supported | Unsupported

  datatype Progress = Progress(
    transactionId: TxId,
    createdAt: string,
    manifestDigest: Option<Token>,
    recoveryToken: Token,
    phase: Phase,
    published: seq<nat>,
    directorySync: Sync)

  /** Destinations by path, staged payloads by the number in their name. */
  datatype Observation = Observation(destinations: map<Path, Fingerprint>, staged: map<nat, Fingerprint>)

  datatype Decision =
    | Abort
    | RecordPublished(operationId: nat)
    | Publish(operationId: nat)
    | Commit
    | Cleanup
    | Complete
    | Blocked(culprit: Option<nat>)

  predicate LegalTransition(from: Phase, to: Phase) {
    (from, to) in {(Begun, Prepared), (Begun, Aborted), (Prepared, Publishing), (Prepared, Aborted), (Publishing, Committed)}
  }

  /** Recovery never asks for a phase change that `assertPhaseTransition` refuses. */
  lemma DecisionsAreLegal(manifest: Manifest, progress: Progress, obs: Observation)
    ensures Decide(manifest, progress, obs).Abort? ==> LegalTransition(progress.phase, Aborted)
    ensures Decide(manifest, progress, obs).Commit? ==> LegalTransition(progress.phase, Committed)
  {
  }

  function Payload(obs: Observation, id: nat): Fingerprint {
    if id in obs.staged then obs.staged[id] else Missing
  }

  predicate DestinationIs(obs: Observation, path: Path, f: Fingerprint) {
    path in obs.destinations && obs.destinations[path] == f
  }

  predicate ValidIdentity(manifest: Manifest, progress: Progress) {
    && manifest.transactionId == progress.transactionId
    && manifest.createdAt == progress.createdAt
    && match progress.phase
       case Begun => true
       case Aborted => progress.manifestDigest.None? || progress.manifestDigest == Some(progress.recoveryToken)
       case _ => progress.manifestDigest == Some(progress.recoveryToken)
  }

  predicate ValidPublishedPrefix(progress: Progress, ops: seq<Operation>) {
    && |progress.published| <= |ops|
    && (forall i | 0 <= i < |progress.published| :: progress.published[i] == ops[i].operationId)
    && (forall i, j | 0 <= i < j < |progress.published| :: progress.published[i] != progress.published[j])
    && match progress.phase
       case Publishing => true
       case Committed => |progress.published| == |ops|
       case _ => progress.published == []
  }

  predicate UnexpectedStagedContent(ops: seq<Operation>, obs: Observation) {
    exists id <- obs.staged.Keys ::
      !obs.staged[id].Missing? && forall i | 0 <= i < |ops| :: ops[i].kind.WriteFile? ==> ops[i].operationId != id
  }

  /** The first operation from `i` on that fails the test `ok`, if any. */
  function FirstFailing(ops: seq<Operation>, ok: seq<bool>, i: nat): (r: Option<nat>)
    requires |ok| == |ops| && i <= |ops|
    ensures r.None? <==> forall j | i <= j < |ops| :: ok[j]
    decreases |ops| - i
  {
    if i == |ops| then None
    else if ok[i] then FirstFailing(ops, ok, i + 1)
    else Some(ops[i].operationId)
  }

  function AtExpected(ops: seq<Operation>, obs: Observation): (r: seq<bool>)
    ensures |r| == |ops| && forall i | 0 <= i < |ops| :: r[i] <==> DestinationIs(obs, ops[i].path, ops[i].expected)
  {
    seq(|ops|, i requires 0 <= i < |ops| => DestinationIs(obs, ops[i].path, ops[i].expected))
  }

  function AtResult(ops: seq<Operation>, obs: Observation): (r: seq<bool>)
    ensures |r| == |ops| && forall i | 0 <= i < |ops| :: r[i] <==> DestinationIs(obs, ops[i].path, ops[i].result)
  {
    seq(|ops|, i requires 0 <= i < |ops| => DestinationIs(obs, ops[i].path, ops[i].result))
  }

  /** Operation i's payload is as publishing with `results` published demands. */
  predicate PayloadInPlace(ops: seq<Operation>, obs: Observation, results: nat, i: nat)
    requires i < |ops|
  {
    ops[i].kind.WriteFile? ==>
      Payload(obs, ops[i].operationId) == if i < results then Missing else ops[i].result
  }

  function PayloadsInPlace(ops: seq<Operation>, obs: Observation, results: nat): (r: seq<bool>)
    ensures |r| == |ops| && forall i | 0 <= i < |ops| :: r[i] <==> PayloadInPlace(ops, obs, results, i)
  {
    seq(|ops|, i requires 0 <= i < |ops| => PayloadInPlace(ops, obs, results, i))
  }

  function PayloadsAbsentOrExact(ops: seq<Operation>, obs: Observation): (r: seq<bool>)
    ensures |r| == |ops| && forall i | 0 <= i < |ops| ::
      r[i] <==> (ops[i].kind.WriteFile? ==> Payload(obs, ops[i].operationId) in {Missing, ops[i].result})
  {
    seq(|ops|, i requires 0 <= i < |ops| =>
      ops[i].kind.WriteFile? ==> Payload(obs, ops[i].operationId) in {Missing, ops[i].result})
  }

  predicate HasPayload(ops: seq<Operation>, obs: Observation) {
    exists i | 0 <= i < |ops| :: ops[i].kind.WriteFile? && !Payload(obs, ops[i].operationId).Missing?
  }

  /** The end of the run of operations at their result that starts at `i`. */
  function LeadingResults(ops: seq<Operation>, obs: Observation, i: nat := 0): (n: nat)
    requires i <= |ops|
    ensures i <= n <= |ops|
    ensures forall j | i <= j < n :: DestinationIs(obs, ops[j].path, ops[j].result)
    ensures n < |ops| ==> !DestinationIs(obs, ops[n].path, ops[n].result)
    decreases |ops| - i
  {
    if i == |ops| || !DestinationIs(obs, ops[i].path, ops[i].result) then i
    else LeadingResults(ops, obs, i + 1)
  }

  /** An operation repeats an id, path or payload of an earlier one, or changes nothing. */
  predicate Repeats(ops: seq<Operation>, i: nat)
    requires i < |ops|
  {
    exists j | 0 <= j < i :: ops[j].operationId == ops[i].operationId || ops[j].path == ops[i].path
  }

  /** Outer None: the manifest is sound. Inner value: the id to report, if one is reported. */
  function ManifestFailure(ops: seq<Operation>, i: nat := 0): (r: Option<Option<nat>>)
    requires i <= |ops|
    ensures r.None? <==> forall j | i <= j < |ops| :: !Repeats(ops, j) && ops[j].expected != ops[j].result
    decreases |ops| - i
  {
    if i == |ops| then None
    else if Repeats(ops, i) then Some(None)
    else if ops[i].expected == ops[i].result then Some(Some(ops[i].operationId))
    else ManifestFailure(ops, i + 1)
  }

  function BlockedOr(culprit: Option<nat>, otherwise: Decision): Decision {
    if culprit.Some? then Blocked(culprit) else otherwise
  }

  function DecidePublishing(ops: seq<Operation>, progress: Progress, obs: Observation): Decision {
    var results := LeadingResults(ops, obs);
    var stray := FirstFailing(ops, AtExpected(ops, obs), results);
    if stray.Some? then Blocked(stray)
    else if results < |progress.published| then Blocked(Some(progress.published[results]))
    else
      var payload := FirstFailing(ops, PayloadsInPlace(ops, obs, results), 0);
      if payload.Some? then Blocked(payload)
      else if |progress.published| < results then RecordPublished(ops[|progress.published|].operationId)
      else if results == |ops| then Commit
      else Publish(ops[results].operationId)
  }

  function DecideTerminal(ops: seq<Operation>, obs: Observation): Decision {
    BlockedOr(FirstFailing(ops, PayloadsAbsentOrExact(ops, obs), 0),
              if HasPayload(ops, obs) then Cleanup else Complete)
  }

  function Decide(manifest: Manifest, progress: Progress, obs: Observation): Decision {
    var ops := manifest.operations;
    if !ValidIdentity(manifest, progress) then Blocked(None)
    else if ManifestFailure(ops).Some? then Blocked(ManifestFailure(ops).value)
    else if !ValidPublishedPrefix(progress, ops) then Blocked(None)
    else if UnexpectedStagedContent(ops, obs) then Blocked(None)
    else match progress.phase
      case Aborted => DecideTerminal(ops, obs)
      case Begun =>
        BlockedOr(FirstFailing(ops, AtExpected(ops, obs), 0),
          BlockedOr(FirstFailing(ops, PayloadsAbsentOrExact(ops, obs), 0), Abort))
      case Prepared =>
        BlockedOr(FirstFailing(ops, AtExpected(ops, obs), 0),
          BlockedOr(FirstFailing(ops, PayloadsInPlace(ops, obs, 0), 0), Abort))
      case Committed =>
        BlockedOr(FirstFailing(ops, AtResult(ops, obs), 0), DecideTerminal(ops, obs))
      case Publishing => DecidePublishing(ops, progress, obs)
  }

  /** The destination loop of the publishing decision: one pass that counts the
      operations at their result and remembers having passed an unpublished one. */
  method ScanDestinations(ops: seq<Operation>, obs: Observation) returns (observedResultCount: nat, stray: Option<nat>)
    requires forall i | 0 <= i < |ops| :: ops[i].expected != ops[i].result
    ensures stray == FirstFailing(ops, AtExpected(ops, obs), LeadingResults(ops, obs))
    ensures stray.None? ==> observedResultCount == LeadingResults(ops, obs)
  {
    observedResultCount := 0;
    var foundPrecondition := false;
    ghost var results := LeadingResults(ops, obs);
    ghost var expected := AtExpected(ops, obs);
    for index := 0 to |ops|
      invariant observedResultCount == if index < results then index else results
      invariant foundPrecondition <==> results < index
      invariant index >= results ==> FirstFailing(ops, expected, results) == FirstFailing(ops, expected, index)
    {
      var op := ops[index];
      if op.path !in obs.destinations {
        return observedResultCount, Some(op.operationId);
      }
      var destination := obs.destinations[op.path];
      if destination == op.result {
        if foundPrecondition {
          return observedResultCount, Some(op.operationId);
        }
        observedResultCount := observedResultCount + 1;
      } else if destination == op.expected {
        foundPrecondition := true;
      } else {
        return observedResultCount, Some(op.operationId);
      }
    }
    stray := None;
  }

  /** The payload loop of the publishing decision. */
  method ScanPayloads(ops: seq<Operation>, obs: Observation, observedResultCount: nat) returns (culprit: Option<nat>)
    ensures culprit == FirstFailing(ops, PayloadsInPlace(ops, obs, observedResultCount), 0)
  {
    ghost var inPlace := PayloadsInPlace(ops, obs, observedResultCount);
    for index := 0 to |ops|
      invariant FirstFailing(ops, inPlace, 0) == FirstFailing(ops, inPlace, index)
    {
      if ops[index].kind.WriteFile? {
        var payload := Payload(obs, ops[index].operationId);
        if payload != (if index < observedResultCount then Missing else ops[index].result) {
          return Some(ops[index].operationId);
        }
      }
    }
    culprit := None;
  }

  method DecidePublishingScan(ops: seq<Operation>, progress: Progress, obs: Observation) returns (d: Decision)
    requires forall i | 0 <= i < |ops| :: ops[i].expected != ops[i].result
    ensures d == DecidePublishing(ops, progress, obs)
  {
    var results, stray := ScanDestinations(ops, obs);
    if stray.Some? {
      return Blocked(stray);
    }
    if results < |progress.published| {
      return Blocked(Some(progress.published[results]));
    }
    var culprit := ScanPayloads(ops, obs, results);
    if culprit.Some? {
      return Blocked(culprit);
    }
    if |progress.published| < results {
      return RecordPublished(ops[|progress.published|].operationId);
    }
    d := if results == |ops| then Commit else Publish(ops[results].operationId);
  }

  /** `decideRecovery`. */
  method DecideRecovery(manifest: Manifest, progress: Progress, obs: Observation) returns (d: Decision)
    ensures d == Decide(manifest, progress, obs)
  {
    var ops := manifest.operations;
    if !ValidIdentity(manifest, progress) {
      return Blocked(None);
    }
    var failure := ManifestFailure(ops);
    if failure.Some? {
      return Blocked(failure.value);
    }
    if !ValidPublishedPrefix(progress, ops) || UnexpectedStagedContent(ops, obs) {
      return Blocked(None);
    }
    match progress.phase
    case Aborted =>
      d := DecideTerminal(ops, obs);
    case Begun =>
      var stray := FirstFailing(ops, AtExpected(ops, obs), 0);
      var culprit := FirstFailing(ops, PayloadsAbsentOrExact(ops, obs), 0);
      d := BlockedOr(stray, BlockedOr(culprit, Abort));
    case Prepared =>
      var stray := FirstFailing(ops, AtExpected(ops, obs), 0);
      var culprit := ScanPayloads(ops, obs, 0);
      d := BlockedOr(stray, BlockedOr(culprit, Abort));
    case Committed =>
      var stray := FirstFailing(ops, AtResult(ops, obs), 0);
      d := BlockedOr(stray, DecideTerminal(ops, obs));
    case Publishing =>
      d := DecidePublishingScan(ops, progress, obs);
  }
}
