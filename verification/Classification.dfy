/** What a failure is answered with: `classifyPublishingState` and `finalizeTerminalProgress`. */
module Classification {
  import opened Options
  import opened Plans
  import opened Recovery
  import opened Layouts
  import opened Traces
  import opened DurableStore
  import opened Conduct
  import opened Execution
  import opened RecoveryDriver

  method LookAtParent(s: Store, ghost id: TxId, ops: seq<Operation>, count: nat, ghost fence: seq<Artifact>) returns (ready: bool)
    requires Sound(s, id, ops, fence) && count < |ops|
    requires s.quiet ==> s.landed == count && AllExpected(s.base, ops)
    modifies s`disk, s`trace
    ensures Sound(s, id, ops, fence)
    ensures s.disk.transactions == old(s.disk.transactions) && (s.quiet ==> s.disk == old(s.disk))
    ensures s.quiet ==> (ready <==> ParentReady(s.base, ops, count))
  {
    if s.quiet {
      ParentReadyExact(s.base, ops, count);
    }
    ghost var before := s.trace;
    var parent := s.Look(Parent(ops[count].path));
    AfterLooks(before, s.trace, ops, fence);
    ready := parent.Directory?;
  }

  /** `classifyPublishingState`: observe and decide again. Corrupt if nothing leads on
      from here, and otherwise recovery is required. */
  method ClassifyPublishing(s: Store, id: TxId, ops: seq<Operation>, ghost fence: seq<Artifact>) returns (reason: Reason)
    requires Sound(s, id, ops, fence) && FenceOf(fence, ops) && InPublishing(s.disk.transactions[id])
    modifies s`disk, s`trace
    ensures Sound(s, id, ops, fence)
    ensures s.disk.transactions == old(s.disk.transactions) && (s.quiet ==> s.disk == old(s.disk))
    ensures reason.StateCorrupt? || reason.RecoveryRequired?
    ensures s.quiet ==> (reason.StateCorrupt? <==> NoParent(s, id, ops))
  {
    var p := s.disk.transactions[id].progress.value;
    var decision := Consider(s, id, ops, p, Authority(ops), fence);
    match decision
    case Blocked(_) => reason := StateCorrupt;
    case Publish(number) =>
      var ready := LookAtParent(s, id, ops, number - 1, fence);
      reason := if ready then RecoveryRequired else StateCorrupt;
    case _ => reason := RecoveryRequired;
  }

  /** `finalizeTerminalProgress` of a transaction with nothing left to remove. */
  method FinalizeTerminal(s: Store, id: TxId, ghost ops: seq<Operation>, ghost fence: seq<Artifact>) returns (r: Outcome)
    requires Sound(s, id, ops, fence) && !Incomplete(s.disk.transactions[id])
    modifies s`disk, s`budget, s`trace, s`unsupported
    ensures Sound(s, id, ops, fence)
    ensures Others(s.disk, id) == Others(old(s.disk), id)
    ensures r.Died? || r.Receipt?
    ensures s.disk.transactions[id].progress.Some?
    ensures s.disk.transactions[id].progress.value.phase == old(s.disk).transactions[id].progress.value.phase
    ensures r.Receipt? ==> Finished(s.disk.transactions[id], r.phase)
    ensures Paid(old(s.budget), s.budget, 4, !r.Died?)
    ensures r.Receipt? ==> Synced(old(s.disk).transactions[id].progress.value.directorySync, r.directorySync, old(s.unsupported), s.unsupported)
    ensures old(s.unsupported) <= s.unsupported
  {
    var phase := s.disk.transactions[id].progress.value.phase;
    var observed := s.SyncDirectory();
    var alive, directorySync := ResyncTerminal(s, id, ops, fence, observed);
    r := if alive then Receipt(phase, directorySync) else Died;
  }

  method ResyncTerminal(s: Store, id: TxId, ghost ops: seq<Operation>, ghost fence: seq<Artifact>, observed: Sync) returns (alive: bool, directorySync: Sync)
    requires Sound(s, id, ops, fence) && !Incomplete(s.disk.transactions[id]) && !observed.NotAttempted?
    modifies s`disk, s`budget, s`trace, s`unsupported
    ensures Sound(s, id, ops, fence)
    ensures Others(s.disk, id) == Others(old(s.disk), id)
    ensures
      var d, after := old(s.disk).transactions[id], s.disk.transactions[id];
      && after == d.(progress := after.progress, next := after.next) && (alive ==> after.next.None?)
      && after.progress.Some? && SameButSync(after.progress.value, d.progress.value)
    ensures Paid(old(s.budget), s.budget, 4, alive)
    ensures
      var before := old(s.disk).transactions[id].progress.value.directorySync;
      alive ==> Synced(if observed.Unsupported? then Unsupported else before, directorySync, old(s.unsupported), s.unsupported)
    ensures old(s.unsupported) <= s.unsupported
  {
    ghost var d, trace := s.disk.transactions[id], s.trace;
    DisciplinedExtend(trace, Resynced, ops, fence);
    var next;
    alive, next := PersistTerminalDirectorySync(s, id, s.disk.transactions[id].progress.value, observed);
    directorySync := next.directorySync;
    TerminalAgain(id, d, s.disk.transactions[id], ops, s.landed, trace, Resynced);
  }
}
