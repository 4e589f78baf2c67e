/** `driveExecution`: stage, prepare, authorize, publish, commit, clean up. */
module Execution {
  import opened Options
  import opened Plans
  import opened Recovery
  import opened Layouts
  import opened Traces
  import opened DurableStore
  import opened Conduct

  /** The payloads of the writes among operations `from`+1 to `to`. */
  function PayloadsBetween(ops: seq<Operation>, from: nat, to: nat): map<nat, Fingerprint>
    requires to <= |ops|
  {
    map id: nat | from < id <= to && Writes(ops, id) :: ops[id - 1].result
  }

  /** Staging after removals: gone, or some of what was there. */
  ghost predicate Shrunk(before: Option<map<nat, Fingerprint>>, after: Option<map<nat, Fingerprint>>) {
    after.Some? ==> before.Some? && after.value.Items <= before.value.Items
  }

  /** Removing residue keeps a terminal transaction sound. */
  lemma CleanupKeeps(id: TxId, d: TxDir, after: TxDir, ops: seq<Operation>, landed: nat, trace: seq<Moment>)
    requires Terminal(d) && Shrunk(d.staging, after.staging)
    requires after == d.(staging := after.staging, next := after.next)
    ensures Kept(id, d, ops, trace) ==> Kept(id, after, ops, trace)
    ensures Layout(id, d, ops, landed) ==> Layout(id, after, ops, landed)
  {
    if after.staging.Some? {
      forall number | number in after.staging.value
        ensures number in d.staging.value && after.staging.value[number] == d.staging.value[number]
      {
        assert (number, after.staging.value[number]) in after.staging.value.Items;
        assert (number, after.staging.value[number]) in d.staging.value.Items;
      }
      if d.staging.value == map[] {
        assert after.staging.value == map[];
      }
    }
  }

  /** `cleanupTransaction`. */
  method CleanupTransaction(s: Store, id: TxId, ops: seq<Operation>, current: Sync) returns (stop: Option<Outcome>, directorySync: Sync)
    requires id in s.disk.transactions
    modifies s`disk, s`budget, s`unsupported
    ensures OnlyTouches(old(s.disk), s.disk, id)
    ensures
      var d := old(s.disk).transactions[id];
      var after := s.disk.transactions[id];
      && after == d.(staging := after.staging, next := after.next)
      && Shrunk(d.staging, after.staging)
      && (stop.None? ==> after == d.(staging := None, next := None))
    ensures stop.Some? ==> stop.value == Died || stop.value == Refused(StateCorrupt)
    ensures stop == Some(Refused(StateCorrupt)) ==> s.disk.transactions[id].staging.Some?
    ensures stop == Some(Refused(StateCorrupt)) ==>
      var staging := old(s.disk).transactions[id].staging;
      staging.Some? && exists number :: number in staging.value && forall i | 0 <= i < |ops| :: ops[i].kind.WriteFile? ==> ops[i].operationId != number
    ensures Paid(old(s.budget), s.budget, |ops| + 2, stop != Some(Died))
    ensures stop.None? ==> Synced(current, directorySync, old(s.unsupported), s.unsupported)
    ensures old(s.unsupported) <= s.unsupported
  {
    directorySync := current;
    ghost var d := s.disk.transactions[id];
    for i := 0 to |ops|
      invariant old(s.budget) <= s.budget + i
      invariant s.unsupported == old(s.unsupported)
      invariant OnlyTouches(old(s.disk), s.disk, id)
      invariant s.disk.transactions[id] == d.(staging := s.disk.transactions[id].staging)
      invariant Shrunk(d.staging, s.disk.transactions[id].staging)
      invariant d.staging.Some? ==> s.disk.transactions[id].staging.Some?
      invariant d.staging.Some? ==> forall number | number in s.disk.transactions[id].staging.value ::
        forall j | 0 <= j < i :: ops[j].kind.WriteFile? ==> ops[j].operationId != number
    {
      if ops[i].kind.WriteFile? {
        var staging := s.disk.transactions[id].staging;
        if staging.Some? && ops[i].operationId in staging.value {
          var alive := s.RemovePayload(id, ops[i].operationId);
          if !alive {
            return Some(Died), directorySync;
          }
        }
      }
    }
    var staging := s.disk.transactions[id].staging;
    if staging.Some? {
      if staging.value != map[] {
        ghost var number :| number in staging.value;
        assert (number, staging.value[number]) in staging.value.Items;
        assert (number, staging.value[number]) in d.staging.value.Items;
        return Some(Refused(StateCorrupt)), directorySync;
      }
      var alive := s.RemoveStaging(id);
      if !alive {
        return Some(Died), directorySync;
      }
    }
    if s.disk.transactions[id].next.Some? {
      var alive := s.RemoveNext(id);
      if !alive {
        return Some(Died), directorySync;
      }
    }
    var observed := s.SyncDirectory();
    return None, MergeDirectorySync(current, observed);
  }

  /** `persistTerminalDirectorySync`. */
  method PersistTerminalDirectorySync(s: Store, id: TxId, p: Progress, observed: Sync) returns (alive: bool, next: Progress)
    requires id in s.disk.transactions && s.disk.transactions[id].progress.Some?
    requires SameButSync(s.disk.transactions[id].progress.value, p)
    requires !p.directorySync.NotAttempted? && !observed.NotAttempted?
    requires !s.disk.transactions[id].progress.value.directorySync.NotAttempted?
    modifies s`disk, s`budget, s`trace, s`unsupported
    ensures SameButSync(next, p)
    ensures OnlyTouches(old(s.disk), s.disk, id)
    ensures
      var d := old(s.disk).transactions[id];
      var after := s.disk.transactions[id];
      && after == d.(progress := after.progress, next := after.next)
      && after.progress.Some? && SameButSync(after.progress.value, p)
      && (alive && d.next.None? ==> after.next.None?)
    ensures s.trace == old(s.trace) || s.trace == old(s.trace) + [Resynced]
    ensures Paid(old(s.budget), s.budget, 4, alive)
    ensures alive ==> Synced(if observed.Unsupported? then Unsupported else p.directorySync, next.directorySync, old(s.unsupported), s.unsupported)
    ensures old(s.unsupported) <= s.unsupported
    ensures !alive ==> s.disk.transactions[id].progress == old(s.disk).transactions[id].progress
    ensures !s.disk.transactions[id].progress.value.directorySync.NotAttempted?
    ensures alive && Remembers(old(s.disk).transactions[id].progress.value, p) ==> Remembers(s.disk.transactions[id].progress.value, next)
  {
    next := p.(directorySync := MergeDirectorySync(p.directorySync, observed));
    if next.directorySync == p.directorySync {
      return true, next;
    }
    var directorySync;
    alive, directorySync := PersistProgress(s, id, next, Resynced);
    next := next.(directorySync := directorySync);
  }

  /** A progress document of this transaction, bound to its manifest. */
  function BoundProgress(m: Manifest, phase: Phase, published: nat, directorySync: Sync): Progress {
    Progress(m.transactionId, m.createdAt, Some(OfManifest(m)), OfManifest(m), phase, Ids(published), directorySync)
  }

  /** The directory of an execution that has `published` operations on record. */
  ghost predicate Running(d: TxDir, m: Manifest, phase: Phase, published: nat, landed: nat) {
    && d.progress.Some? && SameButSync(d.progress.value, BoundProgress(m, phase, published, d.progress.value.directorySync))
    && !d.progress.value.directorySync.NotAttempted?
    && d.next.None?
    && Staged(d, m.operations, landed)
    && d.manifest == Some(Whole(m))
  }

  /** Until `prepared` is recorded the directory is either unmarked and bare, or
      marked as begun with anything in it. */
  ghost predicate Unprepared(d: TxDir, id: TxId) {
    if d.progress.None? then d.staging.None? && d.manifest.None?
    else
      var p := d.progress.value;
      p.phase.Begun? && p.transactionId == id && p.published == [] && Unbound(p) && !p.directorySync.NotAttempted?
  }

  lemma UnpreparedSound(s: Store, id: TxId, ops: seq<Operation>, fence: seq<Artifact>)
    requires ValidPlan(ops) && id in s.disk.transactions && Unprepared(s.disk.transactions[id], id)
    requires Disciplined(s.trace, ops, fence) && AllLandings(s.trace) == 0
    requires s.quiet ==> s.landed == 0 && s.disk.tree == s.base
    ensures Sound(s, id, ops, fence)
  {
    NoneLanded(s.trace);
  }

  /** Create the transaction directory and mark it as begun. */
  method Begin(s: Store, id: TxId, createdAt: string) returns (alive: bool, directorySync: Sync)
    requires id !in s.disk.transactions
    modifies s`disk, s`budget, s`trace, s`unsupported
    ensures alive ==> id in s.disk.transactions
    ensures alive ==> s.disk.transactions[id].progress.Some? && s.disk.transactions[id].(progress := None) == TxDir(None, None, None, None)
    ensures s.disk == old(s.disk) || (OnlyTouches(old(s.disk), s.disk, id) && Unprepared(s.disk.transactions[id], id))
    ensures s.trace == old(s.trace) || s.trace == old(s.trace) + [Recorded(Begun)]
    ensures Paid(old(s.budget), s.budget, 5, alive)
    ensures alive ==> Synced(NotAttempted, directorySync, old(s.unsupported), s.unsupported)
    ensures old(s.unsupported) <= s.unsupported
  {
    directorySync := NotAttempted;
    alive := s.CreateRoot(id);
    if !alive {
      return;
    }
    var observed := s.SyncDirectory();
    directorySync := MergeDirectorySync(directorySync, observed);
    alive, directorySync := PersistProgress(s, id,
      Progress(id, createdAt, None, OfIdentity(id, createdAt), Begun, [], directorySync), Recorded(Begun));
  }

  lemma NextPayload(ops: seq<Operation>, i: nat)
    requires i < |ops| && ops[i].operationId == i + 1
    ensures PayloadsBetween(ops, 0, i + 1) ==
      if ops[i].kind.WriteFile? then PayloadsBetween(ops, 0, i)[i + 1 := ops[i].result] else PayloadsBetween(ops, 0, i)
  {
  }

  /** Write the payloads and then the manifest. */
  method WritePayloads(s: Store, m: Manifest, current: Sync) returns (alive: bool, directorySync: Sync)
    requires ValidPlan(m.operations) && m.transactionId in s.disk.transactions
    requires
      var d := s.disk.transactions[m.transactionId];
      d.progress.Some? && d.(progress := None) == TxDir(None, None, None, None)
    modifies s`disk, s`budget, s`unsupported
    ensures OnlyTouches(old(s.disk), s.disk, m.transactionId)
    ensures
      var d := old(s.disk).transactions[m.transactionId];
      var after := s.disk.transactions[m.transactionId];
      && after.progress == d.progress
      && (alive ==> after == TxDir(d.progress, None, Some(Payloads(m.operations, 0)), Some(Whole(m))))
    ensures Paid(old(s.budget), s.budget, 2 * |m.operations| + 3, alive)
    ensures alive ==> Synced(current, directorySync, old(s.unsupported), s.unsupported)
    ensures old(s.unsupported) <= s.unsupported
  {
    var id, ops := m.transactionId, m.operations;
    directorySync := current;
    ghost var progress := s.disk.transactions[id].progress;
    alive := s.CreateStaging(id);
    if !alive {
      return;
    }
    var observed := s.SyncDirectory();
    directorySync := MergeDirectorySync(directorySync, observed);
    for i := 0 to |ops|
      invariant OnlyTouches(old(s.disk), s.disk, id)
      invariant s.disk.transactions[id] == TxDir(progress, None, Some(PayloadsBetween(ops, 0, i)), None)
      invariant old(s.budget) <= s.budget + 2 * i + 1
      invariant Synced(current, directorySync, old(s.unsupported), s.unsupported)
    {
      assert ops[i].operationId == i + 1;
      if ops[i].kind.WriteFile? {
        alive := s.WritePayload(id, ops[i].operationId, ops[i].result);
        if !alive {
          return;
        }
        observed := s.SyncDirectory();
        directorySync := MergeDirectorySync(directorySync, observed);
      }
      NextPayload(ops, i);
    }
    assert PayloadsBetween(ops, 0, |ops|) == Payloads(ops, 0);
    alive := s.WriteManifest(id, m);
    if alive {
      observed := s.SyncDirectory();
      directorySync := MergeDirectorySync(directorySync, observed);
    }
  }

  /** The guards are met before the plan, after each of its operations and in the end. */
  ghost predicate GuardsStand(base: Tree, ops: seq<Operation>, guards: seq<Want>) {
    forall k | 0 <= k <= |ops| :: Met(Applied(base, ops, k), guards)
  }

  /** Nothing in the starting tree stands in the plan's way. */
  ghost predicate Unimpeded(base: Tree, ops: seq<Operation>, guards: seq<Want>) {
    AllExpected(base, ops) && ParentsReady(base, ops) && GuardsStand(base, ops, guards)
  }

  ghost predicate FenceOf(fence: seq<Artifact>, ops: seq<Operation>) {
    fence == [] || fence == Authority(ops)
  }

  /** The fence stands at every point of a publication without other writers. */
  lemma FenceStands(base: Tree, ops: seq<Operation>, fence: seq<Artifact>, k: nat)
    requires ValidPlan(ops) && AllExpected(base, ops) && FenceOf(fence, ops) && k <= |ops|
    ensures Met(Applied(base, ops, k), WantsOfFence(fence))
  {
    AppliedDestinations(base, ops, k);
  }

  /** Operation number i+1 puts something on a guarded path that is not allowed there. */
  ghost predicate Spoils(ops: seq<Operation>, guards: seq<Want>, i: nat)
    requires i < |ops|
  {
    exists w | w in guards :: w.path == ops[i].path && ops[i].result !in w.allowed
  }

  /** Whether the guards stand after `k` operations can be read off the starting tree
      and the plan. */
  lemma GuardsReadOff(base: Tree, ops: seq<Operation>, guards: seq<Want>, k: nat)
    requires ValidPlan(ops) && k <= |ops| && Met(base, guards)
    ensures Met(Applied(base, ops, k), guards) <==> forall i | 0 <= i < k :: !Spoils(ops, guards, i)
  {
    if Met(Applied(base, ops, k), guards) {
      forall i, w | 0 <= i < k && w in guards && w.path == ops[i].path ensures ops[i].result in w.allowed {
        AppliedAt(base, ops, k, w.path);
      }
    }
    if forall i | 0 <= i < k :: !Spoils(ops, guards, i) {
      forall w | w in guards ensures At(Applied(base, ops, k), w.path) in w.allowed {
        AppliedAt(base, ops, k, w.path);
        if i :| 0 <= i < k && ops[i].path == w.path {
          assert !Spoils(ops, guards, i);
        }
      }
    }
  }

  /** With `k` operations landed the guards stand, and the next parent is there. */
  ghost predicate Passes(base: Tree, ops: seq<Operation>, guards: seq<Want>, k: nat)
    requires k <= |ops|
  {
    Met(Applied(base, ops, k), guards) && (k < |ops| ==> ParentReady(base, ops, k))
  }

  /** The publication comes to a halt with `k` operations landed. */
  ghost predicate StopsAt(base: Tree, ops: seq<Operation>, guards: seq<Want>, k: nat)
    requires k <= |ops|
  {
    !Passes(base, ops, guards, k) && forall j | 0 <= j < k :: Passes(base, ops, guards, j)
  }

  lemma StopsOnce(base: Tree, ops: seq<Operation>, guards: seq<Want>, j: nat, k: nat)
    requires j <= |ops| && k <= |ops| && StopsAt(base, ops, guards, j) && StopsAt(base, ops, guards, k)
    ensures j == k
  {
  }

  /** A plan that expects what is there is unimpeded unless it is stopped somewhere. */
  lemma NeverStopped(base: Tree, ops: seq<Operation>, guards: seq<Want>)
    requires AllExpected(base, ops)
    ensures Unimpeded(base, ops, guards) <==> forall k | 0 <= k <= |ops| :: Passes(base, ops, guards, k)
  {
    if Unimpeded(base, ops, guards) {
      forall k | 0 <= k <= |ops| ensures Passes(base, ops, guards, k) {
      }
    }
    if forall k | 0 <= k <= |ops| :: Passes(base, ops, guards, k) {
      forall k | 0 <= k <= |ops| ensures Met(Applied(base, ops, k), guards) && (k < |ops| ==> ParentReady(base, ops, k)) {
        assert Passes(base, ops, guards, k);
      }
    }
  }

  /** A publication is stopped, and recovery can go on from there. */
  ghost predicate Interrupted(base: Tree, ops: seq<Operation>, guards: seq<Want>) {
    exists k | 0 <= k <= |ops| :: StopsAt(base, ops, guards, k) && (k < |ops| ==> ParentReady(base, ops, k))
  }

  /** A publication is stopped where nobody creates the next parent. */
  ghost predicate Stranded(base: Tree, ops: seq<Operation>, guards: seq<Want>) {
    exists k | 0 <= k < |ops| :: StopsAt(base, ops, guards, k) && !ParentReady(base, ops, k)
  }

  /** The first operation that spoils a guard is reached, and so is the one after it. */
  ghost predicate SpoiledFirst(base: Tree, ops: seq<Operation>, guards: seq<Want>, i: nat)
    requires i < |ops|
  {
    && Spoils(ops, guards, i)
    && (forall j | 0 <= j < i :: !Spoils(ops, guards, j))
    && (forall j | 0 <= j < |ops| && j <= i + 1 :: ParentReady(base, ops, j))
  }

  lemma SpoiledStops(base: Tree, ops: seq<Operation>, guards: seq<Want>, i: nat)
    requires ValidPlan(ops) && Met(base, guards) && i < |ops| && SpoiledFirst(base, ops, guards, i)
    ensures StopsAt(base, ops, guards, i + 1) && (i + 1 < |ops| ==> ParentReady(base, ops, i + 1))
  {
    forall k | 0 <= k <= i + 1 ensures Passes(base, ops, guards, k) <==> k <= i {
      GuardsReadOff(base, ops, guards, k);
    }
  }

  lemma StopIsSpoiled(base: Tree, ops: seq<Operation>, guards: seq<Want>, k: nat)
    requires ValidPlan(ops) && Met(base, guards) && k <= |ops|
    requires StopsAt(base, ops, guards, k) && (k < |ops| ==> ParentReady(base, ops, k))
    ensures k > 0 && SpoiledFirst(base, ops, guards, k - 1)
  {
    GuardsReadOff(base, ops, guards, k);
    PassedUpTo(base, ops, guards, k);
    GuardsReadOff(base, ops, guards, k - 1);
  }

  lemma PassedUpTo(base: Tree, ops: seq<Operation>, guards: seq<Want>, k: nat)
    requires Met(base, guards) && k <= |ops|
    requires StopsAt(base, ops, guards, k) && (k < |ops| ==> ParentReady(base, ops, k))
    ensures k > 0 && Met(Applied(base, ops, k - 1), guards)
    ensures forall j | 0 <= j < |ops| && j <= k :: ParentReady(base, ops, j)
  {
    assert k > 0 ==> Passes(base, ops, guards, k - 1);
    forall j | 0 <= j < |ops| && j <= k ensures ParentReady(base, ops, j) {
      assert j < k ==> Passes(base, ops, guards, j);
    }
  }

  /** Whether a plan would be interrupted can be read off the starting tree and the plan. */
  lemma InterruptedReadOff(base: Tree, ops: seq<Operation>, guards: seq<Want>)
    requires ValidPlan(ops) && Met(base, guards)
    ensures Interrupted(base, ops, guards) <==> exists i | 0 <= i < |ops| :: SpoiledFirst(base, ops, guards, i)
  {
    if k :| 0 <= k <= |ops| && StopsAt(base, ops, guards, k) && (k < |ops| ==> ParentReady(base, ops, k)) {
      StopIsSpoiled(base, ops, guards, k);
    }
    if i :| 0 <= i < |ops| && SpoiledFirst(base, ops, guards, i) {
      SpoiledStops(base, ops, guards, i);
    }
  }

  /** What stands in the way of an execution without other writers: `stores` is looked
      at once, before anything is written. */
  ghost function Obstacle(tree: Tree, ops: seq<Operation>, stores: seq<Want>, guards: seq<Want>, fence: seq<Artifact>): Option<Reason> {
    if !Met(tree, stores) || !Met(tree, guards) then Some(RevisionConflict)
    else if !Met(tree, WantsOfFence(fence)) then Some(LeaseConflict)
    else if !AllExpected(tree, ops) then Some(RevisionConflict)
    else if Stranded(tree, ops, guards) then Some(StateCorrupt)
    else if Interrupted(tree, ops, guards) then Some(RecoveryRequired)
    else None
  }

  /** Nothing is in the way of exactly the unimpeded plans, and recovery will be
      required exactly after those that spoil their own guards when they could go on. */
  lemma ObstacleExact(tree: Tree, ops: seq<Operation>, stores: seq<Want>, guards: seq<Want>, fence: seq<Artifact>)
    requires ValidPlan(ops) && FenceOf(fence, ops)
    ensures Obstacle(tree, ops, stores, guards, fence).None? <==> Met(tree, stores) && Unimpeded(tree, ops, guards)
    ensures Obstacle(tree, ops, stores, guards, fence) == Some(RecoveryRequired) <==>
      && Met(tree, stores) && Met(tree, guards) && AllExpected(tree, ops)
      && exists i | 0 <= i < |ops| :: SpoiledFirst(tree, ops, guards, i)
  {
    assert Applied(tree, ops, 0) == tree;
    if AllExpected(tree, ops) {
      FenceStands(tree, ops, fence, 0);
      NeverStopped(tree, ops, guards);
      StoppedSomewhere(tree, ops, guards);
    }
    if Met(tree, guards) {
      InterruptedReadOff(tree, ops, guards);
    }
  }

  /** A plan is stopped somewhere exactly if it is interrupted or stranded, never both. */
  lemma StoppedSomewhere(base: Tree, ops: seq<Operation>, guards: seq<Want>)
    ensures (forall k | 0 <= k <= |ops| :: Passes(base, ops, guards, k)) <==> !Interrupted(base, ops, guards) && !Stranded(base, ops, guards)
    ensures !(Interrupted(base, ops, guards) && Stranded(base, ops, guards))
  {
    if k :| 0 <= k <= |ops| && !Passes(base, ops, guards, k) {
      var first := FirstStop(base, ops, guards, k);
    }
    forall j, k | 0 <= j <= |ops| && 0 <= k <= |ops| && StopsAt(base, ops, guards, j) && StopsAt(base, ops, guards, k)
      ensures j == k
    {
      StopsOnce(base, ops, guards, j, k);
    }
  }

  lemma {:induction false} FirstStop(base: Tree, ops: seq<Operation>, guards: seq<Want>, k: nat) returns (first: nat)
    requires k <= |ops| && !Passes(base, ops, guards, k)
    ensures first <= k && StopsAt(base, ops, guards, first)
  {
    if j :| 0 <= j < k && !Passes(base, ops, guards, j) {
      first := FirstStop(base, ops, guards, j);
    } else {
      first := k;
    }
  }

  /** A halted publication, and what is in its way. */
  lemma HaltedObstacle(base: Tree, ops: seq<Operation>, stores: seq<Want>, guards: seq<Want>, fence: seq<Artifact>, landed: nat)
    requires Met(base, stores) && Met(base, guards) && Met(base, WantsOfFence(fence)) && AllExpected(base, ops)
    requires landed <= |ops| && StopsAt(base, ops, guards, landed)
    ensures Obstacle(base, ops, stores, guards, fence) ==
      Some(if landed < |ops| && !ParentReady(base, ops, landed) then StateCorrupt else RecoveryRequired)
  {
    StoppedSomewhere(base, ops, guards);
  }

  /** What stops a publication with `count` operations landed, and when it may. */
  ghost predicate Stopped(stop: Outcome, s: Store, ops: seq<Operation>, guards: seq<Want>, count: nat)
    requires count <= |ops|
    reads s
  {
    && (stop.Died? || (stop.Refused? && !stop.reason.RecoveryRequired?))
    && (stop.Refused? && s.quiet ==> !stop.reason.LeaseConflict? && s.landed == count && !Passes(s.base, ops, guards, count))
  }

  /** A running directory is kept and laid out as it should be. */
  lemma RunningKept(d: TxDir, m: Manifest, phase: Phase, count: nat, ops: seq<Operation>, trace: seq<Moment>)
    requires ops == m.operations && ValidPlan(ops) && count <= |ops|
    requires Running(d, m, phase, count, count) && phase in {Prepared, Publishing, Committed}
    requires phase.Prepared? ==> count == 0 && AllLandings(trace) == 0
    requires phase.Committed? ==> count == |ops|
    requires Once(d, ops, trace)
    ensures Kept(m.transactionId, d, ops, trace) && Layout(m.transactionId, d, ops, count)
    ensures Bound(d, d.progress.value, ops)
  {
  }

  /** Persist a progress document bound to the manifest, with `count` operations
      landed and on record. */
  method Record(s: Store, m: Manifest, phase: Phase, count: nat, current: Sync, ghost fence: seq<Artifact>) returns (alive: bool, directorySync: Sync)
    requires Sound(s, m.transactionId, m.operations, fence)
    requires phase in {Prepared, Publishing, Committed} && count <= |m.operations|
    requires phase.Prepared? ==> count == 0 && AllLandings(s.trace) == 0
    requires phase.Committed? ==> count == |m.operations| && AllConfirmed(s.trace, m.operations)
    requires s.disk.transactions[m.transactionId].manifest == Some(Whole(m))
    requires Staged(s.disk.transactions[m.transactionId], m.operations, count)
    requires s.quiet ==> s.landed == count && AllExpected(s.base, m.operations)
    requires !current.NotAttempted?
    modifies s`disk, s`budget, s`trace, s`unsupported
    ensures Sound(s, m.transactionId, m.operations, fence)
    ensures OnlyTouches(old(s.disk), s.disk, m.transactionId)
    ensures alive ==> Running(s.disk.transactions[m.transactionId], m, phase, count, count)
    ensures alive ==> s.trace == old(s.trace) + [Recorded(phase)]
    ensures !alive ==> s.trace == old(s.trace) && s.disk.transactions[m.transactionId].progress == old(s.disk).transactions[m.transactionId].progress
    ensures Paid(old(s.budget), s.budget, 4, alive)
    ensures alive ==> Synced(current, directorySync, old(s.unsupported), s.unsupported)
    ensures old(s.unsupported) <= s.unsupported
    ensures alive ==> s.disk.transactions[m.transactionId].progress.value.directorySync == current
  {
    AfterMoment(s.trace, Recorded(phase));
    var p := BoundProgress(m, phase, count, current);
    ghost var after := s.disk.transactions[m.transactionId].(progress := Some(p), next := None);
    RunningKept(after, m, phase, count, m.operations, s.trace + [Recorded(phase)]);
    var next;
    alive, next := Advance(s, m.transactionId, m.operations, p, fence);
    directorySync := next.directorySync;
  }

  /** The guards, then the preconditions. */
  method CheckBeforePreparing(s: Store, m: Manifest, guards: seq<Want>, ghost fence: seq<Artifact>) returns (stop: Option<Outcome>)
    requires Sound(s, m.transactionId, m.operations, fence)
    modifies s`disk, s`trace
    ensures Sound(s, m.transactionId, m.operations, fence) && OnlyLooks(old(s.trace), s.trace)
    ensures s.disk.transactions == old(s.disk.transactions) && (s.quiet ==> s.disk == old(s.disk))
    ensures stop.Some? ==> stop.value == Refused(RevisionConflict)
    ensures s.quiet ==> (stop.None? <==> Met(s.disk.tree, guards) && AllExpected(s.disk.tree, m.operations))
  {
    ghost var before := s.trace;
    var met := CheckAll(s, guards);
    AfterLooks(before, s.trace, m.operations, fence);
    if !met {
      return Some(Refused(RevisionConflict));
    }
    before := s.trace;
    met := CheckAll(s, WantsExpected(m.operations));
    AfterLooks(before, s.trace, m.operations, fence);
    stop := if met then None else Some(Refused(RevisionConflict));
  }

  /** The lease authority, then the guards. */
  method CheckAuthorityAndGuards(s: Store, m: Manifest, guards: seq<Want>, fence: seq<Artifact>) returns (stop: Option<Outcome>)
    requires Sound(s, m.transactionId, m.operations, fence)
    modifies s`disk, s`trace
    ensures Sound(s, m.transactionId, m.operations, fence) && OnlyLooks(old(s.trace), s.trace)
    ensures s.disk.transactions == old(s.disk.transactions) && (s.quiet ==> s.disk == old(s.disk))
    ensures stop.Some? ==> stop.value.Refused? && !stop.value.reason.RecoveryRequired?
    ensures stop.None? ==> AllHeld(s.trace, fence)
    ensures s.quiet ==> (stop.None? <==> Met(s.disk.tree, WantsOfFence(fence)) && Met(s.disk.tree, guards))
    ensures s.quiet && stop == Some(Refused(LeaseConflict)) ==> !Met(s.disk.tree, WantsOfFence(fence))
  {
    ghost var before := s.trace;
    var met := CheckAll(s, WantsOfFence(fence));
    AfterLooks(before, s.trace, m.operations, fence);
    if !met {
      return Some(Refused(LeaseConflict));
    }
    forall i | 0 <= i < |fence| ensures Held(s.trace, fence[i]) {
      assert WantsOfFence(fence)[i] in WantsOfFence(fence);
    }
    before := s.trace;
    met := CheckAll(s, guards);
    AfterLooks(before, s.trace, m.operations, fence);
    stop := if met then None else Some(Refused(RevisionConflict));
  }

  /** Marked, and not yet authorized to publish. */
  predicate Unauthorized(d: TxDir) {
    d.progress.Some? && (d.progress.value.phase.Begun? || d.progress.value.phase.Prepared?)
  }

  /** Check the preconditions, record `prepared`, check again, record `publishing`. */
  method Authorize(s: Store, m: Manifest, guards: seq<Want>, fence: seq<Artifact>, current: Sync) returns (stop: Option<Outcome>, directorySync: Sync)
    requires Sound(s, m.transactionId, m.operations, fence) && FenceOf(fence, m.operations)
    requires
      var d := s.disk.transactions[m.transactionId];
      && d == TxDir(d.progress, None, Some(Payloads(m.operations, 0)), Some(Whole(m)))
      && d.progress.Some? && d.progress.value.phase.Begun?
    requires !current.NotAttempted?
    modifies s`disk, s`budget, s`trace, s`unsupported
    ensures Sound(s, m.transactionId, m.operations, fence)
    ensures Others(s.disk, m.transactionId) == Others(old(s.disk), m.transactionId)
    ensures stop.Some? ==> stop.value.Died? || (stop.value.Refused? && !stop.value.reason.RecoveryRequired?)
    ensures stop.Some? ==> Unauthorized(s.disk.transactions[m.transactionId])
    ensures stop.Some? && stop.value.Refused? && s.quiet ==>
      && stop.value.reason.RevisionConflict? && s.disk.transactions[m.transactionId].progress.value.phase.Begun?
      && !(Met(s.base, guards) && AllExpected(s.base, m.operations))
    ensures stop.None? ==> Running(s.disk.transactions[m.transactionId], m, Publishing, 0, 0)
    ensures stop.None? && s.quiet ==> Met(s.base, guards) && AllExpected(s.base, m.operations)
    ensures Paid(old(s.budget), s.budget, 8, stop != Some(Died))
    ensures stop.None? ==> Synced(current, directorySync, old(s.unsupported), s.unsupported)
    ensures old(s.unsupported) <= s.unsupported
  {
    var id, ops := m.transactionId, m.operations;
    directorySync := current;
    stop := CheckBeforePreparing(s, m, guards, fence);
    if stop.Some? {
      return;
    }
    if s.quiet {
      assert Applied(s.base, ops, 0) == s.base;
      if AllExpected(s.base, ops) {
        FenceStands(s.base, ops, fence, 0);
      }
    }
    var alive;
    alive, directorySync := Record(s, m, Prepared, 0, current, fence);
    if !alive {
      return Some(Died), directorySync;
    }
    stop, directorySync := AuthorizePrepared(s, m, guards, fence, directorySync);
  }

  /** Check authority and guards again, and record `publishing`. */
  method AuthorizePrepared(s: Store, m: Manifest, guards: seq<Want>, fence: seq<Artifact>, current: Sync) returns (stop: Option<Outcome>, directorySync: Sync)
    requires Sound(s, m.transactionId, m.operations, fence) && FenceOf(fence, m.operations)
    requires Running(s.disk.transactions[m.transactionId], m, Prepared, 0, 0)
    requires s.quiet ==> s.landed == 0 && Met(s.base, guards) && AllExpected(s.base, m.operations)
    requires !current.NotAttempted?
    modifies s`disk, s`budget, s`trace, s`unsupported
    ensures Sound(s, m.transactionId, m.operations, fence)
    ensures Others(s.disk, m.transactionId) == Others(old(s.disk), m.transactionId)
    ensures stop.Some? ==> stop.value.Died? || (stop.value.Refused? && !stop.value.reason.RecoveryRequired? && !s.quiet)
    ensures stop.Some? ==> Unauthorized(s.disk.transactions[m.transactionId])
    ensures stop.None? ==> Running(s.disk.transactions[m.transactionId], m, Publishing, 0, 0)
    ensures Paid(old(s.budget), s.budget, 4, stop != Some(Died))
    ensures stop.None? ==> Synced(current, directorySync, old(s.unsupported), s.unsupported)
    ensures old(s.unsupported) <= s.unsupported
  {
    directorySync := current;
    if s.quiet {
      assert Applied(s.base, m.operations, 0) == s.base;
      FenceStands(s.base, m.operations, fence, 0);
    }
    stop := CheckAuthorityAndGuards(s, m, guards, fence);
    if stop.Some? {
      return;
    }
    var alive;
    alive, directorySync := Record(s, m, Publishing, 0, current, fence);
    stop := if alive then None else Some(Died);
  }

  /** The directory after operation number `count`+1 has landed. */
  lemma LandedKept(d: TxDir, after: TxDir, m: Manifest, count: nat, trace: seq<Moment>)
    requires ValidPlan(m.operations) && count < |m.operations|
    requires Running(d, m, Publishing, count, count) && Kept(m.transactionId, d, m.operations, trace)
    requires after == if Writes(m.operations, count + 1)
      then d.(staging := Some(d.staging.value - {count + 1})) else d
    ensures Running(after, m, Publishing, count, count + 1)
    ensures Kept(m.transactionId, after, m.operations, trace + [Landed(count + 1)])
    ensures Layout(m.transactionId, after, m.operations, count + 1)
  {
    AfterMoment(trace, Landed(count + 1));
    assert after.staging.value == Payloads(m.operations, count + 1);
  }

  /** `assertPublishable`: the parent is a directory and the destination as expected. */
  method CheckPublishable(s: Store, op: Operation) returns (stop: Option<Outcome>)
    modifies s`disk, s`trace
    ensures OnlyLooks(old(s.trace), s.trace)
    ensures s.disk.transactions == old(s.disk.transactions) && (s.quiet ==> s.disk == old(s.disk))
    ensures stop.Some? ==> stop.value == Refused(StateCorrupt) || stop.value == Refused(RevisionConflict)
    ensures stop.None? ==> LastSeen(s.trace, op.path) == Some(op.expected)
    ensures s.quiet ==> (stop.None? <==> At(s.disk.tree, Parent(op.path)).Directory? && At(s.disk.tree, op.path) == op.expected)
  {
    var parent := s.Look(Parent(op.path));
    if !parent.Directory? {
      return Some(Refused(StateCorrupt));
    }
    var observed := s.Look(op.path);
    Extend(old(s.trace) + [Looked(Parent(op.path), parent)], Looked(op.path, observed));
    stop := if observed == op.expected then None else Some(Refused(RevisionConflict));
  }

  /** Everything looked at before operation `count`+1 may land. */
  method CheckNext(s: Store, m: Manifest, guards: seq<Want>, fence: seq<Artifact>, count: nat) returns (stop: Option<Outcome>)
    requires Sound(s, m.transactionId, m.operations, fence) && FenceOf(fence, m.operations)
    requires count < |m.operations|
    requires s.quiet ==> s.landed == count && AllExpected(s.base, m.operations)
    modifies s`disk, s`trace
    ensures Sound(s, m.transactionId, m.operations, fence)
    ensures s.disk.transactions == old(s.disk.transactions)
    ensures stop.Some? ==> stop.value.Refused? && Stopped(stop.value, s, m.operations, guards, count)
    ensures stop.None? ==> MayFollow(s.trace, Landed(count + 1), m.operations, fence)
    ensures s.quiet && stop.None? ==> Passes(s.base, m.operations, guards, count)
    ensures s.quiet && stop.None? ==> At(s.disk.tree, Parent(m.operations[count].path)).Directory?
  {
    var ops, op := m.operations, m.operations[count];
    if s.quiet {
      ParentReadyExact(s.base, ops, count);
      AppliedDestinations(s.base, ops, count);
      FenceStands(s.base, ops, fence, count);
    }
    stop := CheckAuthorityAndGuards(s, m, guards, fence);
    if stop.None? {
      ghost var before := s.trace;
      stop := CheckPublishable(s, op);
      AfterLooks(before, s.trace, ops, fence);
    }
  }

  /** Operation `count`+1 lands, right after the looks that allow it. */
  method CheckAndPublish(s: Store, m: Manifest, guards: seq<Want>, fence: seq<Artifact>, count: nat) returns (stop: Option<Outcome>)
    requires Sound(s, m.transactionId, m.operations, fence) && FenceOf(fence, m.operations)
    requires count < |m.operations| && Running(s.disk.transactions[m.transactionId], m, Publishing, count, count)
    requires s.quiet ==> s.landed == count
    modifies s`disk, s`budget, s`trace, s`landed
    ensures Sound(s, m.transactionId, m.operations, fence)
    ensures Others(s.disk, m.transactionId) == Others(old(s.disk), m.transactionId)
    ensures stop.Some? ==> Stopped(stop.value, s, m.operations, guards, count)
    ensures stop.Some? ==> s.disk.transactions == old(s.disk.transactions)
    ensures stop.None? ==> Running(s.disk.transactions[m.transactionId], m, Publishing, count, count + 1)
    ensures s.quiet ==> s.landed == if stop.None? then count + 1 else count
    ensures s.quiet && stop.None? ==> Passes(s.base, m.operations, guards, count)
    ensures Paid(old(s.budget), s.budget, 1, stop != Some(Died))
  {
    stop := CheckNext(s, m, guards, fence, count);
    if stop.None? {
      if s.quiet {
        NextGoesThrough(s.disk, m, s.base, count);
      }
      stop := PublishChecked(s, m, guards, fence, count);
    }
  }

  /** What a landing writes is the operation's result. */
  lemma LandedTree(disk: Disk, id: TxId, ops: seq<Operation>, base: Tree, count: nat)
    requires ValidPlan(ops) && count < |ops| && id in disk.transactions && disk.tree == Applied(base, ops, count)
    requires Staged(disk.transactions[id], ops, count) && Publishable(disk, id, ops[count])
    ensures disk.tree[ops[count].path := PublishedAs(disk, id, ops[count])] == Applied(base, ops, count + 1)
    ensures At(Applied(base, ops, count + 1), ops[count].path) == ops[count].result
  {
    assert WellShaped(ops[count]) && ops[count].operationId == count + 1;
  }

  /** With its parent there, the next operation goes through. */
  lemma NextGoesThrough(disk: Disk, m: Manifest, base: Tree, count: nat)
    requires ValidPlan(m.operations) && AllExpected(base, m.operations) && count < |m.operations|
    requires m.transactionId in disk.transactions && disk.tree == Applied(base, m.operations, count)
    requires Running(disk.transactions[m.transactionId], m, Publishing, count, count)
    requires At(disk.tree, Parent(m.operations[count].path)).Directory?
    ensures Publishable(disk, m.transactionId, m.operations[count])
  {
    AppliedDestinations(base, m.operations, count);
    assert WellShaped(m.operations[count]) && m.operations[count].operationId == count + 1;
  }

  /** The directory after the next operation has landed, still unrecorded. */
  lemma LandedUnrecorded(id: TxId, d: TxDir, after: TxDir, ops: seq<Operation>, count: nat, trace: seq<Moment>)
    requires ValidPlan(ops) && count < |ops| && Kept(id, d, ops, trace)
    requires d.progress.Some? && d.progress.value.phase.Publishing?
    requires Writes(ops, count + 1) ==> d.staging.Some? && count + 1 in d.staging.value
    requires after == if Writes(ops, count + 1) then d.(staging := Some(d.staging.value - {count + 1})) else d
    ensures Kept(id, after, ops, trace + [Landed(count + 1)])
    ensures Layout(id, d, ops, count) && |d.progress.value.published| == count ==> Layout(id, after, ops, count + 1)
  {
    AfterMoment(trace, Landed(count + 1));
    if Layout(id, d, ops, count) {
      assert after.staging.value == Payloads(ops, count + 1);
    }
  }

  lemma LandedSound(s: Store, id: TxId, ops: seq<Operation>, fence: seq<Artifact>, d: TxDir, count: nat, trace: seq<Moment>)
    requires ValidPlan(ops) && count < |ops| && Kept(id, d, ops, trace) && id in s.disk.transactions
    requires d.progress.Some? && d.progress.value.phase.Publishing? && |d.progress.value.published| == count
    requires Writes(ops, count + 1) ==> d.staging.Some? && count + 1 in d.staging.value
    requires s.disk.transactions[id] == if Writes(ops, count + 1) then d.(staging := Some(d.staging.value - {count + 1})) else d
    requires s.trace == trace + [Landed(count + 1)] && Disciplined(s.trace, ops, fence)
    requires s.quiet ==>
      && Layout(id, d, ops, count) && s.landed == count + 1 && s.disk.tree == Applied(s.base, ops, count + 1)
      && (Bound(d, d.progress.value, ops) ==> AllExpected(s.base, ops))
      && forall j | 0 <= j <= count :: ParentReady(s.base, ops, j)
    ensures Sound(s, id, ops, fence)
  {
    LandedUnrecorded(id, d, s.disk.transactions[id], ops, count, trace);
  }

  method PublishChecked(s: Store, m: Manifest, ghost guards: seq<Want>, ghost fence: seq<Artifact>, count: nat) returns (stop: Option<Outcome>)
    requires Sound(s, m.transactionId, m.operations, fence)
    requires count < |m.operations| && Running(s.disk.transactions[m.transactionId], m, Publishing, count, count)
    requires MayFollow(s.trace, Landed(count + 1), m.operations, fence)
    requires s.quiet ==>
      s.landed == count && ParentReady(s.base, m.operations, count) && Publishable(s.disk, m.transactionId, m.operations[count])
    modifies s`disk, s`budget, s`trace, s`landed
    ensures Sound(s, m.transactionId, m.operations, fence)
    ensures Others(s.disk, m.transactionId) == Others(old(s.disk), m.transactionId)
    ensures stop.Some? ==> stop.value.Died? || stop.value == Refused(InternalFailure)
    ensures stop.Some? && stop.value.Refused? ==> !s.quiet
    ensures stop.Some? ==> s.disk.transactions == old(s.disk.transactions)
    ensures stop.None? ==> Running(s.disk.transactions[m.transactionId], m, Publishing, count, count + 1)
    ensures s.quiet ==> s.landed == if stop.None? then count + 1 else count
    ensures Paid(old(s.budget), s.budget, 1, stop != Some(Died))
  {
    var id, op := m.transactionId, m.operations[count];
    ghost var d, trace := s.disk.transactions[id], s.trace;
    assert WellShaped(op) && op.operationId == count + 1;
    DisciplinedExtend(trace, Landed(count + 1), m.operations, fence);
    if s.quiet {
      LandedTree(s.disk, id, m.operations, s.base, count);
    }
    var status := s.Publish(id, op);
    match status
    case Dead => stop := Some(Died);
    case Threw => stop := Some(Refused(InternalFailure));
    case Done =>
      stop := None;
      LandedKept(d, s.disk.transactions[id], m, count, trace);
      LandedSound(s, id, m.operations, fence, d, count, trace);
  }

  method LookAgain(s: Store, m: Manifest, path: Path, ghost fence: seq<Artifact>) returns (found: Fingerprint)
    requires Sound(s, m.transactionId, m.operations, fence)
    modifies s`disk, s`trace
    ensures Sound(s, m.transactionId, m.operations, fence)
    ensures s.disk.transactions == old(s.disk.transactions) && (s.quiet ==> s.disk == old(s.disk))
    ensures found == At(s.disk.tree, path)
  {
    ghost var before := s.trace;
    found := s.Look(path);
    AfterLooks(before, s.trace, m.operations, fence);
  }

  /** `assertResult`, then the record of operation `count`+1. */
  method RecordLanded(s: Store, m: Manifest, guards: seq<Want>, ghost fence: seq<Artifact>, count: nat, current: Sync) returns (stop: Option<Outcome>, directorySync: Sync)
    requires Sound(s, m.transactionId, m.operations, fence)
    requires count < |m.operations| && Running(s.disk.transactions[m.transactionId], m, Publishing, count, count + 1)
    requires s.quiet ==> s.landed == count + 1
    requires !current.NotAttempted?
    modifies s`disk, s`budget, s`trace, s`unsupported
    ensures Sound(s, m.transactionId, m.operations, fence)
    ensures Others(s.disk, m.transactionId) == Others(old(s.disk), m.transactionId)
    ensures stop.Some? ==> stop.value.Died? || (stop.value == Refused(StateCorrupt) && !s.quiet)
    ensures stop.Some? ==> InPublishing(s.disk.transactions[m.transactionId])
    ensures stop.None? ==> Running(s.disk.transactions[m.transactionId], m, Publishing, count + 1, count + 1)
    ensures Paid(old(s.budget), s.budget, 4, stop != Some(Died))
    ensures stop.None? ==> Synced(current, directorySync, old(s.unsupported), s.unsupported)
    ensures old(s.unsupported) <= s.unsupported
  {
    var op := m.operations[count];
    var observed := s.SyncDirectory();
    directorySync := MergeDirectorySync(current, observed);
    if s.quiet {
      AppliedDestinations(s.base, m.operations, count + 1);
    }
    var found := LookAgain(s, m, op.path, fence);
    if found != op.result {
      return Some(Refused(StateCorrupt)), directorySync;
    }
    var alive;
    alive, directorySync := Record(s, m, Publishing, count + 1, directorySync, fence);
    stop := if alive then None else Some(Died);
  }

  /** The publication has come to a halt, and everything that landed is on record. */
  ghost predicate Halted(s: Store, m: Manifest, guards: seq<Want>)
    reads s
  {
    && s.landed <= |m.operations| && StopsAt(s.base, m.operations, guards, s.landed)
    && m.transactionId in s.disk.transactions
    && Running(s.disk.transactions[m.transactionId], m, Publishing, s.landed, s.landed)
  }

  /** One turn of the publishing loop. */
  method PublishOne(s: Store, m: Manifest, guards: seq<Want>, fence: seq<Artifact>, count: nat, current: Sync) returns (stop: Option<Outcome>, directorySync: Sync)
    requires Sound(s, m.transactionId, m.operations, fence) && FenceOf(fence, m.operations)
    requires count < |m.operations| && Running(s.disk.transactions[m.transactionId], m, Publishing, count, count)
    requires s.quiet ==> s.landed == count && forall k | 0 <= k < count :: Passes(s.base, m.operations, guards, k)
    requires !current.NotAttempted?
    modifies s`disk, s`budget, s`trace, s`landed, s`unsupported
    ensures Sound(s, m.transactionId, m.operations, fence)
    ensures Others(s.disk, m.transactionId) == Others(old(s.disk), m.transactionId)
    ensures stop.Some? ==> stop.value.Died? || (stop.value.Refused? && !stop.value.reason.RecoveryRequired?)
    ensures stop.Some? ==> InPublishing(s.disk.transactions[m.transactionId])
    ensures stop.Some? && stop.value.Refused? && s.quiet ==> !stop.value.reason.LeaseConflict? && Halted(s, m, guards)
    ensures stop.None? ==> Running(s.disk.transactions[m.transactionId], m, Publishing, count + 1, count + 1)
    ensures s.quiet && stop.None? ==>
      s.landed == count + 1 && ParentReady(s.base, m.operations, count) && Passes(s.base, m.operations, guards, count)
    ensures Paid(old(s.budget), s.budget, 5, stop != Some(Died))
    ensures stop.None? ==> Synced(current, directorySync, old(s.unsupported), s.unsupported)
    ensures old(s.unsupported) <= s.unsupported
  {
    directorySync := current;
    stop := CheckAndPublish(s, m, guards, fence, count);
    if stop.Some? {
      return;
    }
    stop, directorySync := RecordLanded(s, m, guards, fence, count, current);
  }

  method PublishAll(s: Store, m: Manifest, guards: seq<Want>, fence: seq<Artifact>, current: Sync) returns (stop: Option<Outcome>, directorySync: Sync)
    requires Sound(s, m.transactionId, m.operations, fence) && FenceOf(fence, m.operations)
    requires Running(s.disk.transactions[m.transactionId], m, Publishing, 0, 0)
    requires s.quiet ==> s.landed == 0
    requires !current.NotAttempted?
    modifies s`disk, s`budget, s`trace, s`landed, s`unsupported
    ensures Sound(s, m.transactionId, m.operations, fence)
    ensures Others(s.disk, m.transactionId) == Others(old(s.disk), m.transactionId)
    ensures stop.Some? ==> stop.value.Died? || (stop.value.Refused? && !stop.value.reason.RecoveryRequired?)
    ensures stop.Some? ==> InPublishing(s.disk.transactions[m.transactionId])
    ensures stop.Some? && stop.value.Refused? && s.quiet ==> !stop.value.reason.LeaseConflict? && Halted(s, m, guards)
    ensures stop.None? ==> Running(s.disk.transactions[m.transactionId], m, Publishing, |m.operations|, |m.operations|)
    ensures s.quiet && stop.None? ==> s.landed == |m.operations| && ParentsReady(s.base, m.operations)
    ensures s.quiet && stop.None? ==> forall k | 0 <= k < |m.operations| :: Passes(s.base, m.operations, guards, k)
    ensures Paid(old(s.budget), s.budget, 5 * |m.operations|, stop != Some(Died))
    ensures stop.None? ==> Synced(current, directorySync, old(s.unsupported), s.unsupported)
    ensures old(s.unsupported) <= s.unsupported
  {
    directorySync := current;
    for count := 0 to |m.operations|
      invariant Sound(s, m.transactionId, m.operations, fence)
      invariant Others(s.disk, m.transactionId) == Others(old(s.disk), m.transactionId)
      invariant Running(s.disk.transactions[m.transactionId], m, Publishing, count, count)
      invariant s.quiet ==> s.landed == count
      invariant s.quiet ==> forall j | 0 <= j < count :: ParentReady(s.base, m.operations, j)
      invariant s.quiet ==> forall k | 0 <= k < count :: Passes(s.base, m.operations, guards, k)
      invariant old(s.budget) <= s.budget + 5 * count
      invariant Synced(current, directorySync, old(s.unsupported), s.unsupported)
    {
      stop, directorySync := PublishOne(s, m, guards, fence, count, directorySync);
      if stop.Some? {
        return;
      }
    }
    stop := None;
  }

  /** The final result check, the guards, and the record of `committed`. */
  method CommitAll(s: Store, m: Manifest, guards: seq<Want>, fence: seq<Artifact>, current: Sync) returns (stop: Option<Outcome>, directorySync: Sync)
    requires Sound(s, m.transactionId, m.operations, fence) && FenceOf(fence, m.operations)
    requires Running(s.disk.transactions[m.transactionId], m, Publishing, |m.operations|, |m.operations|)
    requires s.quiet ==> s.landed == |m.operations|
    requires !current.NotAttempted?
    modifies s`disk, s`budget, s`trace, s`unsupported
    ensures Sound(s, m.transactionId, m.operations, fence)
    ensures Others(s.disk, m.transactionId) == Others(old(s.disk), m.transactionId)
    ensures stop.Some? ==> Stopped(stop.value, s, m.operations, guards, |m.operations|) && InPublishing(s.disk.transactions[m.transactionId])
    ensures stop.Some? && stop.value.Refused? ==> s.disk.transactions == old(s.disk.transactions)
    ensures stop.None? ==> Running(s.disk.transactions[m.transactionId], m, Committed, |m.operations|, |m.operations|)
    ensures stop.None? ==> AllConfirmed(s.trace, m.operations)
    ensures s.quiet && stop.None? ==> Passes(s.base, m.operations, guards, |m.operations|)
    ensures Paid(old(s.budget), s.budget, 4, stop != Some(Died))
    ensures stop.None? ==> Synced(current, directorySync, old(s.unsupported), s.unsupported)
    ensures old(s.unsupported) <= s.unsupported
    ensures stop.None? ==> s.disk.transactions[m.transactionId].progress.value.directorySync == current
  {
    directorySync := current;
    if s.quiet {
      AppliedDestinations(s.base, m.operations, |m.operations|);
    }
    ghost var before := s.trace;
    var met := CheckAll(s, WantsResult(m.operations));
    AfterLooks(before, s.trace, m.operations, fence);
    if !met {
      return Some(Refused(StateCorrupt)), directorySync;
    }
    forall i | 0 <= i < |m.operations| ensures Confirmed(s.trace, m.operations[i].path, {m.operations[i].result}) {
      assert WantsResult(m.operations)[i] in WantsResult(m.operations);
    }
    before := s.trace;
    met := CheckAll(s, guards);
    AfterLooks(before, s.trace, m.operations, fence);
    if !met {
      return Some(Refused(RevisionConflict)), directorySync;
    }
    AfterMoment(s.trace, Recorded(Committed));
    var alive;
    alive, directorySync := Record(s, m, Committed, |m.operations|, current, fence);
    stop := if alive then None else Some(Died);
  }

  /** Recording a terminal phase again, with a later directory sync, keeps everything. */
  lemma TerminalAgain(id: TxId, d: TxDir, after: TxDir, ops: seq<Operation>, landed: nat, trace: seq<Moment>, m: Moment)
    requires Terminal(d) && after.progress.Some? && SameButSync(after.progress.value, d.progress.value)
    requires !after.progress.value.directorySync.NotAttempted?
    requires after == d.(progress := after.progress, next := after.next)
    requires m == Resynced
    ensures Kept(id, d, ops, trace) ==> Kept(id, after, ops, trace + [m]) && Kept(id, after, ops, trace)
    ensures Layout(id, d, ops, landed) ==> Layout(id, after, ops, landed)
    ensures Bound(after, after.progress.value, ops) <==> Bound(d, d.progress.value, ops)
  {
    AfterMoment(trace, m);
  }

  lemma KnownPayloads(id: TxId, d: TxDir, ops: seq<Operation>, landed: nat)
    requires ValidPlan(ops) && Layout(id, d, ops, landed) && Terminal(d) && Bound(d, d.progress.value, ops)
    ensures d.staging.Some? ==> forall number | number in d.staging.value ::
      exists i :: 0 <= i < |ops| && ops[i].kind.WriteFile? && ops[i].operationId == number
  {
    if d.staging.Some? {
      forall number | number in d.staging.value
        ensures exists i :: 0 <= i < |ops| && ops[i].kind.WriteFile? && ops[i].operationId == number
      {
        assert (number, d.staging.value[number]) in d.staging.value.Items;
        assert number in Payloads(ops, 0);
        assert ops[number - 1].operationId == number;
      }
    }
  }

  /** A terminal transaction's residue is removed, and the result of the last
      directory sync recorded if it is news. */
  method CleanUp(s: Store, id: TxId, ops: seq<Operation>, p: Progress, current: Sync, ghost fence: seq<Artifact>) returns (stop: Option<Outcome>, next: Progress)
    requires Sound(s, id, ops, fence) && Terminal(s.disk.transactions[id])
    requires Bound(s.disk.transactions[id], s.disk.transactions[id].progress.value, ops)
    requires SameButSync(s.disk.transactions[id].progress.value, p)
    requires current == p.directorySync && Remembers(s.disk.transactions[id].progress.value, p)
    modifies s`disk, s`budget, s`trace, s`unsupported
    ensures Sound(s, id, ops, fence)
    ensures Others(s.disk, id) == Others(old(s.disk), id)
    ensures
      var d := old(s.disk).transactions[id];
      var after := s.disk.transactions[id];
      && after == d.(progress := after.progress, staging := after.staging, next := after.next)
      && after.progress.Some? && SameButSync(after.progress.value, p) && SameButSync(next, p)
      && (stop.None? ==> after.staging.None? && after.next.None?)
    ensures stop.Some? ==> stop.value.Died? || (stop.value == Refused(StateCorrupt) && !s.quiet && s.disk.transactions[id].staging.Some?)
    ensures Paid(old(s.budget), s.budget, |ops| + 6, stop != Some(Died))
    ensures stop.None? ==> Synced(p.directorySync, next.directorySync, old(s.unsupported), s.unsupported)
    ensures old(s.unsupported) <= s.unsupported
    ensures stop.Some? ==> s.disk.transactions[id].progress == old(s.disk).transactions[id].progress
    ensures Remembers(s.disk.transactions[id].progress.value, if stop.None? then next else p)
  {
    next := p;
    ghost var d := s.disk.transactions[id];
    if s.quiet {
      KnownPayloads(id, d, ops, s.landed);
    }
    var directorySync;
    stop, directorySync := CleanupTransaction(s, id, ops, current);
    ghost var bare := s.disk.transactions[id];
    CleanupKeeps(id, d, bare, ops, s.landed, s.trace);
    if stop.Some? {
      return;
    }
    ghost var trace := s.trace;
    AfterMoment(trace, Resynced);
    DisciplinedExtend(trace, Resynced, ops, fence);
    var alive;
    alive, next := PersistTerminalDirectorySync(s, id, p, directorySync);
    TerminalAgain(id, bare, s.disk.transactions[id], ops, s.landed, trace, Resynced);
    stop := if alive then None else Some(Died);
  }

  /** From the fence's first check to the written manifest. */
  method StageAll(s: Store, m: Manifest, fence: seq<Artifact>) returns (stop: Option<Outcome>, directorySync: Sync)
    requires ValidPlan(m.operations) && m.transactionId !in s.disk.transactions
    requires s.trace == [] && s.base == s.disk.tree && s.landed == 0
    modifies s`disk, s`budget, s`trace, s`unsupported
    ensures s.disk.transactions == old(s.disk.transactions) || m.transactionId in s.disk.transactions
    ensures Others(s.disk, m.transactionId) == Others(old(s.disk), m.transactionId)
    ensures s.quiet ==> s.disk.tree == old(s.disk.tree)
    ensures m.transactionId in s.disk.transactions ==> Sound(s, m.transactionId, m.operations, fence)
    ensures m.transactionId in s.disk.transactions ==> !Forward(s.disk.transactions[m.transactionId])
    ensures stop.Some? ==> stop.value.Died? || (stop.value == Refused(LeaseConflict) && s.disk.transactions == old(s.disk.transactions))
    ensures s.quiet ==> if stop == Some(Refused(LeaseConflict)) then !Met(s.base, WantsOfFence(fence)) else Met(s.base, WantsOfFence(fence))
    ensures stop.None? ==> m.transactionId in s.disk.transactions
    ensures stop.None? ==>
      var d := s.disk.transactions[m.transactionId];
      && d == TxDir(d.progress, None, Some(Payloads(m.operations, 0)), Some(Whole(m)))
      && d.progress.Some? && d.progress.value.phase.Begun?
    ensures Paid(old(s.budget), s.budget, 2 * |m.operations| + 8, stop != Some(Died))
    ensures stop.None? ==> Synced(NotAttempted, directorySync, old(s.unsupported), s.unsupported)
    ensures old(s.unsupported) <= s.unsupported
  {
    var id, ops := m.transactionId, m.operations;
    directorySync := NotAttempted;
    var met := CheckAll(s, WantsOfFence(fence));
    AfterLooks([], s.trace, ops, fence);
    if !met {
      return Some(Refused(LeaseConflict)), directorySync;
    }
    AfterMoment(s.trace, Recorded(Begun));
    DisciplinedExtend(s.trace, Recorded(Begun), ops, fence);
    var alive;
    alive, directorySync := Begin(s, id, m.createdAt);
    if id in s.disk.transactions {
      UnpreparedSound(s, id, ops, fence);
    }
    if alive {
      alive, directorySync := WritePayloads(s, m, directorySync);
      UnpreparedSound(s, id, ops, fence);
    }
    stop := if alive then None else Some(Died);
  }

  method PublishAndCommit(s: Store, m: Manifest, guards: seq<Want>, fence: seq<Artifact>, current: Sync) returns (r: Outcome)
    requires Sound(s, m.transactionId, m.operations, fence) && FenceOf(fence, m.operations)
    requires Running(s.disk.transactions[m.transactionId], m, Publishing, 0, 0)
    requires s.quiet ==> s.landed == 0
    requires !current.NotAttempted?
    modifies s`disk, s`budget, s`trace, s`landed, s`unsupported
    ensures Sound(s, m.transactionId, m.operations, fence)
    ensures Others(s.disk, m.transactionId) == Others(old(s.disk), m.transactionId)
    ensures r.Refused? ==> !r.reason.RecoveryRequired? && Incomplete(s.disk.transactions[m.transactionId])
    ensures r.Refused? && s.quiet ==> !r.reason.LeaseConflict? && Halted(s, m, guards)
    ensures r.Receipt? ==> r.phase.Committed? && Finished(s.disk.transactions[m.transactionId], Committed)
    ensures Forward(s.disk.transactions[m.transactionId])
    ensures r.Receipt? && s.quiet ==> Unimpeded(s.base, m.operations, guards)
    ensures Paid(old(s.budget), s.budget, 6 * |m.operations| + 10, !r.Died?)
    ensures r.Receipt? ==> Synced(current, r.directorySync, old(s.unsupported), s.unsupported)
    ensures old(s.unsupported) <= s.unsupported
  {
    var stop, directorySync := PublishAll(s, m, guards, fence, current);
    if stop.Some? {
      return stop.value;
    }
    if s.quiet {
      NeverStopped(s.base, m.operations, guards);
    }
    r := CommitAndCleanUp(s, m, guards, fence, directorySync);
  }

  method CommitAndCleanUp(s: Store, m: Manifest, guards: seq<Want>, fence: seq<Artifact>, current: Sync) returns (r: Outcome)
    requires Sound(s, m.transactionId, m.operations, fence) && FenceOf(fence, m.operations)
    requires Running(s.disk.transactions[m.transactionId], m, Publishing, |m.operations|, |m.operations|)
    requires s.quiet ==> s.landed == |m.operations|
    requires !current.NotAttempted?
    modifies s`disk, s`budget, s`trace, s`unsupported
    ensures Sound(s, m.transactionId, m.operations, fence)
    ensures Others(s.disk, m.transactionId) == Others(old(s.disk), m.transactionId)
    ensures r.Refused? ==> !r.reason.RecoveryRequired? && Incomplete(s.disk.transactions[m.transactionId])
    ensures r.Refused? && s.quiet ==> !r.reason.LeaseConflict? && !Passes(s.base, m.operations, guards, |m.operations|)
    ensures r.Refused? && s.quiet ==> Running(s.disk.transactions[m.transactionId], m, Publishing, |m.operations|, |m.operations|)
    ensures r.Receipt? ==> r.phase.Committed? && Finished(s.disk.transactions[m.transactionId], Committed)
    ensures Forward(s.disk.transactions[m.transactionId])
    ensures r.Receipt? && s.quiet ==> Passes(s.base, m.operations, guards, |m.operations|)
    ensures Paid(old(s.budget), s.budget, |m.operations| + 10, !r.Died?)
    ensures r.Receipt? ==> Synced(current, r.directorySync, old(s.unsupported), s.unsupported)
    ensures old(s.unsupported) <= s.unsupported
  {
    var stop, directorySync := CommitAll(s, m, guards, fence, current);
    if stop.Some? {
      return stop.value;
    }
    var p := BoundProgress(m, Committed, |m.operations|, directorySync);
    stop, p := CleanUp(s, m.transactionId, m.operations, p, directorySync, fence);
    r := if stop.Some? then stop.value else Receipt(Committed, p.directorySync);
  }

  /** The transaction has ended in this phase, and nothing is left to remove. */
  predicate Finished(d: TxDir, phase: Phase) {
    && d.progress.Some? && d.progress.value.phase == phase && (phase == Committed || phase == Aborted)
    && d.staging == None && d.next == None
    && (d.progress.value.manifestDigest == None ==> d.manifest == None)
  }

  /** The durable changes that an execution of `n` operations makes at most. */
  function ExecutionCost(n: nat): nat {
    8 * n + 26
  }

  /** What a refused execution leaves: nothing, if the fence does not stand when it
      starts, and otherwise an incomplete transaction. Without other writers that is
      merely begun if something is not as the plan or a guard expects at the start,
      and else halted in the middle of its publication. */
  ghost predicate Refusal(s: Store, m: Manifest, guards: seq<Want>, fence: seq<Artifact>, reason: Reason)
    reads s
  {
    var id := m.transactionId;
    && !reason.RecoveryRequired?
    && (id !in s.disk.transactions ==> reason.LeaseConflict? && (s.quiet ==> !Met(s.base, WantsOfFence(fence))))
    && (id in s.disk.transactions ==> s.disk.transactions[id].progress.Some? && Incomplete(s.disk.transactions[id]))
    && (id in s.disk.transactions && s.quiet ==> Met(s.base, WantsOfFence(fence)) && !reason.LeaseConflict?)
    && (id in s.disk.transactions && s.quiet ==>
      if Met(s.base, guards) && AllExpected(s.base, m.operations) then Halted(s, m, guards)
      else reason.RevisionConflict? && s.disk.transactions[id].progress.value.phase.Begun?)
  }

  /** Stage, authorize, publish and commit. */
  method RunStages(s: Store, m: Manifest, guards: seq<Want>, fence: seq<Artifact>) returns (r: Outcome)
    requires ValidPlan(m.operations) && FenceOf(fence, m.operations)
    requires m.transactionId !in s.disk.transactions
    requires s.trace == [] && s.base == s.disk.tree && s.landed == 0
    modifies s`disk, s`budget, s`trace, s`landed, s`unsupported
    ensures s.disk.transactions == old(s.disk.transactions) || m.transactionId in s.disk.transactions
    ensures Others(s.disk, m.transactionId) == Others(old(s.disk), m.transactionId)
    ensures m.transactionId in s.disk.transactions ==> Sound(s, m.transactionId, m.operations, fence)
    ensures m.transactionId !in s.disk.transactions && s.quiet ==> s.disk == old(s.disk)
    ensures r.Refused? ==> Refusal(s, m, guards, fence, r.reason)
    ensures r.Receipt? ==>
      && r.phase.Committed? && m.transactionId in s.disk.transactions
      && Finished(s.disk.transactions[m.transactionId], Committed)
    ensures r.Receipt? && s.quiet ==> Unimpeded(s.base, m.operations, guards)
    ensures Paid(old(s.budget), s.budget, ExecutionCost(|m.operations|), !r.Died?)
    ensures r.Receipt? ==> Synced(NotAttempted, r.directorySync, old(s.unsupported), s.unsupported)
    ensures old(s.unsupported) <= s.unsupported
  {
    if s.quiet && AllExpected(s.base, m.operations) {
      FenceStands(s.base, m.operations, fence, 0);
    }
    var stop, directorySync := StageAll(s, m, fence);
    if stop.Some? {
      return stop.value;
    }
    r := RunStaged(s, m, guards, fence, directorySync);
  }

  /** Authorize, publish and commit what is staged. */
  method RunStaged(s: Store, m: Manifest, guards: seq<Want>, fence: seq<Artifact>, current: Sync) returns (r: Outcome)
    requires Sound(s, m.transactionId, m.operations, fence) && FenceOf(fence, m.operations)
    requires
      var d := s.disk.transactions[m.transactionId];
      && d == TxDir(d.progress, None, Some(Payloads(m.operations, 0)), Some(Whole(m)))
      && d.progress.Some? && d.progress.value.phase.Begun?
    requires s.quiet ==> Met(s.base, WantsOfFence(fence))
    requires !current.NotAttempted?
    modifies s`disk, s`budget, s`trace, s`landed, s`unsupported
    ensures Sound(s, m.transactionId, m.operations, fence)
    ensures Others(s.disk, m.transactionId) == Others(old(s.disk), m.transactionId)
    ensures r.Refused? ==> Refusal(s, m, guards, fence, r.reason)
    ensures r.Receipt? ==> r.phase.Committed? && Finished(s.disk.transactions[m.transactionId], Committed)
    ensures r.Receipt? && s.quiet ==> Unimpeded(s.base, m.operations, guards)
    ensures Paid(old(s.budget), s.budget, 6 * |m.operations| + 18, !r.Died?)
    ensures r.Receipt? ==> Synced(current, r.directorySync, old(s.unsupported), s.unsupported)
    ensures old(s.unsupported) <= s.unsupported
  {
    var stop, directorySync := Authorize(s, m, guards, fence, current);
    if stop.Some? {
      return stop.value;
    }
    r := PublishAndCommit(s, m, guards, fence, directorySync);
  }

  /** One execution. Whatever stops it, what it leaves is sound; without other
      writers a process that lives long enough commits exactly the unimpeded plans. */
  method DriveExecution(s: Store, m: Manifest, guards: seq<Want>, fence: seq<Artifact>) returns (r: Outcome)
    requires ValidPlan(m.operations) && FenceOf(fence, m.operations)
    requires m.transactionId !in s.disk.transactions
    modifies s
    ensures s.quiet ==> s.base == old(s.disk.tree)
    ensures s.disk.transactions == old(s.disk.transactions) || m.transactionId in s.disk.transactions
    ensures Others(s.disk, m.transactionId) == Others(old(s.disk), m.transactionId)
    ensures m.transactionId in s.disk.transactions ==> Sound(s, m.transactionId, m.operations, fence)
    ensures m.transactionId in s.disk.transactions ==> NoneTwice(m.operations, s.trace)
    ensures m.transactionId !in s.disk.transactions && s.quiet ==> s.disk == old(s.disk)
    ensures Paid(old(s.budget), s.budget, ExecutionCost(|m.operations|), !r.Died?)
    ensures r.Refused? ==> Refusal(s, m, guards, fence, r.reason)
    ensures r.Receipt? ==>
      && r.phase.Committed? && m.transactionId in s.disk.transactions
      && Finished(s.disk.transactions[m.transactionId], Committed)
    ensures s.quiet && !r.Died? ==> (r.Receipt? <==> Unimpeded(s.base, m.operations, guards))
    ensures r.Receipt? ==> r.directorySync == if s.unsupported > old(s.unsupported) then Unsupported else Supported
  {
    s.trace, s.base, s.landed := [], s.disk.tree, 0;
    r := RunStages(s, m, guards, fence);
    if m.transactionId in s.disk.transactions {
      AtMostOnce(s.disk.transactions[m.transactionId], m.operations, s.trace);
    }
  }
}
