/** What holds of a transaction between any two durable calls, and the steps that
    its execution and its recovery share. */
module Conduct {
  import opened Options
  import opened Plans
  import opened Recovery
  import opened Layouts
  import opened Traces
  import opened DurableStore

  /** A path and the fingerprints a check accepts there. */
  datatype Want = Want(path: Path, allowed: set<Fingerprint>)

  function WantsOfFence(fence: seq<Artifact>): (r: seq<Want>)
    ensures |r| == |fence| && forall i | 0 <= i < |r| :: r[i] == Want(fence[i].path, {fence[i].expected, fence[i].published})
  {
    seq(|fence|, i requires 0 <= i < |fence| => Want(fence[i].path, {fence[i].expected, fence[i].published}))
  }

  function WantsExpected(ops: seq<Operation>): (r: seq<Want>)
    ensures |r| == |ops| && forall i | 0 <= i < |r| :: r[i] == Want(ops[i].path, {ops[i].expected})
  {
    seq(|ops|, i requires 0 <= i < |ops| => Want(ops[i].path, {ops[i].expected}))
  }

  function WantsResult(ops: seq<Operation>): (r: seq<Want>)
    ensures |r| == |ops| && forall i | 0 <= i < |r| :: r[i] == Want(ops[i].path, {ops[i].result})
  {
    seq(|ops|, i requires 0 <= i < |ops| => Want(ops[i].path, {ops[i].result}))
  }

  predicate Met(tree: Tree, wants: seq<Want>) {
    forall w | w in wants :: At(tree, w.path) in w.allowed
  }

  /** Each write's payload is still staged, or has landed, but never twice. */
  ghost predicate Once(d: TxDir, ops: seq<Operation>, trace: seq<Moment>) {
    forall number: nat | 0 < number <= |ops| && Writes(ops, number) ::
      Landings(trace, number) + (if d.staging.Some? && number in d.staging.value then 1 else 0) <= 1
  }

  /** No write's payload has been moved into place twice. */
  ghost predicate NoneTwice(ops: seq<Operation>, trace: seq<Moment>) {
    forall p, q | 0 <= p < q < |trace| && trace[p].Landed? && trace[q] == trace[p] ::
      !(0 < trace[p].operationId <= |ops| && Writes(ops, trace[p].operationId))
  }

  lemma AtMostOnce(d: TxDir, ops: seq<Operation>, trace: seq<Moment>)
    requires Once(d, ops, trace)
    ensures NoneTwice(ops, trace)
  {
    forall p, q | 0 <= p < q < |trace| && trace[p].Landed? && trace[q] == trace[p]
      ensures !(0 < trace[p].operationId <= |ops| && Writes(ops, trace[p].operationId))
    {
      LandingsCounted(trace, trace[p].operationId);
    }
  }

  predicate BeforePublication(d: TxDir) {
    d.progress.None? || d.progress.value.phase in {Begun, Prepared, Aborted}
  }

  /** The part of a transaction's state that foreign writers cannot touch. */
  ghost predicate Kept(id: TxId, d: TxDir, ops: seq<Operation>, trace: seq<Moment>) {
    && (d.progress.None? ==> d.staging.None? && d.manifest.None?)
    && (d.progress.Some? ==>
      var p := d.progress.value;
      && p.transactionId == id && !p.directorySync.NotAttempted?
      && (if p.phase.Begun? then Unbound(p)
          else if p.phase.Aborted? then Unbound(p) || Bound(d, p, ops)
          else Bound(d, p, ops))
      && (p.phase in {Begun, Prepared, Aborted} ==> p.published == []))
    && (BeforePublication(d) ==> AllLandings(trace) == 0)
    && Once(d, ops, trace)
  }

  ghost predicate Sound(s: Store, id: TxId, ops: seq<Operation>, fence: seq<Artifact>)
    reads s
  {
    && ValidPlan(ops)
    && id in s.disk.transactions
    && var d := s.disk.transactions[id];
    && Kept(id, d, ops, s.trace)
    && Disciplined(s.trace, ops, fence)
    && (s.quiet ==>
      && Layout(id, d, ops, s.landed)
      && s.disk.tree == Applied(s.base, ops, s.landed)
      && (d.progress.Some? && Bound(d, d.progress.value, ops) ==> AllExpected(s.base, ops))
      && (forall j | 0 <= j < s.landed :: ParentReady(s.base, ops, j)))
  }

  lemma {:induction false} NoneLanded(trace: seq<Moment>)
    requires AllLandings(trace) == 0
    ensures forall id :: Landings(trace, id) == 0
  {
    if trace != [] {
      NoneLanded(Init(trace));
    }
  }

  lemma AmongNext(before: seq<Moment>, wants: seq<Want>, i: nat, found: Fingerprint)
    requires i < |wants| && found in wants[i].allowed
    requires forall j | 0 <= j < i :: LastSeenAmong(before, wants[..i], wants[j].path)
    ensures forall j | 0 <= j < i + 1 :: LastSeenAmong(before + [Looked(wants[i].path, found)], wants[..i + 1], wants[j].path)
  {
    AfterMoment(before, Looked(wants[i].path, found));
    assert wants[..i + 1] == wants[..i] + [wants[i]];
    forall j | 0 <= j < i + 1 ensures LastSeenAmong(before + [Looked(wants[i].path, found)], wants[..i + 1], wants[j].path) {
      if wants[j].path == wants[i].path {
        assert wants[i] in wants[..i + 1];
      } else {
        var w :| w in wants[..i] && w.path == wants[j].path && LastSeen(before, w.path).Some? && LastSeen(before, w.path).value in w.allowed;
        assert w in wants[..i + 1];
      }
    }
  }

  method CheckAll(s: Store, wants: seq<Want>) returns (met: bool)
    modifies s`disk, s`trace
    ensures s.disk.transactions == old(s.disk.transactions)
    ensures s.quiet ==> s.disk == old(s.disk)
    ensures OnlyLooks(old(s.trace), s.trace)
    ensures s.quiet ==> (met <==> Met(s.disk.tree, wants))
    ensures met ==> forall w | w in wants :: Confirmed(s.trace, w.path, w.allowed)
    ensures forall path | (forall w | w in wants :: w.path != path) :: LastSeen(s.trace, path) == LastSeen(old(s.trace), path)
    ensures met ==> forall path | (exists w | w in wants :: w.path == path) ::
      exists w :: w in wants && w.path == path && LastSeen(s.trace, path).Some? && LastSeen(s.trace, path).value in w.allowed
  {
    for i := 0 to |wants|
      invariant s.disk.transactions == old(s.disk.transactions)
      invariant s.quiet ==> s.disk == old(s.disk)
      invariant OnlyLooks(old(s.trace), s.trace)
      invariant forall j | 0 <= j < i :: Confirmed(s.trace, wants[j].path, wants[j].allowed)
      invariant s.quiet ==> forall j | 0 <= j < i :: At(s.disk.tree, wants[j].path) in wants[j].allowed
      invariant forall path | (forall j | 0 <= j < i :: wants[j].path != path) :: LastSeen(s.trace, path) == LastSeen(old(s.trace), path)
      invariant forall j | 0 <= j < i :: LastSeenAmong(s.trace, wants[..i], wants[j].path)
    {
      ghost var before := s.trace;
      var found := s.Look(wants[i].path);
      AfterMoment(before, Looked(wants[i].path, found));
      if found !in wants[i].allowed {
        return false;
      }
      AmongNext(before, wants, i, found);
    }
    assert wants[..|wants|] == wants;
    met := true;
  }

  ghost predicate LastSeenAmong(trace: seq<Moment>, wants: seq<Want>, path: Path) {
    exists w :: w in wants && w.path == path && LastSeen(trace, path).Some? && LastSeen(trace, path).value in w.allowed
  }

  function MergeDirectorySync(current: Sync, observed: Sync): Sync {
    if current.Unsupported? || observed.Unsupported? then Unsupported else Supported
  }

  /** `persistProgress`. */
  method PersistProgress(s: Store, id: TxId, p: Progress, ghost m: Moment) returns (alive: bool, directorySync: Sync)
    requires id in s.disk.transactions && Marks(s.disk.transactions[id].progress, p, m)
    modifies s`disk, s`budget, s`trace, s`unsupported
    ensures OnlyTouches(old(s.disk), s.disk, id)
    ensures alive ==> s.disk.transactions[id] == old(s.disk).transactions[id].(progress := Some(p), next := None)
    ensures s.trace == if alive then old(s.trace) + [m] else old(s.trace)
    ensures !alive ==> s.disk.transactions[id] == old(s.disk).transactions[id].(next := s.disk.transactions[id].next)
    ensures Paid(old(s.budget), s.budget, 4, alive)
    ensures alive ==> Synced(p.directorySync, directorySync, old(s.unsupported), s.unsupported)
    ensures old(s.unsupported) <= s.unsupported
  {
    directorySync := p.directorySync;
    if s.disk.transactions[id].next.Some? {
      alive := s.RemoveNext(id);
      if !alive {
        return;
      }
    }
    alive := s.WriteNext(id, p);
    if alive {
      alive := s.ReplaceProgress(id, p, m);
      var observed := s.SyncDirectory();
      directorySync := MergeDirectorySync(p.directorySync, observed);
    }
  }

  lemma OnlyNext(id: TxId, d: TxDir, after: TxDir, ops: seq<Operation>, landed: nat, trace: seq<Moment>)
    requires after == d.(next := after.next)
    ensures Kept(id, after, ops, trace) <==> Kept(id, d, ops, trace)
    ensures Layout(id, after, ops, landed) <==> Layout(id, d, ops, landed)
  {
  }

  /** What a sound transaction's directory and trace must satisfy. */
  ghost predicate Fits(s: Store, id: TxId, d: TxDir, ops: seq<Operation>, trace: seq<Moment>)
    reads s
  {
    && Kept(id, d, ops, trace)
    && (s.quiet ==>
      && Layout(id, d, ops, s.landed)
      && (d.progress.Some? && Bound(d, d.progress.value, ops) ==> AllExpected(s.base, ops)))
  }

  /** Persist a document that fits. */
  method Advance(s: Store, id: TxId, ghost ops: seq<Operation>, p: Progress, ghost fence: seq<Artifact>) returns (alive: bool, next: Progress)
    requires Sound(s, id, ops, fence)
    requires Fits(s, id, s.disk.transactions[id].(progress := Some(p), next := None), ops, s.trace + [Recorded(p.phase)])
    requires p.phase.Committed? ==> AllConfirmed(s.trace, ops)
    modifies s`disk, s`budget, s`trace, s`unsupported
    ensures Sound(s, id, ops, fence)
    ensures OnlyTouches(old(s.disk), s.disk, id) && SameButSync(next, p)
    ensures alive ==> s.disk.transactions[id] == old(s.disk).transactions[id].(progress := Some(p), next := None)
    ensures alive ==> s.trace == old(s.trace) + [Recorded(p.phase)]
    ensures !alive ==> s.trace == old(s.trace)
    ensures !alive ==> s.disk.transactions[id] == old(s.disk).transactions[id].(next := s.disk.transactions[id].next)
    ensures Paid(old(s.budget), s.budget, 4, alive)
    ensures alive ==> Synced(p.directorySync, next.directorySync, old(s.unsupported), s.unsupported)
    ensures old(s.unsupported) <= s.unsupported
  {
    ghost var trace, d := s.trace, s.disk.transactions[id];
    DisciplinedExtend(trace, Recorded(p.phase), ops, fence);
    var directorySync;
    alive, directorySync := PersistProgress(s, id, p, Recorded(p.phase));
    next := p.(directorySync := directorySync);
    if !alive {
      OnlyNext(id, d, s.disk.transactions[id], ops, s.landed, trace);
    }
  }
}
