/** Preflight, inspection, execution and recovery over the whole transactions
    directory, and any sequence of such calls by processes that may die anywhere. */
module Sessions {
  import opened Options
  import opened Plans
  import opened Recovery
  import opened Layouts
  import opened Traces
  import opened DurableStore
  import opened Conduct
  import opened Execution
  import opened RecoveryDriver
  import opened Classification

  datatype Summary = Summary(manifestDigest: Option<Token>, recoveryToken: Token, phase: Phase)

  /** `assertManifestSemantics`, without the managed-path policy. */
  predicate ManifestSemantics(m: Manifest) {
    forall i | 0 <= i < |m.operations| ::
      var op := m.operations[i];
      && op.operationId == i + 1
      && match op.kind
         case CreateDirectory => op.expected.Missing? && op.result.Directory?
         case WriteFile => !op.expected.Directory? && op.result.File?
         case DeleteFile => op.expected.File? && op.result.Missing?
  }

  /** One turn of the inspection loop; None stands for a corrupt directory. */
  function InspectOne(id: TxId, d: TxDir): Option<Summary> {
    if d.progress.None? || d.progress.value.transactionId != id then None
    else
      var p := d.progress.value;
      var summary := Some(Summary(p.manifestDigest, p.recoveryToken, p.phase));
      if p.manifestDigest.None? then
        if p.recoveryToken == OfIdentity(p.transactionId, p.createdAt) then summary else None
      else if p.recoveryToken != p.manifestDigest.value then None
      else if d.manifest.None? || d.manifest.value.Torn? then None
      else
        var m := d.manifest.value.value;
        if ManifestSemantics(m) && m.transactionId == p.transactionId && m.createdAt == p.createdAt
           && OfManifest(m) == p.manifestDigest.value
        then summary else None
  }

  /** What inspection accepts, and what it then tells of. */
  lemma ReadableExact(id: TxId, d: TxDir)
    ensures InspectOne(id, d).Some? <==>
      && d.progress.Some? && d.progress.value.transactionId == id
      && var p := d.progress.value;
      if p.manifestDigest == None then p.recoveryToken == OfIdentity(id, p.createdAt)
      else
        exists ops: seq<Operation> ::
          var m := Manifest(id, p.createdAt, ops);
          && d.manifest == Some(Whole(m)) && p.manifestDigest == Some(OfManifest(m)) && p.recoveryToken == OfManifest(m)
          && forall i | 0 <= i < |ops| ::
            && ops[i].operationId == i + 1
            && (ops[i].kind == CreateDirectory ==> ops[i].expected == Missing && ops[i].result == Directory)
            && (ops[i].kind == WriteFile ==> ops[i].expected != Directory && ops[i].result.File?)
            && (ops[i].kind == DeleteFile ==> ops[i].expected.File? && ops[i].result == Missing)
    ensures InspectOne(id, d).Some? ==>
      InspectOne(id, d).value == Summary(d.progress.value.manifestDigest, d.progress.value.recoveryToken, d.progress.value.phase)
  {
    if InspectOne(id, d).Some? && d.progress.value.manifestDigest.Some? {
      var m := d.manifest.value.value;
      assert m == Manifest(id, d.progress.value.createdAt, m.operations);
    }
  }

  predicate Settled(id: TxId, d: TxDir) {
    InspectOne(id, d).Some? && !Incomplete(d)
  }

  /** The one transaction that may be unfinished. */
  datatype Unfinished = Unfinished(id: TxId, ops: seq<Operation>, fence: seq<Artifact>)

  /** At most one transaction is unfinished and it is sound; every other one is
      readable, terminal and without residue. */
  ghost predicate World(s: Store, open: Option<Unfinished>)
    reads s
  {
    && (forall id | id in s.disk.transactions && !(open.Some? && open.value.id == id) :: Settled(id, s.disk.transactions[id]))
    && (open.Some? ==> Sound(s, open.value.id, open.value.ops, open.value.fence) && FenceOf(open.value.fence, open.value.ops))
  }

  /** Inspection accepts every directory a crash may leave once it is marked. */
  lemma SoundIsReadable(id: TxId, d: TxDir, ops: seq<Operation>, trace: seq<Moment>)
    requires ValidPlan(ops) && Kept(id, d, ops, trace)
    ensures InspectOne(id, d).Some? <==> d.progress.Some?
  {
    forall i | 0 <= i < |ops| ensures WellShaped(ops[i]) {
    }
  }

  /** `inspectManagedTransactions`. */
  method InspectManagedTransactions(s: Store) returns (summaries: Option<map<TxId, Summary>>)
    ensures summaries.None? <==> exists id :: id in s.disk.transactions && InspectOne(id, s.disk.transactions[id]).None?
    ensures summaries.Some? ==> summaries.value.Keys == s.disk.transactions.Keys
    ensures summaries.Some? ==> forall id | id in s.disk.transactions :: Some(summaries.value[id]) == InspectOne(id, s.disk.transactions[id])
  {
    var found: map<TxId, Summary> := map[];
    var remaining := s.disk.transactions.Keys;
    while remaining != {}
      invariant found.Keys !! remaining && found.Keys + remaining == s.disk.transactions.Keys
      invariant forall id | id in found :: Some(found[id]) == InspectOne(id, s.disk.transactions[id])
    {
      var id :| id in remaining;
      var summary := InspectOne(id, s.disk.transactions[id]);
      if summary.None? {
        return None;
      }
      found := found[id := summary.value];
      remaining := remaining - {id};
    }
    summaries := Some(found);
  }

  /** The unfinished transaction is marked as begun and not yet over, so that only
      its recovery can end it. */
  ghost predicate Blocking(disk: Disk, open: Option<Unfinished>) {
    && open.Some? && open.value.id in disk.transactions
    && disk.transactions[open.value.id].progress.Some?
    && Incomplete(disk.transactions[open.value.id])
  }

  /** `reconcileUnmarkedTransactions`: directories that were never marked as begun
      hold at most a scratch file, and are removed. */
  method ReconcileUnmarkedTransactions(s: Store, ghost open: Option<Unfinished>) returns (stop: Option<Outcome>, ghost left: Option<Unfinished>)
    requires World(s, open)
    modifies s`disk, s`budget
    ensures World(s, left)
    ensures s.disk.tree == old(s.disk.tree)
    ensures stop.Some? ==> stop.value.Died?
    ensures left == open || (left.None? && open.Some? && old(s.disk).transactions[open.value.id].progress.None?)
    ensures stop.Some? ==> open.Some? && old(s.disk).transactions[open.value.id].progress.None?
    ensures s.disk.transactions.Keys <= old(s.disk).transactions.Keys
    ensures stop.None? ==> forall id | id in s.disk.transactions ::
      s.disk.transactions[id].progress.Some? && s.disk.transactions[id] == old(s.disk).transactions[id]
    ensures left.Some? ==> s.disk.transactions[left.value.id].progress == old(s.disk).transactions[left.value.id].progress
    ensures stop.None? && left == open ==> s.disk == old(s.disk)
    ensures Paid(old(s.budget), s.budget, 2, stop.None?)
  {
    left := open;
    var remaining := s.disk.transactions.Keys;
    while remaining != {}
      invariant World(s, left)
      invariant s.disk.tree == old(s.disk.tree)
      invariant left == open || (left.None? && open.Some? && old(s.disk).transactions[open.value.id].progress.None?)
      invariant if left == open then s.disk == old(s.disk) && s.budget == old(s.budget) else old(s.budget) <= s.budget + 2
      invariant remaining <= s.disk.transactions.Keys <= old(s.disk).transactions.Keys
      invariant forall id | id in s.disk.transactions && id !in remaining :: s.disk.transactions[id].progress.Some?
      invariant forall id | id in s.disk.transactions :: s.disk.transactions[id] == old(s.disk).transactions[id]
    {
      var id :| id in remaining;
      if s.disk.transactions[id].progress.None? {
        var alive;
        ghost var before := s.disk;
        alive, left := RemoveUnmarked(s, id, left);
        OthersSame(before, s.disk, id);
        if !alive {
          return Some(Died), left;
        }
      }
      remaining := remaining - {id};
    }
    stop := None;
  }

  /** `removeSafeUnmarkedTransaction`. */
  method RemoveUnmarked(s: Store, id: TxId, ghost open: Option<Unfinished>) returns (alive: bool, ghost left: Option<Unfinished>)
    requires World(s, open) && id in s.disk.transactions && s.disk.transactions[id].progress.None?
    modifies s`disk, s`budget
    ensures World(s, left)
    ensures s.disk.tree == old(s.disk.tree)
    ensures open.Some? && open.value.id == id
    ensures left == if id in s.disk.transactions then open else None
    ensures Others(s.disk, id) == Others(old(s.disk), id)
    ensures alive ==> id !in s.disk.transactions
    ensures id in s.disk.transactions ==> s.disk.transactions[id].progress.None?
    ensures Paid(old(s.budget), s.budget, 2, alive)
  {
    left := open;
    ghost var d := s.disk.transactions[id];
    assert !s.quiet || Layout(id, d, open.value.ops, s.landed);
    if s.disk.transactions[id].next.Some? {
      alive := s.RemoveNext(id);
      OthersSame(old(s.disk), s.disk, id);
      if !alive {
        return;
      }
    }
    alive := s.RemoveRoot(id);
    OthersSame(old(s.disk), s.disk, id);
    if alive {
      left := None;
    }
  }

  /** The tree after whole plans, one after the other. */
  ghost function Replayed(origin: Tree, history: seq<seq<Operation>>): Tree {
    if history == [] then origin
    else
      var before := Replayed(origin, history[..|history| - 1]);
      Applied(before, history[|history| - 1], |history[|history| - 1]|)
  }

  /** The k-th plan found every destination as it expected, after the plans before it. */
  ghost predicate FoundExpected(origin: Tree, history: seq<seq<Operation>>, k: nat)
    requires k < |history|
  {
    AllExpected(Replayed(origin, history[..k]), history[k])
  }

  ghost predicate Sequential(origin: Tree, history: seq<seq<Operation>>) {
    forall k {:trigger FoundExpected(origin, history, k)} | 0 <= k < |history| :: FoundExpected(origin, history, k)
  }

  lemma SequentialLonger(origin: Tree, history: seq<seq<Operation>>, ops: seq<Operation>)
    requires Sequential(origin, history) && AllExpected(Replayed(origin, history), ops)
    ensures Sequential(origin, history + [ops])
  {
    var longer := history + [ops];
    forall k | 0 <= k < |longer| ensures FoundExpected(origin, longer, k) {
      if k < |history| {
        assert FoundExpected(origin, history, k);
        assert longer[..k] == history[..k];
      } else {
        assert longer[..k] == history;
      }
    }
  }

  /** The world is in order and, without other writers, the tree is the starting
      tree with the whole plans of `history` applied in order, and perhaps part of
      the one unfinished plan on top. */
  ghost predicate Account(s: Store, open: Option<Unfinished>, origin: Tree, history: seq<seq<Operation>>)
    reads s
  {
    && World(s, open)
    && (s.quiet ==> Replayed(origin, history) == (if open.None? then s.disk.tree else s.base) && Sequential(origin, history))
  }

  /** The plans that count once the unfinished transaction is over. */
  ghost function Closed(s: Store, open: Unfinished, history: seq<seq<Operation>>): seq<seq<Operation>>
    requires open.id in s.disk.transactions
    reads s
  {
    if Forward(s.disk.transactions[open.id]) then history + [open.ops] else history
  }

  /** A transaction that is terminal and clean is over: its plan has been applied
      as a whole or not at all. */
  lemma CloseAccount(s: Store, open: Unfinished, origin: Tree, history: seq<seq<Operation>>)
    requires Account(s, Some(open), origin, history)
    requires !Incomplete(s.disk.transactions[open.id])
    ensures Account(s, None, origin, Closed(s, open, history))
  {
    var d := s.disk.transactions[open.id];
    SoundIsReadable(open.id, d, open.ops, s.trace);
    if s.quiet && Forward(d) {
      assert (history + [open.ops])[..|history|] == history;
      SequentialLonger(origin, history, open.ops);
    }
  }

  /** `preflightManagedTransactions` in an existing root. */
  method Preflight(s: Store, ghost open: Option<Unfinished>, ghost origin: Tree, ghost history: seq<seq<Operation>>) returns (stop: Option<Outcome>, ghost left: Option<Unfinished>, ghost after: seq<seq<Operation>>)
    requires Account(s, open, origin, history)
    modifies s`disk, s`budget
    ensures Account(s, left, origin, after)
    ensures s.disk.tree == old(s.disk.tree)
    ensures s.disk.transactions.Keys <= old(s.disk).transactions.Keys
    ensures stop.Some? ==> stop.value.Died? || stop.value == Refused(RecoveryRequired)
    ensures stop == Some(Refused(RecoveryRequired)) <==> Blocking(old(s.disk), open)
    ensures stop == Some(Refused(RecoveryRequired)) ==> left == open && s.disk == old(s.disk)
    ensures left == open || left.None?
    ensures stop.None? ==> left.None?
    ensures stop.None? ==> forall id | id in s.disk.transactions :: Finished(s.disk.transactions[id], Committed) || Finished(s.disk.transactions[id], Aborted)
    ensures after == if stop.None? && open.Some? && Forward(old(s.disk).transactions[open.value.id]) then history + [open.value.ops] else history
    ensures Paid(old(s.budget), s.budget, 2, stop != Some(Died))
  {
    after := history;
    stop, left := ReconcileUnmarkedTransactions(s, open);
    if stop.Some? {
      return;
    }
    if left.Some? {
      SoundIsReadable(left.value.id, s.disk.transactions[left.value.id], left.value.ops, s.trace);
    }
    var summaries := InspectManagedTransactions(s);
    if id :| id in s.disk.transactions && Incomplete(s.disk.transactions[id]) {
      return Some(Refused(RecoveryRequired)), left, after;
    }
    if left.Some? {
      CloseAccount(s, left.value, origin, history);
      after := Closed(s, left.value, history);
      left := None;
    }
  }

  /** Inspection shows this recovery token. */
  predicate Shows(d: TxDir, token: Token) {
    d.progress.Some? && d.progress.value.recoveryToken == token
  }

  /** The answer to a driver's failure, from the directory that it leaves. A lost lease
      is always passed on; a transaction that is over after all has a receipt; and one
      that was authorized to publish needs recovery, unless nothing leads on from it. */
  predicate Classified(d: TxDir, token: Option<Token>, failure: Reason, r: Outcome) {
    if failure.LeaseConflict? then r == Refused(LeaseConflict)
    else if d.progress.None? then r == Refused(StateCorrupt)
    else if token.Some? && !Shows(d, token.value) then r == Refused(RecoveryRequired)
    else if Terminal(d) then
      if Clean(d) then r.Died? || (r.Receipt? && r.phase == d.progress.value.phase) else r == Refused(RecoveryRequired)
    else if InPublishing(d) then r == Refused(RecoveryRequired) || r == Refused(StateCorrupt)
    else r == Refused(if failure.InternalFailure? then RecoveryRequired else failure)
  }

  /** `classifyDriverFailure` of a transaction that has a directory; InternalFailure
      stands for what is no failure of the manager's own. */
  method ClassifyDriverFailure(s: Store, id: TxId, token: Option<Token>, failure: Reason, ghost open: Unfinished) returns (r: Outcome)
    requires World(s, Some(open)) && id == open.id
    requires failure.InternalFailure? ==> s.disk.transactions[id].progress.Some?
    modifies s`disk, s`budget, s`trace, s`unsupported
    ensures World(s, Some(open))
    ensures Others(s.disk, id) == Others(old(s.disk), id)
    ensures Classified(old(s.disk).transactions[id], token, failure, r)
    ensures s.quiet && r.Refused? && !failure.LeaseConflict? && InPublishing(s.disk.transactions[id]) && (token.None? || Shows(s.disk.transactions[id], token.value)) ==>
      (r.reason.StateCorrupt? <==> NoParent(s, id, open.ops))
    ensures r.Refused? ==> s.disk.transactions == old(s.disk.transactions) && s.budget == old(s.budget)
    ensures Forward(s.disk.transactions[id]) <==> Forward(old(s.disk).transactions[id])
    ensures r.Receipt? ==> Finished(s.disk.transactions[id], r.phase)
    ensures Paid(old(s.budget), s.budget, 4, !r.Died?)
    ensures r.Receipt? ==> Synced(old(s.disk).transactions[id].progress.value.directorySync, r.directorySync, old(s.unsupported), s.unsupported)
    ensures old(s.unsupported) <= s.unsupported
  {
    if failure.LeaseConflict? {
      return Refused(LeaseConflict);
    }
    SoundIsReadable(id, s.disk.transactions[id], open.ops, s.trace);
    var summaries := InspectManagedTransactions(s);
    if summaries.None? {
      return Refused(StateCorrupt);
    }
    if token.Some? && summaries.value[id].recoveryToken != token.value {
      return Refused(RecoveryRequired);
    }
    ghost var before := s.disk;
    if Terminal(s.disk.transactions[id]) {
      if !Clean(s.disk.transactions[id]) {
        return Refused(RecoveryRequired);
      }
      r := FinalizeTerminal(s, id, open.ops, open.fence);
      OthersSame(before, s.disk, id);
    } else if InPublishing(s.disk.transactions[id]) {
      var reason := ClassifyPublishing(s, id, s.disk.transactions[id].manifest.value.value.operations, open.fence);
      r := Refused(reason);
    } else {
      r := Refused(if failure.InternalFailure? then RecoveryRequired else failure);
    }
  }

  /** A receipt if nothing is in the way, and otherwise the reason given. */
  predicate AnswersTo(r: Outcome, obstacle: Option<Reason>) {
    if obstacle.None? then r.Receipt? else r == Refused(obstacle.value)
  }

  /** The execution once stores and guards have been looked at for the first time. */
  method ExecuteChecked(s: Store, m: Manifest, ghost stores: seq<Want>, guards: seq<Want>, fence: seq<Artifact>, ghost origin: Tree, ghost history: seq<seq<Operation>>)
    returns (r: Outcome, ghost left: Option<Unfinished>, ghost after: seq<seq<Operation>>)
    requires Account(s, None, origin, history)
    requires s.quiet ==> Met(s.disk.tree, stores) && Met(s.disk.tree, guards)
    requires ValidPlan(m.operations) && FenceOf(fence, m.operations) && m.transactionId !in s.disk.transactions
    modifies s
    ensures Account(s, left, origin, after)
    ensures after == if r.Receipt? then history + [m.operations] else history
    ensures left.Some? ==> left.value == Unfinished(m.transactionId, m.operations, fence) && (s.quiet ==> s.base == old(s.disk.tree))
    ensures left.None? && !r.Receipt? && s.quiet ==> s.disk == old(s.disk)
    ensures r.Receipt? ==> r.phase.Committed? && left.None?
    ensures r == Refused(RecoveryRequired) ==> Blocking(s.disk, left)
    ensures s.quiet && r.Receipt? ==> s.disk.tree == Applied(old(s.disk.tree), m.operations, |m.operations|)
    ensures s.quiet && !r.Died? ==> AnswersTo(r, Obstacle(old(s.disk.tree), m.operations, stores, guards, fence))
    ensures Paid(old(s.budget), s.budget, ExecutionCost(|m.operations|) + 4, !r.Died?)
    ensures r.Receipt? ==> r.directorySync == if s.unsupported > old(s.unsupported) then Unsupported else Supported
  {
    left, after := None, history;
    ghost var before := s.disk;
    r := DriveExecution(s, m, guards, fence);
    OthersSame(before, s.disk, m.transactionId);
    if s.quiet {
      ObstacleExact(before.tree, m.operations, stores, guards, fence);
    }
    if m.transactionId in s.disk.transactions {
      left := Some(Unfinished(m.transactionId, m.operations, fence));
      if r.Receipt? {
        CloseAccount(s, left.value, origin, history);
        left, after := None, history + [m.operations];
      } else if r.Refused? {
        r := ClassifyRefusal(s, m, stores, guards, fence, r.reason, left.value);
      }
    }
  }

  /** The answer to a refused execution that has left a directory. */
  method ClassifyRefusal(s: Store, m: Manifest, ghost stores: seq<Want>, ghost guards: seq<Want>, ghost fence: seq<Artifact>, failure: Reason, ghost open: Unfinished) returns (r: Outcome)
    requires World(s, Some(open)) && open == Unfinished(m.transactionId, m.operations, fence)
    requires Refusal(s, m, guards, fence, failure)
    requires s.quiet ==> Met(s.base, stores) && Met(s.base, guards)
    modifies s`disk, s`budget, s`trace, s`unsupported
    ensures World(s, Some(open)) && s.disk.transactions == old(s.disk.transactions)
    ensures r.Refused?
    ensures r == Refused(RecoveryRequired) ==> Blocking(s.disk, Some(open))
    ensures s.quiet ==> r == Refused(RecoveryRequired) || r == Refused(StateCorrupt) || r == Refused(RevisionConflict)
    ensures s.quiet ==> AnswersTo(r, Obstacle(s.base, m.operations, stores, guards, fence))
    ensures s.budget == old(s.budget)
    ensures s.unsupported >= old(s.unsupported)
  {
    r := ClassifyDriverFailure(s, m.transactionId, None, failure, open);
    if s.quiet && AllExpected(s.base, m.operations) {
      HaltedObstacle(s.base, m.operations, stores, guards, fence, s.landed);
    }
  }

  /** The execution once preflight has passed. */
  method ExecuteSettled(s: Store, m: Manifest, stores: seq<Want>, guards: seq<Want>, fence: seq<Artifact>, ghost origin: Tree, ghost history: seq<seq<Operation>>)
    returns (r: Outcome, ghost left: Option<Unfinished>, ghost after: seq<seq<Operation>>)
    requires Account(s, None, origin, history)
    requires ValidPlan(m.operations) && FenceOf(fence, m.operations) && m.transactionId !in s.disk.transactions
    modifies s
    ensures Account(s, left, origin, after)
    ensures after == if r.Receipt? then history + [m.operations] else history
    ensures left.Some? ==> left.value == Unfinished(m.transactionId, m.operations, fence) && (s.quiet ==> s.base == old(s.disk.tree))
    ensures left.None? && !r.Receipt? && s.quiet ==> s.disk == old(s.disk)
    ensures r.Receipt? ==> r.phase.Committed? && left.None?
    ensures r == Refused(RecoveryRequired) ==> Blocking(s.disk, left)
    ensures s.quiet && r.Receipt? ==> s.disk.tree == Applied(old(s.disk.tree), m.operations, |m.operations|)
    ensures s.quiet && !r.Died? ==> AnswersTo(r, Obstacle(old(s.disk.tree), m.operations, stores, guards, fence))
    ensures Paid(old(s.budget), s.budget, ExecutionCost(|m.operations|) + 4, !r.Died?)
    ensures r.Receipt? ==> r.directorySync == if s.unsupported > old(s.unsupported) then Unsupported else Supported
  {
    left, after := None, history;
    var met := CheckAll(s, stores);
    if met {
      met := CheckAll(s, guards);
    }
    if !met {
      r := Refused(RevisionConflict);
      return;
    }
    r, left, after := ExecuteChecked(s, m, stores, guards, fence, origin, history);
  }

  /** `executeManagedMutation` of a frozen plan under a fresh transaction id. */
  method ExecuteManagedMutation(s: Store, m: Manifest, stores: seq<Want>, guards: seq<Want>, fence: seq<Artifact>, ghost open: Option<Unfinished>, ghost origin: Tree, ghost history: seq<seq<Operation>>)
    returns (r: Outcome, ghost left: Option<Unfinished>, ghost after: seq<seq<Operation>>)
    requires Account(s, open, origin, history)
    requires ValidPlan(m.operations) && FenceOf(fence, m.operations) && m.transactionId !in s.disk.transactions
    modifies s
    ensures Account(s, left, origin, after)
    ensures history <= after
    ensures left.Some? ==> left == open || left.value.ops == m.operations
    ensures forall k | |history| <= k < |after| :: after[k] == m.operations || (open.Some? && after[k] == open.value.ops)
    ensures r.Receipt? ==> r.phase.Committed? && left.None? && after != [] && after[|after| - 1] == m.operations
    ensures !r.Receipt? ==> after == history || (open.Some? && after == history + [open.value.ops])
    ensures left.Some? && left != open ==> left.value == Unfinished(m.transactionId, m.operations, fence) && (s.quiet ==> s.base == old(s.disk.tree))
    ensures s.quiet && !r.Receipt? && (left.None? || left == open) ==> s.disk.tree == old(s.disk.tree)
    ensures Blocking(old(s.disk), open) ==> r == Refused(RecoveryRequired) && left == open && s.disk == old(s.disk)
    ensures r == Refused(RecoveryRequired) ==> Blocking(s.disk, left)
    ensures s.quiet && r.Receipt? ==> s.disk.tree == Applied(old(s.disk.tree), m.operations, |m.operations|)
    ensures s.quiet && !r.Died? && !Blocking(old(s.disk), open) ==>
      AnswersTo(r, Obstacle(old(s.disk.tree), m.operations, stores, guards, fence))
    ensures Paid(old(s.budget), s.budget, ExecutionCost(|m.operations|) + 6, !r.Died?)
    ensures r.Receipt? ==> r.directorySync == if s.unsupported > old(s.unsupported) then Unsupported else Supported
  {
    var stop;
    stop, left, after := Preflight(s, open, origin, history);
    if stop.Some? {
      r := stop.value;
      return;
    }
    r, left, after := ExecuteSettled(s, m, stores, guards, fence, origin, after);
  }

  /** `recoverManagedMutation` of the unfinished transaction. */
  method RecoverManagedMutation(s: Store, id: TxId, token: Token, ghost open: Unfinished, ghost origin: Tree, ghost history: seq<seq<Operation>>)
    returns (r: Outcome, ghost left: Option<Unfinished>, ghost after: seq<seq<Operation>>)
    requires Account(s, Some(open), origin, history) && id == open.id
    modifies s`disk, s`budget, s`trace, s`landed, s`unsupported
    ensures Account(s, left, origin, after)
    ensures r.Receipt? ==> left.None? && after == old(Closed(s, open, history))
    ensures r.Receipt? ==> (r.phase.Committed? <==> Forward(old(s.disk).transactions[id]))
    ensures !r.Receipt? ==> left == Some(open) && after == history
    ensures open.id in s.disk.transactions && (Forward(s.disk.transactions[id]) <==> Forward(old(s.disk).transactions[id]))
    ensures s.quiet && r.Receipt? ==>
      s.disk.tree == if Forward(old(s.disk).transactions[id]) then Applied(s.base, open.ops, |open.ops|) else s.base
    ensures old(s.disk).transactions[id].progress.None? ==> r == Refused(StateCorrupt) && s.disk == old(s.disk)
    ensures old(s.disk).transactions[id].progress.Some? && !Shows(old(s.disk).transactions[id], token) ==>
      r == Refused(RecoveryRequired) && s.disk == old(s.disk)
    ensures r == Refused(RecoveryRequired) ==> !Shows(old(s.disk).transactions[id], token) || Blocking(s.disk, left)
    ensures s.quiet && r.Refused? && Shows(old(s.disk).transactions[id], token) ==> r.reason.StateCorrupt?
    ensures Paid(old(s.budget), s.budget, RecoveryCost(old(s.disk).transactions[id], |open.ops|) + 4, !r.Died?)
    ensures s.quiet && !r.Died? && Shows(old(s.disk).transactions[id], token) ==>
      (r.Receipt? <==> !Forward(old(s.disk).transactions[id]) || ParentsReady(s.base, open.ops))
    ensures r.Receipt? ==> !r.directorySync.NotAttempted?
    ensures r.Receipt? && r.directorySync.Unsupported? ==> old(s.disk).transactions[id].progress.value.directorySync.Unsupported? || s.unsupported > old(s.unsupported)
    ensures s.quiet && r.Receipt? && (old(s.disk).transactions[id].progress.value.directorySync.Unsupported? || s.unsupported > old(s.unsupported)) ==> r.directorySync.Unsupported?
  {
    left, after := Some(open), history;
    SoundIsReadable(id, s.disk.transactions[id], open.ops, s.trace);
    var summaries := InspectManagedTransactions(s);
    if summaries.None? {
      r := Refused(StateCorrupt);
      return;
    }
    if summaries.value[id].recoveryToken != token {
      r := Refused(RecoveryRequired);
      return;
    }
    r := RecoverShown(s, id, token, open);
    if r.Receipt? {
      CloseAccount(s, open, origin, history);
      after := Closed(s, open, history);
      left := None;
    }
  }

  /** The recovery once the token has been compared, and the answer to its failure. */
  method RecoverShown(s: Store, id: TxId, token: Token, ghost open: Unfinished) returns (r: Outcome)
    requires World(s, Some(open)) && id == open.id && Shows(s.disk.transactions[id], token)
    modifies s`disk, s`budget, s`trace, s`landed, s`unsupported
    ensures World(s, Some(open))
    ensures Forward(s.disk.transactions[id]) <==> Forward(old(s.disk).transactions[id])
    ensures r.Receipt? ==> Finished(s.disk.transactions[id], r.phase) && (r.phase.Committed? <==> Forward(s.disk.transactions[id]))
    ensures r == Refused(RecoveryRequired) ==> Blocking(s.disk, Some(open))
    ensures s.quiet && r.Refused? ==> r.reason.StateCorrupt?
    ensures s.quiet && !r.Died? ==> (r.Receipt? <==> !Forward(old(s.disk).transactions[id]) || ParentsReady(s.base, open.ops))
    ensures Paid(old(s.budget), s.budget, RecoveryCost(old(s.disk).transactions[id], |open.ops|) + 4, !r.Died?)
    ensures r.Receipt? ==> !r.directorySync.NotAttempted?
    ensures r.Receipt? && r.directorySync.Unsupported? ==> old(s.disk).transactions[id].progress.value.directorySync.Unsupported? || s.unsupported > old(s.unsupported)
    ensures s.quiet && r.Receipt? && (old(s.disk).transactions[id].progress.value.directorySync.Unsupported? || s.unsupported > old(s.unsupported)) ==> r.directorySync.Unsupported?
  {
    ghost var before := s.disk;
    r := DriveRecovery(s, id, open.ops, open.fence);
    OthersSame(before, s.disk, id);
    if r.Refused? {
      r := ClassifyDriverFailure(s, id, Some(token), r.reason, open);
    }
  }

  /** A call to the transaction manager, by a process that lives to make `lives`
      durable changes. */
  datatype Call =
    | Execute(manifest: Manifest, stores: seq<Want>, guards: seq<Want>, guarded: bool, lives: nat)
    | Recover(lives: nat)

  ghost predicate WellFormedCall(call: Call) {
    call.Execute? ==>
      ValidPlan(call.manifest.operations) && (call.guarded ==> |Authority(call.manifest.operations)| == 2)
  }

  function FenceFor(call: Call): seq<Artifact>
    requires call.Execute?
  {
    if call.guarded then Authority(call.manifest.operations) else []
  }

  /** Between two calls: what is on disk, the unfinished transaction, the tree that its
      execution started from, and how many of its operations have landed. */
  datatype Scene = Scene(disk: Disk, open: Option<Unfinished>, base: Tree, landed: nat)

  /** Without other writers the unfinished plan has landed up to where the scene says. */
  ghost predicate InPlace(quiet: bool, scene: Scene) {
    scene.open.Some? ==>
      var open := scene.open.value;
      && ValidPlan(open.ops) && open.id in scene.disk.transactions
      && (quiet ==>
        && Layout(open.id, scene.disk.transactions[open.id], open.ops, scene.landed)
        && scene.disk.tree == Applied(scene.base, open.ops, scene.landed))
  }

  /** With enough lives an execution that nothing blocks answers to the obstacle in its
      way: a receipt if there is none, and the whole plan is then in place. */
  ghost predicate ExecutionAnswered(call: Call, quiet: bool, before: Scene, r: Outcome, after: Scene)
    requires call.Execute?
  {
    var ops, tree := call.manifest.operations, before.disk.tree;
    && (Blocking(before.disk, before.open) ==> r == Refused(RecoveryRequired) && after.disk == before.disk && after.open == before.open)
    && (r == Refused(RecoveryRequired) ==> Blocking(after.disk, after.open))
    && (r.Died? ==> call.lives < ExecutionCost(|ops|) + 6)
    && (r.Receipt? ==> r.phase.Committed? && after.open.None?)
    && (after.open.Some? && after.open != before.open ==>
      after.open.value == Unfinished(call.manifest.transactionId, ops, FenceFor(call)) && (quiet ==> after.base == tree))
    && (quiet && r.Receipt? ==> after.disk.tree == Applied(tree, ops, |ops|))
    && (quiet && !r.Receipt? && (after.open.None? || after.open == before.open) ==> after.disk.tree == tree)
    && (quiet && !r.Died? && !Blocking(before.disk, before.open) ==>
      AnswersTo(r, Obstacle(tree, ops, call.stores, call.guards, FenceFor(call))))
  }

  /** With enough lives a recovery answers with a receipt exactly if it rolls back or
      every parent is ready, and all of the plan or nothing is then in place. */
  ghost predicate RecoveryAnswered(lives: nat, quiet: bool, before: Scene, r: Outcome, after: Scene)
    requires Blocking(before.disk, before.open)
  {
    var open := before.open.value;
    var n, d := |open.ops|, before.disk.transactions[open.id];
    && (r.Died? ==> lives < RecoveryCost(d, n) + 4)
    && (r.Receipt? ==> after.open.None? && (r.phase.Committed? <==> Forward(d)))
    && (!r.Receipt? ==> after.open == before.open && after.base == before.base)
    && (!r.Receipt? ==> open.id in after.disk.transactions && (Forward(after.disk.transactions[open.id]) <==> Forward(d)))
    && (r == Refused(RecoveryRequired) ==> Blocking(after.disk, after.open))
    && (quiet && r.Refused? ==> r.reason.StateCorrupt?)
    && (quiet && r.Receipt? ==> after.disk.tree == if Forward(d) then Applied(before.base, open.ops, n) else before.base)
    && (quiet && !r.Died? ==> (r.Receipt? <==> !Forward(d) || ParentsReady(before.base, open.ops)))
  }

  /** What a call answers. One whose id is taken, or that finds nothing to recover,
      is not made. */
  ghost predicate Answered(call: Call, quiet: bool, before: Scene, outcome: Option<Outcome>, after: Scene) {
    match call
    case Execute(m, _, _, _, _) =>
      if m.transactionId in before.disk.transactions then outcome.None? && after == before
      else outcome.Some? && ExecutionAnswered(call, quiet, before, outcome.value, after)
    case Recover(lives) =>
      if !Blocking(before.disk, before.open) then outcome.None? && after == before
      else outcome.Some? && RecoveryAnswered(lives, quiet, before, outcome.value, after)
  }

  /** One call. Recovery asks for the unfinished transaction with the token
      inspection shows; an execution's id is fresh. */
  method MakeCall(s: Store, call: Call, ghost open: Option<Unfinished>, ghost origin: Tree, ghost history: seq<seq<Operation>>)
    returns (outcome: Option<Outcome>, ghost left: Option<Unfinished>, ghost after: seq<seq<Operation>>)
    requires Account(s, open, origin, history) && WellFormedCall(call)
    modifies s
    ensures Account(s, left, origin, after)
    ensures history <= after
    ensures left.Some? ==> left == open || (call.Execute? && left.value.ops == call.manifest.operations)
    ensures forall k | |history| <= k < |after| ::
      (call.Execute? && after[k] == call.manifest.operations) || (open.Some? && after[k] == open.value.ops)
    ensures Answered(call, s.quiet, Scene(old(s.disk), open, old(s.base), old(s.landed)), outcome, Scene(s.disk, left, s.base, s.landed))
  {
    outcome, left, after := None, open, history;
    match call
    case Execute(m, stores, guards, guarded, lives) =>
      if m.transactionId !in s.disk.transactions {
        s.budget := lives;
        var r;
        r, left, after := ExecuteManagedMutation(s, m, stores, guards, FenceFor(call), open, origin, history);
        outcome := Some(r);
      }
    case Recover(lives) =>
      if id :| id in s.disk.transactions && Incomplete(s.disk.transactions[id]) {
        if s.disk.transactions[id].progress.Some? {
          s.budget := lives;
          var r;
          r, left, after := RecoverManagedMutation(s, id, s.disk.transactions[id].progress.value.recoveryToken, open.value, origin, history);
          outcome := Some(r);
        }
      }
  }

  /** All of the plan or nothing, or the one unfinished plan on top of `tree`. */
  ghost predicate OneInTheMaking(tree: Tree, ops: seq<Operation>, scene: Scene) {
    if scene.open.None? then scene.disk.tree == tree || scene.disk.tree == Applied(tree, ops, |ops|)
    else scene.open.value.ops == ops && scene.base == tree && InPlace(true, scene)
  }

  /** An execution in a settled project, and then recoveries only. */
  ghost predicate ThenRecoveries(script: seq<Call>, outcomes: seq<Option<Outcome>>, scenes: seq<Scene>) {
    && |outcomes| == |script| > 0 && |scenes| == |script| + 1
    && script[0].Execute? && scenes[0].open.None? && script[0].manifest.transactionId !in scenes[0].disk.transactions
    && (forall i | 0 < i < |script| :: script[i].Recover?)
    && (forall i | 0 <= i < |script| :: Answered(script[i], true, scenes[i], outcomes[i], scenes[i + 1]))
    && (forall i | 0 <= i <= |script| :: InPlace(true, scenes[i]))
  }

  lemma {:induction false} StaysOne(script: seq<Call>, outcomes: seq<Option<Outcome>>, scenes: seq<Scene>, n: nat)
    requires ThenRecoveries(script, outcomes, scenes) && 0 < n <= |script|
    ensures OneInTheMaking(scenes[0].disk.tree, script[0].manifest.operations, scenes[n])
  {
    if n > 1 {
      StaysOne(script, outcomes, scenes, n - 1);
    }
    assert Answered(script[n - 1], true, scenes[n - 1], outcomes[n - 1], scenes[n]);
  }

  /** Crash atomicity: after an execution and any number of recoveries, each of which
      may die anywhere, one recovery that lives long enough leaves nothing to recover,
      and all of the plan or nothing, unless a parent is missing for a plan that was
      authorized to publish. */
  lemma RecoversInTheEnd(script: seq<Call>, outcomes: seq<Option<Outcome>>, scenes: seq<Scene>)
    requires ThenRecoveries(script, outcomes, scenes) && |script| > 1
    requires
      var before, ops := scenes[|script| - 1], script[0].manifest.operations;
      Blocking(before.disk, before.open) ==>
        var d := before.disk.transactions[before.open.value.id];
        && script[|script| - 1].lives >= RecoveryCost(d, |ops|) + 4
        && (Forward(d) ==> ParentsReady(scenes[0].disk.tree, ops))
    ensures
      var last, tree, ops := scenes[|script|], scenes[0].disk.tree, script[0].manifest.operations;
      !Blocking(last.disk, last.open) && (last.disk.tree == tree || last.disk.tree == Applied(tree, ops, |ops|))
  {
    StaysOne(script, outcomes, scenes, |script| - 1);
    assert Answered(script[|script| - 1], true, scenes[|script| - 1], outcomes[|script| - 1], scenes[|script|]);
    var before := scenes[|script| - 1];
    if before.open.Some? && !Blocking(before.disk, before.open) {
      AllOrNothingInPlace(before);
    }
  }

  lemma AllOrNothingInPlace(scene: Scene)
    requires scene.open.Some? && InPlace(true, scene) && !Blocking(scene.disk, scene.open)
    ensures scene.disk.tree == scene.base || scene.disk.tree == Applied(scene.base, scene.open.value.ops, |scene.open.value.ops|)
  {
  }

  ghost predicate Submitted(script: seq<Call>, turns: nat, ops: seq<Operation>)
    requires turns <= |script|
  {
    exists i :: 0 <= i < turns && script[i].Execute? && script[i].manifest.operations == ops
  }

  lemma SubmittedLater(script: seq<Call>, turns: nat, ops: seq<Operation>)
    requires turns < |script|
    requires Submitted(script, turns, ops) || (script[turns].Execute? && script[turns].manifest.operations == ops)
    ensures Submitted(script, turns + 1, ops)
  {
  }

  /** Any sequence of executions and recoveries, each by a process that may die at
      any durable change: every call answers as it should, whenever no transaction is
      unfinished the tree is the starting tree with whole submitted plans applied, one
      after the other, and otherwise it carries a prefix of the one unfinished plan
      on top. */
  method Session(s: Store, script: seq<Call>, ghost origin: Tree)
    returns (outcomes: seq<Option<Outcome>>, ghost open: Option<Unfinished>, ghost history: seq<seq<Operation>>, ghost scenes: seq<Scene>)
    requires s.disk.tree == origin && forall id | id in s.disk.transactions :: Settled(id, s.disk.transactions[id])
    requires forall call | call in script :: WellFormedCall(call)
    modifies s
    ensures Account(s, open, origin, history)
    ensures s.quiet && open.None? ==> s.disk.tree == Replayed(origin, history)
    ensures s.quiet ==> Sequential(origin, history)
    ensures s.quiet && open.Some? ==> s.landed <= |open.value.ops| && s.disk.tree == Applied(Replayed(origin, history), open.value.ops, s.landed)
    ensures forall k | 0 <= k < |history| :: Submitted(script, |script|, history[k])
    ensures |outcomes| == |script| && |scenes| == |script| + 1
    ensures scenes[0] == Scene(old(s.disk), None, old(s.base), old(s.landed)) && scenes[|script|] == Scene(s.disk, open, s.base, s.landed)
    ensures forall i | 0 <= i <= |script| :: InPlace(s.quiet, scenes[i])
    ensures forall i | 0 <= i < |script| :: Answered(script[i], s.quiet, scenes[i], outcomes[i], scenes[i + 1])
  {
    outcomes, open, history := [], None, [];
    scenes := [Scene(s.disk, open, s.base, s.landed)];
    for turn := 0 to |script|
      invariant Account(s, open, origin, history)
      invariant open.Some? ==> Submitted(script, turn, open.value.ops)
      invariant forall k | 0 <= k < |history| :: Submitted(script, turn, history[k])
      invariant |outcomes| == turn && |scenes| == turn + 1
      invariant scenes[0] == Scene(old(s.disk), None, old(s.base), old(s.landed)) && scenes[turn] == Scene(s.disk, open, s.base, s.landed)
      invariant forall i | 0 <= i <= turn :: InPlace(s.quiet, scenes[i])
      invariant forall i | 0 <= i < turn :: Answered(script[i], s.quiet, scenes[i], outcomes[i], scenes[i + 1])
    {
      var outcome;
      outcome, open, history := MakeCall(s, script[turn], open, origin, history);
      outcomes, scenes := outcomes + [outcome], scenes + [Scene(s.disk, open, s.base, s.landed)];
      if open.Some? {
        SubmittedLater(script, turn, open.value.ops);
      }
      forall k | 0 <= k < |history| ensures Submitted(script, turn + 1, history[k]) {
        SubmittedLater(script, turn, history[k]);
      }
    }
  }
}
