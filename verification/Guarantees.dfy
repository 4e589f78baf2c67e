/** What the layouts and traces of one transaction mean for its destinations. */
module Guarantees {
  import opened Options
  import opened Plans
  import opened Recovery
  import opened Layouts
  import opened Traces
  import opened DurableStore
  import opened Conduct
  import opened Execution
  import opened Relationships

  /** The publishing invariant: the record is a prefix of the plan; operations on
      record are at their result, those more than one past the record as expected;
      and a write's payload is staged exactly if its destination is not published. */
  lemma PublishingInvariant(id: TxId, tree: Tree, d: TxDir, ops: seq<Operation>, base: Tree, landed: nat)
    requires ValidPlan(ops) && AllExpected(base, ops) && Layout(id, d, ops, landed)
    requires tree == Applied(base, ops, landed)
    requires d.progress.Some? && d.progress.value.phase.Publishing?
    ensures
      var recorded := |d.progress.value.published|;
      && recorded <= |ops|
      && d.progress.value.published == Ids(recorded)
      && (forall i | 0 <= i < recorded :: At(tree, ops[i].path) == ops[i].result)
      && (forall i | recorded < i < |ops| :: At(tree, ops[i].path) == ops[i].expected)
      && d.staging.Some?
      && (forall i | 0 <= i < |ops| && ops[i].kind.WriteFile? ::
        ops[i].operationId in d.staging.value <==> At(tree, ops[i].path) != ops[i].result)
  {
    AppliedDestinations(base, ops, landed);
    forall i | 0 <= i < |ops| ensures WellShaped(ops[i]) && ops[i].operationId == i + 1 {
    }
  }

  /** All or nothing: once the directory is terminal either every destination is at
      its result, if the transaction committed, or nothing at all has changed. */
  lemma AllOrNothing(id: TxId, tree: Tree, d: TxDir, ops: seq<Operation>, base: Tree, landed: nat)
    requires ValidPlan(ops) && Layout(id, d, ops, landed) && Terminal(d)
    requires tree == Applied(base, ops, landed)
    ensures d.progress.value.phase.Committed? ==> AllResults(tree, ops)
    ensures d.progress.value.phase.Committed? ==>
      forall path | (forall i | 0 <= i < |ops| :: ops[i].path != path) :: At(tree, path) == At(base, path)
    ensures d.progress.value.phase.Aborted? ==> tree == base
  {
    forall path ensures d.progress.value.phase.Committed? ==>
      (forall i | 0 <= i < |ops| :: ops[i].path != path) ==> At(tree, path) == At(base, path)
    {
      AppliedAt(base, ops, landed, path);
    }
    AppliedAt(base, ops, landed, []);
  }

  /** The operation that recovery publishes next goes through exactly if its parent is
      ready, and deleting a file always does, as the file lies in a directory. */
  lemma NextOperationPublishable(id: TxId, disk: Disk, d: TxDir, ops: seq<Operation>, base: Tree, landed: nat)
    requires ValidPlan(ops) && AllExpected(base, ops) && Layout(id, d, ops, landed)
    requires id in disk.transactions && disk.transactions[id] == d && disk.tree == Applied(base, ops, landed)
    requires d.progress.Some? && d.progress.value.phase.Publishing? && landed < |ops|
    ensures At(disk.tree, Parent(ops[landed].path)).Directory? && Publishable(disk, id, ops[landed]) <==> ParentReady(base, ops, landed)
    ensures TreeOk(base) ==> (Publishable(disk, id, ops[landed]) <==> ParentReady(base, ops, landed))
    ensures TreeOk(base) && ops[landed].kind.DeleteFile? ==> ParentReady(base, ops, landed)
  {
    AppliedDestinations(base, ops, landed);
    ParentReadyExact(base, ops, landed);
    assert WellShaped(ops[landed]) && ops[landed].operationId == landed + 1;
  }

  lemma AcceptedExample(ops: seq<Operation>)
    requires |ops| == 2 && ops[0].kind.WriteFile? && ops[1].kind.WriteFile?
    requires |ops[0].path| > 0 && |ops[1].path| > 0 && ops[0].path[0] != ops[1].path[0]
    ensures Related(ops, (name: string) => name)
  {
    var fold := (name: string) => name;
    forall path: Path ensures Fold(fold, path) == path {
    }
    assert Apart(ops[0], ops[1], fold);
    assert CreatedKeys(ops, 0, fold) == CreatedKeys(ops, 1, fold) == {};
  }

  /** Two writes into an empty project, one of them under a directory that is not there. */
  function StrandedPlan(): seq<Operation> {
    [ Operation(1, WriteFile, ["AGENTS.md"], Missing, File("a")),
      Operation(2, WriteFile, [".claude", "settings.json"], Missing, File("b")) ]
  }

  function StrandedDirectory(): TxDir {
    var m := Manifest("tx", "t", StrandedPlan());
    TxDir(Some(BoundProgress(m, Publishing, 1, Supported)), None, Some(Payloads(m.operations, 1)), Some(Whole(m)))
  }

  function StrandedTree(): Tree {
    map[["AGENTS.md"] := File("a")]
  }

  lemma StrandedLayout()
    ensures ValidPlan(StrandedPlan()) && AllExpected(map[], StrandedPlan())
    ensures StrandedTree() == Applied(map[], StrandedPlan(), 1)
    ensures Layout("tx", StrandedDirectory(), StrandedPlan(), 1)
  {
    assert Applied(map[], StrandedPlan(), 0) == map[];
  }

  /** An accepted plan that recovery cannot finish and may no longer abort: nobody
      creates the second write's directory, and this is noticed only once the first
      write is published. */
  lemma StrandedExample()
    ensures ValidPlan(StrandedPlan()) && Related(StrandedPlan(), (name: string) => name)
    ensures AllExpected(map[], StrandedPlan()) && !ParentsReady(map[], StrandedPlan())
    ensures Forward(StrandedDirectory())
    ensures
      var d := StrandedDirectory();
      && Decide(d.manifest.value.value, d.progress.value, Observed(StrandedTree(), d, StrandedPlan())) == Publish(2)
      && !Publishable(Disk(StrandedTree(), map["tx" := d]), "tx", StrandedPlan()[1])
  {
    StrandedLayout();
    AcceptedExample(StrandedPlan());
    DecisionOfLayout("tx", StrandedTree(), StrandedDirectory(), StrandedPlan(), map[], 1);
    assert Parent(StrandedPlan()[1].path) == [".claude"];
    assert !ParentReady(map[], StrandedPlan(), 1);
  }
}
