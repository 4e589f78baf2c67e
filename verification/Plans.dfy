/** Managed mutation plans and the tree of destinations they act on. */
module Plans {
  /** A project-relative path, split at its separators; [] is the project root. */
  type Path = seq<string>

  /** What `inspect` reports. A file is identified with its bytes, that is, the
      digest is taken to be injective. `Special` stands for symlinks and devices. */
  datatype Fingerprint = Missing | Directory | File(content: string) | Special

  /** The entries outside `.brain/transactions`; an absent key is a missing entry. */
  type Tree = map<Path, Fingerprint>

  function At(tree: Tree, path: Path): Fingerprint {
    if path == [] then Directory
    else if path in tree then tree[path]
    else Missing
  }

  function Parent(path: Path): Path
  {
    if path == [] then [] else path[..|path| - 1]
  }

  /** Entries lie in directories. */
  ghost predicate TreeOk(tree: Tree) {
    forall p | p in tree && p != [] && !tree[p].Missing? :: At(tree, Parent(p)).Directory?
  }

  datatype Kind = CreateDirectory | WriteFile | DeleteFile

  /** `operationId` is the number N of `operation-N`. A write's staged payload is
      named after it, so `stagedPath` needs no field of its own. */
  datatype Operation = Operation(operationId: nat, kind: Kind, path: Path, expected: Fingerprint, result: Fingerprint)

  predicate WellShaped(op: Operation) {
    && op.path != []
    && op.expected != op.result
    && match op.kind
       case CreateDirectory => op.expected.Missing? && op.result.Directory?
       case WriteFile => (op.expected.Missing? || op.expected.File?) && op.result.File?
       case DeleteFile => op.expected.File? && op.result.Missing?
  }

  predicate WellShapedPlan(ops: seq<Operation>) {
    && ops != []
    && forall i | 0 <= i < |ops| :: ops[i].operationId == i + 1 && WellShaped(ops[i])
  }

  ghost predicate DistinctPaths(ops: seq<Operation>) {
    forall i, j | 0 <= i < j < |ops| :: ops[i].path != ops[j].path
  }

  /** What every later step may rely on about a plan. */
  ghost predicate ValidPlan(ops: seq<Operation>) {
    WellShapedPlan(ops) && DistinctPaths(ops)
  }

  /** The tree after the first `k` operations have been published over `base`. */
  ghost function Applied(base: Tree, ops: seq<Operation>, k: nat): Tree
    requires k <= |ops|
  {
    if k == 0 then base
    else Applied(base, ops, k - 1)[ops[k - 1].path := ops[k - 1].result]
  }

  /** Publishing the first `k` operations gives exactly those destinations their
      results and changes no other path. */
  lemma {:induction false} AppliedAt(base: Tree, ops: seq<Operation>, k: nat, path: Path)
    requires ValidPlan(ops) && k <= |ops|
    ensures forall i | 0 <= i < k :: At(Applied(base, ops, k), ops[i].path) == ops[i].result
    ensures (forall i | 0 <= i < k :: ops[i].path != path) ==> At(Applied(base, ops, k), path) == At(base, path)
  {
    if k > 0 {
      AppliedAt(base, ops, k - 1, path);
    }
  }

  /** Every destination is as the plan expects. */
  ghost predicate AllExpected(tree: Tree, ops: seq<Operation>) {
    forall i | 0 <= i < |ops| :: At(tree, ops[i].path) == ops[i].expected
  }

  ghost predicate AllResults(tree: Tree, ops: seq<Operation>) {
    forall i | 0 <= i < |ops| :: At(tree, ops[i].path) == ops[i].result
  }

  /** With `k` operations published, destination `i` shows its result if i < k and
      its expected value otherwise. */
  lemma {:induction false} AppliedDestinations(base: Tree, ops: seq<Operation>, k: nat)
    requires ValidPlan(ops) && k <= |ops| && AllExpected(base, ops)
    ensures forall i | 0 <= i < |ops| ::
      At(Applied(base, ops, k), ops[i].path) == if i < k then ops[i].result else ops[i].expected
  {
    forall i | 0 <= i < |ops|
      ensures At(Applied(base, ops, k), ops[i].path) == if i < k then ops[i].result else ops[i].expected
    {
      AppliedAt(base, ops, k, ops[i].path);
    }
  }

  /** The parent of operation `j` is a directory before the plan starts, or an
      earlier operation creates it. A caller can check this on the tree it observed. */
  ghost predicate ParentReady(base: Tree, ops: seq<Operation>, j: nat)
    requires j < |ops|
  {
    || At(base, Parent(ops[j].path)) == Directory
    || exists i :: 0 <= i < j && ops[i].kind.CreateDirectory? && ops[i].path == Parent(ops[j].path)
  }

  ghost predicate ParentsReady(base: Tree, ops: seq<Operation>) {
    forall j | 0 <= j < |ops| :: ParentReady(base, ops, j)
  }

  /** That condition on the starting tree decides exactly whether the parent is a
      directory at the moment the operation is reached. */
  lemma {:induction false} ParentReadyExact(base: Tree, ops: seq<Operation>, j: nat)
    requires ValidPlan(ops) && AllExpected(base, ops) && j < |ops|
    ensures At(Applied(base, ops, j), Parent(ops[j].path)) == Directory <==> ParentReady(base, ops, j)
  {
    var parent := Parent(ops[j].path);
    AppliedAt(base, ops, j, parent);
    if i :| 0 <= i < j && ops[i].path == parent {
      assert At(Applied(base, ops, j), ops[i].path) == ops[i].result;
      assert At(base, ops[i].path) == ops[i].expected;
      assert WellShaped(ops[i]);
    }
  }
}
