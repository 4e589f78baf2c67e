/** `validateManagedRelationships`: which plans are accepted, and why accepted
    plans compose. `fold` stands for lower-casing and may be any function. */
module Relationships {
  import opened Plans

  function Fold(fold: string -> string, path: Path): (r: Path)
    ensures |r| == |path|
    ensures forall i | 0 <= i < |path| :: r[i] == fold(path[i])
  {
    seq(|path|, i requires 0 <= i < |path| => fold(path[i]))
  }

  /** The first `k` of `managedPathPrefixes`. */
  function Prefixes(path: Path, k: nat): set<Path>
    requires k <= |path|
  {
    set a | 0 < a <= k :: path[..a]
  }

  /** The destinations of the first `n` operations and all their ancestors. */
  function Ancestry(ops: seq<Operation>, n: nat): set<Path>
    requires n <= |ops|
  {
    if n == 0 then {} else Ancestry(ops, n - 1) + Prefixes(ops[n - 1].path, |ops[n - 1].path|)
  }

  /** Case-insensitively equal ancestors are spelled alike. */
  ghost predicate SpelledAlike(ops: seq<Operation>, fold: string -> string) {
    forall p, q | p in Ancestry(ops, |ops|) && q in Ancestry(ops, |ops|) :: Fold(fold, p) == Fold(fold, q) ==> p == q
  }

  lemma {:induction false} AncestryHolds(ops: seq<Operation>, n: nat, i: nat)
    requires i < n <= |ops|
    ensures Prefixes(ops[i].path, |ops[i].path|) <= Ancestry(ops, n)
  {
    if i < n - 1 {
      AncestryHolds(ops, n - 1, i);
    }
  }

  lemma {:induction false} AncestorOf(ops: seq<Operation>, n: nat, p: Path) returns (i: nat, k: nat)
    requires n <= |ops| && p in Ancestry(ops, n)
    ensures i < n && 0 < k <= |ops[i].path| && p == ops[i].path[..k]
  {
    if p in Prefixes(ops[n - 1].path, |ops[n - 1].path|) {
      i := n - 1;
      k :| 0 < k <= |ops[i].path| && p == ops[i].path[..k];
    } else {
      i, k := AncestorOf(ops, n - 1, p);
    }
  }

  lemma {:induction false} AncestryGrows(ops: seq<Operation>, n: nat, m: nat)
    requires n <= m <= |ops|
    ensures Ancestry(ops, n) <= Ancestry(ops, m)
  {
    if n < m {
      AncestryGrows(ops, n, m - 1);
    }
  }

  /** No destination repeats or lies under another, except under a directory that
      an earlier operation creates and where nothing is expected yet. */
  predicate Apart(left: Operation, right: Operation, fold: string -> string) {
    var l, r := Fold(fold, left.path), Fold(fold, right.path);
    && l != r
    && !(r < l)
    && (l < r ==> left.kind.CreateDirectory? && right.expected.Missing?)
  }

  ghost predicate PairwiseApart(ops: seq<Operation>, fold: string -> string) {
    forall i, j | 0 <= i < j < |ops| :: Apart(ops[i], ops[j], fold)
  }

  /** The folded paths of the directories that the first `n` operations create. */
  function CreatedKeys(ops: seq<Operation>, n: nat, fold: string -> string): set<Path>
    requires n <= |ops|
  {
    if n == 0 then {}
    else if ops[n - 1].kind.CreateDirectory? then CreatedKeys(ops, n - 1, fold) + {Fold(fold, ops[n - 1].path)}
    else CreatedKeys(ops, n - 1, fold)
  }

  predicate CreatedAmong(ops: seq<Operation>, n: nat, path: Path, fold: string -> string)
    requires n <= |ops|
  {
    Fold(fold, path) in CreatedKeys(ops, n, fold)
  }

  lemma {:induction false} CreatorOf(ops: seq<Operation>, n: nat, key: Path, fold: string -> string)
    requires n <= |ops|
    ensures key in CreatedKeys(ops, n, fold) <==>
      exists i :: 0 <= i < n && ops[i].kind.CreateDirectory? && Fold(fold, ops[i].path) == key
  {
    if n > 0 {
      CreatorOf(ops, n - 1, key, fold);
    }
  }

  /** Below a created directory every further ancestor is created too. */
  ghost predicate UnbrokenUnder(ops: seq<Operation>, n: nat, path: Path, fold: string -> string)
    requires n <= |ops|
  {
    forall a, b | 0 < a < b < |path| ::
      CreatedAmong(ops, n, path[..a], fold) ==> CreatedAmong(ops, n, path[..b], fold)
  }

  ghost predicate Related(ops: seq<Operation>, fold: string -> string) {
    && SpelledAlike(ops, fold)
    && PairwiseApart(ops, fold)
    && forall j | 0 <= j < |ops| :: UnbrokenUnder(ops, j, ops[j].path, fold)
  }

  /** `spellings` maps the folding of each path met to that path. */
  ghost predicate Remembers(spellings: map<Path, Path>, met: set<Path>, fold: string -> string) {
    && (forall key | key in spellings :: spellings[key] in met && Fold(fold, spellings[key]) == key)
    && (forall p | p in met :: Fold(fold, p) in spellings && spellings[Fold(fold, p)] == p)
  }

  method CheckSpellings(ops: seq<Operation>, fold: string -> string) returns (ok: bool)
    ensures ok <==> SpelledAlike(ops, fold)
  {
    var spellings: map<Path, Path> := map[];
    for n := 0 to |ops|
      invariant Remembers(spellings, Ancestry(ops, n), fold)
    {
      var path := ops[n].path;
      AncestryHolds(ops, |ops|, n);
      AncestryGrows(ops, n, |ops|);
      for k := 0 to |path|
        invariant Remembers(spellings, Ancestry(ops, n) + Prefixes(path, k), fold)
      {
        var key := Fold(fold, path[..k + 1]);
        assert path[..k + 1] in Prefixes(path, |path|);
        if key in spellings && spellings[key] != path[..k + 1] {
          assert spellings[key] in Ancestry(ops, |ops|);
          return false;
        }
        spellings := spellings[key := path[..k + 1]];
        assert Prefixes(path, k + 1) == Prefixes(path, k) + {path[..k + 1]};
      }
    }
    ok := true;
  }

  method CheckPairs(ops: seq<Operation>, fold: string -> string) returns (ok: bool)
    ensures ok <==> PairwiseApart(ops, fold)
  {
    for i := 0 to |ops|
      invariant forall a, b | 0 <= a < i && a < b < |ops| :: Apart(ops[a], ops[b], fold)
    {
      for j := i + 1 to |ops|
        invariant forall b | i < b < j :: Apart(ops[i], ops[b], fold)
      {
        if !Apart(ops[i], ops[j], fold) {
          return false;
        }
      }
    }
    ok := true;
  }

  /** The walk down one destination's proper ancestors. */
  method CheckUnbroken(path: Path, createdDirectories: set<Path>, fold: string -> string) returns (ok: bool)
    ensures ok <==> forall a, b | 0 < a < b < |path| ::
      Fold(fold, path[..a]) in createdDirectories ==> Fold(fold, path[..b]) in createdDirectories
  {
    var beneathCreatedDirectory := false;
    ghost var top := 0;
    var k := 1;
    while k < |path|
      invariant 1 <= k <= if path == [] then 1 else |path|
      invariant beneathCreatedDirectory ==> 0 < top < k && Fold(fold, path[..top]) in createdDirectories
      invariant forall a | 0 < a < k && Fold(fold, path[..a]) in createdDirectories :: beneathCreatedDirectory && top <= a
      invariant forall b | 0 < b < k && beneathCreatedDirectory && top <= b :: Fold(fold, path[..b]) in createdDirectories
    {
      if Fold(fold, path[..k]) in createdDirectories {
        if !beneathCreatedDirectory {
          top := k;
        }
        beneathCreatedDirectory := true;
      } else if beneathCreatedDirectory {
        return false;
      }
      k := k + 1;
    }
    ok := true;
  }

  method CheckCreated(ops: seq<Operation>, fold: string -> string) returns (ok: bool)
    ensures ok <==> forall j | 0 <= j < |ops| :: UnbrokenUnder(ops, j, ops[j].path, fold)
  {
    var createdDirectories: set<Path> := {};
    for n := 0 to |ops|
      invariant createdDirectories == CreatedKeys(ops, n, fold)
      invariant forall j | 0 <= j < n :: UnbrokenUnder(ops, j, ops[j].path, fold)
    {
      ok := CheckUnbroken(ops[n].path, createdDirectories, fold);
      assert ok <==> UnbrokenUnder(ops, n, ops[n].path, fold);
      if !ok {
        return;
      }
      if ops[n].kind.CreateDirectory? {
        createdDirectories := createdDirectories + {Fold(fold, ops[n].path)};
      }
    }
    ok := true;
  }

  method ValidateManagedRelationships(ops: seq<Operation>, fold: string -> string) returns (ok: bool)
    ensures ok <==> Related(ops, fold)
  {
    ok := CheckSpellings(ops, fold);
    if ok {
      ok := CheckPairs(ops, fold);
    }
    if ok {
      ok := CheckCreated(ops, fold);
    }
  }

  /** Accepted plans have distinct destinations, up to case and exactly. */
  lemma AcceptedIsValid(ops: seq<Operation>, fold: string -> string)
    requires WellShapedPlan(ops) && Related(ops, fold)
    ensures ValidPlan(ops)
    ensures forall i, j | 0 <= i < |ops| && 0 <= j < |ops| && i != j :: Fold(fold, ops[i].path) != Fold(fold, ops[j].path)
  {
    forall i, j | 0 <= i < j < |ops| ensures ops[i].path != ops[j].path && Fold(fold, ops[i].path) != Fold(fold, ops[j].path) {
      assert Apart(ops[i], ops[j], fold);
    }
  }

  /** Publishing one operation of an accepted plan leaves every other one's
      destination as it was, whatever the tree. */
  lemma PublishingIsLocal(ops: seq<Operation>, fold: string -> string, tree: Tree, i: nat, j: nat, f: Fingerprint)
    requires WellShapedPlan(ops) && Related(ops, fold) && i < |ops| && j < |ops| && i != j
    ensures At(tree[ops[i].path := f], ops[j].path) == At(tree, ops[j].path)
  {
    AcceptedIsValid(ops, fold);
    assert Apart(ops[if i < j then i else j], ops[if i < j then j else i], fold);
  }

  lemma CreatorBefore(ops: seq<Operation>, fold: string -> string, i: nat, j: nat)
    requires Related(ops, fold) && i < |ops| && j < |ops| && ops[i].path < ops[j].path
    ensures i < j
  {
    assert Fold(fold, ops[i].path) == Fold(fold, ops[j].path)[..|ops[i].path|];
    assert Apart(ops[if i < j then i else j], ops[if i < j then j else i], fold);
  }

  /** An operation under a created directory comes after it, and its parent is
      among the directories created before it. */
  lemma ParentAmongCreated(ops: seq<Operation>, fold: string -> string, i: nat, j: nat)
    requires WellShapedPlan(ops) && Related(ops, fold) && i < |ops| && j < |ops|
    requires ops[i].kind.CreateDirectory? && ops[i].path < ops[j].path
    ensures CreatedAmong(ops, j, Parent(ops[j].path), fold)
  {
    var path, a := ops[j].path, |ops[i].path|;
    assert path[..a] == ops[i].path && 0 < a by {
      assert WellShaped(ops[i]);
    }
    CreatorBefore(ops, fold, i, j);
    CreatorOf(ops, j, Fold(fold, ops[i].path), fold);
    UnbrokenParent(ops, fold, j, a);
  }

  lemma UnbrokenParent(ops: seq<Operation>, fold: string -> string, j: nat, a: nat)
    requires Related(ops, fold) && j < |ops| && 0 < a < |ops[j].path| && CreatedAmong(ops, j, ops[j].path[..a], fold)
    ensures CreatedAmong(ops, j, Parent(ops[j].path), fold)
  {
    assert UnbrokenUnder(ops, j, ops[j].path, fold);
  }

  /** Ancestors that fold alike are the same path. */
  lemma SameFolded(ops: seq<Operation>, fold: string -> string, i: nat, j: nat, k: nat)
    requires SpelledAlike(ops, fold) && i < |ops| && j < |ops| && ops[i].path != [] && 0 < k <= |ops[j].path|
    requires Fold(fold, ops[i].path) == Fold(fold, ops[j].path[..k])
    ensures ops[i].path == ops[j].path[..k]
  {
    AncestryHolds(ops, |ops|, i);
    AncestryHolds(ops, |ops|, j);
    assert ops[i].path[..|ops[i].path|] == ops[i].path;
    assert ops[i].path[..|ops[i].path|] in Prefixes(ops[i].path, |ops[i].path|);
    assert ops[j].path[..k] in Prefixes(ops[j].path, |ops[j].path|);
  }

  lemma FoldedBelow(ops: seq<Operation>, fold: string -> string, i: nat, j: nat)
    requires SpelledAlike(ops, fold) && i < |ops| && j < |ops| && ops[i].path != []
    requires Fold(fold, ops[i].path) <= Fold(fold, ops[j].path)
    ensures ops[i].path <= ops[j].path
    ensures Fold(fold, ops[i].path) == Fold(fold, ops[j].path) ==> ops[i].path == ops[j].path
  {
    var k := |ops[i].path|;
    assert Fold(fold, ops[j].path[..k]) == Fold(fold, ops[j].path)[..k];
    SameFolded(ops, fold, i, j, k);
    assert k == |ops[j].path| ==> ops[j].path[..k] == ops[j].path;
  }

  /** In an accepted plan an operation anywhere under a directory the plan creates
      has its immediate parent created by an earlier operation. */
  lemma ParentCreatedEarlier(ops: seq<Operation>, fold: string -> string, i: nat, j: nat)
    requires WellShapedPlan(ops) && Related(ops, fold) && i < |ops| && j < |ops|
    requires ops[i].kind.CreateDirectory? && ops[i].path < ops[j].path
    ensures exists p :: 0 <= p < j && ops[p].kind.CreateDirectory? && ops[p].path == Parent(ops[j].path)
  {
    ParentAmongCreated(ops, fold, i, j);
    CreatorOf(ops, j, Fold(fold, Parent(ops[j].path)), fold);
    var p :| 0 <= p < j && ops[p].kind.CreateDirectory? && Fold(fold, ops[p].path) == Fold(fold, Parent(ops[j].path));
    assert WellShaped(ops[i]);
    assert WellShaped(ops[p]);
    SameFolded(ops, fold, p, j, |ops[j].path| - 1);
  }

  /** So an accepted plan can be published from `base` exactly when every operation
      that is not under a directory of the plan's own finds its parent there. */
  lemma ParentsReadyOfAccepted(ops: seq<Operation>, fold: string -> string, base: Tree)
    requires WellShapedPlan(ops) && Related(ops, fold) && AllExpected(base, ops)
    ensures ParentsReady(base, ops) <==>
      forall j | 0 <= j < |ops| ::
        At(base, Parent(ops[j].path)).Directory?
        || exists i :: 0 <= i < |ops| && ops[i].kind.CreateDirectory? && ops[i].path < ops[j].path
  {
    forall j | 0 <= j < |ops|
      ensures ParentReady(base, ops, j) <==>
        At(base, Parent(ops[j].path)).Directory? || exists i :: 0 <= i < |ops| && ops[i].kind.CreateDirectory? && ops[i].path < ops[j].path
    {
      assert WellShaped(ops[j]);
      if i :| 0 <= i < |ops| && ops[i].kind.CreateDirectory? && ops[i].path < ops[j].path {
        ParentCreatedEarlier(ops, fold, i, j);
      }
      assert forall i | 0 <= i < j && ops[i].path == Parent(ops[j].path) :: ops[i].path < ops[j].path;
    }
  }
}
