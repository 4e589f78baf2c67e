/** The effects of a plan, what they mean one after the other, and what that comes to:
    for which trees it is defined, and what every path holds in the end. */
module Effects {
  import opened Options
  import opened Plans
  import opened Relationships

  datatype Effect = MakeDirectory(path: Path) | Write(path: Path, content: string) | Delete(path: Path)

  const BRAIN: Path := [".brain"]

  /** `.brain` itself is never a plan's to create; a host's root is. */
  function FirstOwnedDepth(path: Path): nat {
    if |path| > 1 && path[0] == ".brain" then 2 else 1
  }

  function SetTo(tree: Tree, path: Path, f: Fingerprint): Tree {
    if At(tree, path) == f then tree else tree[path := f]
  }

  /** The tree with the ancestors of `path` shorter than `n` made directories, or
      None if one is in the way. */
  function WithParents(tree: Tree, path: Path, n: nat): Option<Tree>
    requires n <= |path|
  {
    if n <= FirstOwnedDepth(path) then Some(tree)
    else
      var before := WithParents(tree, path, n - 1);
      if before.None? then None
      else
        match At(before.value, path[..n - 1])
        case Missing => Some(before.value[path[..n - 1] := Directory])
        case Directory => before
        case _ => None
  }

  /** What one effect means, on its own. */
  function Performed(tree: Tree, effect: Effect): Option<Tree> {
    var path := effect.path;
    match effect
    case Delete(_) =>
      (match At(tree, path)
       case File(_) => Some(tree[path := Missing])
       case Missing => Some(tree)
       case _ => None)
    case MakeDirectory(_) =>
      var ready := WithParents(tree, path, |path|);
      if ready.Some? && (At(ready.value, path).Missing? || At(ready.value, path).Directory?) then
        Some(SetTo(ready.value, path, Directory))
      else None
    case Write(_, content) =>
      var ready := WithParents(tree, path, |path|);
      if ready.Some? && (At(ready.value, path).Missing? || At(ready.value, path).File?) then
        Some(SetTo(ready.value, path, File(content)))
      else None
  }

  /** The first `n` effects, one after the other. */
  function Meaning(tree: Tree, effects: seq<Effect>, n: nat): Option<Tree>
    requires n <= |effects|
  {
    if n == 0 then Some(tree)
    else
      var before := Meaning(tree, effects, n - 1);
      if before.None? then None else Performed(before.value, effects[n - 1])
  }

  lemma {:induction false} MeaningStops(tree: Tree, effects: seq<Effect>, n: nat, m: nat)
    requires n <= m <= |effects| && Meaning(tree, effects, n).None?
    ensures Meaning(tree, effects, m).None?
  {
    if n < m {
      MeaningStops(tree, effects, n, m - 1);
    }
  }

  /** The destinations as operations, for the check of spellings. */
  function Spelled(effects: seq<Effect>): (r: seq<Operation>)
    ensures |r| == |effects| && forall i | 0 <= i < |r| :: r[i].path == effects[i].path
  {
    seq(|effects|, i requires 0 <= i < |effects| => Operation(i + 1, WriteFile, effects[i].path, Missing, Missing))
  }

  predicate EffectsApart(left: Effect, right: Effect, fold: string -> string) {
    var l, r := Fold(fold, left.path), Fold(fold, right.path);
    l != r && !(r < l) && (l < r ==> left.MakeDirectory?)
  }

  ghost predicate Compatible(effects: seq<Effect>, fold: string -> string) {
    && SpelledAlike(Spelled(effects), fold)
    && forall i, j | 0 <= i < j < |effects| :: EffectsApart(effects[i], effects[j], fold)
  }

  /** The effects as they may stand together: no path twice, nothing above an earlier
      one, and only directories above a later one. */
  ghost predicate Nested(effects: seq<Effect>, n: nat)
    requires n <= |effects|
  {
    forall i, j | 0 <= i < j < n ::
      effects[i].path != effects[j].path && !(effects[j].path < effects[i].path)
      && (effects[i].path < effects[j].path ==> effects[i].MakeDirectory?)
  }

  lemma CompatibleNested(effects: seq<Effect>, fold: string -> string)
    requires Compatible(effects, fold)
    ensures Nested(effects, |effects|)
  {
    forall i, j | 0 <= i < j < |effects|
      ensures effects[i].path != effects[j].path && !(effects[j].path < effects[i].path)
      ensures effects[i].path < effects[j].path ==> effects[i].MakeDirectory?
    {
      assert EffectsApart(effects[i], effects[j], fold);
      FoldBelow(effects[i].path, effects[j].path, fold);
      FoldBelow(effects[j].path, effects[i].path, fold);
    }
  }

  lemma FoldBelow(p: Path, q: Path, fold: string -> string)
    ensures p < q ==> Fold(fold, p) < Fold(fold, q)
  {
  }

  /** No two paths or ancestors differ in case only. */
  ghost predicate OneSpelling(effects: seq<Effect>, fold: string -> string) {
    forall i, j, k {:trigger effects[i].path[..k], effects[j].path[..k]}
      | 0 <= i < |effects| && 0 <= j < |effects| && 0 < k <= |effects[i].path| && k <= |effects[j].path| ::
      (forall s | 0 <= s < k :: fold(effects[i].path[s]) == fold(effects[j].path[s])) ==> effects[i].path[..k] == effects[j].path[..k]
  }

  lemma OneSpellingExact(effects: seq<Effect>, fold: string -> string)
    ensures SpelledAlike(Spelled(effects), fold) <==> OneSpelling(effects, fold)
  {
    var ops := Spelled(effects);
    if OneSpelling(effects, fold) {
      forall p, q | p in Ancestry(ops, |ops|) && q in Ancestry(ops, |ops|) && Fold(fold, p) == Fold(fold, q) ensures p == q {
        var i, k := AncestorOf(ops, |ops|, p);
        var j, l := AncestorOf(ops, |ops|, q);
        assert |Fold(fold, p)| == k && |Fold(fold, q)| == l;
        forall s | 0 <= s < k ensures fold(effects[i].path[s]) == fold(effects[j].path[s]) {
          assert Fold(fold, p)[s] == Fold(fold, q)[s];
        }
        assert effects[i].path[..k] == effects[j].path[..k];
      }
    }
    if SpelledAlike(ops, fold) {
      forall i, j, k | 0 <= i < |effects| && 0 <= j < |effects| && 0 < k <= |effects[i].path| && k <= |effects[j].path|
          && forall s | 0 <= s < k :: fold(effects[i].path[s]) == fold(effects[j].path[s])
        ensures effects[i].path[..k] == effects[j].path[..k]
      {
        AncestryHolds(ops, |ops|, i);
        AncestryHolds(ops, |ops|, j);
        assert ops[i].path[..k] in Prefixes(ops[i].path, |ops[i].path|) && ops[j].path[..k] in Prefixes(ops[j].path, |ops[j].path|);
        assert Fold(fold, effects[i].path[..k]) == Fold(fold, effects[j].path[..k]);
      }
    }
  }

  /** Which effects may stand together. */
  lemma CompatibleExact(effects: seq<Effect>, fold: string -> string)
    requires forall effect | effect in effects :: effect.path != []
    ensures Compatible(effects, fold) <==> OneSpelling(effects, fold) && Nested(effects, |effects|)
  {
    OneSpellingExact(effects, fold);
    if Compatible(effects, fold) {
      CompatibleNested(effects, fold);
    }
    if SpelledAlike(Spelled(effects), fold) && Nested(effects, |effects|) {
      forall i, j | 0 <= i < j < |effects| ensures EffectsApart(effects[i], effects[j], fold) {
        NestedApart(effects, fold, i, j);
      }
    }
  }

  lemma NestedApart(effects: seq<Effect>, fold: string -> string, i: nat, j: nat)
    requires SpelledAlike(Spelled(effects), fold) && Nested(effects, |effects|) && i < j < |effects|
    requires effects[i].path != [] && effects[j].path != []
    ensures EffectsApart(effects[i], effects[j], fold)
  {
    var l, r := Fold(fold, effects[i].path), Fold(fold, effects[j].path);
    if l <= r {
      FoldedBelow(Spelled(effects), fold, i, j);
    }
    if r <= l {
      FoldedBelow(Spelled(effects), fold, j, i);
    }
  }

  /** What is there lets the effect be performed: the destination is of its kind or
      missing, and what is to lie in directories can. */
  ghost predicate Performable(tree: Tree, effect: Effect) {
    && (At(tree, effect.path).Missing? || (if effect.MakeDirectory? then At(tree, effect.path).Directory? else At(tree, effect.path).File?))
    && (!effect.Delete? ==> forall k | 0 < k < |effect.path| :: At(tree, effect.path[..k]).Missing? || At(tree, effect.path[..k]).Directory?)
  }

  ghost predicate AllPerformable(tree: Tree, effects: seq<Effect>, n: nat)
    requires n <= |effects|
  {
    forall j | 0 <= j < n :: Performable(tree, effects[j])
  }

  predicate Ancestor(p: Path, q: Path) {
    p != [] && p < q
  }

  /** Something is to lie below this path. */
  ghost predicate Above(effects: seq<Effect>, n: nat, p: Path)
    requires n <= |effects|
  {
    exists j | 0 <= j < n :: !effects[j].Delete? && Ancestor(p, effects[j].path)
  }

  ghost predicate Named(effects: seq<Effect>, n: nat, p: Path)
    requires n <= |effects|
  {
    exists j | 0 <= j < n :: effects[j].path == p
  }

  function Left(effect: Effect): Fingerprint {
    match effect
    case MakeDirectory(_) => Directory
    case Write(_, content) => File(content)
    case Delete(_) => Missing
  }

  /** What the first `n` effects leave at a path: what the effect on it says, a
      directory above anything made, and elsewhere what was there. */
  ghost predicate LeftAt(tree: Tree, effects: seq<Effect>, n: nat, p: Path, f: Fingerprint)
    requires n <= |effects|
  {
    && (forall j | 0 <= j < n && effects[j].path == p :: f == Left(effects[j]))
    && (Above(effects, n, p) ==> f == Directory)
    && (!Named(effects, n, p) && !Above(effects, n, p) ==> f == At(tree, p))
  }

  ghost predicate AllLeft(tree: Tree, effects: seq<Effect>, n: nat, after: Tree)
    requires n <= |effects|
  {
    forall p: Path :: LeftAt(tree, effects, n, p, At(after, p))
  }

  lemma {:induction false} WithParentsAt(tree: Tree, path: Path, n: nat)
    requires n <= |path| && At(tree, BRAIN).Directory?
    ensures WithParents(tree, path, n).Some? <==> forall k | 0 < k < n :: At(tree, path[..k]).Missing? || At(tree, path[..k]).Directory?
    ensures WithParents(tree, path, n).Some? ==> forall p: Path ::
      At(WithParents(tree, path, n).value, p) == if exists k | 0 < k < n :: p == path[..k] then Directory else At(tree, p)
  {
    if n > FirstOwnedDepth(path) {
      WithParentsAt(tree, path, n - 1);
    } else {
      assert n > 1 ==> path[..1] == BRAIN;
    }
  }

  lemma IsAncestor(p: Path, q: Path)
    ensures Ancestor(p, q) <==> exists k | 0 < k < |q| :: p == q[..k]
  {
    if Ancestor(p, q) {
      assert p == q[..|p|];
    }
  }

  /** One effect, on its own: it can be performed where it fits, and what it leaves. */
  lemma PerformedExact(tree: Tree, effect: Effect)
    requires At(tree, BRAIN).Directory? && effect.path != []
    ensures Performed(tree, effect).Some? <==> Performable(tree, effect)
    ensures Performed(tree, effect).Some? ==> forall p: Path ::
      At(Performed(tree, effect).value, p) ==
        if p == effect.path then Left(effect) else if !effect.Delete? && Ancestor(p, effect.path) then Directory else At(tree, p)
  {
    WithParentsAt(tree, effect.path, |effect.path|);
    forall p: Path ensures Ancestor(p, effect.path) <==> exists k | 0 < k < |effect.path| :: p == effect.path[..k] {
      IsAncestor(p, effect.path);
    }
  }

  /** What earlier effects have left does not change whether the next one fits. */
  lemma PerformableAsBefore(tree: Tree, effects: seq<Effect>, n: nat, now: Tree)
    requires n < |effects| && Nested(effects, n + 1) && AllLeft(tree, effects, n, now)
    requires effects[n].path != [] && forall j | 0 <= j < n :: effects[j].path != [] && Performable(tree, effects[j])
    ensures Performable(now, effects[n]) <==> Performable(tree, effects[n])
  {
    var path := effects[n].path;
    assert LeftAt(tree, effects, n, path, At(now, path));
    assert !Named(effects, n, path) && !Above(effects, n, path);
    if !effects[n].Delete? {
      forall k | 0 < k < |path|
        ensures At(now, path[..k]).Missing? || At(now, path[..k]).Directory? <==> At(tree, path[..k]).Missing? || At(tree, path[..k]).Directory?
      {
        AncestorAsBefore(tree, effects, n, now, path[..k]);
      }
    }
  }

  lemma AncestorAsBefore(tree: Tree, effects: seq<Effect>, n: nat, now: Tree, p: Path)
    requires n < |effects| && Nested(effects, n + 1) && AllLeft(tree, effects, n, now)
    requires Ancestor(p, effects[n].path) && forall j | 0 <= j < n :: effects[j].path != [] && Performable(tree, effects[j])
    ensures At(now, p).Missing? || At(now, p).Directory? <==> At(tree, p).Missing? || At(tree, p).Directory?
  {
    assert LeftAt(tree, effects, n, p, At(now, p));
    if j :| 0 <= j < n && effects[j].path == p {
      assert effects[j].MakeDirectory?;
    } else if j :| 0 <= j < n && !effects[j].Delete? && p < effects[j].path {
      IsAncestor(p, effects[j].path);
      assert Above(effects, n, p);
    }
  }

  lemma LeftNext(tree: Tree, effects: seq<Effect>, n: nat, now: Tree, p: Path, f: Fingerprint)
    requires n < |effects| && Nested(effects, n + 1) && LeftAt(tree, effects, n, p, At(now, p))
    requires f ==
      if p == effects[n].path then Left(effects[n])
      else if !effects[n].Delete? && Ancestor(p, effects[n].path) then Directory
      else At(now, p)
    ensures LeftAt(tree, effects, n + 1, p, f)
  {
    assert Above(effects, n + 1, p) <==> Above(effects, n, p) || (!effects[n].Delete? && Ancestor(p, effects[n].path));
    assert Named(effects, n + 1, p) <==> Named(effects, n, p) || p == effects[n].path;
  }

  lemma BrainStays(tree: Tree, effects: seq<Effect>, n: nat, now: Tree)
    requires n <= |effects| && AllLeft(tree, effects, n, now) && At(tree, BRAIN).Directory?
    requires forall j | 0 <= j < n :: Performable(tree, effects[j])
    ensures At(now, BRAIN).Directory?
  {
    assert LeftAt(tree, effects, n, BRAIN, At(now, BRAIN));
    if j :| 0 <= j < n && effects[j].path == BRAIN {
      assert Performable(tree, effects[j]);
    }
  }

  /** Effects that may stand together can be performed exactly if each fits what is
      there at the start, and then every path is left as the effects say. */
  lemma {:induction false} MeaningExact(tree: Tree, effects: seq<Effect>, n: nat)
    requires n <= |effects| && Nested(effects, n) && At(tree, BRAIN).Directory?
    requires forall effect | effect in effects :: effect.path != []
    ensures Meaning(tree, effects, n).Some? <==> AllPerformable(tree, effects, n)
    ensures Meaning(tree, effects, n).Some? ==> AllLeft(tree, effects, n, Meaning(tree, effects, n).value)
  {
    if n > 0 {
      MeaningExact(tree, effects, n - 1);
      MeaningStep(tree, effects, n - 1, n);
    }
  }

  lemma {:induction false} MeaningStep(tree: Tree, effects: seq<Effect>, k: nat, n: nat)
    requires n == k + 1 <= |effects| && Nested(effects, n) && At(tree, BRAIN).Directory?
    requires forall effect | effect in effects :: effect.path != []
    requires Meaning(tree, effects, k).Some? <==> AllPerformable(tree, effects, k)
    requires Meaning(tree, effects, k).Some? ==> AllLeft(tree, effects, k, Meaning(tree, effects, k).value)
    ensures Meaning(tree, effects, n).Some? <==> AllPerformable(tree, effects, n)
    ensures Meaning(tree, effects, n).Some? ==> AllLeft(tree, effects, n, Meaning(tree, effects, n).value)
  {
    if Meaning(tree, effects, k).Some? {
      MeaningNext(tree, effects, k, n, Meaning(tree, effects, k).value);
    }
  }

  lemma {:induction false} MeaningNext(tree: Tree, effects: seq<Effect>, k: nat, n: nat, now: Tree)
    requires n == k + 1 <= |effects| && Nested(effects, n) && At(tree, BRAIN).Directory?
    requires Meaning(tree, effects, k) == Some(now) && AllLeft(tree, effects, k, now)
    requires AllPerformable(tree, effects, k)
    requires forall effect | effect in effects :: effect.path != []
    ensures Meaning(tree, effects, n).Some? <==> Performable(tree, effects[k])
    ensures Meaning(tree, effects, n).Some? ==> AllLeft(tree, effects, n, Meaning(tree, effects, n).value)
  {
    PerformableAsBefore(tree, effects, k, now);
    BrainStays(tree, effects, k, now);
    PerformedExact(now, effects[k]);
    if Performed(now, effects[k]).Some? {
      var next := Performed(now, effects[k]).value;
      forall p: Path ensures LeftAt(tree, effects, n, p, At(next, p)) {
        LeftNext(tree, effects, k, now, p, At(next, p));
      }
    }
  }
}
