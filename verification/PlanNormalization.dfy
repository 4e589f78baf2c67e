/** From effects to a managed plan: what `normalizeManagedMutationPlan` decides, and
    why its plans mean what the effects mean and can always be published. */
module PlanNormalization {
  import opened Options
  import opened Plans
  import opened Relationships
  import opened Effects

  datatype Normalized = Noop | Ready(ops: seq<Operation>) | Refused

  method ValidateRelationships(effects: seq<Effect>, fold: string -> string) returns (ok: bool)
    ensures ok <==> Compatible(effects, fold)
  {
    ok := CheckSpellings(Spelled(effects), fold);
    if !ok {
      return;
    }
    for i := 0 to |effects|
      invariant forall a, b | 0 <= a < i && a < b < |effects| :: EffectsApart(effects[a], effects[b], fold)
    {
      for j := i + 1 to |effects|
        invariant forall b | i < b < j :: EffectsApart(effects[i], effects[b], fold)
      {
        if !EffectsApart(effects[i], effects[j], fold) {
          return false;
        }
      }
    }
  }

  lemma ParentOfPrefix(path: Path, k: nat)
    requires 0 < k <= |path|
    ensures Parent(path[..k]) == path[..k - 1]
  {
  }

  /** A plan in the making. */
  ghost predicate DraftsOk(tree: Tree, drafts: seq<Operation>) {
    && (forall i | 0 <= i < |drafts| :: drafts[i].operationId == i + 1 && WellShaped(drafts[i]))
    && DistinctPaths(drafts) && AllExpected(tree, drafts) && ParentsReady(tree, drafts)
  }

  /** The tree that the drafts lead to. */
  ghost function Reached(tree: Tree, drafts: seq<Operation>): Tree {
    Applied(tree, drafts, |drafts|)
  }

  lemma ReachedAt(tree: Tree, drafts: seq<Operation>, path: Path)
    requires DraftsOk(tree, drafts)
    ensures forall i | 0 <= i < |drafts| :: At(Reached(tree, drafts), drafts[i].path) == drafts[i].result
    ensures (forall i | 0 <= i < |drafts| :: drafts[i].path != path) ==> At(Reached(tree, drafts), path) == At(tree, path)
  {
    if drafts != [] {
      AppliedAt(tree, drafts, |drafts|, path);
    }
  }

  lemma {:induction false} AppliedPrefix(tree: Tree, ops: seq<Operation>, more: seq<Operation>, k: nat)
    requires k <= |ops|
    ensures Applied(tree, ops + more, k) == Applied(tree, ops, k)
  {
    if k > 0 {
      AppliedPrefix(tree, ops, more, k - 1);
    }
  }

  /** One more draft, whose destination is new and whose parent is there. */
  lemma PushKeeps(tree: Tree, drafts: seq<Operation>, op: Operation)
    requires DraftsOk(tree, drafts) && WellShaped(op) && op.operationId == |drafts| + 1
    requires op.expected == At(Reached(tree, drafts), op.path)
    requires forall i | 0 <= i < |drafts| :: drafts[i].path != op.path
    requires At(Reached(tree, drafts), Parent(op.path)).Directory?
    ensures DraftsOk(tree, drafts + [op])
    ensures Reached(tree, drafts + [op]) == Reached(tree, drafts)[op.path := op.result]
  {
    var next := drafts + [op];
    AppliedPrefix(tree, drafts, [op], |drafts|);
    ReachedAt(tree, drafts, op.path);
    assert ValidPlan(next) && AllExpected(tree, next);
    ParentReadyExact(tree, next, |drafts|);
    forall j | 0 <= j < |next| ensures ParentReady(tree, next, j) {
      if j < |drafts| {
        assert ParentReady(tree, drafts, j);
        assert forall i | 0 <= i < j :: next[i] == drafts[i];
      }
    }
  }

  /** A directory is never drafted again. */
  lemma DirectoryStays(tree: Tree, drafts: seq<Operation>, path: Path)
    requires DraftsOk(tree, drafts) && At(tree, path).Directory?
    ensures At(Reached(tree, drafts), path).Directory?
  {
    ReachedAt(tree, drafts, path);
    assert forall i | 0 <= i < |drafts| :: WellShaped(drafts[i]) && At(tree, drafts[i].path) == drafts[i].expected;
  }

  /** Above the first directory that a plan may create there is one already. */
  lemma StartsInDirectory(tree: Tree, drafts: seq<Operation>, path: Path)
    requires DraftsOk(tree, drafts) && At(tree, BRAIN).Directory? && path != []
    ensures At(Reached(tree, drafts), path[..FirstOwnedDepth(path) - 1]).Directory?
  {
    DirectoryStays(tree, drafts, BRAIN);
    assert |path| > 1 && path[0] == ".brain" ==> path[..1] == BRAIN;
  }

  /** Every file that the drafts write or delete is a destination of these effects. */
  ghost predicate FromEffects(drafts: seq<Operation>, effects: seq<Effect>, n: nat)
    requires n <= |effects|
  {
    forall i | 0 <= i < |drafts| && !drafts[i].kind.CreateDirectory? ::
      exists j | 0 <= j < n :: effects[j].path == drafts[i].path && !effects[j].MakeDirectory?
  }

  lemma FoldPrefix(fold: string -> string, path: Path, k: nat)
    requires k <= |path|
    ensures Fold(fold, path[..k]) <= Fold(fold, path)
    ensures k < |path| ==> Fold(fold, path[..k]) < Fold(fold, path)
    ensures k == |path| ==> path[..k] == path
  {
  }

  /** No earlier effect writes or deletes at or above the destination of this one. */
  lemma NoEarlierFile(effects: seq<Effect>, n: nat, fold: string -> string, k: nat)
    requires Compatible(effects, fold) && n < |effects| && 0 < k <= |effects[n].path|
    ensures forall j | 0 <= j < n && !effects[j].MakeDirectory? :: effects[j].path != effects[n].path[..k]
  {
    FoldPrefix(fold, effects[n].path, k);
    assert forall j | 0 <= j < n :: EffectsApart(effects[j], effects[n], fold);
  }

  /** No draft is at or above the next destination, where there is no directory yet. */
  lemma DestinationIsNew(tree: Tree, drafts: seq<Operation>, effects: seq<Effect>, n: nat, fold: string -> string, k: nat)
    requires DraftsOk(tree, drafts) && Compatible(effects, fold) && n < |effects| && FromEffects(drafts, effects, n)
    requires 0 < k <= |effects[n].path| && !At(Reached(tree, drafts), effects[n].path[..k]).Directory?
    ensures forall i | 0 <= i < |drafts| :: drafts[i].path != effects[n].path[..k]
  {
    ReachedAt(tree, drafts, effects[n].path[..k]);
    NoEarlierFile(effects, n, fold, k);
    assert forall i | 0 <= i < |drafts| :: WellShaped(drafts[i]);
  }

  /** Every draft's destination is one of the effects' or an ancestor of one. */
  ghost predicate WithinEffects(drafts: seq<Operation>, effects: seq<Effect>) {
    forall i | 0 <= i < |drafts| :: drafts[i].path in Ancestry(Spelled(effects), |effects|)
  }

  lemma PrefixWithin(effects: seq<Effect>, n: nat, k: nat)
    requires n < |effects| && 0 < k <= |effects[n].path|
    ensures effects[n].path[..k] in Ancestry(Spelled(effects), |effects|)
  {
    AncestryHolds(Spelled(effects), |effects|, n);
    assert effects[n].path[..k] in Prefixes(effects[n].path, |effects[n].path|);
  }

  /** The map of observed states follows the drafts. */
  ghost predicate Follows(observed: map<Path, Fingerprint>, tree: Tree, drafts: seq<Operation>) {
    forall p | p in observed :: p != [] && observed[p] == At(Reached(tree, drafts), p) && !observed[p].Special?
  }

  /** The composition observes every destination and every ancestor. */
  ghost predicate Covers(observed: map<Path, Fingerprint>, effects: seq<Effect>) {
    forall j, k | 0 <= j < |effects| && 0 < k <= |effects[j].path| :: effects[j].path[..k] in observed
  }

  lemma PushFrom(drafts: seq<Operation>, effects: seq<Effect>, n: nat, m: nat, op: Operation, k: nat)
    requires n < |effects| && n <= m <= |effects| && FromEffects(drafts, effects, n) && 0 < k <= |effects[n].path|
    requires op.path == effects[n].path[..k]
    requires op.kind.CreateDirectory? || (m == n + 1 && k == |effects[n].path| && !effects[n].MakeDirectory?)
    ensures FromEffects(drafts + [op], effects, m)
  {
    var next := drafts + [op];
    FoldPrefixWhole(effects[n].path, k);
    forall i | 0 <= i < |next| && !next[i].kind.CreateDirectory?
      ensures exists j | 0 <= j < m :: effects[j].path == next[i].path && !effects[j].MakeDirectory?
    {
      if i < |drafts| {
        var j :| 0 <= j < n && effects[j].path == drafts[i].path && !effects[j].MakeDirectory?;
      } else {
        assert effects[n].path == next[i].path;
      }
    }
  }

  lemma FoldPrefixWhole(path: Path, k: nat)
    requires k <= |path|
    ensures k == |path| ==> path[..k] == path
  {
  }

  /** The drafts stand for the first `n` effects, and the map follows them. */
  ghost predicate DraftedFrom(observed: map<Path, Fingerprint>, drafts: seq<Operation>, tree: Tree, effects: seq<Effect>, n: nat)
    requires n <= |effects|
  {
    && DraftsOk(tree, drafts) && FromEffects(drafts, effects, n) && WithinEffects(drafts, effects)
    && Follows(observed, tree, drafts) && Covers(observed, effects)
  }

  lemma PushDrafted(observed: map<Path, Fingerprint>, drafts: seq<Operation>, op: Operation,
                    tree: Tree, effects: seq<Effect>, n: nat, m: nat, fold: string -> string, k: nat)
    requires Compatible(effects, fold) && n < |effects| && n <= m <= |effects| && DraftedFrom(observed, drafts, tree, effects, n)
    requires 0 < k <= |effects[n].path| && op.path == effects[n].path[..k]
    requires op.kind.CreateDirectory? || (m == n + 1 && k == |effects[n].path| && !effects[n].MakeDirectory?)
    requires WellShaped(op) && op.operationId == |drafts| + 1
    requires op.expected == At(Reached(tree, drafts), op.path) && !op.expected.Directory?
    requires At(Reached(tree, drafts), Parent(op.path)).Directory?
    ensures DraftedFrom(observed[op.path := op.result], drafts + [op], tree, effects, m)
    ensures Reached(tree, drafts + [op]) == Reached(tree, drafts)[op.path := op.result]
  {
    DestinationIsNew(tree, drafts, effects, n, fold, k);
    PushKeeps(tree, drafts, op);
    PrefixWithin(effects, n, k);
    PushFrom(drafts, effects, n, m, op, k);
  }

  class PlanDraft {
    var observed: map<Path, Fingerprint>
    var drafts: seq<Operation>

    constructor (observations: map<Path, Fingerprint>)
      ensures observed == observations && drafts == []
    {
      observed, drafts := observations, [];
    }

    ghost predicate Valid(tree: Tree, effects: seq<Effect>, n: nat, fold: string -> string)
      requires n <= |effects|
      reads this
    {
      && TreeOk(tree) && At(tree, BRAIN).Directory? && Compatible(effects, fold)
      && DraftedFrom(observed, drafts, tree, effects, n)
    }

    /** One more draft, for the effect number `n`; `m` effects are dealt with after it. */
    method Push(kind: Kind, path: Path, expected: Fingerprint, result: Fingerprint,
                ghost tree: Tree, ghost effects: seq<Effect>, ghost n: nat, ghost m: nat, ghost fold: string -> string, ghost k: nat)
      requires n < |effects| && n <= m <= |effects| && Valid(tree, effects, n, fold)
      requires 0 < k <= |effects[n].path| && path == effects[n].path[..k]
      requires kind.CreateDirectory? || (m == n + 1 && k == |effects[n].path| && !effects[n].MakeDirectory?)
      requires WellShaped(Operation(|drafts| + 1, kind, path, expected, result))
      requires expected == At(Reached(tree, drafts), path) && !expected.Directory?
      requires At(Reached(tree, drafts), Parent(path)).Directory?
      modifies this
      ensures drafts == old(drafts) + [Operation(|old(drafts)| + 1, kind, path, expected, result)]
      ensures Valid(tree, effects, m, fold) && Reached(tree, drafts) == old(Reached(tree, drafts))[path := result]
      ensures observed == old(observed)[path := result]
    {
      ghost var op := Operation(|drafts| + 1, kind, path, expected, result);
      PushDrafted(observed, drafts, op, tree, effects, n, m, fold, k);
      drafts := drafts + [Operation(|drafts| + 1, kind, path, expected, result)];
      observed := observed[path := result];
    }

    /** One turn of the loop over the ancestors: the one of `k` segments is there, is
        drafted, or is a file. */
    method SynthesizeParent(ghost tree: Tree, ghost effects: seq<Effect>, ghost n: nat, ghost fold: string -> string, path: Path, k: nat) returns (ok: bool)
      requires n < |effects| && Valid(tree, effects, n, fold) && path == effects[n].path && 0 < k <= |path|
      requires At(Reached(tree, drafts), path[..k - 1]).Directory?
      modifies this
      ensures Valid(tree, effects, n, fold)
      ensures ok <==> old(At(Reached(tree, drafts), path[..k])) in {Missing, Directory}
      ensures old(At(Reached(tree, drafts), path[..k])).Missing? ==> Reached(tree, drafts) == old(Reached(tree, drafts))[path[..k] := Directory]
      ensures !old(At(Reached(tree, drafts), path[..k])).Missing? ==> Reached(tree, drafts) == old(Reached(tree, drafts))
      ensures ok ==> At(Reached(tree, drafts), path[..k]).Directory?
    {
      var expected := observed[path[..k]];
      ok := !expected.File?;
      if expected.Missing? {
        ParentOfPrefix(path, k);
        Push(CreateDirectory, path[..k], expected, Directory, tree, effects, n, n, fold, k);
      }
    }

    /** `synthesizeMissingParents` */
    method SynthesizeMissingParents(ghost tree: Tree, ghost effects: seq<Effect>, ghost n: nat, ghost fold: string -> string, path: Path) returns (ok: bool)
      requires n < |effects| && Valid(tree, effects, n, fold) && path == effects[n].path && path != []
      modifies this
      ensures Valid(tree, effects, n, fold)
      ensures ok <==> WithParents(old(Reached(tree, drafts)), path, |path|).Some?
      ensures ok ==> Reached(tree, drafts) == WithParents(old(Reached(tree, drafts)), path, |path|).value
      ensures ok ==> At(Reached(tree, drafts), Parent(path)).Directory?
    {
      ghost var start := Reached(tree, drafts);
      var length := FirstOwnedDepth(path);
      StartsInDirectory(tree, drafts, path);
      while length < |path|
        invariant FirstOwnedDepth(path) <= length <= |path|
        invariant Valid(tree, effects, n, fold)
        invariant WithParents(start, path, length) == Some(Reached(tree, drafts))
        invariant At(Reached(tree, drafts), path[..length - 1]).Directory?
      {
        ok := SynthesizeParent(tree, effects, n, fold, path, length);
        if !ok {
          WithParentsStops(start, path, length + 1, |path|);
          return;
        }
        length := length + 1;
      }
      ok := true;
    }

    method NormalizeCreateDirectory(ghost tree: Tree, ghost effects: seq<Effect>, ghost n: nat, ghost fold: string -> string, path: Path) returns (ok: bool)
      requires n < |effects| && Valid(tree, effects, n, fold) && path == effects[n].path && path != []
      requires At(Reached(tree, drafts), Parent(path)).Directory?
      modifies this
      ensures Valid(tree, effects, n, fold)
      ensures ok <==> !old(At(Reached(tree, drafts), path)).File?
      ensures ok ==> Reached(tree, drafts) == SetTo(old(Reached(tree, drafts)), path, Directory)
    {
      WholePath(effects, n, observed);
      var expected := observed[path];
      if expected.File? {
        return false;
      }
      if expected.Missing? {
        assert path[..|path|] == path;
        Push(CreateDirectory, path, expected, Directory, tree, effects, n, n, fold, |path|);
      }
      observed := observed[path := Directory];
      ok := true;
    }

    method NormalizeWriteFile(ghost tree: Tree, ghost effects: seq<Effect>, ghost n: nat, ghost fold: string -> string, path: Path, content: string) returns (ok: bool)
      requires n < |effects| && Valid(tree, effects, n, fold) && path == effects[n].path && path != [] && !effects[n].MakeDirectory?
      requires At(Reached(tree, drafts), Parent(path)).Directory?
      modifies this
      ensures ok ==> Valid(tree, effects, n + 1, fold)
      ensures ok <==> !old(At(Reached(tree, drafts), path)).Directory?
      ensures ok ==> Reached(tree, drafts) == SetTo(old(Reached(tree, drafts)), path, File(content))
    {
      WholePath(effects, n, observed);
      var expected := observed[path];
      if expected.Directory? {
        return false;
      }
      if expected != File(content) {
        assert path[..|path|] == path;
        Push(WriteFile, path, expected, File(content), tree, effects, n, n + 1, fold, |path|);
      }
      observed := observed[path := File(content)];
      ok := true;
    }

    method NormalizeDeleteFile(ghost tree: Tree, ghost effects: seq<Effect>, ghost n: nat, ghost fold: string -> string, path: Path) returns (ok: bool)
      requires n < |effects| && Valid(tree, effects, n, fold) && path == effects[n].path && path != [] && !effects[n].MakeDirectory?
      modifies this
      ensures ok ==> Valid(tree, effects, n + 1, fold)
      ensures ok <==> Performed(old(Reached(tree, drafts)), Delete(path)).Some?
      ensures ok ==> Reached(tree, drafts) == Performed(old(Reached(tree, drafts)), Delete(path)).value
    {
      WholePath(effects, n, observed);
      var expected := observed[path];
      if expected.Directory? {
        return false;
      }
      if expected.File? {
        assert path[..|path|] == path;
        ReachedAt(tree, drafts, path);
        DirectoryStays(tree, drafts, Parent(path));
        Push(DeleteFile, path, expected, Missing, tree, effects, n, n + 1, fold, |path|);
      }
      observed := observed[path := Missing];
      ok := true;
    }

    /** One turn of the loop over the effects. */
    method Perform(effect: Effect, ghost tree: Tree, ghost effects: seq<Effect>, ghost n: nat, ghost fold: string -> string) returns (ok: bool)
      requires n < |effects| && Valid(tree, effects, n, fold) && effect == effects[n] && effect.path != []
      modifies this
      ensures ok <==> Performed(old(Reached(tree, drafts)), effect).Some?
      ensures ok ==> Valid(tree, effects, n + 1, fold) && Reached(tree, drafts) == Performed(old(Reached(tree, drafts)), effect).value
      ensures ok <==> Performable(old(Reached(tree, drafts)), effect)
      ensures ok ==> At(Reached(tree, drafts), effect.path) == Left(effect)
      ensures ok ==> forall p | p != effect.path && (effect.Delete? || !Ancestor(p, effect.path)) ::
        At(Reached(tree, drafts), p) == At(old(Reached(tree, drafts)), p)
    {
      DirectoryStays(tree, drafts, BRAIN);
      PerformedExact(Reached(tree, drafts), effect);
      match effect
      case Delete(path) =>
        ok := NormalizeDeleteFile(tree, effects, n, fold, path);
      case MakeDirectory(path) =>
        ok := SynthesizeMissingParents(tree, effects, n, fold, path);
        if ok {
          WholePath(effects, n, observed);
          ok := NormalizeCreateDirectory(tree, effects, n, fold, path);
        }
      case Write(path, content) =>
        ok := SynthesizeMissingParents(tree, effects, n, fold, path);
        if ok {
          WholePath(effects, n, observed);
          ok := NormalizeWriteFile(tree, effects, n, fold, path, content);
        }
    }
  }

  lemma WholePath(effects: seq<Effect>, n: nat, observed: map<Path, Fingerprint>)
    requires Covers(observed, effects) && n < |effects| && effects[n].path != []
    ensures effects[n].path in observed
  {
    assert effects[n].path[..|effects[n].path|] == effects[n].path;
  }

  lemma StartOk(tree: Tree, observations: map<Path, Fingerprint>)
    requires forall p | p in observations :: p != [] && observations[p] == At(tree, p) && !observations[p].Special?
    ensures DraftsOk(tree, []) && Reached(tree, []) == tree && Follows(observations, tree, [])
  {
  }

  /** Draft effect after effect, once they may stand together. */
  method DraftPlan(effects: seq<Effect>, observations: map<Path, Fingerprint>, ghost fold: string -> string, ghost tree: Tree)
    returns (r: Normalized)
    requires TreeOk(tree) && At(tree, BRAIN).Directory? && Compatible(effects, fold)
    requires forall effect | effect in effects :: effect.path != []
    requires Covers(observations, effects)
    requires forall p | p in observations :: p != [] && observations[p] == At(tree, p) && !observations[p].Special?
    ensures r.Refused? <==> Meaning(tree, effects, |effects|).None?
    ensures r.Noop? ==> Meaning(tree, effects, |effects|) == Some(tree)
    ensures r.Ready? ==>
      && ValidPlan(r.ops) && AllExpected(tree, r.ops) && ParentsReady(tree, r.ops)
      && Meaning(tree, effects, |effects|) == Some(Applied(tree, r.ops, |r.ops|))
      && Related(r.ops, fold)
  {
    var draft := new PlanDraft(observations);
    StartOk(tree, observations);
    for n := 0 to |effects|
      invariant fresh(draft) && draft.Valid(tree, effects, n, fold)
      invariant Meaning(tree, effects, n) == Some(Reached(tree, draft.drafts))
    {
      var ok := draft.Perform(effects[n], tree, effects, n, fold);
      if !ok {
        MeaningStops(tree, effects, n + 1, |effects|);
        return Refused;
      }
    }
    if draft.drafts == [] {
      return Noop;
    }
    r := Ready(draft.drafts);
    SpelledWithin(r.ops, effects, fold);
    PublishableIsRelated(tree, r.ops, fold);
  }

  /** Plans from effects mean what the effects mean, one after the other, and leave every
      path as they say; what they expect is what was observed; and every parent is there
      when its turn comes. */
  method NormalizeManagedMutationPlan(effects: seq<Effect>, observations: map<Path, Fingerprint>, fold: string -> string, ghost tree: Tree)
    returns (r: Normalized)
    requires TreeOk(tree) && At(tree, BRAIN).Directory?
    requires forall effect | effect in effects :: effect.path != []
    requires Covers(observations, effects)
    requires forall p | p in observations :: p != [] && observations[p] == At(tree, p) && !observations[p].Special?
    ensures r.Refused? <==>
      !OneSpelling(effects, fold) || !Nested(effects, |effects|) || exists j | 0 <= j < |effects| :: !Performable(tree, effects[j])
    ensures r.Noop? ==> Meaning(tree, effects, |effects|) == Some(tree) && AllLeft(tree, effects, |effects|, tree)
    ensures r.Ready? ==>
      && ValidPlan(r.ops) && AllExpected(tree, r.ops) && ParentsReady(tree, r.ops)
      && Meaning(tree, effects, |effects|) == Some(Applied(tree, r.ops, |r.ops|))
      && AllLeft(tree, effects, |effects|, Applied(tree, r.ops, |r.ops|))
      && Related(r.ops, fold)
  {
    CompatibleExact(effects, fold);
    var ok := ValidateRelationships(effects, fold);
    if !ok {
      return Refused;
    }
    CompatibleNested(effects, fold);
    MeaningExact(tree, effects, |effects|);
    r := DraftPlan(effects, observations, fold, tree);
  }

  lemma {:induction false} WithParentsStops(tree: Tree, path: Path, n: nat, m: nat)
    requires n <= m <= |path| && WithParents(tree, path, n).None?
    ensures WithParents(tree, path, m).None?
  {
    if n < m {
      WithParentsStops(tree, path, n, m - 1);
    }
  }

  lemma {:induction false} AncestryClosed(ops: seq<Operation>, n: nat, p: Path, k: nat)
    requires n <= |ops| && p in Ancestry(ops, n) && 0 < k <= |p|
    ensures p[..k] in Ancestry(ops, n)
  {
    if p in Prefixes(ops[n - 1].path, |ops[n - 1].path|) {
      var a :| 0 < a <= |ops[n - 1].path| && p == ops[n - 1].path[..a];
      assert p[..k] == ops[n - 1].path[..k];
    } else {
      AncestryClosed(ops, n - 1, p, k);
    }
  }

  lemma {:induction false} AncestryWithin(drafts: seq<Operation>, effects: seq<Effect>, n: nat)
    requires WithinEffects(drafts, effects) && n <= |drafts|
    ensures Ancestry(drafts, n) <= Ancestry(Spelled(effects), |effects|)
  {
    if n > 0 {
      AncestryWithin(drafts, effects, n - 1);
      var path := drafts[n - 1].path;
      forall a | a in Prefixes(path, |path|) ensures a in Ancestry(Spelled(effects), |effects|) {
        AncestryClosed(Spelled(effects), |effects|, path, |a|);
      }
    }
  }

  lemma SpelledWithin(drafts: seq<Operation>, effects: seq<Effect>, fold: string -> string)
    requires WithinEffects(drafts, effects) && Compatible(effects, fold)
    ensures SpelledAlike(drafts, fold)
  {
    AncestryWithin(drafts, effects, |drafts|);
  }

  /** In a tree, everything above an entry is a directory. */
  lemma {:induction false} AboveEntries(tree: Tree, path: Path, k: nat)
    requires TreeOk(tree) && k < |path| && !At(tree, path).Missing?
    ensures At(tree, path[..k]).Directory?
    decreases |path|
  {
    assert At(tree, Parent(path)).Directory?;
    if k < |path| - 1 {
      AboveEntries(tree, Parent(path), k);
      assert Parent(path)[..k] == path[..k];
    }
  }

  ghost predicate CreatedBefore(ops: seq<Operation>, j: nat, path: Path)
    requires j <= |ops|
  {
    exists i :: 0 <= i < j && ops[i].kind.CreateDirectory? && ops[i].path == path
  }

  /** Every ancestor of a destination is there, or created earlier. */
  lemma {:induction false} AncestorsReady(tree: Tree, ops: seq<Operation>, j: nat, k: nat)
    requires TreeOk(tree) && ParentsReady(tree, ops) && j < |ops| && k < |ops[j].path|
    ensures At(tree, ops[j].path[..k]).Directory? || CreatedBefore(ops, j, ops[j].path[..k])
    decreases j
  {
    var path := ops[j].path;
    assert ParentReady(tree, ops, j);
    if k < |path| - 1 {
      assert Parent(path)[..k] == path[..k];
      if At(tree, Parent(path)).Directory? {
        AboveEntries(tree, Parent(path), k);
      } else {
        var i :| 0 <= i < j && ops[i].kind.CreateDirectory? && ops[i].path == Parent(path);
        AncestorsReady(tree, ops, i, k);
      }
    }
  }

  /** In publishing order no destination comes after one that is below it, and what
      is below an earlier one is new, in a directory that the earlier one creates. */
  lemma InOrder(tree: Tree, ops: seq<Operation>, i: nat, j: nat)
    requires TreeOk(tree) && ValidPlan(ops) && AllExpected(tree, ops) && ParentsReady(tree, ops) && i < |ops| && j < |ops|
    requires ops[i].path < ops[j].path
    ensures i < j && ops[i].kind.CreateDirectory? && ops[j].expected.Missing?
  {
    var k := |ops[i].path|;
    assert ops[j].path[..k] == ops[i].path;
    assert WellShaped(ops[i]) && WellShaped(ops[j]);
    AncestorsReady(tree, ops, j, k);
    var c :| 0 <= c < j && ops[c].kind.CreateDirectory? && ops[c].path == ops[i].path;
    assert c == i;
    if !At(tree, ops[j].path).Missing? {
      AboveEntries(tree, ops[j].path, k);
    }
  }

  lemma ApartInOrder(tree: Tree, ops: seq<Operation>, fold: string -> string, i: nat, j: nat)
    requires TreeOk(tree) && ValidPlan(ops) && AllExpected(tree, ops) && ParentsReady(tree, ops) && i < j < |ops|
    requires SpelledAlike(ops, fold)
    ensures Apart(ops[i], ops[j], fold)
  {
    var l, r := Fold(fold, ops[i].path), Fold(fold, ops[j].path);
    assert WellShaped(ops[i]) && WellShaped(ops[j]);
    if l <= r {
      FoldedBelow(ops, fold, i, j);
      if ops[i].path < ops[j].path {
        InOrder(tree, ops, i, j);
      }
    } else if r < l {
      FoldedBelow(ops, fold, j, i);
      InOrder(tree, ops, j, i);
    }
  }

  lemma UnbrokenInOrder(tree: Tree, ops: seq<Operation>, fold: string -> string, j: nat)
    requires TreeOk(tree) && ValidPlan(ops) && AllExpected(tree, ops) && ParentsReady(tree, ops) && j < |ops|
    requires SpelledAlike(ops, fold)
    ensures UnbrokenUnder(ops, j, ops[j].path, fold)
  {
    var path := ops[j].path;
    forall a, b | 0 < a < b < |path| && CreatedAmong(ops, j, path[..a], fold) ensures CreatedAmong(ops, j, path[..b], fold) {
      CreatorOf(ops, j, Fold(fold, path[..a]), fold);
      var c :| 0 <= c < j && ops[c].kind.CreateDirectory? && Fold(fold, ops[c].path) == Fold(fold, path[..a]);
      assert WellShaped(ops[c]);
      SameFolded(ops, fold, c, j, a);
      assert At(tree, path[..a]).Missing?;
      AncestorsReady(tree, ops, j, b);
      assert path[..b][..a] == path[..a];
      if At(tree, path[..b]).Directory? {
        AboveEntries(tree, path[..b], a);
      }
      CreatorOf(ops, j, Fold(fold, path[..b]), fold);
    }
  }

  /** A plan in publishing order passes the manager's own relationship check. */
  lemma PublishableIsRelated(tree: Tree, ops: seq<Operation>, fold: string -> string)
    requires TreeOk(tree) && ValidPlan(ops) && AllExpected(tree, ops) && ParentsReady(tree, ops)
    requires SpelledAlike(ops, fold)
    ensures Related(ops, fold)
  {
    forall i, j | 0 <= i < j < |ops| ensures Apart(ops[i], ops[j], fold) {
      ApartInOrder(tree, ops, fold, i, j);
    }
    forall j | 0 <= j < |ops| ensures UnbrokenUnder(ops, j, ops[j].path, fold) {
      UnbrokenInOrder(tree, ops, fold, j);
    }
  }
}
