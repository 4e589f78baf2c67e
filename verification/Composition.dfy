/** From a plan of effects to a committed transaction: `decideMutation` and `applyPlan`. */
module Composition {
  import opened Options
  import opened Sets
  import opened Plans
  import opened Relationships
  import opened Recovery
  import opened Layouts
  import opened Traces
  import opened DurableStore
  import opened Conduct
  import opened Execution
  import opened Sessions
  import opened Effects
  import opened PlanNormalization
  import opened EventLog
  import opened EventStores

  datatype PlanEffect = Plain(effect: Effect) | Append(store: EventStore, draft: Draft)

  datatype Decision = Nothing | Proceed(ops: seq<Operation>) | Refuse

  /** The two writes that an append stands for. */
  function Writes(store: EventStore, prepared: Prepared): seq<Effect> {
    [Write(store.events, prepared.events), Write(store.snapshot, prepared.snapshot)]
  }

  function Expand(effect: PlanEffect, services: Services, tree: Tree): Option<seq<Effect>> {
    match effect
    case Plain(plain) => Some([plain])
    case Append(store, draft) =>
      var prepared := PrepareEventAppend(services, store, draft, tree);
      if prepared.None? then None else Some(Writes(store, prepared.value))
  }

  /** `expandAppendEffects`, after every append has been prepared. */
  function ExpandAll(effects: seq<PlanEffect>, services: Services, tree: Tree, n: nat): Option<seq<Effect>>
    requires n <= |effects|
  {
    if n == 0 then Some([])
    else
      var before, here := ExpandAll(effects, services, tree, n - 1), Expand(effects[n - 1], services, tree);
      if before.None? || here.None? then None else Some(before.value + here.value)
  }

  lemma {:induction false} ExpandStops(effects: seq<PlanEffect>, services: Services, tree: Tree, n: nat, m: nat)
    requires n <= m <= |effects| && ExpandAll(effects, services, tree, n).None?
    ensures ExpandAll(effects, services, tree, m).None?
  {
    if n < m {
      ExpandStops(effects, services, tree, n, m - 1);
    }
  }

  predicate EffectOk(effect: PlanEffect) {
    match effect
    case Plain(plain) => plain.path != []
    case Append(store, _) => StoreOk(store)
  }

  /** Every expansion stands somewhere in the expanded plan. */
  lemma {:induction false} ExpandedAt(effects: seq<PlanEffect>, services: Services, tree: Tree, n: nat, i: nat) returns (a: nat)
    requires i < n <= |effects| && ExpandAll(effects, services, tree, n).Some?
    ensures Expand(effects[i], services, tree).Some?
    ensures
      var all, here := ExpandAll(effects, services, tree, n).value, Expand(effects[i], services, tree).value;
      a + |here| <= |all| && all[a..a + |here|] == here
  {
    var before := ExpandAll(effects, services, tree, n - 1).value;
    var all := ExpandAll(effects, services, tree, n).value;
    var last := Expand(effects[n - 1], services, tree).value;
    assert all == before + last;
    if i == n - 1 {
      a := |before|;
      assert all[a..a + |last|] == last;
    } else {
      a := ExpandedAt(effects, services, tree, n - 1, i);
      var here := Expand(effects[i], services, tree).value;
      assert all[a..a + |here|] == before[a..a + |here|];
    }
  }

  lemma {:induction false} ExpandedOk(effects: seq<PlanEffect>, services: Services, tree: Tree, n: nat)
    requires n <= |effects| && (forall effect | effect in effects :: EffectOk(effect)) && ExpandAll(effects, services, tree, n).Some?
    ensures forall effect | effect in ExpandAll(effects, services, tree, n).value :: effect.path != []
  {
    if n > 0 {
      ExpandedOk(effects, services, tree, n - 1);
      assert EffectOk(effects[n - 1]);
    }
  }

  /** Every destination and ancestor, unless something unreadable is there. */
  method ObserveManagedPaths(effects: seq<Effect>, tree: Tree) returns (r: Option<map<Path, Fingerprint>>)
    ensures r.Some? ==> Covers(r.value, effects)
    ensures r.Some? ==> forall p | p in r.value :: p != [] && r.value[p] == At(tree, p) && !r.value[p].Special?
    ensures r.None? ==> exists j, k :: 0 <= j < |effects| && 0 < k <= |effects[j].path| && At(tree, effects[j].path[..k]).Special?
  {
    var observations: map<Path, Fingerprint> := map[];
    for j := 0 to |effects|
      invariant forall i, k | 0 <= i < j && 0 < k <= |effects[i].path| :: effects[i].path[..k] in observations
      invariant forall p | p in observations :: p != [] && observations[p] == At(tree, p) && !observations[p].Special?
    {
      var path := effects[j].path;
      for k := 0 to |path|
        invariant forall i, l | 0 <= i < j && 0 < l <= |effects[i].path| :: effects[i].path[..l] in observations
        invariant forall l | 0 < l <= k :: path[..l] in observations
        invariant forall p | p in observations :: p != [] && observations[p] == At(tree, p) && !observations[p].Special?
      {
        if At(tree, path[..k + 1]).Special? {
          return None;
        }
        observations := observations[path[..k + 1] := At(tree, path[..k + 1])];
      }
    }
    r := Some(observations);
  }

  /** What a decided plan promises on the tree that it was decided on. */
  ghost predicate Decided(effects: seq<PlanEffect>, services: Services, fold: string -> string, tree: Tree, ops: seq<Operation>) {
    var expanded := ExpandAll(effects, services, tree, |effects|);
    && ValidPlan(ops) && Related(ops, fold) && AllExpected(tree, ops) && ParentsReady(tree, ops)
    && expanded.Some?
    && Meaning(tree, expanded.value, |expanded.value|) == Some(Applied(tree, ops, |ops|))
    && AllLeft(tree, expanded.value, |expanded.value|, Applied(tree, ops, |ops|))
    && forall i | 0 <= i < |effects| && effects[i].Append? :: AppendsFrom(services, effects[i].store, ops, tree, effects[i].draft)
  }

  /** The appends can be prepared, nothing unreadable is in the way, and the effects
      fit together and with what is there. */
  ghost predicate Decidable(effects: seq<PlanEffect>, services: Services, fold: string -> string, tree: Tree) {
    var expanded := ExpandAll(effects, services, tree, |effects|);
    && expanded.Some?
    && (forall j, k | 0 <= j < |expanded.value| && 0 < k <= |expanded.value[j].path| :: !At(tree, expanded.value[j].path[..k]).Special?)
    && OneSpelling(expanded.value, fold) && Nested(expanded.value, |expanded.value|)
    && forall j | 0 <= j < |expanded.value| :: Performable(tree, expanded.value[j])
  }

  method DecideMutation(effects: seq<PlanEffect>, services: Services, fold: string -> string, tree: Tree) returns (d: Decision)
    requires TreeOk(tree) && At(tree, BRAIN).Directory?
    requires forall effect | effect in effects :: EffectOk(effect)
    ensures d.Refuse? <==> !Decidable(effects, services, fold, tree)
    ensures d.Proceed? ==> Decided(effects, services, fold, tree, d.ops)
    ensures d.Nothing? ==>
      var expanded := ExpandAll(effects, services, tree, |effects|);
      && expanded.Some? && Meaning(tree, expanded.value, |expanded.value|) == Some(tree)
      && AllLeft(tree, expanded.value, |expanded.value|, tree)
      && forall effect | effect in effects :: effect.Plain?
  {
    var expanded: seq<Effect> := [];
    for n := 0 to |effects|
      invariant ExpandAll(effects, services, tree, n) == Some(expanded)
    {
      var here := Expand(effects[n], services, tree);
      if here.None? {
        ExpandStops(effects, services, tree, n + 1, |effects|);
        return Refuse;
      }
      expanded := expanded + here.value;
    }
    ExpandedOk(effects, services, tree, |effects|);
    var observations := ObserveManagedPaths(expanded, tree);
    if observations.None? {
      return Refuse;
    }
    var normalized := NormalizeManagedMutationPlan(expanded, observations.value, fold, tree);
    match normalized
    case Refused => d := Refuse;
    case Noop =>
      d := Nothing;
      forall i | 0 <= i < |effects| ensures effects[i].Plain? {
        if effects[i].Append? {
          var text := AppendWritten(effects, services, tree, expanded, tree, i);
          LogChanges(services, effects[i].store, effects[i].draft, tree);
        }
      }
    case Ready(ops) =>
      d := Proceed(ops);
      forall i | 0 <= i < |effects| && effects[i].Append? ensures AppendsFrom(services, effects[i].store, ops, tree, effects[i].draft) {
        var text := AppendWritten(effects, services, tree, expanded, Applied(tree, ops, |ops|), i);
        DecidedAppends(services, effects[i].store, effects[i].draft, tree, ops);
      }
  }

  /** Both of an append's texts are in place when all effects have been performed. */
  lemma AppendWritten(effects: seq<PlanEffect>, services: Services, tree: Tree, expanded: seq<Effect>, after: Tree, i: nat) returns (prepared: Prepared)
    requires i < |effects| && effects[i].Append? && EffectOk(effects[i])
    requires ExpandAll(effects, services, tree, |effects|) == Some(expanded)
    requires AllLeft(tree, expanded, |expanded|, after)
    ensures PrepareEventAppend(services, effects[i].store, effects[i].draft, tree) == Some(prepared)
    ensures At(after, effects[i].store.events) == File(prepared.events)
    ensures At(after, effects[i].store.snapshot) == File(prepared.snapshot)
  {
    var a := ExpandedAt(effects, services, tree, |effects|, i);
    prepared := PrepareEventAppend(services, effects[i].store, effects[i].draft, tree).value;
    var here := Writes(effects[i].store, prepared);
    assert expanded[a] == here[0] && expanded[a + 1] == here[1] by {
      assert expanded[a..a + 2][0] == here[0] && expanded[a..a + 2][1] == here[1];
    }
    LeftByOne(tree, expanded, after, a);
    LeftByOne(tree, expanded, after, a + 1);
  }

  lemma LeftByOne(tree: Tree, effects: seq<Effect>, after: Tree, a: nat)
    requires AllLeft(tree, effects, |effects|, after) && a < |effects|
    ensures At(after, effects[a].path) == Left(effects[a])
  {
    assert LeftAt(tree, effects, |effects|, effects[a].path, At(after, effects[a].path));
  }

  /** The destinations and their ancestors: what a decision looks at. */
  function Reach(effects: seq<Effect>): set<Path> {
    set j, k | 0 <= j < |effects| && 0 < k <= |effects[j].path| :: effects[j].path[..k]
  }

  /** Effects change nothing that they do not reach. */
  lemma BeyondReach(tree: Tree, effects: seq<Effect>, after: Tree, other: Path)
    requires AllLeft(tree, effects, |effects|, after) && other !in Reach(effects) && forall effect | effect in effects :: effect.path != []
    ensures At(after, other) == At(tree, other)
  {
    assert LeftAt(tree, effects, |effects|, other, At(after, other));
    forall j | 0 <= j < |effects| ensures effects[j].path != other && !Ancestor(other, effects[j].path) {
      PrefixReached(effects, j, other);
    }
  }

  lemma PrefixReached(effects: seq<Effect>, j: nat, p: Path)
    requires j < |effects|
    ensures p != [] && p <= effects[j].path ==> p in Reach(effects)
  {
    if p != [] && p <= effects[j].path {
      assert effects[j].path[..|p|] == p;
    }
  }

  lemma {:induction false} DistinctCount(ops: seq<Operation>, n: nat)
    requires DistinctPaths(ops) && n <= |ops|
    ensures |set i | 0 <= i < n :: ops[i].path| == n
  {
    if n > 0 {
      DistinctCount(ops, n - 1);
      var before := set i | 0 <= i < n - 1 :: ops[i].path;
      assert (set i | 0 <= i < n :: ops[i].path) == before + {ops[n - 1].path};
    }
  }

  /** A plan that leaves what the effects say has at most one operation for each path they reach. */
  lemma ReachBounds(tree: Tree, effects: seq<Effect>, ops: seq<Operation>)
    requires ValidPlan(ops) && AllExpected(tree, ops) && forall effect | effect in effects :: effect.path != []
    requires AllLeft(tree, effects, |effects|, Applied(tree, ops, |ops|))
    ensures |ops| <= |Reach(effects)|
  {
    var paths := set i | 0 <= i < |ops| :: ops[i].path;
    AppliedDestinations(tree, ops, |ops|);
    forall i | 0 <= i < |ops| ensures ops[i].path in Reach(effects) {
      assert WellShaped(ops[i]);
      if ops[i].path !in Reach(effects) {
        BeyondReach(tree, effects, Applied(tree, ops, |ops|), ops[i].path);
      }
    }
    DistinctCount(ops, |ops|);
    SubsetSmaller(paths, Reach(effects));
  }

  /** `eventStorePreconditions`: both files of every append are as they were when it
      was prepared. */
  function StoreWants(effects: seq<PlanEffect>, tree: Tree): seq<Want> {
    if effects == [] then []
    else
      var before, last := StoreWants(effects[..|effects| - 1], tree), effects[|effects| - 1];
      match last
      case Plain(_) => before
      case Append(store, _) => before + [Want(store.events, {At(tree, store.events)}), Want(store.snapshot, {At(tree, store.snapshot)})]
  }

  lemma {:induction false} StoresMet(effects: seq<PlanEffect>, tree: Tree)
    ensures Met(tree, StoreWants(effects, tree))
  {
    if effects != [] {
      StoresMet(effects[..|effects| - 1], tree);
    }
  }

  /** They are looked at again exactly so: nothing has become of any store since. */
  lemma {:induction false} StoreWantsExact(effects: seq<PlanEffect>, tree: Tree, now: Tree)
    ensures Met(now, StoreWants(effects, tree)) <==>
      forall effect | effect in effects && effect.Append? ::
        At(now, effect.store.events) == At(tree, effect.store.events) && At(now, effect.store.snapshot) == At(tree, effect.store.snapshot)
  {
    if effects != [] {
      var init, last := effects[..|effects| - 1], effects[|effects| - 1];
      StoreWantsExact(init, tree, now);
      assert effects == init + [last];
      MetBoth(now, StoreWants(init, tree), if last.Append? then [Want(last.store.events, {At(tree, last.store.events)}), Want(last.store.snapshot, {At(tree, last.store.snapshot)})] else []);
    }
  }

  lemma MetBoth(tree: Tree, a: seq<Want>, b: seq<Want>)
    ensures Met(tree, a + b) <==> Met(tree, a) && Met(tree, b)
  {
    forall w ensures w in a + b <==> w in a || w in b {
    }
  }

  /** The files that an effect is about. */
  function Targets(effect: PlanEffect): seq<Path> {
    match effect
    case Plain(plain) => [plain.path]
    case Append(store, _) => [store.events, store.snapshot]
  }

  /** The path is a target, or lies above one. */
  ghost predicate Concerns(effects: seq<PlanEffect>, p: Path) {
    exists i, q :: 0 <= i < |effects| && q in Targets(effects[i]) && p <= q
  }

  lemma {:induction false} ExpandedTargets(effects: seq<PlanEffect>, services: Services, tree: Tree, n: nat, a: nat)
    requires n <= |effects| && ExpandAll(effects, services, tree, n).Some? && a < |ExpandAll(effects, services, tree, n).value|
    ensures exists i :: 0 <= i < n && ExpandAll(effects, services, tree, n).value[a].path in Targets(effects[i])
  {
    var before := ExpandAll(effects, services, tree, n - 1).value;
    if a < |before| {
      ExpandedTargets(effects, services, tree, n - 1, a);
    } else {
      assert ExpandAll(effects, services, tree, n).value[a].path in Targets(effects[n - 1]);
    }
  }

  /** What has become of the tree: what is written is there, what is deleted is not,
      directories are, logs and snapshots are as prepared, and all else is as before. */
  ghost predicate CarriedOut(effects: seq<PlanEffect>, services: Services, tree: Tree, after: Tree) {
    && (forall i | 0 <= i < |effects| ::
      match effects[i]
      case Plain(Write(path, content)) => At(after, path) == File(content)
      case Plain(Delete(path)) => At(after, path) == Missing
      case Plain(MakeDirectory(path)) => At(after, path) == Directory
      case Append(store, draft) =>
        var prepared := PrepareEventAppend(services, store, draft, tree);
        prepared.Some? && At(after, store.events) == File(prepared.value.events) && At(after, store.snapshot) == File(prepared.value.snapshot))
    && forall p | !Concerns(effects, p) :: At(after, p) == At(tree, p)
  }

  lemma LeftIsCarriedOut(effects: seq<PlanEffect>, services: Services, tree: Tree, expanded: seq<Effect>, after: Tree)
    requires forall effect | effect in effects :: EffectOk(effect)
    requires ExpandAll(effects, services, tree, |effects|) == Some(expanded) && AllLeft(tree, expanded, |expanded|, after)
    ensures CarriedOut(effects, services, tree, after)
  {
    forall i | 0 <= i < |effects|
      ensures
        match effects[i]
        case Plain(effect) => At(after, effect.path) == Left(effect)
        case Append(store, draft) =>
          var prepared := PrepareEventAppend(services, store, draft, tree);
          prepared.Some? && At(after, store.events) == File(prepared.value.events) && At(after, store.snapshot) == File(prepared.value.snapshot)
    {
      if effects[i].Append? {
        var _ := AppendWritten(effects, services, tree, expanded, after, i);
      } else {
        var a := ExpandedAt(effects, services, tree, |effects|, i);
        assert expanded[a..a + 1][0] == effects[i].effect;
        LeftByOne(tree, expanded, after, a);
      }
    }
    ExpandedOk(effects, services, tree, |effects|);
    forall p | !Concerns(effects, p) ensures At(after, p) == At(tree, p) {
      forall a | 0 <= a < |expanded| ensures !(p <= expanded[a].path) {
        ExpandedTargets(effects, services, tree, |effects|, a);
      }
      assert LeftAt(tree, expanded, |expanded|, p, At(after, p));
    }
  }

  datatype ApplyOutcome = Done | NothingToDo | Failed(outcome: Outcome) | NotDecided

  /** The durable changes that applying these effects makes at most. */
  function ApplyCost(effects: seq<PlanEffect>, services: Services, tree: Tree): nat {
    var expanded := ExpandAll(effects, services, tree, |effects|);
    ExecutionCost(if expanded.Some? then |Reach(expanded.value)| else 0) + 8
  }

  /** `applyPlan`: preflight, decide on what is there, and commit it as one transaction.
      In a project that nobody else writes to, it is refused exactly for a crash left
      unrecovered; otherwise a process that lives long enough does what the effects
      mean, exactly if they are decidable. */
  method ApplyPlan(s: Store, effects: seq<PlanEffect>, services: Services, fold: string -> string, id: TxId, createdAt: string,
                   ghost open: Option<Unfinished>, ghost origin: Tree, ghost history: seq<seq<Operation>>)
    returns (r: ApplyOutcome, ghost left: Option<Unfinished>, ghost after: seq<seq<Operation>>)
    requires Account(s, open, origin, history) && s.quiet && id !in s.disk.transactions
    requires TreeOk(s.disk.tree) && At(s.disk.tree, BRAIN).Directory?
    requires forall effect | effect in effects :: EffectOk(effect)
    modifies s
    ensures Account(s, left, origin, after)
    ensures r.Failed? ==> r.outcome.Died? || r.outcome == Outcome.Refused(RecoveryRequired)
    ensures r == Failed(Outcome.Refused(RecoveryRequired)) <==> Blocking(old(s.disk), open)
    ensures Blocking(old(s.disk), open) ==> left == open && s.disk == old(s.disk)
    ensures r.Done? || r.NothingToDo? ==>
      var expanded := ExpandAll(effects, services, old(s.disk.tree), |effects|);
      left.None? && expanded.Some? && Meaning(old(s.disk.tree), expanded.value, |expanded.value|) == Some(s.disk.tree)
    ensures r.Done? || r.NothingToDo? ==> CarriedOut(effects, services, old(s.disk.tree), s.disk.tree)
    ensures r.NothingToDo? || r.NotDecided? ==> s.disk.tree == old(s.disk.tree)
    ensures !r.Failed? ==> (r.Done? || r.NothingToDo? <==> Decidable(effects, services, fold, old(s.disk.tree)))
    ensures Paid(old(s.budget), s.budget, ApplyCost(effects, services, old(s.disk.tree)), r != Failed(Died))
  {
    var stop;
    stop, left, after := Preflight(s, open, origin, history);
    if stop.Some? {
      return Failed(stop.value), left, after;
    }
    ghost var tree := s.disk.tree;
    var decision := DecideMutation(effects, services, fold, s.disk.tree);
    if !decision.Refuse? {
      LeftIsCarriedOut(effects, services, tree, ExpandAll(effects, services, tree, |effects|).value,
                       if decision.Nothing? then tree else Applied(tree, decision.ops, |decision.ops|));
    }
    match decision
    case Refuse => r := NotDecided;
    case Nothing => r := NothingToDo;
    case Proceed(ops) =>
      var outcome;
      assert GuardsStand(s.disk.tree, ops, []);
      StoresMet(effects, s.disk.tree);
      ObstacleExact(s.disk.tree, ops, StoreWants(effects, s.disk.tree), [], []);
      ExpandedOk(effects, services, s.disk.tree, |effects|);
      ReachBounds(s.disk.tree, ExpandAll(effects, services, s.disk.tree, |effects|).value, ops);
      outcome, left, after := ExecuteManagedMutation(s, Manifest(id, createdAt, ops), StoreWants(effects, s.disk.tree), [], [], left, origin, after);
      r := if outcome.Receipt? then ApplyOutcome.Done else Failed(outcome);
  }
}
