/** Validation of artifact lineage: the depth-first walk over parent digests. */
module Lineage {
  import opened Options
  import opened Sets

  datatype Artifact = Artifact(id: string, digest: string, parents: seq<string>)

  datatype Validation =
    | Ordered(ids: seq<string>)
    | Cycle(id: string)
    | Duplicate(id: string)
    | InvalidDigest(id: string)
    | MissingParent(id: string)

  predicate IsDigest(s: string) {
    |s| == 64 && forall c | c in s :: 'a' <= c <= 'f' || '0' <= c <= '9'
  }

  predicate Resolves(nodes: seq<Artifact>, digest: string) {
    exists node | node in nodes :: node.digest == digest
  }

  predicate Complete(nodes: seq<Artifact>, roots: set<string>, node: Artifact) {
    forall p | p in node.parents && p !in roots :: Resolves(nodes, p)
  }

  /** `parent` is one of the artifacts and a parent of `child` that is no root. */
  predicate Edge(nodes: seq<Artifact>, roots: set<string>, child: Artifact, parent: Artifact) {
    child in nodes && parent in nodes && parent.digest in child.parents && parent.digest !in roots
  }

  predicate EdgeAt(nodes: seq<Artifact>, roots: set<string>, path: seq<Artifact>, i: nat)
    requires i + 1 < |path|
  {
    Edge(nodes, roots, path[i], path[i + 1])
  }

  predicate IsPath(nodes: seq<Artifact>, roots: set<string>, path: seq<Artifact>) {
    forall i {:trigger EdgeAt(nodes, roots, path, i)} | 0 <= i < |path| - 1 :: EdgeAt(nodes, roots, path, i)
  }

  /** Following parents from this artifact can lead back to it. */
  ghost predicate OnCycle(nodes: seq<Artifact>, roots: set<string>, node: Artifact) {
    exists path :: |path| >= 2 && path[0] == node && path[|path| - 1] == node && IsPath(nodes, roots, path)
  }

  /** The k-th artifact repeats no earlier id or digest. */
  predicate FreshAt(nodes: seq<Artifact>, k: nat)
    requires k < |nodes|
  {
    forall j | 0 <= j < k :: nodes[j].id != nodes[k].id && nodes[j].digest != nodes[k].digest
  }

  predicate WellNamed(nodes: seq<Artifact>) {
    forall k {:trigger FreshAt(nodes, k)} | 0 <= k < |nodes| :: FreshAt(nodes, k) && IsDigest(nodes[k].digest)
  }

  ghost predicate Admissible(nodes: seq<Artifact>, roots: set<string>) {
    && WellNamed(nodes)
    && forall node | node in nodes :: Complete(nodes, roots, node) && !OnCycle(nodes, roots, node)
  }

  function IdsOf(nodes: seq<Artifact>): set<string> {
    set node | node in nodes :: node.id
  }

  function Elements(order: seq<string>): set<string> {
    set id | id in order
  }

  /** The artifact with the i-th id has all its parents, and before it unless they are roots. */
  ghost predicate Placed(nodes: seq<Artifact>, roots: set<string>, order: seq<string>, i: nat)
    requires i < |order|
  {
    forall child | child in nodes && child.id == order[i] ::
      && Complete(nodes, roots, child)
      && forall parent | Edge(nodes, roots, child, parent) :: parent.id in order[..i]
  }

  ghost predicate ParentsEarlier(nodes: seq<Artifact>, roots: set<string>, order: seq<string>) {
    forall i {:trigger Placed(nodes, roots, order, i)} | 0 <= i < |order| :: Placed(nodes, roots, order, i)
  }

  predicate Distinct(order: seq<string>) {
    forall i, j | 0 <= i < j < |order| :: order[i] != order[j]
  }

  /** Each id exactly once, parents first. */
  ghost predicate IsTopologicalOrder(nodes: seq<Artifact>, roots: set<string>, order: seq<string>) {
    && Distinct(order)
    && Elements(order) == IdsOf(nodes)
    && ParentsEarlier(nodes, roots, order)
  }

  lemma IdsUnique(nodes: seq<Artifact>, a: Artifact, b: Artifact)
    requires WellNamed(nodes) && a in nodes && b in nodes
    requires a.id == b.id || a.digest == b.digest
    ensures a == b
  {
    var i :| 0 <= i < |nodes| && nodes[i] == a;
    var j :| 0 <= j < |nodes| && nodes[j] == b;
    assert FreshAt(nodes, i) && FreshAt(nodes, j);
  }

  /** Along a path the positions in a topological order go down. */
  lemma {:induction false} PathGoesUp(nodes: seq<Artifact>, roots: set<string>, order: seq<string>, path: seq<Artifact>, i: nat)
    requires IsTopologicalOrder(nodes, roots, order)
    requires |path| >= 2 && IsPath(nodes, roots, path)
    requires i < |order| && order[i] == path[0].id
    ensures path[|path| - 1].id in order[..i]
    decreases |path|
  {
    assert Placed(nodes, roots, order, i) && EdgeAt(nodes, roots, path, 0);
    assert path[1].id in order[..i];
    if |path| > 2 {
      var k :| 0 <= k < i && order[..i][k] == path[1].id;
      forall j | 0 <= j < |path| - 2 ensures EdgeAt(nodes, roots, path[1..], j) {
        assert EdgeAt(nodes, roots, path, j + 1);
      }
      PathGoesUp(nodes, roots, order, path[1..], k);
      assert order[..k] <= order[..i];
    }
  }

  /** An order with parents first rules out every cycle. */
  lemma OrderedIsAcyclic(nodes: seq<Artifact>, roots: set<string>, order: seq<string>, node: Artifact)
    requires IsTopologicalOrder(nodes, roots, order) && node in nodes
    ensures !OnCycle(nodes, roots, node)
  {
    if OnCycle(nodes, roots, node) {
      var path :| |path| >= 2 && path[0] == node && path[|path| - 1] == node && IsPath(nodes, roots, path);
      assert node.id in Elements(order);
      var i :| 0 <= i < |order| && order[i] == node.id;
      PathGoesUp(nodes, roots, order, path, i);
      assert false;
    }
  }

  /** `visiting` is a path of artifacts, each a child of the next. */
  ghost predicate Tracks(nodes: seq<Artifact>, roots: set<string>, stack: seq<Artifact>, visiting: set<string>) {
    && (forall node | node in stack :: node in nodes)
    && IsPath(nodes, roots, stack)
    && visiting == IdsOf(stack)
  }

  /** What has been put in order is in order. */
  ghost predicate Settled(nodes: seq<Artifact>, roots: set<string>, ordered: seq<string>, visited: set<string>) {
    && visited == Elements(ordered)
    && visited <= IdsOf(nodes)
    && Distinct(ordered)
    && ParentsEarlier(nodes, roots, ordered)
  }

  lemma Enters(nodes: seq<Artifact>, roots: set<string>, stack: seq<Artifact>, visiting: set<string>, node: Artifact)
    requires Tracks(nodes, roots, stack, visiting) && node in nodes
    requires stack != [] ==> Edge(nodes, roots, stack[|stack| - 1], node)
    ensures Tracks(nodes, roots, stack + [node], visiting + {node.id})
  {
    var next := stack + [node];
    forall i | 0 <= i < |next| - 1 ensures EdgeAt(nodes, roots, next, i) {
      if i + 1 < |stack| {
        assert EdgeAt(nodes, roots, stack, i);
      }
    }
  }

  lemma Leaves(nodes: seq<Artifact>, roots: set<string>, stack: seq<Artifact>, visiting: set<string>, node: Artifact)
    requires Tracks(nodes, roots, stack + [node], visiting) && node.id !in IdsOf(stack)
    ensures Tracks(nodes, roots, stack, visiting - {node.id})
  {
    var longer := stack + [node];
    assert forall n | n in stack :: n in longer;
    forall i | 0 <= i < |stack| - 1 ensures EdgeAt(nodes, roots, stack, i) {
      assert EdgeAt(nodes, roots, longer, i);
    }
  }

  /** What a refusal of the walk says is true. */
  ghost predicate RefusalTrue(nodes: seq<Artifact>, roots: set<string>, refusal: Validation) {
    match refusal
    case Cycle(id) => exists node | node in nodes && node.id == id :: OnCycle(nodes, roots, node)
    case MissingParent(id) => exists node | node in nodes && node.id == id :: !Complete(nodes, roots, node)
    case _ => false
  }

  /** This parent needs no more visiting. */
  predicate IsDone(roots: set<string>, byDigest: map<string, Artifact>, visited: set<string>, parent: string) {
    parent in roots || (parent in byDigest && byDigest[parent].id in visited)
  }

  predicate FirstDone(roots: set<string>, byDigest: map<string, Artifact>, visited: set<string>, parents: seq<string>, n: nat)
    requires n <= |parents|
  {
    forall k | 0 <= k < n :: IsDone(roots, byDigest, visited, parents[k])
  }

  lemma OneMoreDone(roots: set<string>, byDigest: map<string, Artifact>, visited: set<string>, more: set<string>, parents: seq<string>, n: nat)
    requires n < |parents| && FirstDone(roots, byDigest, visited, parents, n) && visited <= more
    requires IsDone(roots, byDigest, more, parents[n])
    ensures FirstDone(roots, byDigest, more, parents, n + 1)
  {
  }

  lemma StillPrefix(before: seq<string>, now: seq<string>, id: string)
    requires before <= now
    ensures before <= now + [id]
  {
  }

  class Walk {
    const nodes: seq<Artifact>
    const roots: set<string>
    const byDigest: map<string, Artifact>
    var visiting: set<string>
    var visited: set<string>
    var ordered: seq<string>

    constructor (nodes: seq<Artifact>, roots: set<string>, byDigest: map<string, Artifact>)
      requires WellNamed(nodes) && Indexes(nodes, byDigest)
      ensures this.nodes == nodes && this.roots == roots && visiting == {} && Valid([])
      ensures ordered == []
    {
      this.nodes, this.roots, this.byDigest := nodes, roots, byDigest;
      visiting, visited, ordered := {}, {}, [];
    }

    /** `stack` holds the artifacts whose parents are being visited. */
    ghost predicate Valid(stack: seq<Artifact>)
      reads this
    {
      && WellNamed(nodes) && Indexes(nodes, byDigest)
      && Tracks(nodes, roots, stack, visiting)
      && Settled(nodes, roots, ordered, visited)
      && visiting !! visited
    }

    ghost function Pending(): set<string>
      reads this
    {
      IdsOf(nodes) - visiting - visited
    }

    method Visit(node: Artifact, ghost stack: seq<Artifact>) returns (invalid: Option<Validation>)
      requires Valid(stack) && node in nodes
      requires stack != [] ==> Edge(nodes, roots, stack[|stack| - 1], node)
      modifies this
      ensures invalid.None? ==> Valid(stack) && node.id in visited && old(ordered) <= ordered && old(visited) <= visited
      ensures invalid.None? ==> visiting == old(visiting)
      ensures invalid.Some? ==> RefusalTrue(nodes, roots, invalid.value)
      decreases |Pending()|, 1
    {
      if node.id in visited {
        return None;
      }
      if node.id in visiting {
        ClosesCycle(stack, node);
        return Some(Cycle(node.id));
      }
      Enter(node, stack);
      invalid := Descend(node, stack);
    }

    /** The rest of a visit, with the artifact on the stack. */
    method Descend(node: Artifact, ghost stack: seq<Artifact>) returns (invalid: Option<Validation>)
      requires Valid(stack + [node]) && node in nodes && node.id !in IdsOf(stack)
      modifies this
      ensures invalid.None? ==> Valid(stack) && node.id in visited && old(ordered) <= ordered && old(visited) <= visited
      ensures invalid.None? ==> visiting == old(visiting) - {node.id}
      ensures invalid.Some? ==> RefusalTrue(nodes, roots, invalid.value)
      decreases |Pending()|, 4
    {
      invalid := VisitParents(node, stack + [node]);
      if invalid.None? {
        StillPrefix(old(ordered), ordered, node.id);
        Leave(node, stack);
      }
    }

    method Enter(node: Artifact, ghost stack: seq<Artifact>)
      requires Valid(stack) && node in nodes && node.id !in visiting && node.id !in visited
      requires stack != [] ==> Edge(nodes, roots, stack[|stack| - 1], node)
      modifies this`visiting
      ensures Valid(stack + [node]) && visiting == old(visiting) + {node.id}
      ensures |Pending()| < |old(Pending())|
    {
      Descends(node);
      Enters(nodes, roots, stack, visiting, node);
      visiting := visiting + {node.id};
    }

    method Leave(node: Artifact, ghost stack: seq<Artifact>)
      requires Valid(stack + [node]) && node in nodes && node.id !in IdsOf(stack)
      requires FirstDone(roots, byDigest, visited, node.parents, |node.parents|)
      modifies this
      ensures Valid(stack) && visiting == old(visiting) - {node.id}
      ensures visited == old(visited) + {node.id} && ordered == old(ordered) + [node.id]
    {
      assert (stack + [node])[|stack|] == node;
      ParentsDone(node);
      Leaves(nodes, roots, stack, visiting, node);
      visiting := visiting - {node.id};
      visited := visited + {node.id};
      ordered := ordered + [node.id];
    }

    method VisitParents(node: Artifact, ghost stack: seq<Artifact>) returns (invalid: Option<Validation>)
      requires stack != [] && stack[|stack| - 1] == node && Valid(stack)
      modifies this
      ensures invalid.None? ==> Valid(stack) && old(ordered) <= ordered && old(visited) <= visited
      ensures invalid.None? ==> visiting == old(visiting)
      ensures invalid.None? ==> FirstDone(roots, byDigest, visited, node.parents, |node.parents|)
      ensures invalid.Some? ==> RefusalTrue(nodes, roots, invalid.value)
      decreases |Pending()|, 3
    {
      var i := 0;
      while i < |node.parents|
        invariant 0 <= i <= |node.parents|
        invariant Valid(stack) && visiting == old(visiting)
        invariant old(ordered) <= ordered && old(visited) <= visited
        invariant |Pending()| <= |old(Pending())|
        invariant FirstDone(roots, byDigest, visited, node.parents, i)
      {
        ghost var before := visited;
        invalid := VisitParent(node.parents[i], node, stack);
        if invalid.Some? {
          return;
        }
        OneMoreDone(roots, byDigest, before, visited, node.parents, i);
        i := i + 1;
      }
      invalid := None;
    }

    method VisitParent(parent: string, node: Artifact, ghost stack: seq<Artifact>) returns (invalid: Option<Validation>)
      requires stack != [] && stack[|stack| - 1] == node && Valid(stack) && parent in node.parents
      modifies this
      ensures invalid.None? ==> Valid(stack) && old(ordered) <= ordered && old(visited) <= visited
      ensures invalid.None? ==> visiting == old(visiting) && IsDone(roots, byDigest, visited, parent)
      ensures invalid.None? ==> |Pending()| <= |old(Pending())|
      ensures invalid.Some? ==> RefusalTrue(nodes, roots, invalid.value)
      decreases |Pending()|, 2
    {
      if parent in roots {
        return None;
      }
      if parent !in byDigest {
        assert !Resolves(nodes, parent);
        return Some(MissingParent(node.id));
      }
      assert Edge(nodes, roots, node, byDigest[parent]);
      invalid := Visit(byDigest[parent], stack);
      if invalid.None? {
        SubsetSmaller(Pending(), old(Pending()));
      }
    }

    method VisitAll(sorted: seq<Artifact>) returns (invalid: Option<Validation>)
      requires Valid([]) && forall node | node in sorted :: node in nodes
      modifies this
      ensures invalid.None? ==> Valid([]) && forall node | node in sorted :: node.id in visited
      ensures invalid.Some? ==> RefusalTrue(nodes, roots, invalid.value)
    {
      var i := 0;
      while i < |sorted|
        invariant 0 <= i <= |sorted|
        invariant Valid([])
        invariant forall k | 0 <= k < i :: sorted[k].id in visited
      {
        invalid := Visit(sorted[i], []);
        if invalid.Some? {
          return;
        }
        i := i + 1;
      }
      invalid := None;
    }

    lemma Descends(node: Artifact)
      requires node in nodes && node.id !in visiting && node.id !in visited
      ensures |IdsOf(nodes) - (visiting + {node.id}) - visited| < |Pending()|
    {
      var less := IdsOf(nodes) - (visiting + {node.id}) - visited;
      assert node.id in Pending() && less == Pending() - {node.id};
      SubsetSmaller(less, Pending());
    }

    lemma ParentsDone(node: Artifact)
      requires WellNamed(nodes) && Indexes(nodes, byDigest) && node in nodes
      requires Settled(nodes, roots, ordered, visited) && node.id !in visited
      requires FirstDone(roots, byDigest, visited, node.parents, |node.parents|)
      ensures Settled(nodes, roots, ordered + [node.id], visited + {node.id})
    {
      var next := ordered + [node.id];
      assert node.id in IdsOf(nodes);
      forall i | 0 <= i < |next| ensures Placed(nodes, roots, next, i) {
        if i < |ordered| {
          assert Placed(nodes, roots, ordered, i) && next[..i] == ordered[..i];
        } else {
          PlacedLast(node);
        }
      }
    }

    lemma PlacedLast(node: Artifact)
      requires WellNamed(nodes) && Indexes(nodes, byDigest) && node in nodes
      requires visited == Elements(ordered)
      requires FirstDone(roots, byDigest, visited, node.parents, |node.parents|)
      ensures Placed(nodes, roots, ordered + [node.id], |ordered|)
    {
      assert (ordered + [node.id])[..|ordered|] == ordered;
      forall child | child in nodes && child.id == node.id
        ensures Complete(nodes, roots, child)
        ensures forall parent | Edge(nodes, roots, child, parent) :: parent.id in ordered
      {
        IdsUnique(nodes, child, node);
        forall parent | Edge(nodes, roots, child, parent) ensures parent.id in ordered {
          IdsUnique(nodes, parent, byDigest[parent.digest]);
        }
      }
    }

    lemma ClosesCycle(stack: seq<Artifact>, node: Artifact)
      requires Valid(stack) && node in nodes && node.id in visiting
      requires stack != [] ==> Edge(nodes, roots, stack[|stack| - 1], node)
      ensures RefusalTrue(nodes, roots, Cycle(node.id))
    {
      var k :| 0 <= k < |stack| && stack[k].id == node.id;
      IdsUnique(nodes, stack[k], node);
      var path := stack[k..] + [node];
      forall i | 0 <= i < |path| - 1 ensures EdgeAt(nodes, roots, path, i) {
        if i + 1 < |stack| - k {
          assert EdgeAt(nodes, roots, stack, k + i);
        }
      }
      assert path[0] == node && path[|path| - 1] == node && IsPath(nodes, roots, path);
      assert OnCycle(nodes, roots, node);
    }
  }

  /** The index maps each digest to its artifact. */
  predicate Indexes(nodes: seq<Artifact>, byDigest: map<string, Artifact>) {
    && (forall node | node in nodes :: node.digest in byDigest)
    && (forall d | d in byDigest :: byDigest[d] in nodes && byDigest[d].digest == d)
  }

  /** The first artifact that is badly named is the one reported. */
  predicate BadlyNamed(nodes: seq<Artifact>, r: Validation) {
    exists k | 0 <= k < |nodes| ::
      && WellNamed(nodes[..k])
      && (match r
          case Duplicate(id) => id == nodes[k].id && !FreshAt(nodes, k)
          case InvalidDigest(id) => id == nodes[k].id && FreshAt(nodes, k) && !IsDigest(nodes[k].digest)
          case _ => false)
  }

  method IndexDigests(nodes: seq<Artifact>) returns (refusal: Option<Validation>, byDigest: map<string, Artifact>)
    ensures refusal.None? ==> WellNamed(nodes) && Indexes(nodes, byDigest)
    ensures refusal.None? ==> forall node | node in nodes :: |node.digest| == 64 && forall c | c in node.digest :: '0' <= c <= '9' || 'a' <= c <= 'f'
    ensures refusal.Some? ==> BadlyNamed(nodes, refusal.value)
  {
    byDigest := map[];
    var ids: set<string> := {};
    var k := 0;
    while k < |nodes|
      invariant 0 <= k <= |nodes|
      invariant WellNamed(nodes[..k]) && Indexes(nodes[..k], byDigest)
      invariant ids == IdsOf(nodes[..k])
    {
      var node := nodes[k];
      if node.id in ids || node.digest in byDigest {
        var j :| 0 <= j < k && (nodes[..k][j].id == node.id || nodes[..k][j].digest == node.digest);
        assert !FreshAt(nodes, k);
        return Some(Duplicate(node.id)), byDigest;
      }
      FreshHere(nodes, k, ids, byDigest);
      if !IsDigest(node.digest) {
        return Some(InvalidDigest(node.id)), byDigest;
      }
      assert nodes[..k + 1] == nodes[..k] + [node];
      WellNamedStep(nodes, k);
      ids := ids + {node.id};
      byDigest := byDigest[node.digest := node];
      k := k + 1;
    }
    assert nodes[..k] == nodes;
    forall node | node in nodes ensures IsDigest(node.digest) {
      var j :| 0 <= j < |nodes| && nodes[j] == node;
      assert FreshAt(nodes, j);
    }
    refusal := None;
  }

  lemma FreshHere(nodes: seq<Artifact>, k: nat, ids: set<string>, byDigest: map<string, Artifact>)
    requires k < |nodes| && Indexes(nodes[..k], byDigest)
    requires ids == IdsOf(nodes[..k])
    requires nodes[k].id !in ids && nodes[k].digest !in byDigest
    ensures FreshAt(nodes, k)
  {
    forall j | 0 <= j < k ensures nodes[j].id != nodes[k].id && nodes[j].digest != nodes[k].digest {
      assert nodes[j] in nodes[..k];
    }
  }

  lemma WellNamedStep(nodes: seq<Artifact>, k: nat)
    requires k < |nodes| && WellNamed(nodes[..k]) && FreshAt(nodes, k) && IsDigest(nodes[k].digest)
    ensures WellNamed(nodes[..k + 1])
  {
    var next := nodes[..k + 1];
    forall j | 0 <= j < |next| ensures FreshAt(next, j) && IsDigest(next[j].digest) {
      if j < k {
        assert FreshAt(nodes[..k], j);
        assert nodes[..k][j] == nodes[j];
      }
    }
  }

  /** `sorted` is the same artifacts in the order in which they are to be visited. */
  method ValidateLineageDag(nodes: seq<Artifact>, sorted: seq<Artifact>, roots: set<string>) returns (r: Validation)
    requires multiset(sorted) == multiset(nodes)
    ensures r.Ordered? <==> Admissible(nodes, roots)
    ensures r.Ordered? ==> IsTopologicalOrder(nodes, roots, r.ids)
    ensures r.Duplicate? || r.InvalidDigest? ==> BadlyNamed(nodes, r)
    ensures r.Cycle? || r.MissingParent? ==> WellNamed(nodes) && RefusalTrue(nodes, roots, r)
  {
    var refusal, byDigest := IndexDigests(nodes);
    if refusal.Some? {
      BadIsNotWell(nodes, refusal.value);
      return refusal.value;
    }
    var walk := new Walk(nodes, roots, byDigest);
    assert forall node | node in sorted :: node in multiset(sorted);
    var invalid := walk.VisitAll(sorted);
    if invalid.Some? {
      Refuted(nodes, roots, invalid.value);
      return invalid.value;
    }
    r := Ordered(walk.ordered);
    AllVisited(nodes, sorted, roots, walk.ordered, walk.visited);
    OrderedIsAdmissible(nodes, roots, r.ids);
  }

  lemma AllVisited(nodes: seq<Artifact>, sorted: seq<Artifact>, roots: set<string>, ordered: seq<string>, visited: set<string>)
    requires multiset(sorted) == multiset(nodes) && Settled(nodes, roots, ordered, visited)
    requires forall node | node in sorted :: node.id in visited
    ensures IsTopologicalOrder(nodes, roots, ordered)
  {
    forall node | node in nodes ensures node.id in visited {
      assert node in multiset(sorted);
    }
  }

  lemma Refuted(nodes: seq<Artifact>, roots: set<string>, refusal: Validation)
    requires RefusalTrue(nodes, roots, refusal)
    ensures !Admissible(nodes, roots)
  {
  }

  lemma OrderedIsAdmissible(nodes: seq<Artifact>, roots: set<string>, order: seq<string>)
    requires WellNamed(nodes) && IsTopologicalOrder(nodes, roots, order)
    ensures Admissible(nodes, roots)
  {
    forall node | node in nodes ensures Complete(nodes, roots, node) && !OnCycle(nodes, roots, node) {
      OrderedIsAcyclic(nodes, roots, order, node);
      assert node.id in Elements(order);
      var k :| 0 <= k < |order| && order[k] == node.id;
      assert Placed(nodes, roots, order, k);
    }
  }

  lemma BadIsNotWell(nodes: seq<Artifact>, r: Validation)
    requires BadlyNamed(nodes, r)
    ensures !WellNamed(nodes) && (r.Duplicate? || r.InvalidDigest?)
  {
  }
}
