/** What one transaction looked at, published and recorded, across its execution
    and every recovery of it, while other writers change destinations at will. */
module Traces {
  import opened Options
  import opened Plans
  import opened Recovery

  /** `Resynced` is a terminal record written again with a later directory sync. */
  datatype Moment =
    | Looked(path: Path, found: Fingerprint)
    | Landed(operationId: nat)
    | Recorded(phase: Phase)
    | Resynced
    | Restarted

  /** A lock artifact of a guarded transaction, and the two states it may be in. */
  datatype Artifact = Artifact(path: Path, expected: Fingerprint, published: Fingerprint)

  predicate Permitted(a: Artifact, f: Fingerprint) {
    f == a.expected || f == a.published
  }

  predicate RunName(segment: string) {
    && 0 < |segment| <= 128
    && forall c | c in segment :: 'A' <= c <= 'Z' || 'a' <= c <= 'z' || '0' <= c <= '9' || c in "._:-"
  }

  predicate ReservedGuardPath(path: Path, name: string) {
    && |path| > 3
    && path[0] == ".brain" && path[1] == "locks"
    && (path[2] == "project" || (path[2] == "runs" && |path| > 4 && RunName(path[3])))
    && path[|path| - 1] == name
  }

  function ArtifactOf(op: Operation): Artifact {
    Artifact(op.path, op.expected, op.result)
  }

  /** `manifestAuthority`: a plan longer than a lock's own two writes that starts
      with them is fenced by them. */
  function Authority(ops: seq<Operation>): (r: seq<Artifact>)
    ensures r == [] || |r| == 2
  {
    if |ops| > 2 && ReservedGuardPath(ops[0].path, "events.jsonl") && ReservedGuardPath(ops[1].path, "lease.json")
    then [ArtifactOf(ops[0]), ArtifactOf(ops[1])]
    else []
  }

  /** A file called `name` below the locks of the project or of one run. */
  ghost predicate LockFile(path: Path, name: string) {
    exists scope: Path, within: Path ::
      && path == [".brain", "locks"] + scope + within + [name]
      && (scope == ["project"] || (|scope| == 2 && scope[0] == "runs" && RunName(scope[1])))
  }

  lemma ReservedIsLockFile(path: Path, name: string)
    ensures ReservedGuardPath(path, name) <==> LockFile(path, name)
  {
    if ReservedGuardPath(path, name) {
      var n := |path| - 1;
      var k := if path[2] == "project" then 3 else 4;
      assert path == [".brain", "locks"] + path[2..k] + path[k..n] + [name];
    }
  }

  /** Which plans are fenced, and by what. */
  lemma AuthorityExact(ops: seq<Operation>)
    ensures Authority(ops) != [] <==>
      |ops| > 2 && LockFile(ops[0].path, "events.jsonl") && LockFile(ops[1].path, "lease.json")
    ensures Authority(ops) != [] ==>
      Authority(ops) == [Artifact(ops[0].path, ops[0].expected, ops[0].result), Artifact(ops[1].path, ops[1].expected, ops[1].result)]
  {
    if |ops| > 2 {
      ReservedIsLockFile(ops[0].path, "events.jsonl");
      ReservedIsLockFile(ops[1].path, "lease.json");
    }
  }

  function Init(trace: seq<Moment>): seq<Moment>
    requires trace != []
  {
    trace[..|trace| - 1]
  }

  function Last(trace: seq<Moment>): Moment
    requires trace != []
  {
    trace[|trace| - 1]
  }

  /** What this process last found at `path`. */
  function LastSeen(trace: seq<Moment>, path: Path): Option<Fingerprint> {
    if trace == [] || Last(trace).Restarted? then None
    else if Last(trace).Looked? && Last(trace).path == path then Some(Last(trace).found)
    else LastSeen(Init(trace), path)
  }

  /** Since this process started and since anything landed, `path` was found to be
      one of `allowed`. */
  predicate Confirmed(trace: seq<Moment>, path: Path, allowed: set<Fingerprint>) {
    && trace != []
    && match Last(trace)
       case Landed(_) => false
       case Restarted => false
       case Recorded(_) => Confirmed(Init(trace), path, allowed)
       case Resynced => Confirmed(Init(trace), path, allowed)
       case Looked(p, f) => (p == path && f in allowed) || Confirmed(Init(trace), path, allowed)
  }

  predicate Held(trace: seq<Moment>, a: Artifact) {
    Confirmed(trace, a.path, {a.expected, a.published})
  }

  predicate AllHeld(trace: seq<Moment>, fence: seq<Artifact>) {
    forall a | a in fence :: Held(trace, a)
  }

  /** The destination was last seen as the plan expects; a lock artifact that
      recovery re-reads as its authority may already show its result. */
  predicate LastSeenPublishable(trace: seq<Moment>, ops: seq<Operation>, op: Operation) {
    || LastSeen(trace, op.path) == Some(op.expected)
    || (LastSeen(trace, op.path) == Some(op.result) && ArtifactOf(op) in Authority(ops))
  }

  predicate AllConfirmed(trace: seq<Moment>, ops: seq<Operation>) {
    forall i | 0 <= i < |ops| :: Confirmed(trace, ops[i].path, {ops[i].result})
  }

  /** The moment `m` may come after `before`. `fence` is empty unless the
      transaction was executed under a lease guard. */
  predicate MayFollow(before: seq<Moment>, m: Moment, ops: seq<Operation>, fence: seq<Artifact>) {
    match m
    case Landed(id) =>
      && 0 < id <= |ops|
      && LastSeenPublishable(before, ops, ops[id - 1])
      && AllHeld(before, fence)
    case Recorded(phase) => phase.Committed? ==> AllConfirmed(before, ops)
    case _ => true
  }

  predicate Disciplined(trace: seq<Moment>, ops: seq<Operation>, fence: seq<Artifact>) {
    forall p | 0 <= p < |trace| :: MayFollow(trace[..p], trace[p], ops, fence)
  }

  /** How often operation `id` has landed. */
  function Landings(trace: seq<Moment>, id: nat): nat {
    if trace == [] then 0
    else Landings(Init(trace), id) + if Last(trace) == Landed(id) then 1 else 0
  }

  /** How many operations, of any kind, have landed. */
  function AllLandings(trace: seq<Moment>): nat {
    if trace == [] then 0
    else AllLandings(Init(trace)) + if Last(trace).Landed? then 1 else 0
  }

  lemma Extend(trace: seq<Moment>, m: Moment)
    ensures trace + [m] != [] && Init(trace + [m]) == trace && Last(trace + [m]) == m
  {
  }

  lemma DisciplinedExtend(trace: seq<Moment>, m: Moment, ops: seq<Operation>, fence: seq<Artifact>)
    requires Disciplined(trace, ops, fence) && MayFollow(trace, m, ops, fence)
    ensures Disciplined(trace + [m], ops, fence)
  {
    var longer := trace + [m];
    forall p | 0 <= p < |longer| ensures MayFollow(longer[..p], longer[p], ops, fence) {
      if p < |trace| {
        assert longer[..p] == trace[..p];
      } else {
        assert longer[..p] == trace;
      }
    }
  }

  /** `later` is `trace` followed by looks only. */
  predicate OnlyLooks(trace: seq<Moment>, later: seq<Moment>) {
    && |trace| <= |later|
    && later[..|trace|] == trace
    && forall p | |trace| <= p < |later| :: later[p].Looked?
  }

  lemma {:induction false} AfterLooks(trace: seq<Moment>, later: seq<Moment>, ops: seq<Operation>, fence: seq<Artifact>)
    requires OnlyLooks(trace, later)
    ensures AllLandings(later) == AllLandings(trace)
    ensures forall id :: Landings(later, id) == Landings(trace, id)
    ensures forall path, allowed :: Confirmed(trace, path, allowed) ==> Confirmed(later, path, allowed)
    ensures Disciplined(trace, ops, fence) ==> Disciplined(later, ops, fence)
    decreases |later|
  {
    if |trace| == |later| {
      assert trace == later;
    } else {
      var shorter := Init(later);
      assert shorter[..|trace|] == trace;
      AfterLooks(trace, shorter, ops, fence);
      assert later == shorter + [Last(later)];
      if Disciplined(trace, ops, fence) {
        DisciplinedExtend(shorter, Last(later), ops, fence);
      }
    }
  }

  lemma AfterMoment(trace: seq<Moment>, m: Moment)
    ensures AllLandings(trace + [m]) == AllLandings(trace) + if m.Landed? then 1 else 0
    ensures forall id :: Landings(trace + [m], id) == Landings(trace, id) + if m == Landed(id) then 1 else 0
    ensures m.Looked? ==> LastSeen(trace + [m], m.path) == Some(m.found)
    ensures m.Looked? ==> forall path | path != m.path :: LastSeen(trace + [m], path) == LastSeen(trace, path)
    ensures forall path, allowed | !m.Landed? && !m.Restarted? && Confirmed(trace, path, allowed) ::
      Confirmed(trace + [m], path, allowed)
  {
    Extend(trace, m);
  }

  /** A confirmation names a look with no landing and no restart after it. */
  lemma {:induction false} ConfirmedAt(trace: seq<Moment>, path: Path, allowed: set<Fingerprint>) returns (q: nat)
    requires Confirmed(trace, path, allowed)
    ensures q < |trace| && trace[q].Looked? && trace[q].path == path && trace[q].found in allowed
    ensures forall p | q < p < |trace| :: !trace[p].Landed? && !trace[p].Restarted?
  {
    var last := Last(trace);
    if last.Looked? && last.path == path && last.found in allowed {
      q := |trace| - 1;
    } else {
      q := ConfirmedAt(Init(trace), path, allowed);
    }
  }

  /** From moment `j` on, nobody finds the artifact in a permitted state again. */
  predicate LeftForGood(trace: seq<Moment>, a: Artifact, j: nat) {
    forall p | j <= p < |trace| :: trace[p].Looked? && trace[p].path == a.path ==> !Permitted(a, trace[p].found)
  }

  /** Between two landings, and between a restart and a landing, the artifact was
      found in a permitted state. */
  lemma {:induction false} LookBetween(trace: seq<Moment>, ops: seq<Operation>, fence: seq<Artifact>, a: Artifact, i: nat, p: nat) returns (q: nat)
    requires Disciplined(trace, ops, fence) && a in fence
    requires i < p < |trace| && (trace[i].Landed? || trace[i].Restarted?) && trace[p].Landed?
    ensures i < q < p && trace[q].Looked? && trace[q].path == a.path && Permitted(a, trace[q].found)
  {
    assert MayFollow(trace[..p], trace[p], ops, fence);
    assert Held(trace[..p], a);
    q := ConfirmedAt(trace[..p], a.path, {a.expected, a.published});
    assert trace[..p][i] == trace[i];
  }

  /** What is counted as a landing is one. */
  lemma {:induction false} LandingsCounted(trace: seq<Moment>, id: nat)
    ensures AllLandings(trace) == 0 <==> forall p | 0 <= p < |trace| :: !trace[p].Landed?
    ensures Landings(trace, id) == 0 <==> Landed(id) !in trace
    ensures Landings(trace, id) <= 1 <==> forall p, q | 0 <= p < q < |trace| :: !(trace[p] == trace[q] == Landed(id))
  {
    if trace != [] {
      var shorter := Init(trace);
      LandingsCounted(shorter, id);
      assert trace == shorter + [Last(trace)];
      CountedTwice(trace, shorter, id);
    }
  }

  lemma {:induction false} CountedTwice(trace: seq<Moment>, shorter: seq<Moment>, id: nat)
    requires trace != [] && shorter == Init(trace)
    requires Landings(shorter, id) == 0 <==> Landed(id) !in shorter
    requires Landings(shorter, id) <= 1 <==> forall p, q | 0 <= p < q < |shorter| :: !(shorter[p] == shorter[q] == Landed(id))
    ensures Landings(trace, id) <= 1 <==> forall p, q | 0 <= p < q < |trace| :: !(trace[p] == trace[q] == Landed(id))
  {
    var n := |shorter|;
    if Landings(trace, id) <= 1 {
      forall p, q | 0 <= p < q < |trace| ensures !(trace[p] == trace[q] == Landed(id)) {
        assert shorter[p] == trace[p] && (q < n ==> shorter[q] == trace[q]);
      }
    } else if Landings(shorter, id) <= 1 {
      var p :| 0 <= p < n && shorter[p] == Landed(id);
      assert trace[p] == trace[n] == Landed(id);
    } else {
      var p, q :| 0 <= p < q < n && shorter[p] == shorter[q] == Landed(id);
      assert trace[p] == trace[q] == Landed(id);
    }
  }

  /** Before moment `j` the artifact was found published, and up to `p` nothing
      landed and no process restarted after that look. */
  ghost predicate CheckedBefore(trace: seq<Moment>, a: Artifact, j: nat, p: nat)
    requires j <= p < |trace|
  {
    exists q | 0 <= q < j :: trace[q] == Looked(a.path, a.published)
      && (forall between | q < between < p :: !trace[between].Landed? && !trace[between].Restarted?)
  }

  /** The lease fence. Once a lock artifact has left its two permitted states for
      good, at most one operation still lands, none does after a restart, and
      `committed` is recorded only if the final result check had already passed. */
  lemma LeaseFence(trace: seq<Moment>, ops: seq<Operation>, fence: seq<Artifact>, a: Artifact, j: nat)
    requires Disciplined(trace, ops, fence) && a in fence && fence == Authority(ops)
    requires j <= |trace| && LeftForGood(trace, a, j)
    ensures forall i, p | j <= i < p < |trace| :: !(trace[i].Landed? && trace[p].Landed?)
    ensures forall r, p | j <= r < p < |trace| && trace[r].Restarted? :: !trace[p].Landed?
    ensures forall p | j <= p < |trace| && trace[p] == Recorded(Committed) :: CheckedBefore(trace, a, j, p)
  {
    forall i, p | j <= i < p < |trace| && (trace[i].Landed? || trace[i].Restarted?)
      ensures !trace[p].Landed?
    {
      if trace[p].Landed? {
        var q := LookBetween(trace, ops, fence, a, i, p);
        assert false;
      }
    }
    forall p | j <= p < |trace| && trace[p] == Recorded(Committed)
      ensures CheckedBefore(trace, a, j, p)
    {
      assert MayFollow(trace[..p], trace[p], ops, fence);
      var i := if a == ArtifactOf(ops[0]) then 0 else 1;
      assert Confirmed(trace[..p], ops[i].path, {ops[i].result});
      var q := ConfirmedAt(trace[..p], ops[i].path, {ops[i].result});
      assert trace[q] == trace[..p][q];
      assert forall between | q < between < p :: trace[between] == trace[..p][between];
    }
  }

  /** Never over a stranger: when an operation lands, the last look this process
      took at its destination found the expected value, or, for a lock artifact
      of a guarded plan only, the value about to be written. */
  lemma NeverOverAStranger(trace: seq<Moment>, ops: seq<Operation>, fence: seq<Artifact>, p: nat)
    requires Disciplined(trace, ops, fence) && p < |trace| && trace[p].Landed?
    ensures 0 < trace[p].operationId <= |ops|
    ensures var op := ops[trace[p].operationId - 1];
      exists q :: 0 <= q < p && trace[q].Looked? && trace[q].path == op.path
        && (trace[q].found == op.expected || (trace[q].found == op.result && ArtifactOf(op) in Authority(ops)))
        && (forall later | q < later < p :: trace[later].Looked? ==> trace[later].path != op.path)
        && (forall later | q < later < p :: !trace[later].Restarted?)
  {
    assert MayFollow(trace[..p], trace[p], ops, fence);
    var q := LastSeenAt(trace[..p], ops[trace[p].operationId - 1].path);
    assert forall k | 0 <= k < p :: trace[..p][k] == trace[k];
  }

  lemma {:induction false} LastSeenAt(trace: seq<Moment>, path: Path) returns (q: nat)
    requires LastSeen(trace, path).Some?
    ensures q < |trace| && trace[q] == Looked(path, LastSeen(trace, path).value)
    ensures forall later | q < later < |trace| ::
      !trace[later].Restarted? && (trace[later].Looked? ==> trace[later].path != path)
  {
    if Last(trace).Looked? && Last(trace).path == path {
      q := |trace| - 1;
    } else {
      q := LastSeenAt(Init(trace), path);
    }
  }
}
