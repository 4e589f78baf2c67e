/** Acceptance criteria: what may change between two looks at a document, and when a
    verdict counts. */
module CriteriaPolicy {
  import opened Options

  datatype Phase = Prd | Spec | Plan | Code | Review | Acceptance

  datatype Kind = Main | Edge

  datatype Outcome = Passed | Failed | NotRun

  datatype Criterion = Criterion(id: string, workUnit: string, task: string, kind: Kind, ordinal: nat, declarationDigest: string)

  datatype Current = Current(criterion: Criterion, checked: bool)

  datatype Reason = DeclarationChanged | AppendForbidden | CheckboxForbidden

  datatype Change = Unchanged | Append(ids: seq<string>) | Refused(reason: Reason, id: string)

  function Declared(current: seq<Current>): (r: seq<Criterion>)
    ensures |r| == |current| && forall i | 0 <= i < |r| :: r[i] == current[i].criterion
  {
    seq(|current|, i requires 0 <= i < |current| => current[i].criterion)
  }

  /** The checkbox says what the latest outcome says. */
  predicate CheckedRight(c: Current, latest: map<string, Outcome>) {
    c.checked <==> c.criterion.id in latest && latest[c.criterion.id].Passed?
  }

  /** The accepted changes: the same list, or in acceptance a longer one, and every
      checkbox as the outcomes say. */
  predicate MayFollow(phase: Phase, frozen: seq<Criterion>, current: seq<Current>, latest: map<string, Outcome>) {
    && frozen <= Declared(current)
    && (forall c | c in current :: CheckedRight(c, latest))
    && (|current| > |frozen| ==> phase.Acceptance?)
  }

  function Ids(cs: seq<Current>): (r: seq<string>)
    ensures |r| == |cs| && forall i | 0 <= i < |r| :: r[i] == cs[i].criterion.id
  {
    seq(|cs|, i requires 0 <= i < |cs| => cs[i].criterion.id)
  }

  /** `compareCriteriaSnapshot`: accepted exactly when it may follow; and a refusal
      names the first reason, with a criterion to which it applies. */
  method CompareCriteriaSnapshot(phase: Phase, frozen: seq<Criterion>, current: seq<Current>, latest: map<string, Outcome>) returns (r: Change)
    ensures !r.Refused? <==> MayFollow(phase, frozen, current, latest)
    ensures !r.Refused? <==>
      && |frozen| <= |current| && (forall i | 0 <= i < |frozen| :: current[i].criterion == frozen[i])
      && (forall c | c in current :: c.checked <==> c.criterion.id in latest && latest[c.criterion.id] == Passed)
      && (|current| > |frozen| ==> phase == Acceptance)
    ensures r.Unchanged? ==> Declared(current) == frozen
    ensures r.Append? ==> r.ids == Ids(current[|frozen|..]) && r.ids != []
    ensures r.Refused? && r.reason.DeclarationChanged? ==>
      exists i | 0 <= i < |frozen| :: frozen[i].id == r.id && frozen[..i] <= Declared(current) && (i < |current| ==> current[i].criterion != frozen[i])
    ensures r.Refused? && !r.reason.DeclarationChanged? ==> frozen <= Declared(current)
    ensures r.Refused? && r.reason.CheckboxForbidden? ==> exists c | c in current :: c.criterion.id == r.id && !CheckedRight(c, latest)
    ensures r.Refused? && r.reason.AppendForbidden? ==>
      |current| > |frozen| && !phase.Acceptance? && current[|frozen|].criterion.id == r.id && forall c | c in current :: CheckedRight(c, latest)
  {
    var shared := if |frozen| < |current| then |frozen| else |current|;
    for i := 0 to shared
      invariant forall j | 0 <= j < i :: frozen[j] == current[j].criterion
    {
      if frozen[i] != current[i].criterion {
        assert frozen[..i] <= Declared(current);
        assert Declared(current)[i] != frozen[i];
        return Refused(DeclarationChanged, frozen[i].id);
      }
    }
    if |current| < |frozen| {
      assert frozen[..|current|] == Declared(current);
      return Refused(DeclarationChanged, frozen[|current|].id);
    }
    assert frozen <= Declared(current);
    for i := 0 to |current|
      invariant forall j | 0 <= j < i :: CheckedRight(current[j], latest)
    {
      if !CheckedRight(current[i], latest) {
        return Refused(CheckboxForbidden, current[i].criterion.id);
      }
    }
    if |current| == |frozen| {
      return Unchanged;
    }
    if !phase.Acceptance? {
      return Refused(AppendForbidden, current[|frozen|].criterion.id);
    }
    r := Append(Ids(current[|frozen|..]));
  }

  /** One accepted comparison. */
  datatype Look = Look(phase: Phase, current: seq<Current>, latest: map<string, Outcome>)

  /** Each list is accepted against the one before it and becomes the next frozen one. */
  ghost predicate Accepted(frozen: seq<Criterion>, looks: seq<Look>)
    decreases |looks|
  {
    looks != [] ==>
      && MayFollow(looks[0].phase, frozen, looks[0].current, looks[0].latest)
      && Accepted(Declared(looks[0].current), looks[1..])
  }

  /** The frozen list after `n` looks. */
  function FrozenAfter(frozen: seq<Criterion>, looks: seq<Look>, n: nat): seq<Criterion>
    requires n <= |looks|
  {
    if n == 0 then frozen else Declared(looks[n - 1].current)
  }

  lemma {:induction false} AcceptedAt(frozen: seq<Criterion>, looks: seq<Look>, k: nat)
    requires Accepted(frozen, looks) && k < |looks|
    ensures MayFollow(looks[k].phase, FrozenAfter(frozen, looks, k), looks[k].current, looks[k].latest)
    decreases k
  {
    if k > 0 {
      AcceptedAt(Declared(looks[0].current), looks[1..], k - 1);
    }
  }

  /** Criteria are append-only: over every run each frozen list is a prefix of all
      later ones, and it grows only where some look was in acceptance. */
  lemma {:induction false} AppendOnly(frozen: seq<Criterion>, looks: seq<Look>, i: nat, j: nat)
    requires Accepted(frozen, looks) && i <= j <= |looks|
    ensures FrozenAfter(frozen, looks, i) <= FrozenAfter(frozen, looks, j)
    ensures FrozenAfter(frozen, looks, i) != FrozenAfter(frozen, looks, j) ==> exists k | i <= k < j :: looks[k].phase.Acceptance?
    decreases j
  {
    if i < j {
      AppendOnly(frozen, looks, i, j - 1);
      AcceptedAt(frozen, looks, j - 1);
      FollowingGrows(looks[j - 1].phase, FrozenAfter(frozen, looks, j - 1), looks[j - 1].current, looks[j - 1].latest);
    }
  }

  lemma FollowingGrows(phase: Phase, frozen: seq<Criterion>, current: seq<Current>, latest: map<string, Outcome>)
    requires MayFollow(phase, frozen, current, latest)
    ensures frozen <= Declared(current) && (frozen != Declared(current) ==> phase.Acceptance?)
  {
  }

  datatype Report = Report(id: string, outcome: Outcome, evidenceRef: string)

  datatype Evidence = Evidence(id: string, ref: string, sha256: string)

  datatype Bound = Bound(id: string, outcome: Outcome, evidence: Evidence)

  datatype VerdictReason = VerdictMismatch | EvidenceMissing | EvidenceInvalid

  datatype Verdict = Refuse(reason: VerdictReason, id: string) | Accept(criteria: seq<Bound>)

  /** The item that a reference means: the last one listed under it. */
  function EvidenceFor(evidence: seq<Evidence>, ref: string): Option<Evidence> {
    if evidence == [] then None
    else if evidence[|evidence| - 1].ref == ref then Some(evidence[|evidence| - 1])
    else EvidenceFor(evidence[..|evidence| - 1], ref)
  }

  /** The report is on a declared criterion, and the first one on it. */
  predicate ReportOk(declared: seq<string>, reports: seq<Report>, i: nat)
    requires i < |reports|
  {
    reports[i].id in declared && forall j | 0 <= j < i :: reports[j].id != reports[i].id
  }

  /** The reports speak of declared ids only, and of none twice. */
  predicate ReportsOk(declared: seq<string>, reports: seq<Report>) {
    forall i {:trigger ReportOk(declared, reports, i)} | 0 <= i < |reports| :: ReportOk(declared, reports, i)
  }

  predicate EvidenceOk(report: Report, evidence: seq<Evidence>, invalid: set<string>) {
    EvidenceFor(evidence, report.evidenceRef).Some? && EvidenceFor(evidence, report.evidenceRef).value.id !in invalid
  }

  /** The report on a declared criterion, bound to its evidence. */
  predicate Binds(bound: Bound, id: string, reports: seq<Report>, evidence: seq<Evidence>, invalid: set<string>) {
    exists i | 0 <= i < |reports| ::
      && reports[i].id == id && bound.id == id && bound.outcome == reports[i].outcome
      && EvidenceOk(reports[i], evidence, invalid)
      && bound.evidence == EvidenceFor(evidence, reports[i].evidenceRef).value
  }

  predicate AllReported(declared: seq<string>, reports: seq<Report>, evidence: seq<Evidence>, invalid: set<string>) {
    forall id | id in declared :: exists i | 0 <= i < |reports| :: reports[i].id == id && EvidenceOk(reports[i], evidence, invalid)
  }

  predicate AllPassed(declared: seq<string>, reports: seq<Report>) {
    forall i | 0 <= i < |reports| && reports[i].id in declared :: reports[i].outcome.Passed?
  }

  /** What an accepted verdict takes. */
  predicate Acceptable(declared: seq<string>, acceptedGlobally: bool, reports: seq<Report>, evidence: seq<Evidence>, invalid: set<string>) {
    && ReportsOk(declared, reports)
    && AllReported(declared, reports, evidence, invalid)
    && (acceptedGlobally <==> AllPassed(declared, reports))
  }

  predicate Indexed(byId: map<string, Report>, reports: seq<Report>, n: nat)
    requires n <= |reports|
  {
    && (forall id | id in byId :: exists i | 0 <= i < n :: reports[i] == byId[id] && byId[id].id == id)
    && forall i | 0 <= i < n :: reports[i].id in byId && byId[reports[i].id] == reports[i]
  }

  method IndexReports(declared: seq<string>, reports: seq<Report>) returns (refusal: Option<string>, byId: map<string, Report>)
    ensures refusal.None? <==> ReportsOk(declared, reports)
    ensures refusal.None? ==> Indexed(byId, reports, |reports|)
    ensures refusal.Some? ==> exists i | 0 <= i < |reports| :: reports[i].id == refusal.value && FirstBad(declared, reports, i)
  {
    byId := map[];
    for n := 0 to |reports|
      invariant Indexed(byId, reports, n)
      invariant forall i {:trigger ReportOk(declared, reports, i)} | 0 <= i < n :: ReportOk(declared, reports, i)
    {
      var report := reports[n];
      if report.id !in declared || report.id in byId {
        assert FirstBad(declared, reports, n);
        return Some(report.id), byId;
      }
      byId := byId[report.id := report];
    }
    refusal := None;
  }

  /** The first report on no declared criterion, or on one that has been reported. */
  predicate FirstBad(declared: seq<string>, reports: seq<Report>, i: nat)
    requires i < |reports|
  {
    !ReportOk(declared, reports, i) && forall j {:trigger ReportOk(declared, reports, j)} | 0 <= j < i :: ReportOk(declared, reports, j)
  }

  /** There is a report on this criterion, with evidence that is listed and valid. */
  predicate Reported(id: string, reports: seq<Report>, evidence: seq<Evidence>, invalid: set<string>) {
    exists i | 0 <= i < |reports| :: reports[i].id == id && EvidenceOk(reports[i], evidence, invalid)
  }

  /** What is wanting for this criterion: a report, its evidence, or that being valid. */
  predicate Wanting(id: string, reports: seq<Report>, evidence: seq<Evidence>, invalid: set<string>, reason: VerdictReason) {
    match reason
    case VerdictMismatch => forall i | 0 <= i < |reports| :: reports[i].id != id
    case EvidenceMissing => exists i | 0 <= i < |reports| :: reports[i].id == id && EvidenceFor(evidence, reports[i].evidenceRef).None?
    case EvidenceInvalid => exists i | 0 <= i < |reports| ::
      reports[i].id == id && EvidenceFor(evidence, reports[i].evidenceRef).Some? && EvidenceFor(evidence, reports[i].evidenceRef).value.id in invalid
  }

  /** Of the criteria in order, this is the first one that something is wanting for. */
  predicate FirstWanting(declared: seq<string>, k: nat, reports: seq<Report>, evidence: seq<Evidence>, invalid: set<string>, reason: VerdictReason)
    requires k < |declared|
  {
    && Wanting(declared[k], reports, evidence, invalid, reason)
    && forall l | 0 <= l < k :: Reported(declared[l], reports, evidence, invalid)
  }

  predicate PassedAt(id: string, reports: seq<Report>) {
    exists i | 0 <= i < |reports| :: reports[i].id == id && reports[i].outcome.Passed?
  }

  /** The criterion that a wrong global verdict is put down to. */
  predicate PutDownTo(declared: seq<string>, reports: seq<Report>, id: string) {
    if declared == [] then id == "AC-0.0.0"
    else if forall k | 0 <= k < |declared| :: PassedAt(declared[k], reports) then id == declared[0]
    else exists k | 0 <= k < |declared| :: id == declared[k] && !PassedAt(declared[k], reports) && forall l | 0 <= l < k :: PassedAt(declared[l], reports)
  }

  /** The reason and the criterion of a refusal: the first bad report; or the first
      criterion that something is wanting for; or the global verdict. */
  predicate RefusedFor(r: Verdict, declared: seq<string>, acceptedGlobally: bool, reports: seq<Report>, evidence: seq<Evidence>, invalid: set<string>)
    requires r.Refuse?
  {
    if !ReportsOk(declared, reports) then
      r.reason.VerdictMismatch? && exists i | 0 <= i < |reports| :: reports[i].id == r.id && FirstBad(declared, reports, i)
    else if !AllReported(declared, reports, evidence, invalid) then
      exists k | 0 <= k < |declared| :: declared[k] == r.id && FirstWanting(declared, k, reports, evidence, invalid, r.reason)
    else
      r.reason.VerdictMismatch? && acceptedGlobally != AllPassed(declared, reports) && PutDownTo(declared, reports, r.id)
  }

  /** The loop over the declarations. */
  method BindReports(declared: seq<string>, reports: seq<Report>, evidence: seq<Evidence>, invalid: set<string>, byId: map<string, Report>) returns (refusal: Option<Verdict>, bound: seq<Bound>)
    requires Indexed(byId, reports, |reports|)
    ensures refusal.Some? ==>
      && refusal.value.Refuse? && !AllReported(declared, reports, evidence, invalid)
      && exists k | 0 <= k < |declared| :: declared[k] == refusal.value.id && FirstWanting(declared, k, reports, evidence, invalid, refusal.value.reason)
    ensures refusal.None? ==>
      && |bound| == |declared|
      && (forall l | 0 <= l < |declared| :: Binds(bound[l], declared[l], reports, evidence, invalid))
      && (forall l | 0 <= l < |declared| :: declared[l] in byId && bound[l].outcome == byId[declared[l]].outcome)
  {
    bound := [];
    for k := 0 to |declared|
      invariant |bound| == k
      invariant forall l | 0 <= l < k :: Binds(bound[l], declared[l], reports, evidence, invalid)
      invariant forall l | 0 <= l < k :: declared[l] in byId && bound[l].outcome == byId[declared[l]].outcome
    {
      var id := declared[k];
      if id !in byId {
        assert id in declared && forall i | 0 <= i < |reports| :: reports[i].id != id;
        assert FirstWanting(declared, k, reports, evidence, invalid, VerdictMismatch);
        return Some(Refuse(VerdictMismatch, id)), bound;
      }
      var report := byId[id];
      var item := EvidenceFor(evidence, report.evidenceRef);
      if item.None? || item.value.id in invalid {
        NoOtherReport(declared, reports, evidence, invalid, byId, id);
        assert FirstWanting(declared, k, reports, evidence, invalid, if item.None? then EvidenceMissing else EvidenceInvalid);
        return Some(Refuse(if item.None? then EvidenceMissing else EvidenceInvalid, id)), bound;
      }
      bound := bound + [Bound(id, report.outcome, item.value)];
    }
    refusal := None;
  }

  /** The first criterion that did not pass, or failing that the first one. */
  function Culprit(bound: seq<Bound>): string {
    if bound == [] then "AC-0.0.0"
    else
      var failing := FirstUnpassed(bound);
      if failing.Some? then failing.value else bound[0].id
  }

  function FirstUnpassed(bound: seq<Bound>): (r: Option<string>)
    ensures r.None? <==> forall k | 0 <= k < |bound| :: bound[k].outcome.Passed?
  {
    if bound == [] then None
    else if !bound[0].outcome.Passed? then Some(bound[0].id)
    else FirstUnpassed(bound[1..])
  }

  /** `decideAcceptanceVerdict`: accepted exactly when acceptable, and then every
      declared criterion, in order, is bound to its own report and evidence. */
  method DecideAcceptanceVerdict(declared: seq<string>, acceptedGlobally: bool, reports: seq<Report>, evidence: seq<Evidence>, invalid: set<string>) returns (r: Verdict)
    ensures r.Accept? <==> Acceptable(declared, acceptedGlobally, reports, evidence, invalid)
    ensures r.Accept? ==> |r.criteria| == |declared| && forall k | 0 <= k < |declared| :: Binds(r.criteria[k], declared[k], reports, evidence, invalid)
    ensures r.Refuse? ==> RefusedFor(r, declared, acceptedGlobally, reports, evidence, invalid)
  {
    var unknown, byId := IndexReports(declared, reports);
    if unknown.Some? {
      return Refuse(VerdictMismatch, unknown.value);
    }
    var refusal, bound := BindReports(declared, reports, evidence, invalid, byId);
    if refusal.Some? {
      return refusal.value;
    }
    AllBound(declared, reports, evidence, invalid, bound);
    PassedAlike(declared, reports, byId, bound);
    CulpritExact(declared, reports, byId, bound);
    var allPassed := FirstUnpassed(bound).None?;
    r := if acceptedGlobally == allPassed then Accept(bound) else Refuse(VerdictMismatch, Culprit(bound));
  }

  lemma {:induction false} FirstUnpassedAt(bound: seq<Bound>)
    ensures FirstUnpassed(bound).Some? ==> exists k | 0 <= k < |bound| ::
      && FirstUnpassed(bound) == Some(bound[k].id) && !bound[k].outcome.Passed?
      && forall l | 0 <= l < k :: bound[l].outcome.Passed?
  {
    if FirstUnpassed(bound).Some? && bound[0].outcome.Passed? {
      FirstUnpassedAt(bound[1..]);
      var k :| 0 <= k < |bound[1..]| && FirstUnpassed(bound[1..]) == Some(bound[1..][k].id) && !bound[1..][k].outcome.Passed?
               && forall l | 0 <= l < k :: bound[1..][l].outcome.Passed?;
      forall l | 0 <= l < k + 1 ensures bound[l].outcome.Passed? {
        assert l > 0 ==> bound[l] == bound[1..][l - 1];
      }
      assert bound[k + 1] == bound[1..][k];
    }
  }

  lemma CulpritExact(declared: seq<string>, reports: seq<Report>, byId: map<string, Report>, bound: seq<Bound>)
    requires ReportsOk(declared, reports) && Indexed(byId, reports, |reports|) && |bound| == |declared|
    requires forall l | 0 <= l < |declared| :: declared[l] in byId && bound[l].id == declared[l] && bound[l].outcome == byId[declared[l]].outcome
    ensures PutDownTo(declared, reports, Culprit(bound))
  {
    forall l | 0 <= l < |declared| ensures PassedAt(declared[l], reports) <==> bound[l].outcome.Passed? {
      assert forall i | 0 <= i < |reports| && reports[i].id == declared[l] :: reports[i] == byId[declared[l]];
    }
    FirstUnpassedAt(bound);
  }

  /** The evidence of a reference is the last item listed under it. */
  lemma {:induction false} EvidenceForExact(evidence: seq<Evidence>, ref: string)
    ensures EvidenceFor(evidence, ref).None? <==> forall i | 0 <= i < |evidence| :: evidence[i].ref != ref
    ensures EvidenceFor(evidence, ref).Some? ==> exists i | 0 <= i < |evidence| ::
      && EvidenceFor(evidence, ref) == Some(evidence[i]) && evidence[i].ref == ref
      && forall j | i < j < |evidence| :: evidence[j].ref != ref
  {
    if evidence != [] && evidence[|evidence| - 1].ref != ref {
      EvidenceForExact(evidence[..|evidence| - 1], ref);
    }
  }

  lemma NoOtherReport(declared: seq<string>, reports: seq<Report>, evidence: seq<Evidence>, invalid: set<string>, byId: map<string, Report>, id: string)
    requires Indexed(byId, reports, |reports|) && id in declared && id in byId && !EvidenceOk(byId[id], evidence, invalid)
    ensures !AllReported(declared, reports, evidence, invalid)
  {
    assert forall i | 0 <= i < |reports| && reports[i].id == id :: reports[i] == byId[id];
  }

  lemma AllBound(declared: seq<string>, reports: seq<Report>, evidence: seq<Evidence>, invalid: set<string>, bound: seq<Bound>)
    requires |bound| == |declared| && forall l | 0 <= l < |declared| :: Binds(bound[l], declared[l], reports, evidence, invalid)
    ensures AllReported(declared, reports, evidence, invalid)
  {
    forall id | id in declared ensures exists i | 0 <= i < |reports| :: reports[i].id == id && EvidenceOk(reports[i], evidence, invalid) {
      var l :| 0 <= l < |declared| && declared[l] == id;
      assert Binds(bound[l], declared[l], reports, evidence, invalid);
    }
  }

  lemma PassedAlike(declared: seq<string>, reports: seq<Report>, byId: map<string, Report>, bound: seq<Bound>)
    requires Indexed(byId, reports, |reports|) && |bound| == |declared|
    requires forall l | 0 <= l < |declared| :: declared[l] in byId && bound[l].outcome == byId[declared[l]].outcome
    ensures AllPassed(declared, reports) <==> forall k | 0 <= k < |bound| :: bound[k].outcome.Passed?
  {
    if forall k | 0 <= k < |bound| :: bound[k].outcome.Passed? {
      forall i | 0 <= i < |reports| && reports[i].id in declared ensures reports[i].outcome.Passed? {
        var l :| 0 <= l < |declared| && declared[l] == reports[i].id;
        assert bound[l].outcome.Passed?;
      }
    }
    if AllPassed(declared, reports) {
      forall k | 0 <= k < |bound| ensures bound[k].outcome.Passed? {
        var i :| 0 <= i < |reports| && reports[i] == byId[declared[k]] && byId[declared[k]].id == declared[k];
      }
    }
  }
}
