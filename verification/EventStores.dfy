/** A run's event log and its snapshot, and why they agree after every history of
    appends, crashes and recoveries. */
module EventStores {
  import opened Options
  import opened Plans
  import opened PlanNormalization
  import opened EventLog
  import opened DurableStore
  import opened Sessions

  datatype EventStore = EventStore(runId: string, events: Path, snapshot: Path)

  /** The two texts that an append wants to write. */
  datatype Prepared = Prepared(events: string, snapshot: string)

  predicate StoreOk(store: EventStore) {
    store.events != [] && store.snapshot != [] && store.events != store.snapshot
  }

  function SnapshotText(snapshot: Snapshot): string {
    snapshot.canonical + ['\n']
  }

  /** The log extended by one sealed event, and the snapshot of its replay. */
  function Extended(services: Services, store: EventStore, draft: Draft, log: string, cursor: Cursor): Option<Prepared> {
    var event := Seal(draft, cursor);
    if event.None? then None
    else
      var events := log + (services.line(event.value) + ['\n']);
      var verified := Verify(services, events);
      if verified.None? then None
      else
        var replay := Replay(services, verified.value);
        if replay.None? || replay.value.runId != store.runId then None
        else Some(Prepared(events, SnapshotText(replay.value)))
  }

  /** `prepareEventAppend`: reads both files, checks that they agree, and never writes. */
  function PrepareEventAppend(services: Services, store: EventStore, draft: Draft, tree: Tree): Option<Prepared> {
    match (At(tree, store.events), At(tree, store.snapshot))
    case (Missing, Missing) => Extended(services, store, draft, "", START)
    case (File(log), File(text)) =>
      var verified := Verify(services, log);
      if verified.None? then None
      else
        var replay := Replay(services, verified.value);
        if replay.None? || replay.value.runId != store.runId || text != SnapshotText(replay.value) then None
        else Extended(services, store, draft, log, Chain(START, verified.value).value)
    case _ => None
  }

  /** The store holds exactly this log: either neither file is there and there are no
      events, or both are, and the snapshot is the replay of the events. */
  ghost predicate Holds(services: Services, store: EventStore, tree: Tree, log: seq<Event>) {
    if log == [] then At(tree, store.events).Missing? && At(tree, store.snapshot).Missing?
    else
      && Replay(services, log).Some?
      && Replay(services, log).value.runId == store.runId
      && Verify(services, TextOf(services, log)) == Some(log)
      && At(tree, store.events) == File(TextOf(services, log))
      && At(tree, store.snapshot) == File(SnapshotText(Replay(services, log).value))
  }

  ghost predicate Agrees(services: Services, store: EventStore, tree: Tree) {
    exists log :: Holds(services, store, tree, log)
  }

  /** A tree holds one log only, and two trees with the same log file and in
      agreement have the same snapshot file. */
  lemma SameLog(services: Services, store: EventStore, a: Tree, b: Tree, left: seq<Event>, right: seq<Event>)
    requires Holds(services, store, a, left) && Holds(services, store, b, right)
    requires At(a, store.events) == At(b, store.events)
    ensures left == right && At(a, store.snapshot) == At(b, store.snapshot)
  {
  }

  lemma VerifiedText(services: Services, text: string)
    requires Lawful(services) && Verify(services, text).Some?
    ensures TextOf(services, Verify(services, text).value) == text
  {
    ParsedText(services, text);
  }

  /** An append can be prepared only where log and snapshot agree. */
  lemma PreparedFromAgreement(services: Services, store: EventStore, draft: Draft, tree: Tree)
    requires Lawful(services) && PrepareEventAppend(services, store, draft, tree).Some?
    ensures Agrees(services, store, tree)
  {
    if At(tree, store.events).Missing? {
      assert Holds(services, store, tree, []);
    } else {
      var log := At(tree, store.events).content;
      VerifiedText(services, log);
      assert Holds(services, store, tree, Verify(services, log).value);
    }
  }

  /** Services that read back one event only, and write every event like it. */
  function OneEvent(event: Event, line: string, runId: string): Services {
    Services(
      (_) => line,
      (text: string) => if text == line then Some(event) else None,
      (_) => true,
      "",
      (state, _) => Some(state),
      (state, cursor) => Some(Snapshot(runId, cursor, state)))
  }

  /** The laws can be kept: for every first event there are lawful services with which
      its append is prepared where the store has no files yet. */
  lemma LawfulServices(store: EventStore, draft: Draft, tree: Tree, line: string) returns (services: Services)
    requires draft.priorRevision == 0 && draft.resultingRevision == 1
    requires At(tree, store.events).Missing? && At(tree, store.snapshot).Missing?
    requires line != "" && '\n' !in line && '\r' !in line
    ensures Lawful(services) && PrepareEventAppend(services, store, draft, tree).Some?
    ensures PrepareEventAppend(services, store, draft, tree).value.events == line + ['\n']
  {
    var event := Seal(draft, START).value;
    services := OneEvent(event, line, store.runId);
    OneEventVerifies(event, line, store.runId);
    assert "" + (line + ['\n']) == line + ['\n'];
  }

  lemma OneEventVerifies(event: Event, line: string, runId: string)
    requires line != "" && '\n' !in line && '\r' !in line && Next(START, event).Some?
    ensures
      var services := OneEvent(event, line, runId);
      && Lawful(services) && Verify(services, line + ['\n']) == Some([event])
      && Replay(services, [event]).Some? && Replay(services, [event]).value.runId == runId
  {
    var services := OneEvent(event, line, runId);
    ParseOne(services, event);
    assert [event][..0] == [];
    assert [event] + [] == [event];
    assert Chain(START, [event]) == Next(START, event);
    assert Reduced(services, []) == Some("") && services.reduce("", event) == Some("");
  }

  /** The event that an append proposes after this log. */
  function Proposed(draft: Draft, log: seq<Event>): Event {
    Event(draft, LastHash(log), HashOf(draft, LastHash(log)))
  }

  /** Where an append stands in the chain. */
  lemma CursorOf(services: Services, store: EventStore, tree: Tree, log: seq<Event>)
    requires Holds(services, store, tree, log)
    ensures Chain(START, log) == Some(Cursor(|log|, LastHash(log)))
    ensures forall i | 0 <= i < |log| :: Linked(log, i)
  {
    ChainExact(log);
  }

  /** What is sealed is the caller's draft, with the hash of the last event. */
  lemma SealedDraft(draft: Draft, log: seq<Event>)
    ensures Seal(draft, Cursor(|log|, LastHash(log))) ==
      if draft.priorRevision == |log| && draft.resultingRevision == |log| + 1 then Some(Proposed(draft, log)) else None
  {
  }

  /** The log after an append: all the events before, and the proposed one. */
  lemma ExtendedLog(services: Services, store: EventStore, draft: Draft, log: seq<Event>) returns (event: Event)
    requires Lawful(services) && ParseLines(services, TextOf(services, log)) == Some(log)
    requires Extended(services, store, draft, TextOf(services, log), Cursor(|log|, LastHash(log))).Some?
    ensures
      var prepared := Extended(services, store, draft, TextOf(services, log), Cursor(|log|, LastHash(log))).value;
      && prepared.events == TextOf(services, log) + (services.line(Proposed(draft, log)) + ['\n'])
      && Verify(services, prepared.events) == Some(log + [event])
    ensures services.parse(services.line(Proposed(draft, log))) == Some(event)
  {
    SealedDraft(draft, log);
    var sealed := Proposed(draft, log);
    ParseAppended(services, TextOf(services, log), services.line(sealed) + ['\n']);
    ParseOne(services, sealed);
    event := services.parse(services.line(sealed)).value;
    assert [event] + [] == [event];
  }

  lemma ExtendedHolds(services: Services, store: EventStore, draft: Draft, text: string, cursor: Cursor, tree: Tree, log: seq<Event>)
    requires Lawful(services) && Extended(services, store, draft, text, cursor).Some?
    requires log != [] && Verify(services, Extended(services, store, draft, text, cursor).value.events) == Some(log)
    requires At(tree, store.events) == File(Extended(services, store, draft, text, cursor).value.events)
    requires At(tree, store.snapshot) == File(Extended(services, store, draft, text, cursor).value.snapshot)
    ensures Holds(services, store, tree, log)
  {
    VerifiedText(services, Extended(services, store, draft, text, cursor).value.events);
  }

  /** Preparing on a store that holds a log is extending that log. */
  lemma PreparedIsExtended(services: Services, store: EventStore, draft: Draft, tree: Tree, log: seq<Event>)
    requires Holds(services, store, tree, log)
    ensures PrepareEventAppend(services, store, draft, tree) ==
      Extended(services, store, draft, TextOf(services, log), Cursor(|log|, LastHash(log)))
    ensures ParseLines(services, TextOf(services, log)) == Some(log)
  {
    CursorOf(services, store, tree, log);
    assert ParseLines(services, "") == Some([]);
  }

  /** The prepared log is the old log, and then the line of the caller's draft, sealed
      with the hash of the last event. Wherever both prepared texts arrive, the store
      holds the old log and the event which that line reads as. */
  lemma PreparedExtends(services: Services, store: EventStore, draft: Draft, tree: Tree, log: seq<Event>, after: Tree) returns (event: Event)
    requires Lawful(services) && Holds(services, store, tree, log)
    requires PrepareEventAppend(services, store, draft, tree).Some?
    requires At(after, store.events) == File(PrepareEventAppend(services, store, draft, tree).value.events)
    requires At(after, store.snapshot) == File(PrepareEventAppend(services, store, draft, tree).value.snapshot)
    ensures
      var h := if log == [] then None else Some(log[|log| - 1].eventHash);
      var line := services.line(Event(draft, h, HashOf(draft, h)));
      && PrepareEventAppend(services, store, draft, tree).value.events == TextOf(services, log) + (line + ['\n'])
      && services.parse(line) == Some(event)
    ensures Replay(services, log + [event]).Some?
    ensures PrepareEventAppend(services, store, draft, tree).value.snapshot == Replay(services, log + [event]).value.canonical + "\n"
    ensures Holds(services, store, after, log + [event])
  {
    PreparedIsExtended(services, store, draft, tree, log);
    event := ExtendedLog(services, store, draft, log);
    ExtendedHolds(services, store, draft, TextOf(services, log), Cursor(|log|, LastHash(log)), after, log + [event]);
  }

  /** What services must say to the log with the proposed event for an append to be prepared. */
  ghost predicate Accepts(services: Services, store: EventStore, log: seq<Event>, event: Event) {
    var longer := log + [event];
    && services.fits(TextOf(services, longer))
    && exists snapshot :: Replay(services, longer) == Some(snapshot) && snapshot.runId == store.runId
  }

  /** An append is prepared exactly if log and snapshot agree, the revisions follow on,
      and the services accept the extended log. */
  lemma PreparationExact(services: Services, store: EventStore, draft: Draft, tree: Tree)
    requires Lawful(services)
    requires forall log | Holds(services, store, tree, log) :: services.parse(services.line(Proposed(draft, log))) == Some(Proposed(draft, log))
    ensures PrepareEventAppend(services, store, draft, tree).Some? <==>
      exists log | Holds(services, store, tree, log) ::
        && draft.priorRevision == |log| && draft.resultingRevision == |log| + 1
        && Accepts(services, store, log, Event(draft, LastHash(log), HashOf(draft, LastHash(log))))
  {
    if PrepareEventAppend(services, store, draft, tree).Some? {
      PreparedFromAgreement(services, store, draft, tree);
      var log :| Holds(services, store, tree, log);
      PreparationOn(services, store, draft, tree, log);
    }
    if log :| Holds(services, store, tree, log) && draft.priorRevision == |log| && draft.resultingRevision == |log| + 1
              && Accepts(services, store, log, Event(draft, LastHash(log), HashOf(draft, LastHash(log)))) {
      PreparationOn(services, store, draft, tree, log);
    }
  }

  lemma PreparationOn(services: Services, store: EventStore, draft: Draft, tree: Tree, log: seq<Event>)
    requires Lawful(services) && Holds(services, store, tree, log)
    requires services.parse(services.line(Proposed(draft, log))) == Some(Proposed(draft, log))
    ensures PrepareEventAppend(services, store, draft, tree).Some? <==>
      draft.priorRevision == |log| && draft.resultingRevision == |log| + 1 && Accepts(services, store, log, Proposed(draft, log))
    ensures PrepareEventAppend(services, store, draft, tree).Some? ==>
      PrepareEventAppend(services, store, draft, tree).value.snapshot == SnapshotText(Replay(services, log + [Proposed(draft, log)]).value)
  {
    var sealed := Proposed(draft, log);
    PreparedIsExtended(services, store, draft, tree, log);
    SealedDraft(draft, log);
    ParseAppended(services, TextOf(services, log), services.line(sealed) + ['\n']);
    ParseOne(services, sealed);
    assert [sealed] + [] == [sealed];
    TextGrown(services, log, sealed);
  }

  /** The plan takes this path from one fingerprint to another. */
  ghost predicate Carries(ops: seq<Operation>, path: Path, from: Fingerprint, to: Fingerprint) {
    if from == to then forall i | 0 <= i < |ops| :: ops[i].path != path
    else exists i :: 0 <= i < |ops| && ops[i].path == path && ops[i].expected == from && ops[i].result == to
  }

  /** The plan was decided on some tree as an append of one event to this store. */
  ghost predicate Appends(services: Services, store: EventStore, ops: seq<Operation>) {
    exists tree, draft :: AppendsFrom(services, store, ops, tree, draft)
  }

  ghost predicate AppendsFrom(services: Services, store: EventStore, ops: seq<Operation>, tree: Tree, draft: Draft) {
    var prepared := PrepareEventAppend(services, store, draft, tree);
    && prepared.Some?
    && Carries(ops, store.events, At(tree, store.events), File(prepared.value.events))
    && Carries(ops, store.snapshot, At(tree, store.snapshot), File(prepared.value.snapshot))
  }

  ghost predicate Avoids(store: EventStore, ops: seq<Operation>) {
    forall i | 0 <= i < |ops| :: ops[i].path != store.events && ops[i].path != store.snapshot
  }

  /** Plans touch this store only by appending to it. */
  ghost predicate Respects(services: Services, store: EventStore, ops: seq<Operation>) {
    ValidPlan(ops) && (Avoids(store, ops) || Appends(services, store, ops))
  }

  /** Appending always changes the log file. */
  lemma LogChanges(services: Services, store: EventStore, draft: Draft, tree: Tree)
    requires PrepareEventAppend(services, store, draft, tree).Some?
    ensures At(tree, store.events) != File(PrepareEventAppend(services, store, draft, tree).value.events)
  {
  }

  lemma CarriedOver(base: Tree, ops: seq<Operation>, path: Path, from: Fingerprint, to: Fingerprint)
    requires ValidPlan(ops) && AllExpected(base, ops) && Carries(ops, path, from, to)
    ensures from != to ==> At(base, path) == from && At(Applied(base, ops, |ops|), path) == to
    ensures from == to ==> At(Applied(base, ops, |ops|), path) == At(base, path)
  {
    AppliedAt(base, ops, |ops|, path);
  }

  /** One whole plan, on any tree that meets its expectations: a store in agreement
      stays in agreement, and its log only grows, by whole events. */
  lemma PlanKeepsAgreement(services: Services, store: EventStore, base: Tree, ops: seq<Operation>, log: seq<Event>)
    requires Lawful(services) && Respects(services, store, ops) && AllExpected(base, ops)
    requires Holds(services, store, base, log)
    ensures exists next :: Holds(services, store, Applied(base, ops, |ops|), next) && log <= next && |next| <= |log| + 1
    ensures Avoids(store, ops) ==> Holds(services, store, Applied(base, ops, |ops|), log)
  {
    var after := Applied(base, ops, |ops|);
    if Avoids(store, ops) {
      AppliedAt(base, ops, |ops|, store.events);
      AppliedAt(base, ops, |ops|, store.snapshot);
      assert Holds(services, store, after, log);
    } else {
      var tree, draft :| AppendsFrom(services, store, ops, tree, draft);
      var prepared := PrepareEventAppend(services, store, draft, tree).value;
      LogChanges(services, store, draft, tree);
      CarriedOver(base, ops, store.events, At(tree, store.events), File(prepared.events));
      CarriedOver(base, ops, store.snapshot, At(tree, store.snapshot), File(prepared.snapshot));
      PreparedFromAgreement(services, store, draft, tree);
      var decided :| Holds(services, store, tree, decided);
      SameLog(services, store, tree, base, decided, log);
      var event := PreparedExtends(services, store, draft, tree, log, after);
      assert Holds(services, store, after, log + [event]);
    }
  }

  /** After any history of such plans the store is in agreement, and the log of an
      earlier moment is a whole-event prefix of the log of a later one. */
  lemma {:induction false} HistoryKeepsAgreement(services: Services, store: EventStore, origin: Tree, history: seq<seq<Operation>>, i: nat, j: nat, log: seq<Event>)
    returns (next: seq<Event>)
    requires Lawful(services) && Sequential(origin, history) && i <= j <= |history|
    requires forall k | 0 <= k < |history| :: Respects(services, store, history[k])
    requires Holds(services, store, Replayed(origin, history[..i]), log)
    ensures Holds(services, store, Replayed(origin, history[..j]), next) && log <= next && |next| <= |log| + (j - i)
    decreases j - i
  {
    if i == j {
      next := log;
    } else {
      var before := HistoryKeepsAgreement(services, store, origin, history, i, j - 1, log);
      var base, ops := Replayed(origin, history[..j - 1]), history[j - 1];
      ReplayedStep(origin, history, j);
      PlanKeepsAgreement(services, store, base, ops, before);
      next :| Holds(services, store, Applied(base, ops, |ops|), next) && before <= next && |next| <= |before| + 1;
    }
  }

  lemma ReplayedStep(origin: Tree, history: seq<seq<Operation>>, j: nat)
    requires Sequential(origin, history) && 0 < j <= |history|
    ensures
      var base, ops := Replayed(origin, history[..j - 1]), history[j - 1];
      AllExpected(base, ops) && Replayed(origin, history[..j]) == Applied(base, ops, |ops|)
  {
    assert FoundExpected(origin, history, j - 1);
    assert history[..j][..j - 1] == history[..j - 1];
  }

  /** A plan that leads from the tree it was decided on to the two prepared texts,
      and expects what was there, is an append. */
  lemma DecidedAppends(services: Services, store: EventStore, draft: Draft, tree: Tree, ops: seq<Operation>)
    requires StoreOk(store) && ValidPlan(ops) && AllExpected(tree, ops)
    requires PrepareEventAppend(services, store, draft, tree).Some?
    requires At(Applied(tree, ops, |ops|), store.events) == File(PrepareEventAppend(services, store, draft, tree).value.events)
    requires At(Applied(tree, ops, |ops|), store.snapshot) == File(PrepareEventAppend(services, store, draft, tree).value.snapshot)
    ensures AppendsFrom(services, store, ops, tree, draft)
  {
    var prepared := PrepareEventAppend(services, store, draft, tree).value;
    CarriesTo(tree, ops, store.events, File(prepared.events));
    CarriesTo(tree, ops, store.snapshot, File(prepared.snapshot));
  }

  lemma CarriesTo(tree: Tree, ops: seq<Operation>, path: Path, to: Fingerprint)
    requires ValidPlan(ops) && AllExpected(tree, ops) && At(Applied(tree, ops, |ops|), path) == to
    ensures Carries(ops, path, At(tree, path), to)
  {
    AppliedAt(tree, ops, |ops|, path);
    assert forall i | 0 <= i < |ops| :: WellShaped(ops[i]);
  }

  /** Any sequence of executions and recoveries by processes that may die anywhere,
      in which plans touch the store only by appending: whenever no transaction is
      unfinished and nobody else writes, snapshot and log agree, and the log is the
      starting one with whole events appended. */
  method EventSession(s: Store, script: seq<Call>, services: Services, store: EventStore, ghost origin: Tree, ghost log: seq<Event>)
    returns (outcomes: seq<Option<Outcome>>, ghost open: Option<Unfinished>, ghost now: seq<Event>)
    requires s.disk.tree == origin && forall id | id in s.disk.transactions :: Settled(id, s.disk.transactions[id])
    requires forall call | call in script :: WellFormedCall(call)
    requires Lawful(services) && Holds(services, store, origin, log)
    requires forall call | call in script && call.Execute? :: Respects(services, store, call.manifest.operations)
    modifies s
    ensures s.quiet && open.None? ==> Holds(services, store, s.disk.tree, now) && log <= now
  {
    ghost var history, scenes;
    outcomes, open, history, scenes := Session(s, script, origin);
    now := log;
    if s.quiet {
      assert history[..0] == [] && history[..|history|] == history;
      forall k | 0 <= k < |history| ensures Respects(services, store, history[k]) {
        assert Submitted(script, |script|, history[k]);
      }
      now := HistoryKeepsAgreement(services, store, origin, history, 0, |history|, log);
    }
  }
}
