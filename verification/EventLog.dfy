/** The text of an event log, its hash chain, and the replay of its events. */
module EventLog {
  import opened Options
  import opened Sequences
  import opened Text

  /** What a caller proposes; `body` stands for all other fields. */
  datatype Draft = Draft(priorRevision: nat, resultingRevision: nat, body: string)

  /** The digest of an unsigned event, which is injective. */
  datatype Hash = HashOf(draft: Draft, previousHash: Option<Hash>)

  datatype Event = Event(draft: Draft, previousHash: Option<Hash>, eventHash: Hash)

  datatype Cursor = Cursor(revision: nat, hash: Option<Hash>)

  const START := Cursor(0, None)

  datatype Snapshot = Snapshot(runId: string, cursor: Cursor, canonical: string)

  /** Canonical JSON and schema validation of events, and the caller's reducers. */
  datatype Services = Services(
    line: Event -> string,
    parse: string -> Option<Event>,
    fits: string -> bool,
    seed: string,
    reduce: (string, Event) -> Option<string>,
    materialize: (string, Cursor) -> Option<Snapshot>)

  /** A canonical line is one line of text, and determines the event. */
  ghost predicate Lawful(services: Services) {
    && (forall e :: services.line(e) != "" && '\n' !in services.line(e) && '\r' !in services.line(e))
    && (forall text, e :: services.parse(text) == Some(e) ==> services.line(e) == text)
  }

  function TextOf(services: Services, events: seq<Event>): string {
    if events == [] then ""
    else TextOf(services, events[..|events| - 1]) + (services.line(events[|events| - 1]) + ['\n'])
  }

  /** `parseEventLines`: every line must be the canonical line of its event. */
  function ParseLines(services: Services, text: string): Option<seq<Event>>
    decreases |text|
  {
    if text == "" then Some([])
    else
      var i := LineEnd(text);
      if i == |text| || i == 0 then None
      else
        var event, rest := services.parse(text[..i]), ParseLines(services, text[i + 1..]);
        if event.None? || rest.None? then None else Some([event.value] + rest.value)
  }

  /** The walk along the chain, from a cursor to the one after the last event. */
  function Chain(cursor: Cursor, events: seq<Event>): Option<Cursor>
    decreases |events|
  {
    if events == [] then Some(cursor)
    else
      var before := Chain(cursor, events[..|events| - 1]);
      if before.None? then None else Next(before.value, events[|events| - 1])
  }

  function Next(cursor: Cursor, event: Event): Option<Cursor> {
    if event.draft.priorRevision != cursor.revision || event.draft.resultingRevision != cursor.revision + 1
       || event.previousHash != cursor.hash || event.eventHash != HashOf(event.draft, event.previousHash)
    then None
    else Some(Cursor(event.draft.resultingRevision, Some(event.eventHash)))
  }

  /** `verifyEventStream` */
  function Verify(services: Services, text: string): Option<seq<Event>> {
    if !services.fits(text) then None
    else
      var events := ParseLines(services, text);
      if events.None? || Chain(START, events.value).None? then None else events
  }

  /** `sealEvent` */
  function Seal(draft: Draft, cursor: Cursor): Option<Event> {
    if draft.priorRevision != cursor.revision || draft.resultingRevision != cursor.revision + 1
       || (cursor.revision == 0) != cursor.hash.None?
    then None
    else Some(Event(draft, cursor.hash, HashOf(draft, cursor.hash)))
  }

  function Reduced(services: Services, events: seq<Event>): Option<string> {
    if events == [] then Some(services.seed)
    else
      var before := Reduced(services, events[..|events| - 1]);
      if before.None? then None else services.reduce(before.value, events[|events| - 1])
  }

  /** `replayEventStream`: the snapshot of a verified stream. */
  function Replay(services: Services, events: seq<Event>): Option<Snapshot> {
    var cursor := Chain(START, events);
    var state := Reduced(services, events);
    if events == [] || cursor.None? || state.None? then None
    else
      var snapshot := services.materialize(state.value, cursor.value);
      if snapshot.Some? && snapshot.value.cursor == cursor.value then snapshot else None
  }

  /** What is parsed is the text of the events. */
  lemma {:induction false} ParsedText(services: Services, text: string)
    requires Lawful(services) && ParseLines(services, text).Some?
    ensures TextOf(services, ParseLines(services, text).value) == text
    decreases |text|
  {
    if text != "" {
      var i := LineEnd(text);
      var line, more := text[..i], text[i + 1..];
      ParsedText(services, more);
      TextFirst(services, services.parse(line).value, ParseLines(services, more).value);
      LineOff(text);
    }
  }

  lemma LineOff(text: string)
    requires LineEnd(text) < |text|
    ensures text == (text[..LineEnd(text)] + ['\n']) + text[LineEnd(text) + 1..]
  {
    SplitAround(text, LineEnd(text));
  }

  lemma {:induction false} TextFirst(services: Services, event: Event, rest: seq<Event>)
    ensures TextOf(services, [event] + rest) == (services.line(event) + ['\n']) + TextOf(services, rest)
  {
    var all := [event] + rest;
    if rest == [] {
      assert all == [event] && all[..0] == [];
      assert TextOf(services, all) == "" + (services.line(event) + ['\n']);
    } else {
      assert all[..|all| - 1] == [event] + rest[..|rest| - 1];
      TextFirst(services, event, rest[..|rest| - 1]);
      Associative(services.line(event) + ['\n'], TextOf(services, rest[..|rest| - 1]), services.line(rest[|rest| - 1]) + ['\n']);
    }
  }

  function Prepended(event: Option<Event>, rest: Option<seq<Event>>): Option<seq<Event>> {
    if event.None? || rest.None? then None else Some([event.value] + rest.value)
  }

  lemma ParseStep(services: Services, line: string, rest: string)
    requires line != "" && '\n' !in line
    ensures ParseLines(services, line + (['\n'] + rest)) == Prepended(services.parse(line), ParseLines(services, rest))
  {
    var text := line + (['\n'] + rest);
    LineEndOf(line, ['\n'] + rest);
    assert text[..|line|] == line && text[|line| + 1..] == rest;
  }

  function Joined(a: seq<Event>, b: Option<seq<Event>>): Option<seq<Event>> {
    if b.None? then None else Some(a + b.value)
  }

  /** Reading a longer log reads the shorter one first. */
  lemma {:induction false} ParseAppended(services: Services, text: string, more: string)
    requires ParseLines(services, text).Some?
    ensures ParseLines(services, text + more) == Joined(ParseLines(services, text).value, ParseLines(services, more))
    decreases |text|
  {
    if text == "" {
      assert text + more == more;
      assert forall b: seq<Event> :: [] + b == b;
    } else {
      var i := LineEnd(text);
      var line, rest := text[..i], text[i + 1..];
      ParseAppended(services, rest, more);
      assert text == line + (['\n'] + rest);
      Associative(line, ['\n'] + rest, more);
      Associative(['\n'], rest, more);
      NotIn(text, i);
      ParseStep(services, line, rest);
      ParseStep(services, line, rest + more);
      JoinedPrepended(services.parse(line), ParseLines(services, rest).value, ParseLines(services, more));
    }
  }

  lemma NotIn(text: string, i: nat)
    requires i == LineEnd(text)
    ensures '\n' !in text[..i]
  {
  }

  lemma JoinedPrepended(event: Option<Event>, rest: seq<Event>, more: Option<seq<Event>>)
    requires event.Some?
    ensures Prepended(event, Joined(rest, more)) == Joined([event.value] + rest, more)
  {
    if more.Some? {
      Associative([event.value], rest, more.value);
    }
  }

  lemma ParseOne(services: Services, event: Event)
    requires Lawful(services)
    ensures ParseLines(services, services.line(event) + ['\n']) == Prepended(services.parse(services.line(event)), Some([]))
  {
    ParseStep(services, services.line(event), "");
    assert ['\n'] + "" == ['\n'];
  }

  /** The hash that the next event must name. */
  function LastHash(events: seq<Event>): Option<Hash> {
    if events == [] then None else Some(events[|events| - 1].eventHash)
  }

  /** An event follows on from the one before it, and its hash is of what it says. */
  ghost predicate Linked(events: seq<Event>, i: nat)
    requires i < |events|
  {
    var e := events[i];
    && e.draft.priorRevision == i && e.draft.resultingRevision == i + 1
    && e.previousHash == LastHash(events[..i])
    && e.eventHash == HashOf(e.draft, e.previousHash)
  }

  /** A stream is accepted exactly if its events are numbered from one and each names
      the hash of the one before it: what is altered, dropped or moved is noticed. */
  lemma {:induction false} ChainExact(events: seq<Event>)
    ensures Chain(START, events).Some? <==> forall i | 0 <= i < |events| :: Linked(events, i)
    ensures Chain(START, events).Some? ==> Chain(START, events).value == Cursor(|events|, LastHash(events))
    decreases |events|
  {
    if events != [] {
      var n := |events| - 1;
      var init := events[..n];
      ChainExact(init);
      forall i | 0 <= i < n ensures Linked(init, i) <==> Linked(events, i) {
        assert init[..i] == events[..i];
      }
      if Chain(START, init).Some? {
        assert Next(Chain(START, init).value, events[n]).Some? <==> Linked(events, n);
      }
      assert (forall i | 0 <= i < |events| :: Linked(events, i)) ==> (forall i | 0 <= i < n :: Linked(init, i));
    }
  }

  /** The states that the reducers go through, from the seed on. */
  ghost predicate Reduces(services: Services, events: seq<Event>, states: seq<string>) {
    && |states| == |events| + 1 && states[0] == services.seed
    && forall i | 0 <= i < |events| :: services.reduce(states[i], events[i]) == Some(states[i + 1])
  }

  lemma {:induction false} ReducedSteps(services: Services, events: seq<Event>) returns (states: seq<string>)
    requires Reduced(services, events).Some?
    ensures Reduces(services, events, states) && states[|events|] == Reduced(services, events).value
    decreases |events|
  {
    if events == [] {
      states := [services.seed];
    } else {
      var init := events[..|events| - 1];
      var before := ReducedSteps(services, init);
      states := before + [Reduced(services, events).value];
    }
  }

  lemma {:induction false} ReducesTo(services: Services, events: seq<Event>, states: seq<string>)
    requires Reduces(services, events, states)
    ensures Reduced(services, events) == Some(states[|events|])
    decreases |events|
  {
    if events != [] {
      ReducesTo(services, events[..|events| - 1], states[..|events|]);
    }
  }

  /** A snapshot is made exactly of a linked stream, from the state that its reducers
      end in, at the last event's revision and hash. */
  lemma ReplayExact(services: Services, events: seq<Event>, snapshot: Snapshot)
    ensures Replay(services, events) == Some(snapshot) <==>
      && events != [] && (forall i | 0 <= i < |events| :: Linked(events, i))
      && snapshot.cursor == Cursor(|events|, LastHash(events))
      && exists states | Reduces(services, events, states) ::
           services.materialize(states[|events|], snapshot.cursor) == Some(snapshot)
  {
    ChainExact(events);
    if Reduced(services, events).Some? {
      var states := ReducedSteps(services, events);
    }
    forall states | Reduces(services, events, states) ensures Reduced(services, events) == Some(states[|events|]) {
      ReducesTo(services, events, states);
    }
  }

  lemma {:induction false} TextGrown(services: Services, events: seq<Event>, event: Event)
    ensures TextOf(services, events + [event]) == TextOf(services, events) + (services.line(event) + ['\n'])
  {
    assert (events + [event])[..|events|] == events;
  }

  /** Events that are read back one by one are read back as a log. */
  lemma {:induction false} TextParsed(services: Services, events: seq<Event>)
    requires Lawful(services) && forall e | e in events :: services.parse(services.line(e)) == Some(e)
    ensures ParseLines(services, TextOf(services, events)) == Some(events)
    decreases |events|
  {
    if events != [] {
      var init, last := events[..|events| - 1], events[|events| - 1];
      TextParsed(services, init);
      TextParsedNext(services, init, last);
      assert events == init + [last];
    }
  }

  lemma {:induction false} TextParsedNext(services: Services, init: seq<Event>, last: Event)
    requires Lawful(services) && ParseLines(services, TextOf(services, init)) == Some(init)
    requires services.parse(services.line(last)) == Some(last)
    ensures ParseLines(services, TextOf(services, init + [last])) == Some(init + [last])
  {
    ParseAppended(services, TextOf(services, init), services.line(last) + ['\n']);
    ParseOne(services, last);
    assert [last] + [] == [last];
    TextGrown(services, init, last);
  }
}
