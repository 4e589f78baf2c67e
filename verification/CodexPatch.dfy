/** The parser of patch commands: bounds, heredoc wrapping, and the loop over lines. */
module CodexPatch {
  import opened Options
  import opened Sequences
  import opened PatchText
  import opened PatchGrammar
  import opened PatchParser
  import opened PatchCompleteness
  import opened Text

  const BEGIN_PATCH := "*** Begin Patch"
  const ENVIRONMENT_ID := "*** Environment ID:"

  datatype Mode = Started | Adding | Deleting | Updating | Ended

  datatype ChunkState = ChunkState(hasLines: bool, endOfFile: bool)

  datatype UpdateState = UpdateState(mutationIndex: nat, chunks: seq<ChunkState>, moved: bool)

  datatype HunkStart = Handled | NotHandled | Invalid

  function StateOfChunk(c: Chunk): ChunkState {
    ChunkState(c.lines != [], c.eof.Some?)
  }

  function StatesOf(chunks: seq<Chunk>): seq<ChunkState> {
    seq(|chunks|, i requires 0 <= i < |chunks| => StateOfChunk(chunks[i]))
  }

  function ModeOf(doc: Doc): Mode {
    if doc.end.Some? then Ended
    else if doc.items == [] then Started
    else
      match doc.items[|doc.items| - 1]
      case AddItem(_, _, _) => Adding
      case DeleteItem(_, _) => Deleting
      case UpdateItem(_, _, _, _, _) => Updating
  }

  function UpdateOf(doc: Doc): Option<UpdateState> {
    if ModeOf(doc).Updating? then
      var item := doc.items[|doc.items| - 1];
      Some(UpdateState(|doc.items| - 1, StatesOf(item.chunks), item.move.Some?))
    else None
  }

  lemma MutationsOfLast(items: seq<Item>, item: Item)
    ensures MutationsOf(items + [item]) == MutationsOf(items) + [MutationOf(item)]
  {
  }

  /** What the parser remembers of the lines it has read. */
  class ParserState {
    var mode: Mode
    var update: Option<UpdateState>
    var mutations: seq<Mutation>

    /** The state after the lines of this document. */
    ghost predicate HasRead(doc: Doc)
      reads this
    {
      mode == ModeOf(doc) && update == UpdateOf(doc) && mutations == MutationsOf(doc.items)
    }

    constructor ()
      ensures HasRead(EMPTY)
    {
      mode, update, mutations := Started, None, [];
    }

    predicate UpdateIsComplete()
      reads this
    {
      update.Some? && |update.value.chunks| > 0 && update.value.chunks[|update.value.chunks| - 1].hasLines
    }

    lemma CompleteAgrees(doc: Doc)
      requires HasRead(doc) && doc.end.None?
      ensures LastComplete(doc.items) <==> mode != Updating || UpdateIsComplete()
    {
    }

    /** Reads a header; `raw` is the whole line, `line` its header text. */
    method StartHunk(line: string, ghost raw: string, ghost doc: Doc) returns (start: HunkStart)
      requires HasRead(doc) && doc.end.None?
      requires line == HeaderText(raw, AfterUpdate(doc.items, |doc.items|))
      modifies this
      ensures start.Handled? ==> Extend(doc, raw).Some? && HasRead(Extend(doc, raw).value)
      ensures start.Invalid? ==> Extend(doc, raw).None?
      ensures start.NotHandled? ==> ReadHeader(line).NoHeader? && HasRead(doc)
    {
      if mode.Started? && ENVIRONMENT_ID <= line {
        EnvironmentIsNoHeader(line);
        return Invalid;
      }
      start := StartKnown(ReadHeader(line), raw, doc);
    }

    method StartKnown(header: Header, ghost raw: string, ghost doc: Doc) returns (start: HunkStart)
      requires HasRead(doc) && doc.end.None?
      modifies this
      ensures start.Handled? ==> ExtendFrom(doc, header, raw).Some? && HasRead(ExtendFrom(doc, header, raw).value)
      ensures start.Invalid? ==> ExtendFrom(doc, header, raw).None?
      ensures start.NotHandled? ==> header.NoHeader? && HasRead(doc)
    {
      CompleteAgrees(doc);
      if header.NoHeader? {
        return NotHandled;
      }
      if mode.Updating? && !UpdateIsComplete() {
        return Invalid;
      }
      if header.EndHeader? {
        mode, update := Ended, None;
        return Handled;
      }
      if header.path == "" {
        return Invalid;
      }
      HunkStarts(doc, raw, header);
      match header {
        case AddHeader(path) =>
          mutations := mutations + [Create(path)];
          mode, update := Adding, None;
        case DeleteHeader(path) =>
          mutations := mutations + [Delete(path)];
          mode, update := Deleting, None;
        case UpdateHeader(path) =>
          mutations := mutations + [Update(path)];
          mode, update := Updating, Some(UpdateState(|mutations| - 1, [], false));
      }
      start := Handled;
    }

    /** Reads one line of the body. */
    method ReadLine(line: string, ghost doc: Doc) returns (ok: bool)
      requires HasRead(doc)
      modifies this
      ensures ok <==> Extend(doc, line).Some?
      ensures ok ==> HasRead(Extend(doc, line).value)
    {
      if mode.Ended? {
        var t := RustTrim(line);
        return t == "";
      }
      var updating := mode.Updating?;
      var t;
      if updating {
        t := RustTrimEnd(line);
      } else {
        t := RustTrim(line);
      }
      var start := StartHunk(t, line, doc);
      if start.Invalid? {
        return false;
      }
      if start.Handled? {
        return true;
      }
      ok := ReadOther(line, doc);
    }

    /** Reads a line that is no header. */
    method ReadOther(line: string, ghost doc: Doc) returns (ok: bool)
      requires HasRead(doc) && doc.end.None?
      modifies this
      ensures ok <==> ExtendFrom(doc, NoHeader, line).Some?
      ensures ok ==> HasRead(ExtendFrom(doc, NoHeader, line).value)
    {
      ghost var items := doc.items;
      ghost var n := |items| - 1;
      if !mode.Updating? {
        ok := mode.Adding? && line != "" && line[0] == '+';
        if ok {
          MutationsOfReplaced(items, ExtendItem(items[n], line).value);
        }
      } else {
        SplitLast(items);
        ok := ReadUpdateLine(line, items[n], items[..n]);
      }
    }

    /** Reads a line of an update that is no header. */
    method ReadUpdateLine(line: string, ghost item: Item, ghost init: seq<Item>) returns (ok: bool)
      requires item.UpdateItem? && HasRead(Doc(init + [item], None))
      modifies this
      ensures ok <==> ExtendUpdate(item, line).Some?
      ensures ok ==> HasRead(Doc(init + [ExtendUpdate(item, line).value], None))
    {
      var u := update.value;
      var chunks := u.chunks;
      var updateLine := RustTrimEnd(line);
      var opens := IsOpen(updateLine);
      var last := if chunks == [] then None else Some(chunks[|chunks| - 1]);
      MutationsOfLast(init, item);
      if last.Some? && last.value.endOfFile {
        if updateLine == "" {
          ChunkRead(item, line, init);
          assert chunks == StatesOf(ExtendUpdate(item, line).value.chunks);
          return true;
        }
        if !opens {
          return false;
        }
      }
      if chunks == [] && !u.moved && MOVE_TO <= updateLine {
        var destination := updateLine[|MOVE_TO|..];
        if destination == "" || !mutations[u.mutationIndex].Update? {
          return false;
        }
        mutations := mutations[u.mutationIndex := Move(mutations[u.mutationIndex].path, destination)];
        update := Some(u.(moved := true));
        MutationsOfLast(init, ExtendUpdate(item, line).value);
        return true;
      }
      ok := ReadChunkLine(line, updateLine, item, init);
    }

    /** Reads a line that opens, marks or extends a chunk. */
    method ReadChunkLine(line: string, updateLine: string, ghost item: Item, ghost init: seq<Item>) returns (ok: bool)
      requires item.UpdateItem? && HasRead(Doc(init + [item], None)) && updateLine == TrimEnd(line)
      requires item.chunks != [] && item.chunks[|item.chunks| - 1].eof.Some? ==> IsOpen(updateLine)
      requires item.chunks == [] && item.move.None? ==> !(MOVE_TO <= updateLine)
      modifies this
      ensures ok <==> ExtendUpdate(item, line).Some?
      ensures ok ==> HasRead(Doc(init + [ExtendUpdate(item, line).value], None))
    {
      var u := update.value;
      var chunks := u.chunks;
      var opens := IsOpen(updateLine);
      var last := if chunks == [] then None else Some(chunks[|chunks| - 1]);
      if opens && last.Some? && !last.value.hasLines {
        return false;
      }
      if opens {
        update := Some(u.(chunks := chunks + [ChunkState(false, false)]));
        ChunkRead(item, line, init);
        assert update.value.chunks == StatesOf(ExtendUpdate(item, line).value.chunks);
        return true;
      }
      if updateLine == END_OF_FILE {
        if last.Some? && !last.value.hasLines {
          return false;
        }
        if last.Some? {
          update := Some(u.(chunks := chunks[|chunks| - 1 := last.value.(endOfFile := true)]));
        }
        ChunkRead(item, line, init);
        assert update.value.chunks == StatesOf(ExtendUpdate(item, line).value.chunks);
        return true;
      }
      if IsContext(line) {
        ok := ReadContentLine(line, item, init);
        return;
      }
      ok := false;
    }

    /** The last turn of `ReadChunkLine`: content, of a chunk without a header if there
        is none yet. */
    method ReadContentLine(line: string, ghost item: Item, ghost init: seq<Item>) returns (ok: bool)
      requires item.UpdateItem? && HasRead(Doc(init + [item], None)) && IsContext(line)
      requires !IsOpen(TrimEnd(line)) && TrimEnd(line) != END_OF_FILE
      requires item.chunks == [] || item.chunks[|item.chunks| - 1].eof.None?
      requires item.chunks == [] && item.move.None? ==> !(MOVE_TO <= TrimEnd(line))
      modifies this
      ensures ok && ExtendUpdate(item, line).Some?
      ensures HasRead(Doc(init + [ExtendUpdate(item, line).value], None))
    {
      var chunks := update.value.chunks;
      if chunks == [] {
        chunks := [ChunkState(false, false)];
      }
      chunks := chunks[|chunks| - 1 := chunks[|chunks| - 1].(hasLines := true)];
      update := Some(update.value.(chunks := chunks));
      ChunkRead(item, line, init);
      assert chunks == StatesOf(ExtendUpdate(item, line).value.chunks);
      ok := true;
    }
  }

  lemma HunkStarts(doc: Doc, raw: string, header: Header)
    requires doc.end.None? && LastComplete(doc.items)
    requires StartItem(header, raw).Some?
    ensures
      var item := StartItem(header, raw).value;
      var next := Doc(doc.items + [item], None);
      && ExtendFrom(doc, header, raw) == Some(next)
      && MutationsOf(next.items) == MutationsOf(doc.items) + [MutationOf(item)]
      && ModeOf(next) == (match header case AddHeader(_) => Adding case DeleteHeader(_) => Deleting case _ => Updating)
      && UpdateOf(next) == if header.UpdateHeader? then Some(UpdateState(|doc.items|, [], false)) else None
  {
    var item := StartItem(header, raw).value;
    MutationsOfLast(doc.items, item);
    match header
    case AddHeader(_) => assert item.AddItem?;
    case DeleteHeader(_) => assert item.DeleteItem?;
    case UpdateHeader(_) => assert StatesOf(item.chunks) == [];
  }

  lemma EnvironmentIsNoHeader(line: string)
    requires ENVIRONMENT_ID <= line
    ensures ReadHeader(line).NoHeader?
  {
    assert line[6] == 'v' && line[5] == 'n';
  }

  lemma MutationsOfReplaced(items: seq<Item>, item: Item)
    requires items != [] && MutationOf(item) == MutationOf(items[|items| - 1])
    ensures MutationsOf(items[..|items| - 1] + [item]) == MutationsOf(items)
  {
  }

  /** How one more line changes the flags of an update, unless it is a move line. */
  lemma ChunkRead(item: Item, line: string, init: seq<Item>)
    requires item.UpdateItem? && ExtendUpdate(item, line).Some?
    requires !(item.chunks == [] && item.move.None? && Read(line).moveTo.Some?)
    ensures
      var next := ExtendUpdate(item, line).value;
      && next.UpdateItem?
      && MutationOf(next) == MutationOf(item)
      && MutationsOf(init + [next]) == MutationsOf(init + [item])
      && next.move.Some? == item.move.Some?
  {
    var next := ExtendUpdate(item, line).value;
    MutationsOfLast(init, item);
    MutationsOfLast(init, next);
  }

  lemma {:induction false} RunFails(lines: seq<string>, k: nat)
    requires k <= |lines| && Run(lines[..k]).None?
    ensures Run(lines).None?
    decreases |lines|
  {
    if k < |lines| {
      assert lines[..|lines| - 1][..k] == lines[..k];
      RunFails(lines[..|lines| - 1], k);
    } else {
      assert lines[..k] == lines;
    }
  }

  /** The mutations of a patch body. */
  method ParseBody(lines: seq<string>) returns (r: Option<seq<Mutation>>)
    ensures r == Parsed(lines)
    ensures forall mutations :: r == Some(mutations) <==> Means(lines, mutations)
  {
    forall mutations ensures Parsed(lines) == Some(mutations) <==> Means(lines, mutations) {
      ParsedIsMeaning(lines, mutations);
    }
    var state := new ParserState();
    ghost var doc := EMPTY;
    var i := 0;
    while i < |lines|
      invariant 0 <= i <= |lines|
      invariant fresh(state)
      invariant Run(lines[..i]) == Some(doc) && state.HasRead(doc)
    {
      assert lines[..i + 1][..i] == lines[..i];
      var ok := state.ReadLine(lines[i], doc);
      if !ok {
        RunFails(lines, i + 1);
        return None;
      }
      doc := Extend(doc, lines[i]).value;
      i := i + 1;
    }
    assert lines[..i] == lines;
    RunSound(lines);
    if doc.end.None? {
      state.CompleteAgrees(doc);
    }
    if state.mode.Updating? && !state.UpdateIsComplete() {
      return None;
    }
    r := if state.mutations == [] then None else Some(state.mutations);
  }

  predicate IsBounded(lines: seq<string>) {
    && lines != []
    && Trim(lines[0]) == BEGIN_PATCH
    && Trim(lines[|lines| - 1]) == END_PATCH
  }

  method Bounded(lines: seq<string>) returns (ok: bool)
    ensures ok <==> IsBounded(lines)
  {
    if lines == [] {
      return false;
    }
    var first := RustTrim(lines[0]);
    var last := RustTrim(lines[|lines| - 1]);
    ok := first == BEGIN_PATCH && last == END_PATCH;
  }

  predicate IsOpener(line: string) {
    line == "<<EOF" || line == "<<'EOF'" || line == "<<\"EOF\""
  }

  predicate EndsWithEof(line: string) {
    |line| >= 3 && line[|line| - 3..] == "EOF"
  }

  /** The lines wrapped in a heredoc. */
  predicate IsHeredoc(lines: seq<string>) {
    |lines| >= 4 && IsOpener(lines[0]) && EndsWithEof(lines[|lines| - 1])
  }

  function PickBounded(lines: seq<string>): Option<seq<string>> {
    if IsBounded(lines) then Some(lines)
    else if IsHeredoc(lines) && IsBounded(lines[1..|lines| - 1]) then Some(lines[1..|lines| - 1])
    else None
  }

  function BoundedLines(command: string): Option<seq<string>> {
    if Trim(command) == "" then None else PickBounded(SplitLines(Trim(command)))
  }

  method BoundedPatchLines(command: string) returns (r: Option<seq<string>>)
    ensures r == BoundedLines(command)
  {
    var text := RustTrim(command);
    if text == "" {
      return None;
    }
    r := PickLines(SplitLines(text));
  }

  method PickLines(original: seq<string>) returns (r: Option<seq<string>>)
    ensures r == PickBounded(original)
  {
    var direct := Bounded(original);
    if direct {
      return Some(original);
    }
    var heredoc := IsHeredoc(original);
    if heredoc {
      var inner := original[1..|original| - 1];
      var ok := Bounded(inner);
      if ok {
        return Some(inner);
      }
    }
    r := None;
  }

  lemma PickedHasTwoLines(lines: seq<string>)
    requires PickBounded(lines).Some?
    ensures |PickBounded(lines).value| >= 2
  {
    BoundedHasTwoLines(PickBounded(lines).value);
  }

  function Body(lines: seq<string>): seq<string> {
    if |lines| < 2 then [] else lines[1..|lines| - 1]
  }

  /** The command's bounded body is a loose print of hunks with these mutations. */
  ghost predicate CommandMeans(command: string, mutations: seq<Mutation>) {
    var lines := BoundedLines(command);
    lines.Some? && Means(Body(lines.value), mutations)
  }

  lemma BodyOfCommand(command: string)
    requires BoundedLines(command).Some?
    ensures var lines := BoundedLines(command).value; |lines| >= 2 && Body(lines) == lines[1..|lines| - 1]
  {
    PickedHasTwoLines(SplitLines(Trim(command)));
  }

  /** A command is accepted with these mutations exactly when it means them. */
  method ParsePatch(command: string) returns (r: Option<seq<Mutation>>)
    ensures forall mutations :: r == Some(mutations) <==> CommandMeans(command, mutations)
  {
    var lines := BoundedPatchLines(command);
    if lines.None? {
      return None;
    }
    BodyOfCommand(command);
    r := ParseBody(lines.value[1..|lines.value| - 1]);
  }

  lemma OpenerFacts(opener: string)
    requires IsOpener(opener)
    ensures opener != "" && opener[0] == '<' && !IsRustWhitespace(opener[0])
    ensures forall i | 0 <= i < |opener| :: opener[i] != '\n' && opener[i] != '\r'
  {
  }

  const CLOSER := "EOF"

  /** A text wrapped in a heredoc. */
  function Heredoc(opener: string, text: string): string {
    opener + ['\n'] + (text + ['\n'] + CLOSER)
  }

  lemma CloserFacts()
    ensures SplitLines(CLOSER) == [CLOSER] && EndsWithEof(CLOSER)
  {
    LineEndOf(CLOSER, "");
    assert CLOSER + "" == CLOSER;
    SplitSingle(CLOSER);
  }

  lemma WrappedLines(opener: string, text: string)
    requires IsOpener(opener)
    requires text == "" || text[|text| - 1] != '\r'
    ensures SplitLines(Heredoc(opener, text)) == [opener] + SplitLines(text) + [CLOSER]
  {
    OpenerFacts(opener);
    CloserFacts();
    SplitFirst(Heredoc(opener, text), opener, text + ['\n'] + CLOSER);
    SplitConcat(text, CLOSER);
    ThreeParts(opener, SplitLines(text), SplitLines(text + ['\n'] + CLOSER), CLOSER);
  }

  lemma ThreeParts(first: string, middle: seq<string>, rest: seq<string>, last: string)
    requires rest == middle + [last]
    ensures [first] + rest == [first] + middle + [last]
  {
    Associative([first], middle, [last]);
  }

  lemma WrappedTrim(opener: string, text: string)
    requires IsOpener(opener)
    ensures Heredoc(opener, text) != "" && Trim(Heredoc(opener, text)) == Heredoc(opener, text)
  {
    OpenerFacts(opener);
    var command := Heredoc(opener, text);
    assert command[0] == opener[0] && command[|command| - 1] == 'F';
    TrimIdentity(command);
  }

  lemma OpenedIsNotBounded(lines: seq<string>)
    requires lines != [] && IsOpener(lines[0])
    ensures !IsBounded(lines)
  {
    OpenerFacts(lines[0]);
    TrimKeepsFirst(lines[0]);
    assert BEGIN_PATCH[0] == '*';
  }

  lemma BoundedHasTwoLines(lines: seq<string>)
    requires IsBounded(lines)
    ensures |lines| >= 2
  {
    assert BEGIN_PATCH[4] != END_PATCH[4];
  }

  /** The lines, if they are bounded. */
  function IfBounded(lines: seq<string>): Option<seq<string>> {
    if IsBounded(lines) then Some(lines) else None
  }

  lemma HeredocPicked(all: seq<string>, lines: seq<string>)
    requires !IsBounded(all) && |all| >= 2 && all[1..|all| - 1] == lines
    requires IsBounded(lines) ==> IsHeredoc(all)
    ensures PickBounded(all) == IfBounded(lines)
  {
  }

  lemma PickInner(opener: string, lines: seq<string>)
    requires IsOpener(opener)
    ensures PickBounded([opener] + lines + [CLOSER]) == IfBounded(lines)
  {
    var all := [opener] + lines + [CLOSER];
    OpenedIsNotBounded(all);
    CloserFacts();
    assert all[1..|all| - 1] == lines;
    if IsBounded(lines) {
      BoundedHasTwoLines(lines);
    }
    HeredocPicked(all, lines);
  }

  /** Wrapping a text in a heredoc hides nothing and adds nothing: exactly the
      lines of the text have to be bounded. */
  lemma HeredocIsTransparent(opener: string, text: string)
    requires IsOpener(opener)
    requires text == "" || text[|text| - 1] != '\r'
    ensures BoundedLines(Heredoc(opener, text)) == IfBounded(SplitLines(text))
  {
    WrappedTrim(opener, text);
    BoundedOf(Heredoc(opener, text));
    WrappedLines(opener, text);
    PickInner(opener, SplitLines(text));
  }

  lemma BoundedOf(command: string)
    requires command != "" && Trim(command) == command
    ensures BoundedLines(command) == PickBounded(SplitLines(command))
  {
  }

  /** So a trimmed bounded patch reads the same with and without a heredoc. */
  lemma HeredocChangesNothing(opener: string, text: string)
    requires IsOpener(opener) && Trim(text) == text && IsBounded(SplitLines(text))
    ensures BoundedLines(Heredoc(opener, text)) == BoundedLines(text)
  {
    assert text != "" ==> !IsRustWhitespace(text[|text| - 1]);
    HeredocIsTransparent(opener, text);
    if text == "" {
      SplitSingle("");
    }
  }

  /** One text with these lines. */
  function JoinLines(lines: seq<string>): string
    requires lines != []
  {
    if |lines| == 1 then lines[0] else lines[0] + ['\n'] + JoinLines(lines[1..])
  }

  predicate IsLine(line: string) {
    && (forall i | 0 <= i < |line| :: line[i] != '\n')
    && (line != "" ==> line[|line| - 1] != '\r')
  }

  lemma SplitOne(line: string)
    requires IsLine(line)
    ensures SplitLines(line) == [line] && DropReturn(line) == line
  {
    LineEndOf(line, "");
    assert line + "" == line;
    SplitSingle(line);
  }

  lemma {:induction false} SplitJoin(lines: seq<string>)
    requires lines != [] && forall line | line in lines :: IsLine(line)
    ensures SplitLines(JoinLines(lines)) == lines
    decreases |lines|
  {
    SplitOne(lines[0]);
    if |lines| > 1 {
      SplitJoin(lines[1..]);
      SplitFirst(JoinLines(lines), lines[0], JoinLines(lines[1..]));
    }
    SplitFirstOff(lines);
  }

  lemma {:induction false} JoinEnds(lines: seq<string>)
    requires lines != [] && lines[0] != "" && lines[|lines| - 1] != ""
    ensures JoinLines(lines) != "" && JoinLines(lines)[0] == lines[0][0]
    ensures var last := lines[|lines| - 1]; JoinLines(lines)[|JoinLines(lines)| - 1] == last[|last| - 1]
    decreases |lines|
  {
    if |lines| > 1 {
      JoinLast(lines);
    }
  }

  lemma {:induction false} JoinLast(lines: seq<string>)
    requires lines != [] && lines[|lines| - 1] != ""
    ensures JoinLines(lines) != ""
    ensures var last := lines[|lines| - 1]; JoinLines(lines)[|JoinLines(lines)| - 1] == last[|last| - 1]
    decreases |lines|
  {
    if |lines| > 1 {
      JoinLast(lines[1..]);
    }
  }

  function CommandOf(body: seq<string>): string {
    JoinLines([BEGIN_PATCH] + body + [END_PATCH])
  }

  lemma MarkersAreLines()
    ensures IsLine(BEGIN_PATCH) && Trim(BEGIN_PATCH) == BEGIN_PATCH && BEGIN_PATCH[0] == '*'
    ensures IsLine(END_PATCH) && Trim(END_PATCH) == END_PATCH && END_PATCH[|END_PATCH| - 1] == 'h'
  {
    TrimIdentity(BEGIN_PATCH);
    TrimIdentity(END_PATCH);
  }

  /** Printing hunks as a command and reading the command gives their body back. */
  lemma PrintedPatchBody(body: seq<string>)
    requires forall line | line in body :: IsLine(line)
    ensures BoundedLines(CommandOf(body)).Some? && Body(BoundedLines(CommandOf(body)).value) == body
  {
    MarkersAreLines();
    var lines := [BEGIN_PATCH] + body + [END_PATCH];
    SplitJoin(lines);
    JoinEnds(lines);
    TrimIdentity(JoinLines(lines));
    assert lines[1..|lines| - 1] == body;
  }

  /** Every complete list of hunks, printed as a command, means its own mutations
      and no others. */
  lemma PrintedPatchMeans(doc: Doc, mutations: seq<Mutation>)
    requires WellFormed(doc) && LastComplete(doc.items) && doc.items != []
    requires forall line | line in Print(doc) :: IsLine(line)
    ensures
      CommandMeans(CommandOf(Print(doc)), mutations) <==> mutations == MutationsOf(doc.items)
  {
    PrintedPatchBody(Print(doc));
    RunComplete(doc);
    ParsedIsMeaning(Print(doc), mutations);
  }
}
