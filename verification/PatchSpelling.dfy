/** Patches as one would write them, letter by letter, and what they come to. */
module PatchSpelling {
  import opened Options
  import opened PatchText
  import opened PatchGrammar
  import opened CodexPatch
  import opened Text

  /** A file to add with these lines, to delete, or to change by one chunk, perhaps under
      a new name. */
  datatype Hunk =
    | Added(path: string, content: seq<string>)
    | Deleted(path: string)
    | Changed(path: string, destination: Option<string>, lines: seq<string>)

  /** A path that a header line can end with. */
  predicate Writable(path: string) {
    path != "" && '\n' !in path && !IsRustWhitespace(path[|path| - 1])
  }

  predicate WellBuilt(h: Hunk) {
    && Writable(h.path)
    && match h
       case Added(_, content) => forall line | line in content :: '\n' !in line && (line != "" ==> line[|line| - 1] != '\r')
       case Deleted(_) => true
       case Changed(_, destination, lines) =>
         && (destination.Some? ==> Writable(destination.value))
         && lines != []
         && forall line | line in lines :: line != "" && line[0] in " +-" && '\n' !in line && line[|line| - 1] != '\r'
  }

  function Plus(content: seq<string>): (r: seq<string>)
    ensures |r| == |content| && forall i | 0 <= i < |r| :: r[i] == "+" + content[i]
  {
    seq(|content|, i requires 0 <= i < |content| => "+" + content[i])
  }

  function Lines(h: Hunk): seq<string> {
    match h
    case Added(path, content) => [ADD_FILE + path] + Plus(content)
    case Deleted(path) => [DELETE_FILE + path]
    case Changed(path, destination, lines) => [UPDATE_FILE + path] + MoveLines(destination) + ([OPEN] + lines)
  }

  const OPEN := "@@"

  function MoveLines(destination: Option<string>): seq<string> {
    if destination.Some? then [MOVE_TO + destination.value] else []
  }

  function AllLines(hunks: seq<Hunk>): seq<string> {
    if hunks == [] then [] else AllLines(hunks[..|hunks| - 1]) + Lines(hunks[|hunks| - 1])
  }

  /** What each hunk does to the files. */
  predicate Does(m: Mutation, h: Hunk) {
    match h
    case Added(path, _) => m == Create(path)
    case Deleted(path) => m == Delete(path)
    case Changed(path, None, _) => m == Update(path)
    case Changed(path, Some(destination), _) => m == Move(path, destination)
  }

  function MoveFor(destination: Option<string>): Option<MoveLine> {
    if destination.Some? then Some(MoveLine(MOVE_TO + destination.value, destination.value, [])) else None
  }

  function ItemFor(h: Hunk): Item {
    match h
    case Added(path, content) => AddItem(ADD_FILE + path, path, Plus(content))
    case Deleted(path) => DeleteItem(DELETE_FILE + path, path)
    case Changed(path, destination, lines) =>
      UpdateItem(UPDATE_FILE + path, path, [], MoveFor(destination), [Chunk(Some(OPEN), lines, None, [])])
  }

  predicate Title(title: string) {
    title != "" && title[0] == '*' && forall i | 0 <= i < |title| :: title[i] != '\n'
  }

  lemma AddTitle()
    ensures Title(ADD_FILE)
  {
  }

  lemma DeleteTitle()
    ensures Title(DELETE_FILE)
  {
  }

  lemma UpdateTitle()
    ensures Title(UPDATE_FILE)
  {
  }

  lemma MoveTitle()
    ensures Title(MOVE_TO)
  {
  }

  lemma OpenReads()
    ensures IsOpen(TrimEnd(OPEN)) && IsLine(OPEN)
  {
    TrimIdentity(OPEN);
  }

  /** A header of stars, a title and a path is read as it stands. */
  lemma HeaderReads(title: string, path: string)
    requires Title(title) && Writable(path)
    ensures Trim(title + path) == title + path && TrimEnd(title + path) == title + path
    ensures IsLine(title + path)
  {
    var line := title + path;
    assert line[0] == '*' && line[|line| - 1] == path[|path| - 1];
    TrimIdentity(line);
    assert forall i | 0 <= i < |line| :: line[i] != '\n';
  }

  lemma HeaderTextReads(title: string, path: string, afterUpdate: bool)
    requires Title(title) && Writable(path)
    ensures HeaderText(title + path, afterUpdate) == title + path
  {
    HeaderReads(title, path);
  }

  lemma MoveForOk(destination: Option<string>)
    requires destination.Some? ==> Writable(destination.value)
    ensures MoveOk(MoveFor(destination))
  {
    MoveTitle();
    if destination.Some? {
      HeaderReads(MOVE_TO, destination.value);
    }
  }

  lemma ChunkForOk(lines: seq<string>)
    requires forall line | line in lines :: line != "" && line[0] in " +-"
    ensures ChunksOk([Chunk(Some(OPEN), lines, None, [])])
  {
    OpenReads();
  }

  lemma ItemForOk(h: Hunk, afterUpdate: bool)
    requires WellBuilt(h)
    ensures ItemOk(ItemFor(h), afterUpdate)
  {
    match h
    case Added(path, _) =>
      AddTitle();
      HeaderTextReads(ADD_FILE, path, afterUpdate);
    case Deleted(path) =>
      DeleteTitle();
      HeaderTextReads(DELETE_FILE, path, afterUpdate);
    case Changed(path, destination, lines) =>
      UpdateTitle();
      HeaderTextReads(UPDATE_FILE, path, afterUpdate);
      MoveForOk(destination);
      ChunkForOk(lines);
  }

  lemma ItemForDoes(h: Hunk)
    requires WellBuilt(h)
    ensures Complete(ItemFor(h)) && Does(MutationOf(ItemFor(h)), h)
    ensures forall m :: Does(m, h) ==> m == MutationOf(ItemFor(h))
  {
  }

  lemma ItemForPrints(h: Hunk)
    ensures PrintItem(ItemFor(h)) == Lines(h)
  {
    if h.Changed? {
      var chunk := Chunk(Some(OPEN), h.lines, None, []);
      assert [chunk][..0] == [];
      assert PrintChunk(chunk) == [OPEN] + h.lines;
      assert PrintChunks([chunk]) == PrintChunk(chunk);
    }
  }

  predicate Proper(lines: seq<string>) {
    forall line | line in lines :: IsLine(line)
  }

  lemma PlusProper(content: seq<string>)
    requires forall line | line in content :: '\n' !in line && (line != "" ==> line[|line| - 1] != '\r')
    ensures Proper(Plus(content))
  {
    forall i | 0 <= i < |content| ensures IsLine(Plus(content)[i]) {
      assert content[i] in content;
      assert '\n' !in Plus(content)[i];
    }
  }

  lemma LinesProper(h: Hunk)
    requires WellBuilt(h)
    ensures Proper(Lines(h))
  {
    match h
    case Added(path, content) =>
      AddTitle();
      HeaderReads(ADD_FILE, path);
      PlusProper(content);
    case Deleted(path) =>
      DeleteTitle();
      HeaderReads(DELETE_FILE, path);
    case Changed(path, destination, lines) => ChangedProper(path, destination, lines);
  }

  lemma ChangedProper(path: string, destination: Option<string>, lines: seq<string>)
    requires WellBuilt(Changed(path, destination, lines))
    ensures Proper([UPDATE_FILE + path] + MoveLines(destination) + ([OPEN] + lines))
  {
    UpdateTitle();
    HeaderReads(UPDATE_FILE, path);
    MoveProper(destination);
    OpenReads();
    assert Proper(lines);
    ProperBoth([OPEN], lines);
    ProperBoth([UPDATE_FILE + path], MoveLines(destination));
    ProperBoth([UPDATE_FILE + path] + MoveLines(destination), [OPEN] + lines);
  }

  lemma MoveProper(destination: Option<string>)
    requires destination.Some? ==> Writable(destination.value)
    ensures Proper(MoveLines(destination))
  {
    MoveTitle();
    if destination.Some? {
      HeaderReads(MOVE_TO, destination.value);
    }
  }

  function ItemsFor(hunks: seq<Hunk>): (r: seq<Item>)
    ensures |r| == |hunks| && forall i | 0 <= i < |r| :: r[i] == ItemFor(hunks[i])
  {
    seq(|hunks|, i requires 0 <= i < |hunks| => ItemFor(hunks[i]))
  }

  lemma ItemsForInit(hunks: seq<Hunk>)
    requires hunks != []
    ensures ItemsFor(hunks)[..|hunks| - 1] == ItemsFor(hunks[..|hunks| - 1])
  {
  }

  lemma {:induction false} ItemsForPrint(hunks: seq<Hunk>)
    requires forall h | h in hunks :: WellBuilt(h)
    ensures PrintItems(ItemsFor(hunks)) == AllLines(hunks) && Proper(AllLines(hunks))
  {
    if hunks != [] {
      var n := |hunks| - 1;
      ItemsForPrint(hunks[..n]);
      ItemForPrints(hunks[n]);
      LinesProper(hunks[n]);
      ItemsForInit(hunks);
      ProperBoth(AllLines(hunks[..n]), Lines(hunks[n]));
    }
  }

  lemma ProperBoth(a: seq<string>, b: seq<string>)
    requires Proper(a) && Proper(b)
    ensures Proper(a + b)
  {
  }

  lemma DocumentFor(hunks: seq<Hunk>) returns (doc: Doc)
    requires hunks != [] && forall h | h in hunks :: WellBuilt(h)
    ensures doc.items == ItemsFor(hunks) && WellFormed(doc) && LastComplete(doc.items)
    ensures Print(doc) == AllLines(hunks) && Proper(Print(doc))
  {
    doc := Doc(ItemsFor(hunks), None);
    forall i | 0 <= i < |hunks| ensures ItemOk(doc.items[i], AfterUpdate(doc.items, i)) && Complete(doc.items[i]) {
      ItemForOk(hunks[i], AfterUpdate(doc.items, i));
      ItemForDoes(hunks[i]);
    }
    ItemsForPrint(hunks);
  }

  /** Each of the mutations is what its hunk spells out. */
  predicate Spelled(hunks: seq<Hunk>, mutations: seq<Mutation>) {
    |mutations| == |hunks| && forall i | 0 <= i < |hunks| :: Does(mutations[i], hunks[i])
  }

  lemma MutationsFor(hunks: seq<Hunk>, mutations: seq<Mutation>)
    requires forall h | h in hunks :: WellBuilt(h)
    ensures mutations == MutationsOf(ItemsFor(hunks)) <==> Spelled(hunks, mutations)
  {
    forall i | 0 <= i < |hunks|
      ensures Does(MutationOf(ItemFor(hunks[i])), hunks[i])
      ensures forall m :: Does(m, hunks[i]) ==> m == MutationOf(ItemFor(hunks[i]))
    {
      ItemForDoes(hunks[i]);
    }
  }

  lemma DocumentMeans(doc: Doc, body: seq<string>, mutations: seq<Mutation>)
    requires WellFormed(doc) && LastComplete(doc.items) && doc.items != []
    requires Print(doc) == body && Proper(body)
    ensures CommandMeans(CommandOf(body), mutations) <==> mutations == MutationsOf(doc.items)
  {
    PrintedPatchMeans(doc, mutations);
  }

  /** A command that lists hunks between its two markers is accepted, with one mutation
      for each hunk, the one that the hunk spells out. */
  lemma SpelledOut(hunks: seq<Hunk>, mutations: seq<Mutation>)
    requires hunks != [] && forall h | h in hunks :: WellBuilt(h)
    ensures CommandMeans(CommandOf(AllLines(hunks)), mutations) <==> Spelled(hunks, mutations)
  {
    MutationsFor(hunks, mutations);
    var doc := DocumentFor(hunks);
    DocumentMeans(doc, AllLines(hunks), mutations);
  }

  /** The letters of the headers. */
  lemma Letters(path: string, destination: string, line: string)
    ensures Lines(Added(path, [line])) == ["*** Add File: " + path, "+" + line]
    ensures Lines(Deleted(path)) == ["*** Delete File: " + path]
    ensures Lines(Changed(path, None, [line])) == ["*** Update File: " + path, "@@", line]
    ensures Lines(Changed(path, Some(destination), [line])) == ["*** Update File: " + path, "*** Move to: " + destination, "@@", line]
  {
  }

  /** And of the markers. */
  lemma MarkerLetters(line: string)
    ensures CommandOf([line]) == "*** Begin Patch" + ['\n'] + (line + ['\n'] + "*** End Patch")
  {
    JoinedThree(BEGIN_PATCH, line, END_PATCH);
  }

  /** A trimmed bounded patch may stand in a heredoc of any of the three spellings. */
  lemma InHeredoc(opener: string, text: string)
    requires opener == "<<EOF" || opener == "<<'EOF'" || opener == "<<\"EOF\""
    requires Trim(text) == text && IsBounded(SplitLines(text))
    ensures BoundedLines(opener + ['\n'] + (text + ['\n'] + "EOF")) == BoundedLines(text)
  {
    HeredocChangesNothing(opener, text);
  }

  lemma JoinedThree(first: string, line: string, last: string)
    ensures JoinLines([first] + [line] + [last]) == first + ['\n'] + (line + ['\n'] + last)
  {
    var lines := [first] + [line] + [last];
    assert lines[1..] == [line, last] && [line, last][1..] == [last];
    assert JoinLines([line, last]) == line + ['\n'] + JoinLines([last]);
  }
}
