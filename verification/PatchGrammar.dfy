/** The language of patch bodies: what a body is made of, and how it is printed.
    A document keeps every line of the body, so printing it gives the body back. */
module PatchGrammar {
  import opened Options
  import opened PatchText

  const END_PATCH := "*** End Patch"
  const ADD_FILE := "*** Add File: "
  const DELETE_FILE := "*** Delete File: "
  const UPDATE_FILE := "*** Update File: "
  const MOVE_TO := "*** Move to: "
  const END_OF_FILE := "*** End of File"

  datatype Mutation =
    | Create(path: string)
    | Delete(path: string)
    | Update(path: string)
    | Move(source: string, destination: string)

  /** One chunk of an update: its `@@` line (the first chunk may have none), its
      content, an end-of-file mark, and the blank lines after the mark. */
  datatype Chunk = Chunk(open: Option<string>, lines: seq<string>, eof: Option<string>, after: seq<string>)

  datatype MoveLine = MoveLine(line: string, destination: string, after: seq<string>)

  /** One hunk. An update ignores end-of-file marks before its first chunk. */
  datatype Item =
    | AddItem(header: string, path: string, content: seq<string>)
    | DeleteItem(header: string, path: string)
    | UpdateItem(header: string, path: string, before: seq<string>, move: Option<MoveLine>, chunks: seq<Chunk>)

  datatype EndLine = EndLine(line: string, blanks: seq<string>)

  datatype Doc = Doc(items: seq<Item>, end: Option<EndLine>)

  const EMPTY := Doc([], None)

  predicate IsOpen(t: string) {
    t == "@@" || "@@ " <= t
  }

  predicate IsContext(line: string) {
    line == "" || line[0] == ' ' || line[0] == '+' || line[0] == '-'
  }

  predicate IsEofMark(line: string) {
    TrimEnd(line) == END_OF_FILE
  }

  predicate ChunkOk(c: Chunk, first: bool) {
    && (match c.open case None => first && c.lines != [] case Some(line) => IsOpen(TrimEnd(line)))
    && (forall line | line in c.lines :: IsContext(line))
    && (c.eof.Some? ==> c.lines != [] && IsEofMark(c.eof.value))
    && (c.eof.None? ==> c.after == [])
    && (forall line | line in c.after :: TrimEnd(line) == "")
  }

  /** A header is read without its trailing whitespace; leading whitespace is
      dropped too, unless it follows an update. */
  function HeaderText(line: string, afterUpdate: bool): string {
    if afterUpdate then TrimEnd(line) else Trim(line)
  }

  predicate ChunksOk(chunks: seq<Chunk>) {
    && (forall i | 0 <= i < |chunks| :: ChunkOk(chunks[i], i == 0))
    && (forall i | 0 <= i < |chunks| - 1 :: chunks[i].lines != [])
  }

  predicate MoveOk(move: Option<MoveLine>) {
    move.Some? ==>
      && move.value.destination != ""
      && TrimEnd(move.value.line) == MOVE_TO + move.value.destination
      && forall line | line in move.value.after :: IsEofMark(line)
  }

  predicate ItemOk(item: Item, afterUpdate: bool) {
    && item.path != ""
    && match item
       case AddItem(header, path, content) =>
         && HeaderText(header, afterUpdate) == ADD_FILE + path
         && forall line | line in content :: line != "" && line[0] == '+'
       case DeleteItem(header, path) => HeaderText(header, afterUpdate) == DELETE_FILE + path
       case UpdateItem(header, path, before, move, chunks) =>
         && HeaderText(header, afterUpdate) == UPDATE_FILE + path
         && (forall line | line in before :: IsEofMark(line))
         && MoveOk(move)
         && ChunksOk(chunks)
  }

  /** An update is complete when its last chunk has content. */
  predicate Complete(item: Item) {
    item.UpdateItem? ==> item.chunks != [] && item.chunks[|item.chunks| - 1].lines != []
  }

  predicate AfterUpdate(items: seq<Item>, i: nat)
    requires i <= |items|
  {
    i > 0 && items[i - 1].UpdateItem?
  }

  predicate LastComplete(items: seq<Item>) {
    items != [] ==> Complete(items[|items| - 1])
  }

  predicate ItemsOk(items: seq<Item>) {
    && (forall i | 0 <= i < |items| :: ItemOk(items[i], AfterUpdate(items, i)))
    && (forall i | 0 <= i < |items| - 1 :: Complete(items[i]))
  }

  /** Every hunk but the last must be complete, and the last one too before an end line. */
  predicate WellFormed(doc: Doc) {
    && ItemsOk(doc.items)
    && (doc.end.Some? ==>
      && LastComplete(doc.items)
      && HeaderText(doc.end.value.line, AfterUpdate(doc.items, |doc.items|)) == END_PATCH
      && forall line | line in doc.end.value.blanks :: Trim(line) == "")
  }

  function OptLine(line: Option<string>): seq<string> {
    if line.Some? then [line.value] else []
  }

  function PrintChunk(c: Chunk): seq<string> {
    OptLine(c.open) + c.lines + OptLine(c.eof) + c.after
  }

  function PrintChunks(chunks: seq<Chunk>): seq<string> {
    if chunks == [] then []
    else PrintChunks(chunks[..|chunks| - 1]) + PrintChunk(chunks[|chunks| - 1])
  }

  function PrintMove(move: Option<MoveLine>): seq<string> {
    if move.Some? then [move.value.line] + move.value.after else []
  }

  function PrintPreamble(header: string, before: seq<string>, move: Option<MoveLine>): seq<string> {
    [header] + before + PrintMove(move)
  }

  function PrintItem(item: Item): seq<string> {
    match item
    case AddItem(header, _, content) => [header] + content
    case DeleteItem(header, _) => [header]
    case UpdateItem(header, _, before, move, chunks) => PrintPreamble(header, before, move) + PrintChunks(chunks)
  }

  function PrintItems(items: seq<Item>): seq<string> {
    if items == [] then []
    else PrintItems(items[..|items| - 1]) + PrintItem(items[|items| - 1])
  }

  function Print(doc: Doc): seq<string> {
    PrintItems(doc.items) + if doc.end.Some? then [doc.end.value.line] + doc.end.value.blanks else []
  }

  function MutationOf(item: Item): Mutation {
    match item
    case AddItem(_, path, _) => Create(path)
    case DeleteItem(_, path) => Delete(path)
    case UpdateItem(_, path, _, move, _) => if move.Some? then Move(path, move.value.destination) else Update(path)
  }

  /** The mutations in order; an update with a move is one move. */
  function MutationsOf(items: seq<Item>): (r: seq<Mutation>)
    ensures |r| == |items|
    ensures forall i | 0 <= i < |items| :: r[i] == MutationOf(items[i])
  {
    seq(|items|, i requires 0 <= i < |items| => MutationOf(items[i]))
  }

  /** The body is a loose print of some complete document with these mutations. */
  ghost predicate Means(lines: seq<string>, mutations: seq<Mutation>) {
    exists doc :: WellFormed(doc) && LastComplete(doc.items) && doc.items != [] && Print(doc) == lines && MutationsOf(doc.items) == mutations
  }
}
