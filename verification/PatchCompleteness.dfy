/** Every well-formed document is accepted: its last line can be taken away, and
    reading that line again gives the document back. */
module PatchCompleteness {
  import opened Options
  import opened Sequences
  import opened PatchText
  import opened PatchGrammar
  import opened PatchParser

  lemma NotAHeader(t: string)
    requires t == "" || t[0] != '*'
    ensures ReadHeader(t).NoHeader?
  {
  }

  lemma TrimEndFirst(line: string)
    ensures TrimEnd(line) != "" ==> line != "" && TrimEnd(line)[0] == line[0]
  {
  }

  lemma ReadContext(line: string)
    requires IsContext(line)
    ensures Read(line).context && !Read(line).open && !Read(line).eof && Read(line).moveTo.None?
    ensures ReadHeader(TrimEnd(line)).NoHeader?
  {
    TrimEndFirst(line);
    NotAHeader(TrimEnd(line));
  }

  lemma ReadOpen(line: string)
    requires IsOpen(TrimEnd(line))
    ensures Read(line).open && !Read(line).blank && Read(line).moveTo.None?
    ensures ReadHeader(TrimEnd(line)).NoHeader?
  {
    NotAHeader(TrimEnd(line));
  }

  lemma ReadMark(line: string)
    requires IsEofMark(line)
    ensures Read(line).eof && !Read(line).open && !Read(line).blank && Read(line).moveTo.None?
    ensures ReadHeader(TrimEnd(line)).NoHeader?
  {
    var t := TrimEnd(line);
    assert t[4] == 'E' && t[8] == 'o';
  }

  lemma ReadMove(line: string, destination: string)
    requires TrimEnd(line) == MOVE_TO + destination
    ensures Read(line).moveTo == Some(destination)
    ensures ReadHeader(TrimEnd(line)).NoHeader?
  {
    var t := TrimEnd(line);
    assert t[4] == 'M';
    assert t[|MOVE_TO|..] == destination;
  }

  lemma ReadBlank(line: string)
    requires TrimEnd(line) == ""
    ensures Read(line).blank && ReadHeader(TrimEnd(line)).NoHeader?
  {
  }

  /** A chunk before its last line, if it had begun by then. */
  lemma UndoChunk(c: Chunk, first: bool) returns (before: Option<Chunk>, line: string)
    requires ChunkOk(c, first)
    ensures ReadHeader(TrimEnd(line)).NoHeader?
    ensures before.Some? ==> ChunkOk(before.value, first) && !Read(line).open && ExtendChunk(before.value, line, Read(line)) == Some(c)
    ensures before.None? ==> Begins(c, line, first)
  {
    if c.after != [] {
      SplitLast(c.after);
      line := c.after[|c.after| - 1];
      ReadBlank(line);
      before := Some(c.(after := c.after[..|c.after| - 1]));
    } else if c.eof.Some? {
      line := c.eof.value;
      ReadMark(line);
      before := Some(c.(eof := None));
    } else if c.lines == [] {
      line := c.open.value;
      ReadOpen(line);
      before := None;
    } else {
      SplitLast(c.lines);
      line := c.lines[|c.lines| - 1];
      ReadContext(line);
      before := if c.open.None? && |c.lines| == 1 then None else Some(c.(lines := c.lines[..|c.lines| - 1]));
    }
  }

  /** The chunk is just this line: an opening, or the first content of an update. */
  predicate Begins(c: Chunk, line: string, first: bool) {
    && Read(line).moveTo.None?
    && (|| (Read(line).open && c == Chunk(Some(line), [], None, []))
        || (first && Read(line).context && !Read(line).open && !Read(line).eof && c == Chunk(None, [line], None, [])))
  }

  /** The chunks before their last line. */
  lemma UndoChunks(chunks: seq<Chunk>) returns (before: seq<Chunk>, line: string)
    requires chunks != [] && ChunksOk(chunks)
    ensures ChunksOk(before) && ReadHeader(TrimEnd(line)).NoHeader?
    ensures before != [] ==> ExtendChunks(before, line, Read(line)) == Some(chunks)
    ensures before == [] ==> |chunks| == 1 && Begins(chunks[0], line, true)
  {
    var n := |chunks| - 1;
    var init := chunks[..n];
    SplitLast(chunks);
    var c;
    c, line := UndoChunk(chunks[n], n == 0);
    InitChunksOk(chunks);
    if c.Some? {
      before := init + [c.value];
      assert before[..n] == init;
      AddChunkOk(init, c.value);
    } else {
      before := init;
    }
  }

  lemma InitChunksOk(chunks: seq<Chunk>)
    requires chunks != [] && ChunksOk(chunks)
    ensures
      var init := chunks[..|chunks| - 1];
      ChunksOk(init) && (init != [] ==> init[|init| - 1].lines != [])
  {
  }

  lemma AddChunkOk(init: seq<Chunk>, c: Chunk)
    requires ChunksOk(init) && (init != [] ==> init[|init| - 1].lines != []) && ChunkOk(c, init == [])
    ensures ChunksOk(init + [c])
  {
    PlacedGrown(init, c, ChunkOk);
  }

  lemma FirstChunk(item: Item, line: string)
    requires item.UpdateItem? && |item.chunks| == 1 && Begins(item.chunks[0], line, true)
    ensures ExtendPreamble(item.(chunks := []), line, Read(line)) == Some(item)
  {
    assert item.chunks == [item.chunks[0]];
  }

  /** An update with chunks, before its last line. */
  lemma UndoChunked(item: Item, afterUpdate: bool) returns (before: Item, line: string)
    requires item.UpdateItem? && ItemOk(item, afterUpdate) && item.chunks != []
    ensures before.UpdateItem? && ItemOk(before, afterUpdate) && ExtendUpdate(before, line) == Some(item)
    ensures ReadHeader(TrimEnd(line)).NoHeader?
  {
    var chunks;
    chunks, line := UndoChunks(item.chunks);
    before := item.(chunks := chunks);
    if chunks == [] {
      FirstChunk(item, line);
    }
  }

  /** An update without chunks before its last line. */
  lemma UndoPreamble(item: Item, afterUpdate: bool) returns (before: Item, line: string)
    requires item.UpdateItem? && ItemOk(item, afterUpdate) && item.chunks == []
    requires item.before != [] || item.move.Some?
    ensures before.UpdateItem? && before.chunks == [] && ItemOk(before, afterUpdate)
    ensures ExtendPreamble(before, line, Read(line)) == Some(item)
    ensures ReadHeader(TrimEnd(line)).NoHeader?
  {
    if item.move.Some? && item.move.value.after != [] {
      var move := item.move.value;
      SplitLast(move.after);
      line := move.after[|move.after| - 1];
      ReadMark(line);
      before := item.(move := Some(move.(after := move.after[..|move.after| - 1])));
    } else if item.move.Some? {
      line := item.move.value.line;
      ReadMove(line, item.move.value.destination);
      before := item.(move := None);
      assert item.move == Some(MoveLine(line, item.move.value.destination, []));
    } else {
      SplitLast(item.before);
      line := item.before[|item.before| - 1];
      ReadMark(line);
      before := item.(before := item.before[..|item.before| - 1]);
    }
  }

  predicate Bare(item: Item) {
    match item
    case AddItem(_, _, content) => content == []
    case DeleteItem(_, _) => true
    case UpdateItem(_, _, before, move, chunks) => before == [] && move.None? && chunks == []
  }

  /** A hunk before its last line, if that line is not its header. */
  lemma UndoItem(item: Item, afterUpdate: bool) returns (before: Item, line: string)
    requires ItemOk(item, afterUpdate) && !Bare(item)
    ensures ItemOk(before, afterUpdate) && ExtendItem(before, line) == Some(item)
    ensures before.UpdateItem? <==> item.UpdateItem?
    ensures ReadHeader(HeaderText(line, item.UpdateItem?)).NoHeader?
  {
    match item
    case AddItem(_, _, content) =>
      SplitLast(content);
      line := content[|content| - 1];
      before := item.(content := content[..|content| - 1]);
      assert line in content;
      TrimKeepsFirst(line);
      NotAHeader(Trim(line));
    case UpdateItem(_, _, _, _, chunks) =>
      if chunks != [] {
        before, line := UndoChunked(item, afterUpdate);
      } else {
        before, line := UndoPreamble(item, afterUpdate);
      }
  }

  lemma ReadAdd(t: string, path: string)
    requires t == ADD_FILE + path
    ensures ReadHeader(t) == AddHeader(path)
  {
    assert t[4] == 'A' && t[|ADD_FILE|..] == path;
  }

  lemma ReadDelete(t: string, path: string)
    requires t == DELETE_FILE + path
    ensures ReadHeader(t) == DeleteHeader(path)
  {
    assert t[4] == 'D' && t[|DELETE_FILE|..] == path;
  }

  lemma ReadUpdate(t: string, path: string)
    requires t == UPDATE_FILE + path
    ensures ReadHeader(t) == UpdateHeader(path)
  {
    assert t[4] == 'U' && t[|UPDATE_FILE|..] == path;
  }

  lemma BareHeader(item: Item, afterUpdate: bool)
    requires ItemOk(item, afterUpdate) && Bare(item)
    ensures !ReadHeader(HeaderText(item.header, afterUpdate)).EndHeader?
    ensures !ReadHeader(HeaderText(item.header, afterUpdate)).NoHeader?
    ensures StartItem(ReadHeader(HeaderText(item.header, afterUpdate)), item.header) == Some(item)
  {
    var t := HeaderText(item.header, afterUpdate);
    match item
    case AddItem(_, path, _) => ReadAdd(t, path);
    case DeleteItem(_, path) => ReadDelete(t, path);
    case UpdateItem(_, path, _, _, _) => ReadUpdate(t, path);
  }

  /** A document before its last line. */
  lemma Undo(doc: Doc) returns (before: Doc, line: string)
    requires WellFormed(doc) && doc != EMPTY
    ensures WellFormed(before) && Extend(before, line) == Some(doc)
  {
    if doc.end.Some? {
      before, line := UndoEnd(doc);
    } else {
      before, line := UndoItems(doc);
    }
  }

  lemma UndoEnd(doc: Doc) returns (before: Doc, line: string)
    requires WellFormed(doc) && doc.end.Some?
    ensures WellFormed(before) && Extend(before, line) == Some(doc)
  {
    var end := doc.end.value;
    if end.blanks != [] {
      SplitLast(end.blanks);
      line := end.blanks[|end.blanks| - 1];
      before := doc.(end := Some(end.(blanks := end.blanks[..|end.blanks| - 1])));
    } else {
      line := end.line;
      before := doc.(end := None);
    }
  }

  lemma UndoBare(items: seq<Item>)
    requires items != [] && ItemsOk(items) && Bare(items[|items| - 1])
    ensures Extend(Doc(items[..|items| - 1], None), items[|items| - 1].header) == Some(Doc(items, None))
  {
    var n := |items| - 1;
    var init := items[..n];
    SplitLast(items);
    InitOk(items);
    assert ItemOk(items[n], AfterUpdate(items, n));
    BareHeader(items[n], AfterUpdate(init, n));
  }

  lemma UndoLonger(init: seq<Item>, item: Item, last: Item, line: string)
    requires ExtendItem(item, line) == Some(last)
    requires ReadHeader(HeaderText(line, item.UpdateItem?)).NoHeader?
    ensures Extend(Doc(init + [item], None), line) == Some(Doc(init + [last], None))
  {
    LastGrows(init, item, last, line);
    assert HeaderOf(Doc(init + [item], None), line) == NoHeader;
  }

  lemma LastGrows(init: seq<Item>, item: Item, last: Item, line: string)
    requires ExtendItem(item, line) == Some(last)
    ensures ExtendFrom(Doc(init + [item], None), NoHeader, line) == Some(Doc(init + [last], None))
  {
    assert (init + [item])[..|init|] == init;
  }

  lemma UndoItems(doc: Doc) returns (before: Doc, line: string)
    requires WellFormed(doc) && doc.end.None? && doc.items != []
    ensures WellFormed(before) && Extend(before, line) == Some(doc)
  {
    var items := doc.items;
    var n := |items| - 1;
    if Bare(items[n]) {
      line := items[n].header;
      before := Doc(items[..n], None);
      InitOk(items);
      UndoBare(items);
    } else {
      var item;
      assert ItemOk(items[n], AfterUpdate(items, n));
      item, line := UndoItem(items[n], AfterUpdate(items, n));
      before := Doc(items[..n] + [item], None);
      ReplaceLastOk(items, item);
      UndoLonger(items[..n], item, items[n], line);
      SplitLast(items);
    }
  }

  /** Every well-formed document is what the parser reads from its print. */
  lemma {:induction false} RunComplete(doc: Doc)
    requires WellFormed(doc)
    ensures Run(Print(doc)) == Some(doc)
    decreases |Print(doc)|
  {
    if doc != EMPTY {
      var before, line := Undo(doc);
      ExtendSound(before, line);
      RunComplete(before);
      assert Print(doc)[..|Print(doc)| - 1] == Print(before);
    }
  }

  /** Printing loses nothing: two well-formed documents never print alike. */
  lemma PrintInjective(a: Doc, b: Doc)
    requires WellFormed(a) && WellFormed(b) && Print(a) == Print(b)
    ensures a == b
  {
    RunComplete(a);
    RunComplete(b);
  }

  /** The mutations of the document that was read, if it is a complete patch. */
  function Parsed(lines: seq<string>): Option<seq<Mutation>> {
    var doc := Run(lines);
    if doc.Some? && doc.value.items != [] && LastComplete(doc.value.items) then Some(MutationsOf(doc.value.items)) else None
  }

  /** The parser accepts exactly the bodies that the grammar describes, with the
      mutations that it describes, and these are unique. */
  lemma ParsedIsMeaning(lines: seq<string>, mutations: seq<Mutation>)
    ensures Parsed(lines) == Some(mutations) <==> Means(lines, mutations)
  {
    if Parsed(lines) == Some(mutations) {
      RunSound(lines);
    }
    if Means(lines, mutations) {
      var doc :| WellFormed(doc) && LastComplete(doc.items) && doc.items != [] && Print(doc) == lines && MutationsOf(doc.items) == mutations;
      RunComplete(doc);
    }
  }
}
