/** The line-state parser, and its equivalence with the grammar. */
module PatchParser {
  import opened Options
  import opened Sequences
  import opened PatchText
  import opened PatchGrammar

  datatype Header = EndHeader | AddHeader(path: string) | DeleteHeader(path: string) | UpdateHeader(path: string) | NoHeader

  function ReadHeader(t: string): Header {
    if t == END_PATCH then EndHeader
    else if ADD_FILE <= t then AddHeader(t[|ADD_FILE|..])
    else if DELETE_FILE <= t then DeleteHeader(t[|DELETE_FILE|..])
    else if UPDATE_FILE <= t then UpdateHeader(t[|UPDATE_FILE|..])
    else NoHeader
  }

  /** How a line reads inside an update. */
  datatype Reading = Reading(blank: bool, moveTo: Option<string>, open: bool, eof: bool, context: bool)

  function Read(line: string): Reading {
    var t := TrimEnd(line);
    Reading(t == "", if MOVE_TO <= t then Some(t[|MOVE_TO|..]) else None, IsOpen(t), t == END_OF_FILE, IsContext(line))
  }

  /** The next line of a chunk, other than the opening of another one. */
  function ExtendChunk(c: Chunk, line: string, r: Reading): Option<Chunk> {
    if c.eof.Some? then
      if r.blank then Some(c.(after := c.after + [line])) else None
    else if r.eof then
      if c.lines == [] then None else Some(c.(eof := Some(line)))
    else if r.context then Some(c.(lines := c.lines + [line]))
    else None
  }

  /** The next line of an update that has a chunk. */
  function ExtendChunks(chunks: seq<Chunk>, line: string, r: Reading): Option<seq<Chunk>>
    requires chunks != []
  {
    var init, last := chunks[..|chunks| - 1], chunks[|chunks| - 1];
    if r.open then
      if last.lines == [] then None else Some(chunks + [Chunk(Some(line), [], None, [])])
    else
      var c := ExtendChunk(last, line, r);
      if c.None? then None else Some(init + [c.value])
  }

  /** The next line of an update that has none yet. */
  function ExtendPreamble(item: Item, line: string, r: Reading): (next: Option<Item>)
    requires item.UpdateItem?
  {
    if item.move.None? && r.moveTo.Some? then
      if r.moveTo.value == "" then None else Some(item.(move := Some(MoveLine(line, r.moveTo.value, []))))
    else if r.open then Some(item.(chunks := [Chunk(Some(line), [], None, [])]))
    else if r.eof then
      Some(if item.move.None? then item.(before := item.before + [line])
           else item.(move := Some(item.move.value.(after := item.move.value.after + [line]))))
    else if r.context then Some(item.(chunks := [Chunk(None, [line], None, [])]))
    else None
  }

  function ExtendUpdate(item: Item, line: string): Option<Item>
    requires item.UpdateItem?
  {
    if item.chunks == [] then ExtendPreamble(item, line, Read(line))
    else
      var chunks := ExtendChunks(item.chunks, line, Read(line));
      if chunks.None? then None else Some(item.(chunks := chunks.value))
  }

  function StartItem(header: Header, line: string): Option<Item> {
    match header
    case AddHeader(path) => if path == "" then None else Some(AddItem(line, path, []))
    case DeleteHeader(path) => if path == "" then None else Some(DeleteItem(line, path))
    case UpdateHeader(path) => if path == "" then None else Some(UpdateItem(line, path, [], None, []))
    case _ => None
  }

  /** The document after a line that starts with this header, or with none. */
  function ExtendFrom(doc: Doc, header: Header, line: string): Option<Doc> {
    var items := doc.items;
    match header
    case EndHeader => if LastComplete(items) then Some(doc.(end := Some(EndLine(line, [])))) else None
    case NoHeader =>
      if items == [] then None
      else
        var init, last := items[..|items| - 1], items[|items| - 1];
        var next := ExtendItem(last, line);
        if next.Some? then Some(doc.(items := init + [next.value])) else None
    case _ =>
      var item := StartItem(header, line);
      if LastComplete(items) && item.Some? then Some(doc.(items := items + [item.value])) else None
  }

  function HeaderOf(doc: Doc, line: string): Header {
    ReadHeader(HeaderText(line, AfterUpdate(doc.items, |doc.items|)))
  }

  /** The document after one more line, or None if no document goes on like that. */
  function Extend(doc: Doc, line: string): Option<Doc> {
    if doc.end.Some? then
      if Trim(line) == "" then Some(doc.(end := Some(doc.end.value.(blanks := doc.end.value.blanks + [line])))) else None
    else ExtendFrom(doc, HeaderOf(doc, line), line)
  }

  function Run(lines: seq<string>): Option<Doc> {
    if lines == [] then Some(EMPTY)
    else
      var before := Run(lines[..|lines| - 1]);
      if before.None? then None else Extend(before.value, lines[|lines| - 1])
  }

  lemma PrintChunksLast(chunks: seq<Chunk>, c: Chunk)
    ensures PrintChunks(chunks + [c]) == PrintChunks(chunks) + PrintChunk(c)
  {
    assert (chunks + [c])[..|chunks|] == chunks;
  }

  lemma PrintItemsLast(items: seq<Item>, item: Item)
    ensures PrintItems(items + [item]) == PrintItems(items) + PrintItem(item)
  {
    assert (items + [item])[..|items|] == items;
  }

  lemma PrintFreshChunk(line: string)
    ensures PrintChunk(Chunk(Some(line), [], None, [])) == [line]
    ensures PrintChunk(Chunk(None, [line], None, [])) == [line]
    ensures PrintChunks([Chunk(Some(line), [], None, [])]) == [line]
    ensures PrintChunks([Chunk(None, [line], None, [])]) == [line]
  {
    PrintChunksLast([], Chunk(Some(line), [], None, []));
    PrintChunksLast([], Chunk(None, [line], None, []));
  }

  lemma PrintLongerChunk(c: Chunk, line: string)
    ensures c.eof.Some? ==> PrintChunk(c.(after := c.after + [line])) == PrintChunk(c) + [line]
    ensures c.eof.None? && c.after == [] ==> PrintChunk(c.(eof := Some(line))) == PrintChunk(c) + [line]
    ensures c.eof.None? && c.after == [] ==> PrintChunk(c.(lines := c.lines + [line])) == PrintChunk(c) + [line]
  {
  }

  lemma ExtendChunksPrints(chunks: seq<Chunk>, line: string, r: Reading)
    requires chunks != [] && ExtendChunks(chunks, line, r).Some?
    requires chunks[|chunks| - 1].eof.None? ==> chunks[|chunks| - 1].after == []
    ensures PrintChunks(ExtendChunks(chunks, line, r).value) == PrintChunks(chunks) + [line]
  {
    if r.open {
      PrintChunksLast(chunks, Chunk(Some(line), [], None, []));
      PrintFreshChunk(line);
    } else {
      LastChunkPrints(chunks, ExtendChunk(chunks[|chunks| - 1], line, r).value, line, r);
    }
  }

  lemma LastChunkPrints(chunks: seq<Chunk>, c: Chunk, line: string, r: Reading)
    requires chunks != [] && ExtendChunk(chunks[|chunks| - 1], line, r) == Some(c)
    requires chunks[|chunks| - 1].eof.None? ==> chunks[|chunks| - 1].after == []
    ensures PrintChunks(chunks[..|chunks| - 1] + [c]) == PrintChunks(chunks) + [line]
  {
    var n := |chunks| - 1;
    var init := chunks[..n];
    SplitLast(chunks);
    PrintChunksLast(init, chunks[n]);
    PrintChunksLast(init, c);
    PrintLongerChunk(chunks[n], line);
    Associative(PrintChunks(init), PrintChunk(chunks[n]), [line]);
  }

  lemma ExtendChunksOk(chunks: seq<Chunk>, line: string)
    requires chunks != [] && ChunksOk(chunks) && ExtendChunks(chunks, line, Read(line)).Some?
    ensures ChunksOk(ExtendChunks(chunks, line, Read(line)).value)
  {
    var next := ExtendChunks(chunks, line, Read(line)).value;
    forall i | 0 <= i < |next| ensures ChunkOk(next[i], i == 0) {
      if i < |chunks| {
        assert ChunkOk(chunks[i], i == 0);
      }
    }
  }

  lemma PrintLongerPreamble(header: string, before: seq<string>, move: Option<MoveLine>, line: string, destination: string)
    ensures PrintPreamble(header, before + [line], None) == PrintPreamble(header, before, None) + [line]
    ensures PrintPreamble(header, before, Some(MoveLine(line, destination, []))) == PrintPreamble(header, before, None) + [line]
    ensures move.Some? ==>
      PrintPreamble(header, before, Some(move.value.(after := move.value.after + [line]))) == PrintPreamble(header, before, move) + [line]
  {
    if move.Some? {
      assert [move.value.line] + (move.value.after + [line]) == PrintMove(move) + [line];
    }
  }

  lemma ExtendPreamblePrints(item: Item, line: string, r: Reading)
    requires item.UpdateItem? && item.chunks == [] && ExtendPreamble(item, line, r).Some?
    ensures PrintItem(ExtendPreamble(item, line, r).value) == PrintItem(item) + [line]
  {
    var next := ExtendPreamble(item, line, r).value;
    var preamble := PrintPreamble(item.header, item.before, item.move);
    assert PrintItem(item) == preamble;
    if next.chunks != [] {
      PrintFreshChunk(line);
    } else if next.move == item.move {
      PrintLongerPreamble(item.header, item.before, None, line, "");
      assert PrintItem(next) == PrintPreamble(item.header, item.before + [line], None);
    } else {
      PrintLongerPreamble(item.header, item.before, item.move, line, next.move.value.destination);
      assert PrintItem(next) == PrintPreamble(item.header, item.before, next.move);
    }
  }

  lemma PrefixSplit(marker: string, t: string)
    requires marker <= t
    ensures t == marker + t[|marker|..]
  {
  }

  lemma MoveReadOk(line: string)
    requires Read(line).moveTo.Some? && Read(line).moveTo.value != ""
    ensures MoveOk(Some(MoveLine(line, Read(line).moveTo.value, [])))
  {
    PrefixSplit(MOVE_TO, TrimEnd(line));
  }

  lemma MarkAppended(marks: seq<string>, line: string)
    requires Read(line).eof && forall mark | mark in marks :: IsEofMark(mark)
    ensures forall mark | mark in marks + [line] :: IsEofMark(mark)
  {
  }

  lemma FreshChunkOk(line: string)
    ensures Read(line).open ==> ChunksOk([Chunk(Some(line), [], None, [])])
    ensures Read(line).context ==> ChunksOk([Chunk(None, [line], None, [])])
  {
  }

  lemma ExtendPreambleOk(item: Item, line: string, afterUpdate: bool)
    requires item.UpdateItem? && item.chunks == [] && ItemOk(item, afterUpdate)
    requires ExtendPreamble(item, line, Read(line)).Some?
    ensures ItemOk(ExtendPreamble(item, line, Read(line)).value, afterUpdate)
  {
    var r := Read(line);
    FreshChunkOk(line);
    if r.moveTo.Some? && r.moveTo.value != "" {
      MoveReadOk(line);
    }
    if r.eof {
      MarkAppended(item.before, line);
      if item.move.Some? {
        MarkAppended(item.move.value.after, line);
      }
    }
  }

  lemma ExtendUpdateOk(item: Item, line: string, afterUpdate: bool)
    requires item.UpdateItem? && ItemOk(item, afterUpdate)
    requires ExtendUpdate(item, line).Some?
    ensures ExtendUpdate(item, line).value.UpdateItem? && ItemOk(ExtendUpdate(item, line).value, afterUpdate)
  {
    if item.chunks == [] {
      ExtendPreambleOk(item, line, afterUpdate);
    } else {
      ExtendChunksOk(item.chunks, line);
    }
  }

  lemma ChunksGrown(item: Item, chunks: seq<Chunk>, line: string)
    requires item.UpdateItem? && PrintChunks(chunks) == PrintChunks(item.chunks) + [line]
    ensures PrintItem(item.(chunks := chunks)) == PrintItem(item) + [line]
  {
    Associative(PrintPreamble(item.header, item.before, item.move), PrintChunks(item.chunks), [line]);
  }

  lemma ExtendUpdatePrints(item: Item, line: string, afterUpdate: bool)
    requires item.UpdateItem? && ItemOk(item, afterUpdate)
    requires ExtendUpdate(item, line).Some?
    ensures PrintItem(ExtendUpdate(item, line).value) == PrintItem(item) + [line]
  {
    var r := Read(line);
    if item.chunks == [] {
      ExtendPreamblePrints(item, line, r);
    } else {
      var last := |item.chunks| - 1;
      assert ChunkOk(item.chunks[last], last == 0);
      ExtendChunksPrints(item.chunks, line, r);
      ChunksGrown(item, ExtendChunks(item.chunks, line, r).value, line);
    }
  }

  lemma StartItemOk(line: string, afterUpdate: bool)
    requires StartItem(ReadHeader(HeaderText(line, afterUpdate)), line).Some?
    ensures
      var item := StartItem(ReadHeader(HeaderText(line, afterUpdate)), line).value;
      ItemOk(item, afterUpdate) && PrintItem(item) == [line]
  {
    var t := HeaderText(line, afterUpdate);
    HeaderSplit(t);
    match ReadHeader(t)
    case AddHeader(path) => assert ItemOk(AddItem(line, path, []), afterUpdate);
    case DeleteHeader(path) => assert ItemOk(DeleteItem(line, path), afterUpdate);
    case UpdateHeader(path) => FreshUpdateOk(line, path, afterUpdate);
  }

  /** A header is its marker and its path. */
  lemma HeaderSplit(t: string)
    ensures
      match ReadHeader(t)
      case AddHeader(path) => t == ADD_FILE + path
      case DeleteHeader(path) => t == DELETE_FILE + path
      case UpdateHeader(path) => t == UPDATE_FILE + path
      case _ => true
  {
    match ReadHeader(t)
    case AddHeader(_) => PrefixSplit(ADD_FILE, t);
    case DeleteHeader(_) => PrefixSplit(DELETE_FILE, t);
    case UpdateHeader(_) => PrefixSplit(UPDATE_FILE, t);
    case _ =>
  }

  lemma FreshUpdateOk(line: string, path: string, afterUpdate: bool)
    requires path != "" && HeaderText(line, afterUpdate) == UPDATE_FILE + path
    ensures ItemOk(UpdateItem(line, path, [], None, []), afterUpdate)
    ensures PrintItem(UpdateItem(line, path, [], None, [])) == [line]
  {
  }

  /** The next line of the last hunk, which is not a header. */
  function ExtendItem(item: Item, line: string): Option<Item> {
    match item
    case AddItem(_, _, content) =>
      if line != "" && line[0] == '+' then Some(item.(content := content + [line])) else None
    case DeleteItem(_, _) => None
    case UpdateItem(_, _, _, _, _) => ExtendUpdate(item, line)
  }

  lemma ExtendItemSound(item: Item, line: string, afterUpdate: bool)
    requires ItemOk(item, afterUpdate) && ExtendItem(item, line).Some?
    ensures
      var next := ExtendItem(item, line).value;
      && ItemOk(next, afterUpdate) && PrintItem(next) == PrintItem(item) + [line]
      && (next.UpdateItem? <==> item.UpdateItem?)
  {
    if item.UpdateItem? {
      ExtendUpdateOk(item, line, afterUpdate);
      ExtendUpdatePrints(item, line, afterUpdate);
    }
  }

  /** All items are well formed where they stand, by any measure of it. */
  ghost predicate AllOk(items: seq<Item>, ok: (Item, bool) -> bool) {
    forall i | 0 <= i < |items| :: ok(items[i], AfterUpdate(items, i))
  }

  lemma AllOkPrefix(items: seq<Item>, n: nat, ok: (Item, bool) -> bool)
    requires AllOk(items, ok) && n <= |items|
    ensures AllOk(items[..n], ok)
  {
    forall i | 0 <= i < n ensures ok(items[..n][i], AfterUpdate(items[..n], i)) {
      assert AfterUpdate(items[..n], i) == AfterUpdate(items, i);
      assert ok(items[i], AfterUpdate(items, i));
    }
  }

  lemma AllOkGrown(items: seq<Item>, item: Item, ok: (Item, bool) -> bool)
    requires AllOk(items, ok) && ok(item, AfterUpdate(items, |items|))
    ensures AllOk(items + [item], ok)
  {
    var next := items + [item];
    forall i | 0 <= i < |next| ensures ok(next[i], AfterUpdate(next, i)) {
      assert AfterUpdate(next, i) == AfterUpdate(items, i);
      assert i < |items| ==> ok(items[i], AfterUpdate(items, i));
    }
  }

  lemma ItemsOkIs(items: seq<Item>)
    ensures ItemsOk(items) <==> AllOk(items, ItemOk) && AllButLastComplete(items)
  {
  }

  predicate AllButLastComplete(items: seq<Item>) {
    forall i | 0 <= i < |items| - 1 :: Complete(items[i])
  }

  lemma CompleteGrown(items: seq<Item>, item: Item)
    requires AllButLastComplete(items) && LastComplete(items)
    ensures AllButLastComplete(items + [item])
  {
  }

  lemma AddItemOk(items: seq<Item>, item: Item)
    requires ItemsOk(items) && LastComplete(items) && ItemOk(item, AfterUpdate(items, |items|))
    ensures ItemsOk(items + [item])
  {
    ItemsOkIs(items);
    AllOkGrown(items, item, ItemOk);
    CompleteGrown(items, item);
    ItemsOkIs(items + [item]);
  }

  lemma InitOk(items: seq<Item>)
    requires items != [] && ItemsOk(items)
    ensures
      var init := items[..|items| - 1];
      ItemsOk(init) && LastComplete(init) && AfterUpdate(init, |init|) == AfterUpdate(items, |items| - 1)
  {
    var init := items[..|items| - 1];
    ItemsOkIs(items);
    AllOkPrefix(items, |items| - 1, ItemOk);
    ItemsOkIs(init);
  }

  lemma ReplaceLastOk(items: seq<Item>, item: Item)
    requires items != [] && ItemsOk(items)
    requires ItemOk(item, AfterUpdate(items, |items| - 1))
    ensures ItemsOk(items[..|items| - 1] + [item])
  {
    InitOk(items);
    AddItemOk(items[..|items| - 1], item);
  }

  lemma ReplaceLastPrints(items: seq<Item>, item: Item, line: string)
    requires items != [] && PrintItem(item) == PrintItem(items[|items| - 1]) + [line]
    ensures PrintItems(items[..|items| - 1] + [item]) == PrintItems(items) + [line]
  {
    var n := |items| - 1;
    PrintItemsLast(items[..n], item);
    PrintItemsLast(items[..n], items[n]);
    SplitLast(items);
    Associative(PrintItems(items[..n]), PrintItem(items[n]), [line]);
  }

  lemma GrowLast(items: seq<Item>, line: string)
    requires items != [] && ItemsOk(items) && ExtendItem(items[|items| - 1], line).Some?
    ensures
      var next := items[..|items| - 1] + [ExtendItem(items[|items| - 1], line).value];
      ItemsOk(next) && PrintItems(next) == PrintItems(items) + [line]
  {
    var n := |items| - 1;
    ExtendItemSound(items[n], line, AfterUpdate(items, n));
    ReplaceLastOk(items, ExtendItem(items[n], line).value);
    ReplaceLastPrints(items, ExtendItem(items[n], line).value, line);
  }

  lemma AddItemLast(items: seq<Item>, item: Item, line: string)
    requires ItemsOk(items) && LastComplete(items)
    requires ItemOk(item, AfterUpdate(items, |items|)) && PrintItem(item) == [line]
    ensures ItemsOk(items + [item]) && PrintItems(items + [item]) == PrintItems(items) + [line]
  {
    var next := items + [item];
    AddItemOk(items, item);
    PrintItemsLast(items, item);
  }

  lemma EndRead(t: string)
    ensures ReadHeader(t).EndHeader? <==> t == END_PATCH
  {
  }

  lemma EndLineSound(doc: Doc, line: string)
    requires WellFormed(doc) && doc.end.None? && LastComplete(doc.items)
    requires HeaderText(line, AfterUpdate(doc.items, |doc.items|)) == END_PATCH
    ensures WellFormed(doc.(end := Some(EndLine(line, []))))
    ensures Print(doc.(end := Some(EndLine(line, [])))) == Print(doc) + [line]
  {
  }

  lemma BlankSound(doc: Doc, line: string)
    requires WellFormed(doc) && doc.end.Some? && Trim(line) == ""
    ensures
      var next := doc.(end := Some(doc.end.value.(blanks := doc.end.value.blanks + [line])));
      WellFormed(next) && Print(next) == Print(doc) + [line]
  {
    var end := doc.end.value;
    BlanksGrown(end.blanks, line);
    TailGrown(PrintItems(doc.items), end.line, end.blanks, line);
  }

  lemma BlanksGrown(blanks: seq<string>, line: string)
    requires (forall blank | blank in blanks :: Trim(blank) == "") && Trim(line) == ""
    ensures forall blank | blank in blanks + [line] :: Trim(blank) == ""
  {
    AllGrown(blanks, line, (blank: string) => Trim(blank) == "");
  }

  lemma TailGrown(head: seq<string>, first: string, blanks: seq<string>, line: string)
    ensures head + ([first] + (blanks + [line])) == (head + ([first] + blanks)) + [line]
  {
    Associative([first], blanks, [line]);
    Associative(head, [first] + blanks, [line]);
  }

  lemma ExtendSound(doc: Doc, line: string)
    requires WellFormed(doc) && Extend(doc, line).Some?
    ensures WellFormed(Extend(doc, line).value)
    ensures Print(Extend(doc, line).value) == Print(doc) + [line]
  {
    var items := doc.items;
    if doc.end.Some? {
      BlankSound(doc, line);
    } else {
      var header := HeaderOf(doc, line);
      if header.EndHeader? {
        EndRead(HeaderText(line, AfterUpdate(items, |items|)));
        EndLineSound(doc, line);
      } else if header.NoHeader? {
        GrowLast(items, line);
        ItemsSound(doc, line);
      } else {
        StartItemOk(line, AfterUpdate(items, |items|));
        AddItemLast(items, StartItem(header, line).value, line);
        ItemsSound(doc, line);
      }
    }
  }

  lemma ItemsSound(doc: Doc, line: string)
    requires doc.end.None? && Extend(doc, line).Some? && Extend(doc, line).value.end.None?
    requires ItemsOk(Extend(doc, line).value.items)
    requires PrintItems(Extend(doc, line).value.items) == PrintItems(doc.items) + [line]
    ensures WellFormed(Extend(doc, line).value)
    ensures Print(Extend(doc, line).value) == Print(doc) + [line]
  {
    var next := Extend(doc, line).value;
    assert Print(next) == PrintItems(next.items) + [] == PrintItems(next.items);
    assert Print(doc) == PrintItems(doc.items) + [] == PrintItems(doc.items);
  }

  /** Whatever the parser accepts is a document whose print is the input. */
  lemma {:induction false} RunSound(lines: seq<string>)
    requires Run(lines).Some?
    ensures WellFormed(Run(lines).value) && Print(Run(lines).value) == lines
  {
    if lines != [] {
      RunSound(lines[..|lines| - 1]);
      ExtendSound(Run(lines[..|lines| - 1]).value, lines[|lines| - 1]);
      SplitLast(lines);
    }
  }
}
