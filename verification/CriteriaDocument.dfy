/** Task documents: reading the declared criteria, rendering their checkboxes, and
    reading again. */
module CriteriaDocument {
  import opened Options
  import opened Sequences
  import opened Text
  import opened CriteriaPolicy
  import opened CriteriaLines

  const MAX_CRITERIA := 126
  const ID_MAX_LENGTH := 128

  datatype Declared = Declared(id: string, unit: string, task: string, kind: Kind, checked: bool, ordinal: nat, line: nat, text: string)

  datatype Observation = Missing | Malformed(line: nat) | Duplicate(id: string) | Valid(declarations: seq<Declared>)

  /** What the parser remembers of the lines so far. */
  datatype State = State(fence: Option<char>, unit: Option<string>, task: Option<string>, section: Option<Kind>, declarations: seq<Declared>)

  const START := State(None, None, None, None, [])

  datatype Turn = On(state: State) | Stop(observation: Observation)

  predicate IsCriterionId(id: string) {
    |id| <= ID_MAX_LENGTH && IdParts(id).Some?
  }

  predicate Known(declarations: seq<Declared>, id: string) {
    exists i | 0 <= i < |declarations| :: declarations[i].id == id
  }

  /** A checkbox line inside a section. */
  function Declare(s: State, kind: Kind, declaration: Option<Parsed>, number: nat): Turn {
    if declaration.None? || s.unit.None? || s.task.None? || !IsCriterionId(declaration.value.id) then Stop(Malformed(number))
    else
      var p, parts := declaration.value, IdParts(declaration.value.id).value;
      if parts.unit != s.unit.value || parts.task != s.task.value || (kind.Edge? != parts.edge) then Stop(Malformed(number))
      else if Known(s.declarations, p.id) then Stop(Duplicate(p.id))
      else if |s.declarations| == MAX_CRITERIA then Stop(Malformed(number))
      else
        On(s.(declarations := s.declarations
          + [Declared(p.id, s.unit.value, s.task.value, kind, p.checked, |s.declarations|, number, p.text)]))
  }

  /** One line, as it reads. */
  function Next(s: State, r: Reading, declaration: Option<Parsed>, number: nat): Turn {
    if r.fence.Some? then
      On(s.(fence := if s.fence.None? then r.fence else if s.fence == r.fence then None else s.fence))
    else if s.fence.Some? then On(s)
    else if r.unit.Some? then On(s.(unit := r.unit, task := None, section := None))
    else if r.task.Some? then
      if s.unit != Some(r.task.value.unit) then Stop(Malformed(number))
      else On(s.(task := Some(r.task.value.task), section := None))
    else if r.mainSection then On(s.(section := Some(Main)))
    else if r.edgeSection then On(s.(section := Some(Edge)))
    else if 1 <= r.level <= 5 then
      On(s.(section := None, task := if r.level <= 3 then None else s.task, unit := if r.level <= 2 then None else s.unit))
    else if s.section.None? then if r.criterionLike then Stop(Malformed(number)) else On(s)
    else if !r.item then On(s)
    else Declare(s, s.section.value, declaration, number)
  }

  function Step(turn: Turn, line: string, number: nat): Turn {
    if turn.Stop? then turn else Next(turn.state, Read(line), Declaration(line), number)
  }

  function Folded(lines: seq<string>, n: nat, step: (Turn, string, nat) -> Turn): Turn
    requires n <= |lines|
  {
    if n == 0 then On(START) else step(Folded(lines, n - 1, step), lines[n - 1], n)
  }

  /** The first `n` lines. */
  function After(lines: seq<string>, n: nat): Turn
    requires n <= |lines|
  {
    Folded(lines, n, Step)
  }

  function Observed(turn: Turn): Observation {
    match turn
    case Stop(observation) => observation
    case On(s) => if s.declarations == [] then Malformed(0) else Valid(s.declarations)
  }

  function Inspected(content: string): Observation {
    Observed(After(SplitLines(content), |SplitLines(content)|))
  }

  lemma {:induction false} FoldStops(lines: seq<string>, n: nat, m: nat, step: (Turn, string, nat) -> Turn)
    requires n <= m <= |lines| && Folded(lines, n, step).Stop?
    requires forall turn: Turn, line, number :: turn.Stop? ==> step(turn, line, number) == turn
    ensures Folded(lines, m, step) == Folded(lines, n, step)
  {
    if n < m {
      FoldStops(lines, n, m - 1, step);
    }
  }

  lemma StopsForGood(lines: seq<string>, n: nat, m: nat)
    requires n <= m <= |lines| && After(lines, n).Stop?
    ensures After(lines, m) == After(lines, n)
  {
    FoldStops(lines, n, m, Step);
  }

  /** `inspectTaskDocument` */
  method InspectTaskDocument(content: Option<string>) returns (r: Observation)
    ensures r == if content.None? then Missing else Inspected(content.value)
  {
    if content.None? {
      return Missing;
    }
    var lines := SplitLines(content.value);
    var state := START;
    for n := 0 to |lines|
      invariant After(lines, n) == On(state)
    {
      var turn := Next(state, Read(lines[n]), Declaration(lines[n]), n + 1);
      if turn.Stop? {
        StopsForGood(lines, n + 1, |lines|);
        return turn.observation;
      }
      state := turn.state;
    }
    r := if state.declarations == [] then Malformed(0) else Valid(state.declarations);
  }

  type Outcomes = map<string, Outcome>

  /** The identifier of a criterion-shaped line, and that something follows it. */
  function Shape(s: string): Option<string> {
    if !HasBox(s) then None
    else
      var e := IdEnd(s, 6);
      if e.None? || e.value + 2 >= |s| || s[e.value] != ':' || s[e.value + 1] != ' ' then None else Some(s[6..e.value])
  }

  function Mark(outcome: Outcome): char {
    if outcome.Passed? then 'x' else ' '
  }

  /** Where the first line separator is, other than a line feed or a return. */
  function SeparatorAt(s: string): (i: nat)
    ensures i <= |s| && (forall k | 0 <= k < i :: !IsTerminator(s[k])) && (i < |s| ==> IsTerminator(s[i]))
  {
    if s == "" || IsTerminator(s[0]) then 0 else 1 + SeparatorAt(s[1..])
  }

  /** What is done to a stretch without line feeds and returns: a criterion-shaped
      start takes all of it; otherwise the search goes on after a separator. */
  function RenderPiece(s: string, outcomes: Outcomes): (r: string)
    ensures |r| == |s|
    decreases |s|
  {
    var id, i := Shape(s), SeparatorAt(s);
    if id.Some? then if id.value in outcomes then s[3 := Mark(outcomes[id.value])] else s
    else if i == |s| then s
    else s[..i + 1] + RenderPiece(s[i + 1..], outcomes)
  }

  predicate IsBreak(c: char) {
    c == '\n' || c == '\r'
  }

  function BreakAt(s: string): (i: nat)
    ensures i <= |s| && (forall k | 0 <= k < i :: !IsBreak(s[k])) && (i < |s| ==> IsBreak(s[i]))
  {
    if s == "" || IsBreak(s[0]) then 0 else 1 + BreakAt(s[1..])
  }

  ghost predicate KeepsLength(piece: string -> string) {
    forall p :: |piece(p)| == |p|
  }

  /** The stretches between line feeds and returns, each treated on its own. */
  function ByPieces(content: string, piece: string -> string): (r: string)
    requires KeepsLength(piece)
    ensures |r| == |content|
    decreases |content|
  {
    var i := BreakAt(content);
    if i == |content| then piece(content) else piece(content[..i]) + ([content[i]] + ByPieces(content[i + 1..], piece))
  }

  function PieceRenderer(outcomes: Outcomes): (piece: string -> string)
    ensures KeepsLength(piece)
  {
    (p: string) => RenderPiece(p, outcomes)
  }

  /** `renderCriterionCheckboxes`, once its input has been checked. */
  function Render(content: string, outcomes: Outcomes): (r: string)
    ensures |r| == |content|
  {
    ByPieces(content, PieceRenderer(outcomes))
  }

  datatype Rendered = Text(content: string) | NotAcceptanceInput | UnknownCriterion

  method RenderCriterionCheckboxes(content: string, outcomes: Outcomes) returns (r: Rendered)
    ensures r.NotAcceptanceInput? <==> !Inspected(content).Valid?
    ensures r.UnknownCriterion? <==>
      Inspected(content).Valid? && exists id :: id in outcomes && !Known(Inspected(content).declarations, id)
    ensures r.Text? ==> r.content == Render(content, outcomes)
  {
    var observed := InspectTaskDocument(Some(content));
    if !observed.Valid? {
      return NotAcceptanceInput;
    }
    if exists id | id in outcomes :: !Known(observed.declarations, id) {
      return UnknownCriterion;
    }
    r := Text(Render(content, outcomes));
  }

  /** From `k` to the next break. */
  function HardLine(s: string, k: nat): string
    requires k <= |s|
  {
    s[k..][..BreakAt(s[k..])]
  }

  /** The one kind of change: the box of a criterion-shaped line whose criterion has
      an outcome, and that line starts after a terminator or at the very start. */
  predicate Ticked(s: string, r: string, outcomes: Outcomes, k: nat)
    requires |r| == |s| && k < |s|
  {
    && k >= 3 && (k == 3 || IsTerminator(s[k - 4]))
    && Shape(HardLine(s, k - 3)).Some?
    && Shape(HardLine(s, k - 3)).value in outcomes
    && r[k] == if outcomes[Shape(HardLine(s, k - 3)).value].Passed? then 'x' else ' '
  }

  lemma {:induction false} BreakAtConcat(a: string, b: string)
    requires (forall k | 0 <= k < |a| :: !IsBreak(a[k])) && (b != "" ==> IsBreak(b[0]))
    ensures BreakAt(a + b) == |a|
  {
    if a != "" {
      assert (a + b)[1..] == a[1..] + b;
      BreakAtConcat(a[1..], b);
    } else {
      assert a + b == b;
    }
  }

  /** What a change inside a piece is. */
  predicate TickedIn(s: string, r: string, outcomes: Outcomes, k: nat)
    requires |r| == |s| && k < |s|
  {
    && k >= 3 && (k == 3 || IsTerminator(s[k - 4]))
    && Shape(s[k - 3..]).Some? && Shape(s[k - 3..]).value in outcomes
    && r[k] == Mark(outcomes[Shape(s[k - 3..]).value])
  }

  lemma TickedFurther(s: string, i: nat, rest: string, r: string, outcomes: Outcomes, k: nat)
    requires i < k < |s| && IsTerminator(s[i]) && |rest| == |s| - i - 1 && r == s[..i + 1] + rest
    requires TickedIn(s[i + 1..], rest, outcomes, k - i - 1)
    ensures TickedIn(s, r, outcomes, k)
  {
    assert s[i + 1..][k - i - 1 - 3..] == s[k - 3..];
  }

  /** Inside a piece every change is a tick. */
  lemma {:induction false} PieceTicks(s: string, outcomes: Outcomes, k: nat)
    requires k < |s| && RenderPiece(s, outcomes)[k] != s[k]
    ensures TickedIn(s, RenderPiece(s, outcomes), outcomes, k)
    decreases |s|
  {
    if Shape(s).Some? {
      assert s[0..] == s;
    } else {
      var i := SeparatorAt(s);
      PieceTicks(s[i + 1..], outcomes, k - i - 1);
      TickedFurther(s, i, RenderPiece(s[i + 1..], outcomes), RenderPiece(s, outcomes), outcomes, k);
    }
  }

  lemma WholeIsHard(s: string, k: nat)
    requires k <= |s| && forall j | 0 <= j < |s| :: !IsBreak(s[j])
    ensures HardLine(s, k) == s[k..]
  {
    assert s[k..] + "" == s[k..];
    BreakAtConcat(s[k..], "");
  }

  lemma HardUpTo(s: string, i: nat, k: nat)
    requires k <= i < |s| && IsBreak(s[i]) && forall j | 0 <= j < i :: !IsBreak(s[j])
    ensures HardLine(s, k) == s[..i][k..]
  {
    assert s[k..] == s[k..i] + s[i..];
    BreakAtConcat(s[k..i], s[i..]);
  }

  lemma HardAfter(s: string, i: nat, k: nat)
    requires i <= k <= |s|
    ensures HardLine(s, k) == HardLine(s[i..], k - i)
  {
    assert s[i..][k - i..] == s[k..];
  }

  lemma HardPiece(s: string, i: nat, k: nat)
    requires k <= i <= |s| && (forall j | 0 <= j < i :: !IsBreak(s[j])) && (i < |s| ==> IsBreak(s[i]))
    ensures HardLine(s, k) == s[..i][k..]
  {
    if i < |s| {
      HardUpTo(s, i, k);
    } else {
      assert s[..i] == s;
      WholeIsHard(s, k);
    }
  }

  lemma TicksBefore(s: string, i: nat, r: string, outcomes: Outcomes, k: nat)
    requires k < i <= |s| && |r| == |s| && (forall j | 0 <= j < i :: !IsBreak(s[j])) && (i < |s| ==> IsBreak(s[i]))
    requires TickedIn(s[..i], r[..i], outcomes, k)
    ensures Ticked(s, r, outcomes, k)
  {
    HardPiece(s, i, k - 3);
  }

  lemma TicksAfter(s: string, i: nat, r: string, outcomes: Outcomes, k: nat)
    requires i < k < |s| && |r| == |s| && IsBreak(s[i])
    requires Ticked(s[i + 1..], r[i + 1..], outcomes, k - i - 1)
    ensures Ticked(s, r, outcomes, k)
  {
    HardAfter(s, i + 1, k - 3);
  }

  /** The result, cut at the first break. */
  ghost predicate Cut(s: string, r: string, piece: string -> string, i: nat)
    requires KeepsLength(piece)
  {
    && i <= |s| && |r| == |s|
    && r[..i] == piece(s[..i])
    && (i < |s| ==> IsBreak(s[i]) && r[i] == s[i] && r[i + 1..] == ByPieces(s[i + 1..], piece))
  }

  lemma CutConcat(a: string, c: char, b: string)
    ensures var r := a + ([c] + b); r[..|a|] == a && r[|a|] == c && r[|a| + 1..] == b
  {
  }

  lemma PiecesCut(s: string, piece: string -> string)
    requires KeepsLength(piece)
    ensures Cut(s, ByPieces(s, piece), piece, BreakAt(s))
  {
    var i := BreakAt(s);
    if i == |s| {
      assert s[..i] == s && ByPieces(s, piece)[..i] == ByPieces(s, piece);
    } else {
      CutConcat(piece(s[..i]), s[i], ByPieces(s[i + 1..], piece));
    }
  }

  /** A piece renderer alters ticks only. */
  ghost predicate TicksOnly(piece: string -> string, outcomes: Outcomes)
    requires KeepsLength(piece)
  {
    forall p, k {:trigger TickedIn(p, piece(p), outcomes, k)} | 0 <= k < |p| && piece(p)[k] != p[k] :: TickedIn(p, piece(p), outcomes, k)
  }

  lemma AlteredBefore(s: string, r: string, piece: string -> string, outcomes: Outcomes, i: nat, k: nat)
    requires KeepsLength(piece) && TicksOnly(piece, outcomes)
    requires Cut(s, r, piece, i) && k < i && r[k] != s[k] && forall j | 0 <= j < i :: !IsBreak(s[j])
    ensures Ticked(s, r, outcomes, k)
  {
    assert r[..i][k] == r[k] && s[..i][k] == s[k];
    TicksBefore(s, i, r, outcomes, k);
  }

  lemma AlteredAfter(s: string, r: string, piece: string -> string, i: nat, k: nat)
    requires KeepsLength(piece)
    requires Cut(s, r, piece, i) && i <= k < |s| && r[k] != s[k]
    ensures i < k && ByPieces(s[i + 1..], piece)[k - i - 1] != s[i + 1..][k - i - 1]
  {
    assert r[i + 1..][k - i - 1] == r[k];
  }

  /** Every change is a tick. */
  ghost predicate AllTicked(s: string, r: string, outcomes: Outcomes)
    requires |r| == |s|
  {
    forall k {:trigger Ticked(s, r, outcomes, k)} | 0 <= k < |s| && r[k] != s[k] :: Ticked(s, r, outcomes, k)
  }

  lemma AllTickedCut(s: string, r: string, piece: string -> string, outcomes: Outcomes, i: nat)
    requires KeepsLength(piece) && TicksOnly(piece, outcomes)
    requires Cut(s, r, piece, i) && forall j | 0 <= j < i :: !IsBreak(s[j])
    requires i < |s| ==> AllTicked(s[i + 1..], r[i + 1..], outcomes)
    ensures AllTicked(s, r, outcomes)
  {
    forall k | 0 <= k < |s| && r[k] != s[k] ensures Ticked(s, r, outcomes, k) {
      if k < i {
        AlteredBefore(s, r, piece, outcomes, i, k);
      } else {
        AlteredAfter(s, r, piece, i, k);
        assert Ticked(s[i + 1..], r[i + 1..], outcomes, k - i - 1);
        TicksAfter(s, i, r, outcomes, k);
      }
    }
  }

  lemma {:induction false} PiecesTick(s: string, piece: string -> string, outcomes: Outcomes)
    requires KeepsLength(piece) && TicksOnly(piece, outcomes)
    ensures AllTicked(s, ByPieces(s, piece), outcomes)
    decreases |s|
  {
    PiecesCut(s, piece);
    var i := BreakAt(s);
    if i < |s| {
      PiecesTick(s[i + 1..], piece, outcomes);
    }
    AllTickedCut(s, ByPieces(s, piece), piece, outcomes, i);
  }

  /** Rendering alters nothing but the boxes of mapped criteria. */
  lemma RenderAltersOnlyTicks(s: string, outcomes: Outcomes, k: nat)
    requires k < |s| && Render(s, outcomes)[k] != s[k]
    ensures Ticked(s, Render(s, outcomes), outcomes, k)
  {
    var piece := PieceRenderer(outcomes);
    forall p, j | 0 <= j < |p| && piece(p)[j] != p[j] ensures TickedIn(p, piece(p), outcomes, j) {
      PieceTicks(p, outcomes, j);
    }
    PiecesTick(s, piece, outcomes);
  }

  /** Rendering keeps breaks, and lines keep their places. */
  lemma RenderKeepsBreaks(s: string, outcomes: Outcomes)
    ensures forall k | 0 <= k < |s| :: IsBreak(Render(s, outcomes)[k]) <==> IsBreak(s[k])
    ensures forall k | 0 <= k < |s| && IsBreak(s[k]) :: Render(s, outcomes)[k] == s[k]
    ensures Near(s, Render(s, outcomes))
  {
    var r := Render(s, outcomes);
    forall k | 0 <= k < |s| && r[k] != s[k] ensures BoxAt(s, k) && BoxAt(r, k) {
      TickIsBox(s, outcomes, k);
    }
  }

  lemma TickedBox(s: string, r: string, outcomes: Outcomes, k: nat)
    requires |r| == |s| && k < |s| && Ticked(s, r, outcomes, k)
    ensures BoxAt(s, k) && (r[k] == ' ' || r[k] == 'x')
  {
    var line := HardLine(s, k - 3);
    assert HasBox(line);
    assert forall j | 0 <= j < 6 :: line[j] == s[k - 3 + j];
  }

  lemma TickIsBox(s: string, outcomes: Outcomes, k: nat)
    requires k < |s| && Render(s, outcomes)[k] != s[k]
    ensures BoxAt(s, k) && BoxAt(Render(s, outcomes), k)
  {
    var r := Render(s, outcomes);
    RenderAltersOnlyTicks(s, outcomes, k);
    TickedBox(s, r, outcomes, k);
    forall j | j == k - 4 || j == k - 3 || j == k - 2 || j == k - 1 || j == k + 1 ensures 0 <= j < |s| ==> r[j] == s[j] {
      if 0 <= j < |s| && r[j] != s[j] {
        RenderAltersOnlyTicks(s, outcomes, j);
        TickedBox(s, r, outcomes, j);
      }
    }
  }

  lemma PiecesStep(a: string, c: char, rest: string, piece: string -> string)
    requires KeepsLength(piece) && IsBreak(c) && forall j | 0 <= j < |a| :: !IsBreak(a[j])
    ensures ByPieces(a + ([c] + rest), piece) == piece(a) + ([c] + ByPieces(rest, piece))
  {
    BreakAtConcat(a, [c] + rest);
    CutConcat(a, c, rest);
  }

  lemma PiecesWhole(a: string, piece: string -> string)
    requires KeepsLength(piece) && forall j | 0 <= j < |a| :: !IsBreak(a[j])
    ensures ByPieces(a, piece) == piece(a)
  {
    assert a + "" == a;
    BreakAtConcat(a, "");
  }

  lemma Regroup(a: string, c: char, b: string, rest: string)
    ensures (a + ([c] + b)) + rest == a + ([c] + (b + rest))
  {
    Associative(a, [c] + b, rest);
    Associative([c], b, rest);
  }

  lemma PiecesJoin(first: string, d: char, rest: string, c: char, b: string, piece: string -> string)
    requires KeepsLength(piece) && IsBreak(c) && IsBreak(d) && forall j | 0 <= j < |first| :: !IsBreak(first[j])
    requires ByPieces(rest + ([c] + b), piece) == ByPieces(rest, piece) + ([c] + ByPieces(b, piece))
    ensures
      var a := first + ([d] + rest);
      ByPieces(a + ([c] + b), piece) == ByPieces(a, piece) + ([c] + ByPieces(b, piece))
  {
    Regroup(first, d, rest, [c] + b);
    PiecesStep(first, d, rest + ([c] + b), piece);
    PiecesStep(first, d, rest, piece);
    Regroup(piece(first), d, ByPieces(rest, piece), [c] + ByPieces(b, piece));
  }

  lemma CutAt(a: string, i: nat)
    requires i < |a|
    ensures a == a[..i] + ([a[i]] + a[i + 1..])
  {
  }

  /** A line feed cuts rendering in two; so does a return. */
  lemma {:induction false} PiecesConcat(a: string, c: char, b: string, piece: string -> string)
    requires KeepsLength(piece) && IsBreak(c)
    ensures ByPieces(a + ([c] + b), piece) == ByPieces(a, piece) + ([c] + ByPieces(b, piece))
    decreases |a|
  {
    var i := BreakAt(a);
    if i == |a| {
      PiecesWhole(a, piece);
      PiecesStep(a, c, b, piece);
    } else {
      var first, rest := a[..i], a[i + 1..];
      PiecesConcat(rest, c, b, piece);
      PiecesJoin(first, a[i], rest, c, b, piece);
      CutAt(a, i);
    }
  }

  lemma RenderConcat(a: string, b: string, outcomes: Outcomes)
    ensures Render(a + (['\n'] + b), outcomes) == Render(a, outcomes) + (['\n'] + Render(b, outcomes))
    ensures Render(a + ['\r'], outcomes) == Render(a, outcomes) + ['\r']
  {
    PiecesConcat(a, '\n', b, PieceRenderer(outcomes));
    PiecesConcat(a, '\r', "", PieceRenderer(outcomes));
    assert ['\r'] + "" == ['\r'];
    assert ByPieces("", PieceRenderer(outcomes)) == "";
  }

  lemma RenderDropsReturn(line: string, outcomes: Outcomes)
    ensures DropReturn(Render(line, outcomes)) == Render(DropReturn(line), outcomes)
  {
    RenderKeepsBreaks(line, outcomes);
    if line != "" && line[|line| - 1] == '\r' {
      SplitLast(line);
      RenderConcat(line[..|line| - 1], "", outcomes);
    }
  }

  lemma LineEndRendered(s: string, outcomes: Outcomes)
    ensures LineEnd(Render(s, outcomes)) == LineEnd(s)
  {
    RenderKeepsBreaks(s, outcomes);
    var r, i := Render(s, outcomes), LineEnd(s);
    assert r[..i] + r[i..] == r;
    assert forall k | 0 <= k < i :: r[k] == s[k] || !IsBreak(s[k]);
    LineEndOf(r[..i], r[i..]);
  }

  function RenderLines(lines: seq<string>, outcomes: Outcomes): (r: seq<string>)
    ensures |r| == |lines| && forall i | 0 <= i < |r| :: r[i] == Render(lines[i], outcomes)
  {
    seq(|lines|, i requires 0 <= i < |lines| => Render(lines[i], outcomes))
  }

  lemma RenderLinesFirst(line: string, lines: seq<string>, outcomes: Outcomes)
    ensures RenderLines([line] + lines, outcomes) == [Render(line, outcomes)] + RenderLines(lines, outcomes)
  {
  }

  lemma SplitAtFeed(line: string, rest: string)
    requires forall j | 0 <= j < |line| :: line[j] != '\n'
    ensures SplitLines(line + (['\n'] + rest)) == [DropReturn(line)] + SplitLines(rest)
  {
    Associative(line, ['\n'], rest);
    SplitFirst(line + (['\n'] + rest), line, rest);
  }

  /** The lines of the rendered document are the rendered lines. */
  lemma {:induction false} SplitRendered(s: string, outcomes: Outcomes)
    ensures SplitLines(Render(s, outcomes)) == RenderLines(SplitLines(s), outcomes)
    decreases |s|
  {
    var i := LineEnd(s);
    if i < |s| {
      var line, rest := s[..i], s[i + 1..];
      assert s == line + (['\n'] + rest);
      SplitRendered(rest, outcomes);
      RenderConcat(line, rest, outcomes);
      RenderKeepsBreaks(line, outcomes);
      SplitAtFeed(line, rest);
      SplitAtFeed(Render(line, outcomes), Render(rest, outcomes));
      RenderDropsReturn(line, outcomes);
      RenderLinesFirst(DropReturn(line), SplitLines(rest), outcomes);
    } else {
      LineEndRendered(s, outcomes);
      SplitSingle(s);
      SplitSingle(Render(s, outcomes));
    }
  }

  lemma {:induction false} DigitsShift(s: string, i: nat, t: string, k: nat)
    requires i + |t| < |s| && k <= |t| && t == s[i..i + |t|] && !IsDigit(s[i + |t|])
    ensures DigitsEnd(s, i + k) == i + DigitsEnd(t, k)
    decreases |t| - k
  {
    if k < |t| && IsDigit(t[k]) {
      DigitsShift(s, i, t, k + 1);
    }
  }

  lemma DottedShift(s: string, i: nat, t: string, k: nat)
    requires i + |t| < |s| && k <= |t| && t == s[i..i + |t|] && s[i + |t|] == ':' && DottedEnd(t, k).Some?
    ensures DottedEnd(s, i + k) == Some(i + DottedEnd(t, k).value)
  {
    DigitsShift(s, i, t, k);
  }

  lemma NumberShift(s: string, i: nat, t: string, k: nat)
    requires i + |t| < |s| && k <= |t| && t == s[i..i + |t|] && s[i + |t|] == ':' && NumberEnd(t, k).Some?
    ensures NumberEnd(s, i + k) == Some(i + NumberEnd(t, k).value)
  {
    DigitsShift(s, i, t, if t[k] == 'E' then k + 1 else k);
  }

  /** An identifier followed by a colon is found as such inside a line. */
  lemma IdInside(s: string, i: nat, t: string)
    requires i + |t| < |s| && t == s[i..i + |t|] && s[i + |t|] == ':' && IdEnd(t, 0) == Some(|t|)
    ensures IdEnd(s, i) == Some(i + |t|)
  {
    var a := DottedEnd(t, 3).value;
    var b := DottedEnd(t, a).value;
    StartsShift(s, i, t);
    DottedShift(s, i, t, 3);
    DottedShift(s, i, t, a);
    NumberShift(s, i, t, b);
    IdOf(s, i, i + a, i + b, i + |t|);
  }

  lemma IdOf(s: string, i: nat, a: nat, b: nat, c: nat)
    requires StartsId(s, i) && a <= |s| && b <= |s|
    requires DottedEnd(s, i + 3) == Some(a) && DottedEnd(s, a) == Some(b) && NumberEnd(s, b) == Some(c)
    ensures IdEnd(s, i) == Some(c)
  {
  }

  lemma StartsShift(s: string, i: nat, t: string)
    requires i + |t| < |s| && t == s[i..i + |t|] && StartsId(t, 0)
    ensures StartsId(s, i)
  {
    assert t[0] == s[i] && t[1] == s[i + 1] && t[2] == s[i + 2];
  }

  /** A declaration of a criterion is criterion-shaped, and is rendered as a whole. */
  lemma DeclarationShape(line: string)
    requires Declaration(line).Some? && IdParts(Declaration(line).value.id).Some?
    ensures Shape(line) == Some(Declaration(line).value.id)
  {
    IdInside(line, 6, line[6..WordEnd(line, 6) - 1]);
  }

  lemma DeclarationHasNoBreak(line: string)
    requires Declaration(line).Some?
    ensures forall k | 0 <= k < |line| :: !IsTerminator(line[k])
  {
    var w := WordEnd(line, 6);
    forall k | 0 <= k < |line| ensures !IsTerminator(line[k]) {
      assert 6 <= k < w ==> !IsSpace(line[k]);
    }
  }

  /** The declaration with the outcome's tick. */
  function RecheckedLine(p: Parsed, outcomes: Outcomes): Parsed {
    if p.id in outcomes then p.(checked := outcomes[p.id].Passed?) else p
  }

  lemma RenderDeclaration(line: string, outcomes: Outcomes)
    ensures Read(Render(line, outcomes)) == Read(line)
    ensures Declaration(Render(line, outcomes)).Some? <==> Declaration(line).Some?
    ensures Declaration(line).Some? ==> Declaration(Render(line, outcomes)).value.id == Declaration(line).value.id
    ensures Declaration(line).Some? && IdParts(Declaration(line).value.id).Some? ==>
      Declaration(Render(line, outcomes)).value == RecheckedLine(Declaration(line).value, outcomes)
  {
    RenderKeepsBreaks(line, outcomes);
    ReadAgrees(line, Render(line, outcomes));
    DeclarationAgrees(line, Render(line, outcomes));
    if Declaration(line).Some? && IdParts(Declaration(line).value.id).Some? {
      DeclarationShape(line);
      DeclarationHasNoBreak(line);
      PiecesWhole(line, PieceRenderer(outcomes));
      assert Render(line, outcomes) == RenderPiece(line, outcomes);
    }
  }

  function Rechecked(d: Declared, outcomes: Outcomes): Declared {
    if d.id in outcomes then d.(checked := outcomes[d.id].Passed?) else d
  }

  /** The same declarations in the same order, ticked as the outcomes say. */
  function RecheckedAll(ds: seq<Declared>, outcomes: Outcomes): (r: seq<Declared>)
    ensures |r| == |ds| && forall i | 0 <= i < |r| :: r[i] == Rechecked(ds[i], outcomes)
  {
    seq(|ds|, i requires 0 <= i < |ds| => Rechecked(ds[i], outcomes))
  }

  function RecheckedTurn(turn: Turn, outcomes: Outcomes): Turn {
    if turn.Stop? then turn else On(turn.state.(declarations := RecheckedAll(turn.state.declarations, outcomes)))
  }

  lemma KnownRechecked(ds: seq<Declared>, outcomes: Outcomes, id: string)
    ensures Known(RecheckedAll(ds, outcomes), id) <==> Known(ds, id)
  {
    var rs := RecheckedAll(ds, outcomes);
    assert forall i | 0 <= i < |ds| :: rs[i].id == ds[i].id;
  }

  lemma RecheckedLast(ds: seq<Declared>, d: Declared, outcomes: Outcomes)
    ensures RecheckedAll(ds + [d], outcomes) == RecheckedAll(ds, outcomes) + [Rechecked(d, outcomes)]
  {
  }

  lemma DeclareRechecked(s: State, kind: Kind, p: Option<Parsed>, q: Option<Parsed>, number: nat, outcomes: Outcomes)
    requires (p.Some? <==> q.Some?) && (p.Some? ==> q.value.id == p.value.id)
    requires p.Some? && IdParts(p.value.id).Some? ==> q.value == RecheckedLine(p.value, outcomes)
    ensures Declare(s.(declarations := RecheckedAll(s.declarations, outcomes)), kind, q, number)
         == RecheckedTurn(Declare(s, kind, p, number), outcomes)
  {
    if p.Some? && IsCriterionId(p.value.id) && s.unit.Some? && s.task.Some? {
      KnownRechecked(s.declarations, outcomes, p.value.id);
      RecheckedLast(s.declarations, Declared(p.value.id, s.unit.value, s.task.value, kind, p.value.checked, |s.declarations|, number, p.value.text), outcomes);
    }
  }

  lemma StepRechecked(turn: Turn, line: string, number: nat, outcomes: Outcomes)
    ensures Step(RecheckedTurn(turn, outcomes), Render(line, outcomes), number) == RecheckedTurn(Step(turn, line, number), outcomes)
  {
    RenderDeclaration(line, outcomes);
    if turn.On? {
      NextRechecked(turn.state, Read(line), Declaration(line), Declaration(Render(line, outcomes)), number, outcomes);
    }
  }

  lemma NextRechecked(s: State, r: Reading, p: Option<Parsed>, q: Option<Parsed>, number: nat, outcomes: Outcomes)
    requires (p.Some? <==> q.Some?) && (p.Some? ==> q.value.id == p.value.id)
    requires p.Some? && IdParts(p.value.id).Some? ==> q.value == RecheckedLine(p.value, outcomes)
    ensures Next(s.(declarations := RecheckedAll(s.declarations, outcomes)), r, q, number) == RecheckedTurn(Next(s, r, p, number), outcomes)
  {
    if s.section.Some? {
      DeclareRechecked(s, s.section.value, p, q, number, outcomes);
    }
  }

  /** A change of lines that every step turns into the same change of state. */
  lemma {:induction false} FoldCommutes(lines: seq<string>, changed: seq<string>, n: nat, step: (Turn, string, nat) -> Turn, f: string -> string, g: Turn -> Turn)
    requires n <= |lines| == |changed| && (forall i | 0 <= i < |lines| :: changed[i] == f(lines[i]))
    requires g(On(START)) == On(START)
    requires forall turn, line, k :: step(g(turn), f(line), k) == g(step(turn, line, k))
    ensures Folded(changed, n, step) == g(Folded(lines, n, step))
  {
    if n > 0 {
      FoldCommutes(lines, changed, n - 1, step, f, g);
    }
  }

  lemma ObservedRechecked(turn: Turn, outcomes: Outcomes)
    requires Observed(turn).Valid? && (turn.Stop? ==> !turn.observation.Valid?)
    ensures Observed(RecheckedTurn(turn, outcomes)) == Valid(RecheckedAll(Observed(turn).declarations, outcomes))
  {
  }

  lemma {:induction false} NeverStopsValid(lines: seq<string>, n: nat)
    requires n <= |lines|
    ensures After(lines, n).Stop? ==> !After(lines, n).observation.Valid?
  {
    if n > 0 {
      NeverStopsValid(lines, n - 1);
      var turn := After(lines, n - 1);
      if turn.On? {
        NextNeverValid(turn.state, Read(lines[n - 1]), Declaration(lines[n - 1]), n);
      }
    }
  }

  lemma NextNeverValid(s: State, r: Reading, p: Option<Parsed>, number: nat)
    ensures Next(s, r, p, number).Stop? ==> !Next(s, r, p, number).observation.Valid?
  {
  }

  lemma AllRechecked(lines: seq<string>, outcomes: Outcomes)
    ensures After(RenderLines(lines, outcomes), |lines|) == RecheckedTurn(After(lines, |lines|), outcomes)
  {
    var f := (line: string) => Render(line, outcomes);
    var g := (turn: Turn) => RecheckedTurn(turn, outcomes);
    var step := Step;
    forall turn, line, k ensures step(g(turn), f(line), k) == g(step(turn, line, k)) {
      StepRechecked(turn, line, k, outcomes);
    }
    assert RecheckedAll([], outcomes) == [];
    FoldCommutes(lines, RenderLines(lines, outcomes), |lines|, step, f, g);
  }

  /** Render, then read: for every document that reads as valid, the rendered text
      reads as the same declarations in the same order, ticked exactly as the
      outcomes say where there is one, and as before where there is none. */
  lemma RenderThenInspect(content: string, outcomes: Outcomes)
    requires Inspected(content).Valid?
    ensures Inspected(Render(content, outcomes)) == Valid(RecheckedAll(Inspected(content).declarations, outcomes))
  {
    var lines := SplitLines(content);
    SplitRendered(content, outcomes);
    AllRechecked(lines, outcomes);
    NeverStopsValid(lines, |lines|);
    ObservedRechecked(After(lines, |lines|), outcomes);
  }

  lemma {:induction false} DigitsLocal(a: string, b: string, i: nat)
    requires |a| == |b| && i <= |a| && DigitsEnd(a, i) < |a|
    requires forall k | i <= k <= DigitsEnd(a, i) :: a[k] == b[k]
    ensures DigitsEnd(b, i) == DigitsEnd(a, i)
    decreases |a| - i
  {
    if IsDigit(a[i]) {
      DigitsLocal(a, b, i + 1);
    }
  }

  predicate SameUpTo(a: string, b: string, i: nat, j: nat) {
    j <= |a| == |b| && forall k | i <= k < j :: a[k] == b[k]
  }

  lemma DottedLocal(a: string, b: string, i: nat)
    requires i <= |a| && DottedEnd(a, i).Some? && SameUpTo(a, b, i, DottedEnd(a, i).value)
    ensures DottedEnd(b, i) == DottedEnd(a, i)
  {
    DigitsLocal(a, b, i);
  }

  lemma NumberLocal(a: string, b: string, i: nat)
    requires i <= |a| && NumberEnd(a, i).Some? && NumberEnd(a, i).value < |a| && SameUpTo(a, b, i, NumberEnd(a, i).value + 1)
    ensures NumberEnd(b, i) == NumberEnd(a, i)
  {
    DigitsLocal(a, b, if a[i] == 'E' then i + 1 else i);
  }

  /** Where an identifier ends depends on no more than what comes up to there. */
  lemma IdLocal(a: string, b: string, i: nat)
    requires IdEnd(a, i).Some? && IdEnd(a, i).value < |a| && SameUpTo(a, b, i, IdEnd(a, i).value + 1)
    ensures IdEnd(b, i) == IdEnd(a, i)
  {
    var p := DottedEnd(a, i + 3).value;
    var q := DottedEnd(a, p).value;
    DottedLocal(a, b, i + 3);
    DottedLocal(a, b, p);
    NumberLocal(a, b, q);
  }

  /** So does the shape: it needs no more than the characters up to the colon and
      the space, and that there is more. */
  lemma ShapeLocal(a: string, b: string)
    requires |a| == |b| && Shape(a).Some? && HasBox(b) && SameUpTo(a, b, 6, IdEnd(a, 6).value + 2)
    ensures Shape(b) == Shape(a)
  {
    var e := IdEnd(a, 6).value;
    IdLocal(a, b, 6);
    assert a[6..e] == b[6..e] && a[e] == b[e] && a[e + 1] == b[e + 1];
  }

  predicate Plain(s: string, i: nat, j: nat) {
    i <= j <= |s| && forall k | i <= k < j :: !IsTerminator(s[k])
  }

  lemma IdIsPlain(s: string, i: nat)
    requires IdEnd(s, i).Some?
    ensures Plain(s, i, IdEnd(s, i).value)
  {
    var p := DottedEnd(s, i + 3).value;
    var q := DottedEnd(s, p).value;
    assert Plain(s, i, i + 3) && Plain(s, i + 3, p) && Plain(s, p, q);
    assert Plain(s, q, IdEnd(s, i).value);
  }

  lemma ShapeIsPlain(s: string)
    requires Shape(s).Some?
    ensures Plain(s, 0, IdEnd(s, 6).value + 2)
  {
    IdIsPlain(s, 6);
    assert Plain(s, 0, 6);
  }

  lemma SeparatorStays(s: string, r: string)
    requires |s| == |r| && SeparatorAt(s) < |s| && forall k | 0 <= k <= SeparatorAt(s) :: r[k] == s[k]
    ensures SeparatorAt(r) == SeparatorAt(s)
  {
  }

  /** A separator before its end rules out a shape, whatever follows the separator. */
  lemma NoShapeStays(s: string, r: string)
    requires |s| == |r| && SeparatorAt(s) < |s| && Shape(s).None?
    requires forall k | 0 <= k <= SeparatorAt(s) :: r[k] == s[k]
    ensures Shape(r).None?
  {
    if Shape(r).Some? {
      ShapeIsPlain(r);
      ShapeLocal(r, s);
    }
  }

  lemma TickedShape(s: string, c: char)
    requires Shape(s).Some? && (c == ' ' || c == 'x')
    ensures Shape(s[3 := c]) == Shape(s)
  {
    ShapeLocal(s, s[3 := c]);
  }

  lemma {:induction false} PieceTwice(s: string, outcomes: Outcomes)
    ensures RenderPiece(RenderPiece(s, outcomes), outcomes) == RenderPiece(s, outcomes)
    decreases |s|
  {
    var id, i := Shape(s), SeparatorAt(s);
    if id.Some? {
      if id.value in outcomes {
        TickedShape(s, Mark(outcomes[id.value]));
      }
    } else if i < |s| {
      var rest := RenderPiece(s[i + 1..], outcomes);
      var r := s[..i + 1] + rest;
      PieceTwice(s[i + 1..], outcomes);
      SeparatorStays(s, r);
      NoShapeStays(s, r);
      assert r[..i + 1] == s[..i + 1] && r[i + 1..] == rest;
    }
  }

  lemma {:induction false} PiecesTwice(s: string, piece: string -> string)
    requires KeepsLength(piece) && (forall p :: piece(piece(p)) == piece(p))
    requires forall p, k | 0 <= k < |p| && !IsBreak(p[k]) :: !IsBreak(piece(p)[k])
    ensures ByPieces(ByPieces(s, piece), piece) == ByPieces(s, piece)
    decreases |s|
  {
    var i := BreakAt(s);
    if i < |s| {
      PiecesTwice(s[i + 1..], piece);
      PiecesStep(piece(s[..i]), s[i], ByPieces(s[i + 1..], piece), piece);
    } else {
      PiecesWhole(piece(s), piece);
    }
  }

  /** Rendering twice is rendering once. */
  lemma RenderIsIdempotent(content: string, outcomes: Outcomes)
    ensures Render(Render(content, outcomes), outcomes) == Render(content, outcomes)
  {
    var piece := PieceRenderer(outcomes);
    forall p ensures piece(piece(p)) == piece(p) {
      PieceTwice(p, outcomes);
    }
    forall p, k | 0 <= k < |p| && !IsBreak(p[k]) ensures !IsBreak(piece(p)[k]) {
      if piece(p)[k] != p[k] {
        PieceTicks(p, outcomes, k);
      }
    }
    PiecesTwice(content, piece);
  }
}
