/** Task documents as they are written: a document that is built from headings and
    criteria in their places reads as valid, with exactly these criteria. */
module CriteriaWriting {
  import opened Options
  import opened Sequences
  import opened Text
  import opened CriteriaPolicy
  import opened CriteriaLines
  import opened CriteriaDocument
  import opened CriteriaReading

  /** The kinds of lines of a document. Prose is any line that reads as nothing. */
  datatype Line =
    | UnitLine(unit: string, title: string)
    | TaskLine(task: string, title: string)
    | SectionLine(kind: Kind)
    | CriterionLine(checked: bool, number: string, text: string)
    | Prose(prose: string)

  /** Where the next line stands: its unit, task and section, and the criteria so far. */
  datatype Place = Place(unit: Option<string>, task: Option<string>, section: Option<Kind>, written: seq<Declared>)

  predicate IsNumber(s: string) {
    s != "" && forall c | c in s :: IsDigit(c)
  }

  /** A title or a text: something on one line that does not begin with a space. */
  predicate IsTitle(s: string) {
    s != "" && !IsSpace(s[0]) && NoTerminator(s, 0)
  }

  function CriterionId(place: Place, number: string): string
    requires place.unit.Some? && place.task.Some? && place.section.Some?
  {
    "AC-" + (place.unit.value + ("." + (place.task.value + ("." + ((if place.section.value.Edge? then "E" else "") + number)))))
  }

  predicate IsProse(s: string) {
    && NoTerminator(s, 0) && !LooksLikeCriterion(s) && !StartsItem(s) && Fence(s).None?
    && UnitNumber(s, WORK_UNIT).None? && TaskNumbers(s, TASK).None? && s != MAIN_SECTION && s != EDGE_SECTION
    && (HeadingLevel(s) == 0 || HeadingLevel(s) > 5)
  }

  /** The line may stand here. */
  predicate Fits(place: Place, line: Line) {
    match line
    case UnitLine(unit, title) => IsNumber(unit) && IsTitle(title)
    case TaskLine(task, title) => place.unit.Some? && IsNumber(task) && IsTitle(title)
    case SectionLine(_) => true
    case CriterionLine(_, number, text) =>
      && place.unit.Some? && place.task.Some? && place.section.Some? && IsNumber(number) && IsTitle(text)
      && |CriterionId(place, number)| <= 128 && |place.written| < 126
      && forall i | 0 <= i < |place.written| :: place.written[i].id != CriterionId(place, number)
    case Prose(prose) => IsProse(prose)
  }

  /** Where the line after it stands. `number` is the number of this line. */
  function Following(place: Place, line: Line, number: nat): Place
    requires Fits(place, line)
  {
    match line
    case UnitLine(unit, _) => Place(Some(unit), None, None, place.written)
    case TaskLine(task, _) => place.(task := Some(task), section := None)
    case SectionLine(kind) => place.(section := Some(kind))
    case CriterionLine(checked, n, text) =>
      place.(written := place.written + [Declared(CriterionId(place, n), place.unit.value, place.task.value, place.section.value,
                                                  checked, |place.written|, number, text)])
    case Prose(_) => place
  }

  function Written(place: Place, line: Line): string
    requires Fits(place, line)
  {
    match line
    case UnitLine(unit, title) => "### Work unit " + (unit + (": " + title))
    case TaskLine(task, title) => "#### Task " + (place.unit.value + ("." + (task + (": " + title))))
    case SectionLine(kind) => if kind.Main? then "##### Acceptance criteria" else "##### Edge cases"
    case CriterionLine(checked, number, text) =>
      (if checked then "- [x] " else "- [ ] ") + (CriterionId(place, number) + (": " + text))
    case Prose(prose) => prose
  }

  const NOWHERE := Place(None, None, None, [])

  /** The place after the first `n` lines, if each of them fits. */
  function PlaceAfter(lines: seq<Line>, n: nat): Option<Place>
    requires n <= |lines|
  {
    if n == 0 then Some(NOWHERE)
    else
      var before := PlaceAfter(lines, n - 1);
      if before.None? || !Fits(before.value, lines[n - 1]) then None else Some(Following(before.value, lines[n - 1], n))
  }

  lemma Parts(s: string, prefix: string, middle: string, rest: string)
    requires s == prefix + (middle + rest)
    ensures |s| == |prefix| + |middle| + |rest| && prefix <= s
    ensures s[|prefix|..|prefix| + |middle|] == middle && s[|prefix| + |middle|..] == rest
    ensures forall k | 0 <= k < |middle| :: s[|prefix| + k] == middle[k]
    ensures forall k | 0 <= k < |rest| :: s[|prefix| + |middle| + k] == rest[k]
  {
  }

  lemma DigitsEndAt(s: string, i: nat, j: nat)
    requires i <= j < |s| && (forall k | i <= k < j :: IsDigit(s[k])) && !IsDigit(s[j])
    ensures DigitsEnd(s, i) == j
  {
  }

  lemma DigitsUpTo(s: string, prefix: string, digits: string, rest: string)
    requires s == prefix + (digits + rest) && (forall c | c in digits :: IsDigit(c)) && rest != "" && !IsDigit(rest[0])
    ensures |prefix| <= |s| && DigitsEnd(s, |prefix|) == |prefix| + |digits| < |s|
    ensures s[|prefix|..|prefix| + |digits|] == digits && s[|prefix| + |digits|..] == rest && s[|prefix| + |digits|] == rest[0]
  {
    Parts(s, prefix, digits, rest);
    forall k | |prefix| <= k < |prefix| + |digits| ensures IsDigit(s[k]) {
      assert s[|prefix| + (k - |prefix|)] == digits[k - |prefix|];
    }
    assert s[|prefix| + |digits| + 0] == rest[0];
    DigitsEndAt(s, |prefix|, |prefix| + |digits|);
  }

  lemma TitleEnds(s: string, i: nat, title: string)
    requires i <= |s| && s[i..] == ": " + title && IsTitle(title)
    ensures Titled(s, i)
  {
    assert s[i] == s[i..][0] == ':' && s[i + 1] == s[i..][1] == ' ';
    assert s[i + 2] == s[i..][2] == title[0];
    assert SpacesEnd(s, i + 2) == i + 2;
    assert SpacesEnd(s, i + 1) == i + 2;
    forall k | i + 2 <= k < |s| ensures !IsTerminator(s[k]) {
      assert s[k] == s[i..][k - i] == title[k - i - 2];
    }
  }

  lemma UnitReads(prefix: string, unit: string, title: string)
    requires IsNumber(unit) && IsTitle(title)
    ensures UnitNumber(prefix + (unit + (": " + title)), prefix) == Some(unit)
  {
    var s := prefix + (unit + (": " + title));
    DigitsUpTo(s, prefix, unit, ": " + title);
    TitleEnds(s, |prefix| + |unit|, title);
  }

  lemma NumbersRead(s: string, prefix: string, j: nat, k: nat)
    requires prefix <= s && j == DigitsEnd(s, |prefix|) && |prefix| < j < |s| && s[j] == '.'
    requires k == DigitsEnd(s, j + 1) && k > j + 1 && Titled(s, k)
    ensures TaskNumbers(s, prefix) == Some(TaskNumber(s[|prefix|..j], s[j + 1..k]))
  {
  }

  /** Two numbers with a full stop between, and a title, from `i` on. */
  lemma SecondNumber(s: string, longer: string, j: nat, task: string, title: string)
    requires s == longer + (task + (": " + title)) && |longer| == j + 1 && IsNumber(task) && IsTitle(title)
    ensures
      var k := j + 1 + |task|;
      k <= |s| && DigitsEnd(s, j + 1) == k && Titled(s, k) && s[j + 1..k] == task
  {
    DigitsUpTo(s, longer, task, ": " + title);
    TitleEnds(s, j + 1 + |task|, title);
  }

  lemma FirstNumber(s: string, prefix: string, unit: string, rest: string)
    requires s == prefix + (unit + ("." + rest)) && IsNumber(unit)
    ensures
      var j := |prefix| + |unit|;
      j < |s| && prefix <= s && DigitsEnd(s, |prefix|) == j && s[j] == '.' && s[|prefix|..j] == unit
    ensures s == (prefix + (unit + ".")) + rest
  {
    DigitsUpTo(s, prefix, unit, "." + rest);
    Associative(unit, ".", rest);
    Associative(prefix, unit + ".", rest);
  }

  lemma TaskReads(prefix: string, unit: string, task: string, title: string)
    requires IsNumber(unit) && IsNumber(task) && IsTitle(title)
    ensures TaskNumbers(prefix + (unit + ("." + (task + (": " + title)))), prefix) == Some(TaskNumber(unit, task))
  {
    var s := prefix + (unit + ("." + (task + (": " + title))));
    var j := |prefix| + |unit|;
    FirstNumber(s, prefix, unit, task + (": " + title));
    SecondNumber(s, prefix + (unit + "."), j, task, title);
    NumbersRead(s, prefix, j, j + 1 + |task|);
  }

  lemma WordEndAt(s: string, i: nat, j: nat)
    requires i <= j < |s| && (forall k | i <= k < j :: !IsSpace(s[k])) && IsSpace(s[j])
    ensures WordEnd(s, i) == j
  {
  }

  /** A box, a word and a colon, a space, and a text. */
  lemma DeclarationReads(box: string, id: string, text: string)
    requires HasBox(box + "x") && |box| == 6 && |id| > 1 && (forall c | c in id :: !IsSpace(c)) && IsTitle(text)
    ensures Declaration(box + (id + (": " + text))) == Some(Parsed(box[3] == 'x', id, text))
  {
    var s := box + (id + (": " + text));
    var w := 6 + |id| + 1;
    Parts(s, box, id, ": " + text);
    forall k | 0 <= k < 6 ensures s[k] == box[k] {
      assert (box + "x")[k] == box[k];
    }
    forall k | 6 <= k < w ensures !IsSpace(s[k]) {
      assert k < 6 + |id| ==> s[6 + (k - 6)] == id[k - 6];
      assert k == 6 + |id| ==> s[6 + |id| + 0] == (": " + text)[0];
    }
    assert s[6 + |id| + 1] == (": " + text)[1] == ' ';
    WordEndAt(s, 6, w);
    TextAfter(s, 6 + |id|, text);
  }

  lemma TextAfter(s: string, i: nat, text: string)
    requires i <= |s| && s[i..] == ": " + text && IsTitle(text)
    ensures |s| == i + 2 + |text| && s[i] == ':' && s[i + 1] == ' ' && s[i + 2..] == text
    ensures !IsSpace(s[i + 2]) && NoTerminator(s, i + 2)
  {
    assert s[i] == s[i..][0] && s[i + 1] == s[i..][1];
    assert s[i + 2..] == s[i..][2..] == text;
    forall k | i + 2 <= k < |s| ensures !IsTerminator(s[k]) {
      assert s[k] == s[i + 2..][k - i - 2];
    }
    assert s[i + 2] == s[i + 2..][0];
  }

  lemma DigitsToEnd(s: string, i: nat)
    requires i <= |s| && forall k | i <= k < |s| :: IsDigit(s[k])
    ensures DigitsEnd(s, i) == |s|
  {
  }

  lemma IdPartsAt(id: string, a: nat, b: nat)
    requires StartsId(id, 0) && DottedEnd(id, 3) == Some(a) && DottedEnd(id, a) == Some(b) && NumberEnd(id, b) == Some(|id|)
    ensures IdParts(id) == Some(CriteriaLines.Parts(id[3..a - 1], id[a..b - 1], b < |id| && id[b] == 'E'))
  {
  }

  lemma DottedAt(id: string, prefix: string, digits: string, rest: string)
    requires id == prefix + (digits + ("." + rest)) && IsNumber(digits)
    ensures DottedEnd(id, |prefix|) == Some(|prefix| + |digits| + 1) && id[|prefix|..|prefix| + |digits|] == digits
    ensures id == (prefix + (digits + ".")) + rest
  {
    FirstNumber(id, prefix, digits, rest);
  }

  lemma NumberAt(id: string, prefix: string, e: string, number: string)
    requires id == prefix + (e + number) && (e == "E" || e == "") && IsNumber(number)
    ensures NumberEnd(id, |prefix|) == Some(|id|) && |prefix| < |id| && (id[|prefix|] == 'E' <==> e == "E")
  {
    Parts(id, prefix, e, number);
    assert id[|prefix| + |e| + 0] == number[0];
    assert e == "E" ==> id[|prefix| + 0] == e[0];
    forall k | |prefix| + |e| <= k < |id| ensures IsDigit(id[k]) {
      assert id[|prefix| + |e| + (k - |prefix| - |e|)] == number[k - |prefix| - |e|];
    }
    DigitsToEnd(id, |prefix| + |e|);
  }

  lemma IdStarts(id: string, rest: string)
    requires id == "AC-" + rest
    ensures StartsId(id, 0) && |"AC-"| == 3
  {
    assert id[0] == 'A' && id[1] == 'C' && id[2] == '-';
  }

  lemma IdReads(prefix: string, unit: string, task: string, e: string, number: string)
    requires prefix == "AC-" && IsNumber(unit) && IsNumber(task) && IsNumber(number) && (e == "E" || e == "")
    ensures
      var id := prefix + (unit + ("." + (task + ("." + (e + number)))));
      IdParts(id) == Some(CriteriaLines.Parts(unit, task, e == "E"))
  {
    var id := prefix + (unit + ("." + (task + ("." + (e + number)))));
    IdStarts(id, unit + ("." + (task + ("." + (e + number)))));
    DottedAt(id, prefix, unit, task + ("." + (e + number)));
    var longer := prefix + (unit + ".");
    DottedAt(id, longer, task, e + number);
    var longest := longer + (task + ".");
    NumberAt(id, longest, e, number);
    IdPartsAt(id, |longer|, |longest|);
  }

  lemma HashFirst(s: string)
    requires s != "" && s[0] == '#'
    ensures Fence(s).None? && !LooksLikeCriterion(s) && !StartsItem(s)
  {
    assert SpacesEnd(s, 0) == 0;
  }

  lemma OtherHeading(s: string, prefix: string, other: string, rest: string, k: nat)
    requires s == other + rest && k < |prefix| && k < |other| && prefix[k] != other[k]
    ensures !(prefix <= s)
  {
    assert s[k] == other[k];
  }

  function StateOf(place: Place): State {
    State(None, place.unit, place.task, place.section, place.written)
  }

  lemma UnitLineReads(unit: string, title: string)
    requires IsNumber(unit) && IsTitle(title)
    ensures
      var r := Read("### Work unit " + (unit + (": " + title)));
      r.fence.None? && r.unit == Some(unit)
  {
    UnitReads("### Work unit ", unit, title);
    HashFirst("### Work unit " + (unit + (": " + title)));
  }

  lemma TaskLineReads(unit: string, task: string, title: string)
    requires IsNumber(unit) && IsNumber(task) && IsTitle(title)
    ensures
      var r := Read("#### Task " + (unit + ("." + (task + (": " + title)))));
      r.fence.None? && r.unit.None? && r.task == Some(TaskNumber(unit, task))
  {
    var rest := unit + ("." + (task + (": " + title)));
    TaskReads("#### Task ", unit, task, title);
    HashFirst("#### Task " + rest);
    OtherHeading("#### Task " + rest, "### Work unit ", "#### Task ", rest, 3);
  }

  lemma SectionLineReads(kind: Kind)
    ensures
      var r := Read(if kind.Main? then "##### Acceptance criteria" else "##### Edge cases");
      r.fence.None? && r.unit.None? && r.task.None? && (r.mainSection <==> kind.Main?) && (r.edgeSection <==> kind.Edge?)
  {
    var s := if kind.Main? then "##### Acceptance criteria" else "##### Edge cases";
    HashFirst(s);
    assert s[3] == '#' && s[4] == '#' && WORK_UNIT[3] == ' ' && TASK[4] == ' ';
    assert "##### Acceptance criteria"[6] != "##### Edge cases"[6];
  }

  lemma NoSpaces(prefix: string, unit: string, task: string, e: string, number: string)
    requires prefix == "AC-" && IsNumber(unit) && IsNumber(task) && IsNumber(number) && (e == "E" || e == "")
    ensures forall c | c in prefix + (unit + ("." + (task + ("." + (e + number))))) :: !IsSpace(c)
  {
  }

  lemma CriterionLineReads(place: Place, checked: bool, number: string, text: string)
    requires Fits(place, CriterionLine(checked, number, text)) && IsNumber(place.unit.value) && IsNumber(place.task.value)
    ensures
      var line, id := Written(place, CriterionLine(checked, number, text)), CriterionId(place, number);
      && Declaration(line) == Some(Parsed(checked, id, text))
      && IdParts(id) == Some(CriteriaLines.Parts(place.unit.value, place.task.value, place.section.value.Edge?))
      && LooksLikeCriterion(line)
  {
    var e := if place.section.value.Edge? then "E" else "";
    IdReads("AC-", place.unit.value, place.task.value, e, number);
    NoSpaces("AC-", place.unit.value, place.task.value, e, number);
    CriterionBoxReads(checked, CriterionId(place, number), text);
  }

  lemma CriterionBoxReads(checked: bool, id: string, text: string)
    requires |id| > 1 && IdParts(id).Some? && (forall c | c in id :: !IsSpace(c)) && IsTitle(text)
    ensures
      var line := (if checked then "- [x] " else "- [ ] ") + (id + (": " + text));
      Declaration(line) == Some(Parsed(checked, id, text)) && LooksLikeCriterion(line)
  {
    var box := if checked then "- [x] " else "- [ ] ";
    DeclarationReads(box, id, text);
    CriterionDeclared(box + (id + (": " + text)));
  }

  /** What the parser makes of each kind of line, once it has read it. */
  lemma UnitStep(place: Place, r: Reading, p: Option<Parsed>, number: nat, unit: string)
    requires r.fence.None? && r.unit == Some(unit)
    ensures Next(StateOf(place), r, p, number) == On(StateOf(Place(Some(unit), None, None, place.written)))
  {
  }

  lemma TaskStep(place: Place, r: Reading, p: Option<Parsed>, number: nat, task: string)
    requires r.fence.None? && r.unit.None? && place.unit.Some? && r.task == Some(TaskNumber(place.unit.value, task))
    ensures Next(StateOf(place), r, p, number) == On(StateOf(place.(task := Some(task), section := None)))
  {
  }

  lemma SectionStep(place: Place, r: Reading, p: Option<Parsed>, number: nat, kind: Kind)
    requires r.fence.None? && r.unit.None? && r.task.None? && (r.mainSection <==> kind.Main?) && (r.edgeSection <==> kind.Edge?)
    ensures Next(StateOf(place), r, p, number) == On(StateOf(place.(section := Some(kind))))
  {
  }

  lemma ProseStep(place: Place, r: Reading, p: Option<Parsed>, number: nat)
    requires r.fence.None? && r.unit.None? && r.task.None? && !r.mainSection && !r.edgeSection && !r.criterionLike && !r.item
    requires r.level == 0 || r.level > 5
    ensures Next(StateOf(place), r, p, number) == On(StateOf(place))
  {
  }

  lemma CriterionStep(place: Place, r: Reading, checked: bool, n: string, text: string, number: nat)
    requires Fits(place, CriterionLine(checked, n, text))
    requires r.fence.None? && r.unit.None? && r.task.None? && !r.mainSection && !r.edgeSection && r.level == 0 && r.item
    requires IdParts(CriterionId(place, n)) == Some(CriteriaLines.Parts(place.unit.value, place.task.value, place.section.value.Edge?))
    ensures Next(StateOf(place), r, Some(Parsed(checked, CriterionId(place, n), text)), number) ==
      On(StateOf(Following(place, CriterionLine(checked, n, text), number)))
  {
    assert IsCriterionId(CriterionId(place, n));
    assert !Known(place.written, CriterionId(place, n));
  }

  /** The headings that have been written have numbers. */
  predicate Numbered(place: Place) {
    (place.unit.Some? ==> IsNumber(place.unit.value)) && (place.task.Some? ==> IsNumber(place.task.value))
  }

  /** Every line that fits is read as what it was written for. */
  lemma LineReads(place: Place, line: Line, number: nat)
    requires Numbered(place) && Fits(place, line)
    ensures
      var s := Written(place, line);
      Next(StateOf(place), Read(s), Declaration(s), number) == On(StateOf(Following(place, line, number)))
    ensures Numbered(Following(place, line, number))
  {
    var s := Written(place, line);
    match line
    case UnitLine(unit, title) =>
      UnitLineReads(unit, title);
      UnitStep(place, Read(s), Declaration(s), number, unit);
    case TaskLine(task, title) =>
      TaskLineReads(place.unit.value, task, title);
      TaskStep(place, Read(s), Declaration(s), number, task);
    case SectionLine(kind) =>
      SectionLineReads(kind);
      SectionStep(place, Read(s), Declaration(s), number, kind);
    case CriterionLine(checked, n, text) =>
      CriterionLineReads(place, checked, n, text);
      ItemReads(s);
      CriterionStep(place, Read(s), checked, n, text, number);
    case Prose(_) =>
      ProseStep(place, Read(s), Declaration(s), number);
  }

  /** This text is the line, written where it stands. */
  ghost predicate WrittenAt(text: string, place: Option<Place>, line: Line) {
    place.Some? && Fits(place.value, line) && text == Written(place.value, line)
  }

  ghost predicate WrittenAs(texts: seq<string>, lines: seq<Line>) {
    |texts| == |lines| && forall i | 0 <= i < |lines| :: WrittenAt(texts[i], PlaceAfter(lines, i), lines[i])
  }

  lemma PlaceNext(lines: seq<Line>, n: nat, place: Place)
    requires n < |lines| && PlaceAfter(lines, n) == Some(place) && Fits(place, lines[n])
    ensures PlaceAfter(lines, n + 1) == Some(Following(place, lines[n], n + 1))
  {
  }

  lemma LineStep(place: Place, text: string, line: Line, number: nat)
    requires Numbered(place) && Fits(place, line) && text == Written(place, line)
    ensures Onward(On(StateOf(place)), Seen(Read(text), Declaration(text)), number) == On(StateOf(Following(place, line, number)))
    ensures Numbered(Following(place, line, number))
  {
    LineReads(place, line, number);
  }

  /** What is seen in a line is what it was written for. */
  ghost predicate Intended(x: Seen, place: Option<Place>, line: Line, number: nat) {
    && place.Some? && Fits(place.value, line)
    && (Numbered(place.value) ==>
      && Numbered(Following(place.value, line, number))
      && Onward(On(StateOf(place.value)), x, number) == On(StateOf(Following(place.value, line, number))))
  }

  lemma WrittenIsIntended(text: string, place: Option<Place>, line: Line, number: nat)
    requires WrittenAt(text, place, line)
    ensures Intended(Seen(Read(text), Declaration(text)), place, line, number)
  {
    if Numbered(place.value) {
      LineStep(place.value, text, line, number);
    }
  }

  lemma {:induction false} AllIntended(texts: seq<string>, lines: seq<Line>)
    requires WrittenAs(texts, lines)
    ensures forall i | 0 <= i < |lines| :: Intended(SeenIn(texts)[i], PlaceAfter(lines, i), lines[i], i + 1)
  {
    forall i | 0 <= i < |lines| ensures Intended(SeenIn(texts)[i], PlaceAfter(lines, i), lines[i], i + 1) {
      IntendedAt(texts, lines, i, SeenIn(texts)[i]);
    }
  }

  lemma {:induction false} IntendedAt(texts: seq<string>, lines: seq<Line>, i: nat, x: Seen)
    requires WrittenAs(texts, lines) && i < |lines| && x == Seen(Read(texts[i]), Declaration(texts[i]))
    ensures Intended(x, PlaceAfter(lines, i), lines[i], i + 1)
  {
    WrittenIsIntended(texts[i], PlaceAfter(lines, i), lines[i], i + 1);
  }

  /** The parser follows the place from line to line. */
  lemma {:induction false} LinesRun(seen: seq<Seen>, lines: seq<Line>, n: nat) returns (place: Place)
    requires |seen| == |lines| && n <= |lines|
    requires forall i | 0 <= i < |lines| :: Intended(seen[i], PlaceAfter(lines, i), lines[i], i + 1)
    ensures PlaceAfter(lines, n) == Some(place) && Numbered(place)
    ensures Run(seen, n) == On(StateOf(place))
  {
    if n == 0 {
      place := NOWHERE;
    } else {
      var before := LinesRun(seen, lines, n - 1);
      assert Intended(seen[n - 1], PlaceAfter(lines, n - 1), lines[n - 1], n - 1 + 1);
      place := LineRun(seen, lines, n - 1, n, before);
    }
  }

  lemma {:induction false} LineRun(seen: seq<Seen>, lines: seq<Line>, k: nat, n: nat, before: Place) returns (place: Place)
    requires n == k + 1 <= |lines| == |seen| && PlaceAfter(lines, k) == Some(before) && Numbered(before)
    requires Run(seen, k) == On(StateOf(before)) && Intended(seen[k], Some(before), lines[k], n)
    ensures PlaceAfter(lines, n) == Some(place) && Numbered(place)
    ensures Run(seen, n) == On(StateOf(place))
  {
    place := Following(before, lines[k], n);
    PlaceNext(lines, k, before);
    RunOnward(seen, n, On(StateOf(before)));
  }

  lemma LinesRead(texts: seq<string>, lines: seq<Line>) returns (place: Place)
    requires WrittenAs(texts, lines)
    ensures PlaceAfter(lines, |lines|) == Some(place) && Numbered(place)
    ensures After(texts, |texts|) == On(StateOf(place))
  {
    AllIntended(texts, lines);
    place := LinesRun(SeenIn(texts), lines, |lines|);
    RunIsAfter(texts, |texts|);
  }

  /** A document with headings and criteria in their places, and prose anywhere, reads as
      valid, with the criteria that were written and no others. */
  lemma WellBuiltIsValid(content: string, lines: seq<Line>)
    requires WrittenAs(SplitLines(content), lines)
    ensures PlaceAfter(lines, |lines|).Some?
    ensures PlaceAfter(lines, |lines|).value.written != [] ==> Inspected(content) == Valid(PlaceAfter(lines, |lines|).value.written)
  {
    var place := LinesRead(SplitLines(content), lines);
  }
}
