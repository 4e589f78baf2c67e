/** What a task document must be for it to read as valid, and what is then declared. */
module CriteriaReading {
  import opened Options
  import opened Text
  import opened CriteriaPolicy
  import opened CriteriaLines
  import opened CriteriaDocument

  /** All that is seen in a line. */
  datatype Seen = Seen(reading: Reading, declaration: Option<Parsed>)

  function SeenIn(lines: seq<string>): (r: seq<Seen>)
    ensures |r| == |lines| && forall k | 0 <= k < |r| :: r[k] == Seen(Read(lines[k]), Declaration(lines[k]))
  {
    seq(|lines|, k requires 0 <= k < |lines| => Seen(Read(lines[k]), Declaration(lines[k])))
  }

  /** The fence that is open after the first `n` lines: a line of the same marks closes it. */
  function OpenFence(seen: seq<Seen>, n: nat): Option<char>
    requires n <= |seen|
  {
    if n == 0 then None
    else
      var before, mark := OpenFence(seen, n - 1), seen[n - 1].reading.fence;
      if mark.None? then before else if before.None? then mark else if before == mark then None else before
  }

  /** A line that stands outside fences and is none itself. */
  predicate Bare(seen: seq<Seen>, k: nat)
    requires k < |seen|
  {
    OpenFence(seen, k).None? && seen[k].reading.fence.None?
  }

  /** No heading of up to this level stands between two lines. */
  ghost predicate Unbroken(seen: seq<Seen>, from: nat, to: nat, level: nat)
    requires to <= |seen|
  {
    forall k | from < k < to && Bare(seen, k) :: !(1 <= seen[k].reading.level <= level)
  }

  /** Line `u` is the heading of the unit that line `n` stands in: no other heading of a
      unit comes between, and none that is as high as those that hold units. */
  ghost predicate UnitAt(seen: seq<Seen>, n: nat, unit: string, u: nat)
    requires u < n <= |seen|
  {
    && Bare(seen, u) && seen[u].reading.unit == Some(unit) && Unbroken(seen, u, n, 2)
    && forall k | u < k < n && Bare(seen, k) :: seen[k].reading.unit.None?
  }

  ghost predicate InUnit(seen: seq<Seen>, n: nat, unit: string)
    requires n <= |seen|
  {
    exists u | 0 <= u < n :: UnitAt(seen, n, unit, u)
  }

  /** Line `t` heads the numbered task of line `n`. */
  ghost predicate TaskAt(seen: seq<Seen>, n: nat, unit: string, task: string, t: nat)
    requires t < n <= |seen|
  {
    && Bare(seen, t) && seen[t].reading.task == Some(TaskNumber(unit, task)) && InUnit(seen, t, unit) && Unbroken(seen, t, n, 3)
    && forall k | t < k < n && Bare(seen, k) :: seen[k].reading.task.None?
  }

  ghost predicate InTask(seen: seq<Seen>, n: nat, unit: string, task: string)
    requires n <= |seen|
  {
    exists t | 0 <= t < n :: TaskAt(seen, n, unit, task, t)
  }

  predicate IsSection(r: Reading, kind: Kind) {
    if kind.Main? then r.mainSection else r.edgeSection
  }

  /** Line `c` is the heading of the section that line `n` stands in. */
  ghost predicate SectionAt(seen: seq<Seen>, n: nat, kind: Kind, c: nat)
    requires c < n <= |seen|
  {
    Bare(seen, c) && IsSection(seen[c].reading, kind) && Unbroken(seen, c, n, 5)
  }

  ghost predicate InSection(seen: seq<Seen>, n: nat, kind: Kind)
    requires n <= |seen|
  {
    exists c | 0 <= c < n :: SectionAt(seen, n, kind, c)
  }

  /** Every heading of a task stands in the unit that its number names. */
  ghost predicate TasksPlaced(seen: seq<Seen>, n: nat)
    requires n <= |seen|
  {
    forall t | 0 <= t < n && Bare(seen, t) && seen[t].reading.task.Some? :: InUnit(seen, t, seen[t].reading.task.value.unit)
  }

  /** The declaration is what its line says, and its identifier names the unit and the
      task that it stands in, and the kind of its section. */
  ghost predicate Recorded(seen: seq<Seen>, d: Declared, i: nat) {
    && d.ordinal == i && 0 < d.line <= |seen| && Bare(seen, d.line - 1)
    && ReadsAs(seen[d.line - 1].declaration, d)
    && InTask(seen, d.line - 1, d.unit, d.task) && InSection(seen, d.line - 1, d.kind)
  }

  predicate ReadsAs(p: Option<Parsed>, d: Declared) {
    && p == Some(Parsed(d.checked, d.id, d.text))
    && |d.id| <= 128 && IdParts(d.id) == Some(Parts(d.unit, d.task, d.kind.Edge?))
  }

  predicate DeclaredOn(ds: seq<Declared>, line: nat) {
    exists i | 0 <= i < |ds| :: ds[i].line == line
  }

  /** In order of their lines, and no identifier twice. */
  predicate InOrder(ds: seq<Declared>) {
    forall i, j | 0 <= i < j < |ds| :: ds[i].line < ds[j].line && ds[i].id != ds[j].id
  }

  /** Where there must be a declaration: an item in a section of criteria, and anything
      that looks like a criterion. */
  ghost predicate Declares(seen: seq<Seen>, k: nat)
    requires k < |seen|
  {
    Bare(seen, k) && (seen[k].reading.criterionLike || (seen[k].reading.item && exists kind :: InSection(seen, k, kind)))
  }

  /** These are the declarations on the first `n` lines. */
  ghost predicate Records(seen: seq<Seen>, n: nat, ds: seq<Declared>)
    requires n <= |seen|
  {
    && |ds| <= 126
    && (forall i | 0 <= i < |ds| :: Recorded(seen, ds[i], i) && ds[i].line <= n)
    && InOrder(ds)
    && (forall k | 0 <= k < n && Declares(seen, k) :: DeclaredOn(ds, k + 1))
  }

  lemma {:induction false} LevelOf(s: string, h: nat)
    requires h < |s| && s[h] == ' ' && forall k | 0 <= k < h :: s[k] == '#'
    ensures HeadingLevel(s) == h
  {
  }

  lemma {:induction false} UnitHeading(line: string)
    requires UnitNumber(line, WORK_UNIT).Some?
    ensures HeadingLevel(line) == 3 && TaskNumbers(line, TASK).None? && line != MAIN_SECTION && line != EDGE_SECTION
  {
    assert WORK_UNIT <= line && line[3] == ' ' && TASK[3] == '#' && MAIN_SECTION[3] == '#' && EDGE_SECTION[3] == '#';
    LevelOf(line, 3);
  }

  lemma {:induction false} TaskHeading(line: string)
    requires TaskNumbers(line, TASK).Some?
    ensures HeadingLevel(line) == 4 && line != MAIN_SECTION && line != EDGE_SECTION
  {
    assert TASK <= line && line[4] == ' ' && MAIN_SECTION[4] == '#' && EDGE_SECTION[4] == '#';
    LevelOf(line, 4);
  }

  lemma {:induction false} SectionHeading(line: string)
    requires line == MAIN_SECTION || line == EDGE_SECTION
    ensures HeadingLevel(line) == 5 && MAIN_SECTION != EDGE_SECTION
  {
    assert MAIN_SECTION[6] != EDGE_SECTION[6];
    LevelOf(line, 5);
  }

  /** An item is nothing else. */
  lemma {:induction false} ItemReads(line: string)
    requires StartsItem(line)
    ensures
      var r := Read(line);
      r.fence.None? && r.unit.None? && r.task.None? && !r.mainSection && !r.edgeSection && r.level == 0 && r.item
  {
    assert WORK_UNIT[0] != line[0] && TASK[0] != line[0] && MAIN_SECTION[0] != line[0] && EDGE_SECTION[0] != line[0];
  }

  /** A declaration with an identifier begins like a criterion. */
  lemma {:induction false} CriterionDeclared(line: string)
    requires Declaration(line).Some? && IdParts(Declaration(line).value.id).Some?
    ensures LooksLikeCriterion(line)
  {
    var w := WordEnd(line, 6);
    assert line[6..w - 1][0] == line[6] && line[6..w - 1][1] == line[7] && line[6..w - 1][2] == line[8];
  }

  /** What is seen in a line is one thing only. */
  predicate Clear(x: Seen) {
    var r := x.reading;
    && (r.unit.Some? ==> r.level == 3 && r.task.None? && !r.mainSection && !r.edgeSection)
    && (r.task.Some? ==> r.level == 4 && !r.mainSection && !r.edgeSection)
    && (r.mainSection ==> r.level == 5 && !r.edgeSection)
    && (r.edgeSection ==> r.level == 5)
    && (r.item ==> r.fence.None? && r.unit.None? && r.task.None? && !r.mainSection && !r.edgeSection && r.level == 0)
    && (r.criterionLike ==> r.item)
    && (x.declaration.Some? && IdParts(x.declaration.value.id).Some? ==> r.criterionLike)
  }

  lemma {:induction false} SeenClear(line: string)
    ensures Clear(Seen(Read(line), Declaration(line)))
  {
    var r := Read(line);
    if r.unit.Some? {
      UnitHeading(line);
    }
    if r.task.Some? {
      TaskHeading(line);
    }
    if r.mainSection || r.edgeSection {
      SectionHeading(line);
    }
    if r.item {
      ItemReads(line);
    }
    if Declaration(line).Some? && IdParts(Declaration(line).value.id).Some? {
      CriterionDeclared(line);
    }
  }

  ghost predicate StandsInUnit(seen: seq<Seen>, n: nat, unit: Option<string>)
    requires n <= |seen|
  {
    forall x :: unit == Some(x) <==> InUnit(seen, n, x)
  }

  ghost predicate StandsInTask(seen: seq<Seen>, n: nat, unit: Option<string>, task: Option<string>)
    requires n <= |seen|
  {
    (task.Some? ==> unit.Some?) && forall x, y :: unit == Some(x) && task == Some(y) <==> InTask(seen, n, x, y)
  }

  ghost predicate StandsInSection(seen: seq<Seen>, n: nat, section: Option<Kind>)
    requires n <= |seen|
  {
    forall kind :: section == Some(kind) <==> InSection(seen, n, kind)
  }

  /** What the parser remembers is where line `n` stands. */
  ghost predicate Stands(seen: seq<Seen>, n: nat, s: State)
    requires n <= |seen|
  {
    && s.fence == OpenFence(seen, n)
    && StandsInUnit(seen, n, s.unit)
    && StandsInTask(seen, n, s.unit, s.task)
    && StandsInSection(seen, n, s.section)
  }

  /** The unit, task and section in which the line after line `n` stands. */
  ghost predicate InUnitAfter(seen: seq<Seen>, n: nat, unit: string)
    requires n < |seen|
  {
    if !Bare(seen, n) then InUnit(seen, n, unit)
    else if seen[n].reading.unit.Some? then seen[n].reading.unit == Some(unit)
    else !(1 <= seen[n].reading.level <= 2) && InUnit(seen, n, unit)
  }

  ghost predicate InTaskAfter(seen: seq<Seen>, n: nat, unit: string, task: string)
    requires n < |seen|
  {
    if !Bare(seen, n) then InTask(seen, n, unit, task)
    else if seen[n].reading.task.Some? then seen[n].reading.task == Some(TaskNumber(unit, task)) && InUnit(seen, n, unit)
    else !(1 <= seen[n].reading.level <= 3) && InTask(seen, n, unit, task)
  }

  ghost predicate InSectionAfter(seen: seq<Seen>, n: nat, kind: Kind)
    requires n < |seen|
  {
    if !Bare(seen, n) then InSection(seen, n, kind)
    else IsSection(seen[n].reading, kind) || (!(1 <= seen[n].reading.level <= 5) && InSection(seen, n, kind))
  }

  lemma {:induction false} UnitNext(seen: seq<Seen>, n: nat, unit: string)
    requires n < |seen|
    ensures InUnit(seen, n + 1, unit) <==> InUnitAfter(seen, n, unit)
  {
    forall u | 0 <= u < n
      ensures UnitAt(seen, n + 1, unit, u) <==>
        UnitAt(seen, n, unit, u) && (Bare(seen, n) ==> seen[n].reading.unit.None? && !(1 <= seen[n].reading.level <= 2))
    {
    }
    assert UnitAt(seen, n + 1, unit, n) <==> Bare(seen, n) && seen[n].reading.unit == Some(unit);
    if InUnit(seen, n + 1, unit) {
      var u :| 0 <= u < n + 1 && UnitAt(seen, n + 1, unit, u);
      assert u == n || UnitAt(seen, n, unit, u);
    }
    if InUnitAfter(seen, n, unit) && InUnit(seen, n, unit) {
      var u :| 0 <= u < n && UnitAt(seen, n, unit, u);
      assert UnitAt(seen, n + 1, unit, u) || UnitAt(seen, n + 1, unit, n);
    }
  }

  lemma {:induction false} TaskNext(seen: seq<Seen>, n: nat, unit: string, task: string)
    requires n < |seen|
    ensures InTask(seen, n + 1, unit, task) <==> InTaskAfter(seen, n, unit, task)
  {
    forall t | 0 <= t < n
      ensures TaskAt(seen, n + 1, unit, task, t) <==>
        TaskAt(seen, n, unit, task, t) && (Bare(seen, n) ==> seen[n].reading.task.None? && !(1 <= seen[n].reading.level <= 3))
    {
    }
    assert TaskAt(seen, n + 1, unit, task, n) <==>
      Bare(seen, n) && seen[n].reading.task == Some(TaskNumber(unit, task)) && InUnit(seen, n, unit);
    if InTask(seen, n + 1, unit, task) {
      var t :| 0 <= t < n + 1 && TaskAt(seen, n + 1, unit, task, t);
      assert t == n || TaskAt(seen, n, unit, task, t);
    }
    if InTaskAfter(seen, n, unit, task) && InTask(seen, n, unit, task) {
      var t :| 0 <= t < n && TaskAt(seen, n, unit, task, t);
      assert TaskAt(seen, n + 1, unit, task, t) || TaskAt(seen, n + 1, unit, task, n);
    }
  }

  lemma {:induction false} SectionNext(seen: seq<Seen>, n: nat, kind: Kind)
    requires n < |seen| && Clear(seen[n])
    ensures InSection(seen, n + 1, kind) <==> InSectionAfter(seen, n, kind)
  {
    forall c | 0 <= c < n
      ensures SectionAt(seen, n + 1, kind, c) <==> SectionAt(seen, n, kind, c) && (Bare(seen, n) ==> !(1 <= seen[n].reading.level <= 5))
    {
    }
    assert SectionAt(seen, n + 1, kind, n) <==> Bare(seen, n) && IsSection(seen[n].reading, kind);
    if InSection(seen, n + 1, kind) {
      var c :| 0 <= c < n + 1 && SectionAt(seen, n + 1, kind, c);
      assert c == n || SectionAt(seen, n, kind, c);
    }
    if InSectionAfter(seen, n, kind) && InSection(seen, n, kind) {
      var c :| 0 <= c < n && SectionAt(seen, n, kind, c);
      assert SectionAt(seen, n + 1, kind, c) || SectionAt(seen, n + 1, kind, n);
    }
  }

  function UnitAfter(bare: bool, r: Reading, unit: Option<string>): Option<string> {
    if !bare then unit
    else if r.unit.Some? then r.unit
    else if 1 <= r.level <= 2 then None else unit
  }

  function TaskAfter(bare: bool, r: Reading, task: Option<string>): Option<string> {
    if !bare then task
    else if r.task.Some? then Some(r.task.value.task)
    else if 1 <= r.level <= 3 then None else task
  }

  function SectionAfter(bare: bool, r: Reading, section: Option<Kind>): Option<Kind> {
    if !bare then section
    else if r.mainSection then Some(Main)
    else if r.edgeSection then Some(Edge)
    else if 1 <= r.level <= 5 then None else section
  }

  /** What one line does to what the parser remembers of headings. */
  lemma {:induction false} NextMoves(s: State, x: Seen, number: nat, next: State)
    requires Clear(x) && Next(s, x.reading, x.declaration, number) == On(next)
    ensures
      var bare := s.fence.None? && x.reading.fence.None?;
      && next.unit == UnitAfter(bare, x.reading, s.unit)
      && next.task == TaskAfter(bare, x.reading, s.task)
      && next.section == SectionAfter(bare, x.reading, s.section)
      && (bare && x.reading.task.Some? ==> s.unit == Some(x.reading.task.value.unit))
  {
  }

  lemma {:induction false} UnitStands(seen: seq<Seen>, n: nat, unit: Option<string>)
    requires n < |seen| && StandsInUnit(seen, n, unit)
    ensures StandsInUnit(seen, n + 1, UnitAfter(Bare(seen, n), seen[n].reading, unit))
  {
    var after := UnitAfter(Bare(seen, n), seen[n].reading, unit);
    forall x ensures after == Some(x) <==> InUnit(seen, n + 1, x) {
      UnitNext(seen, n, x);
      assert unit == Some(x) <==> InUnit(seen, n, x);
    }
  }

  lemma {:induction false} TaskStandsAt(seen: seq<Seen>, n: nat, unit: Option<string>, task: Option<string>, x: string, y: string)
    requires n < |seen| && Clear(seen[n])
    requires (unit == Some(x) <==> InUnit(seen, n, x)) && (unit == Some(x) && task == Some(y) <==> InTask(seen, n, x, y))
    requires Bare(seen, n) && seen[n].reading.task.Some? ==> unit == Some(seen[n].reading.task.value.unit)
    ensures
      var bare, r := Bare(seen, n), seen[n].reading;
      UnitAfter(bare, r, unit) == Some(x) && TaskAfter(bare, r, task) == Some(y) <==> InTaskAfter(seen, n, x, y)
  {
  }

  lemma {:induction false} TaskStands(seen: seq<Seen>, n: nat, unit: Option<string>, task: Option<string>)
    requires n < |seen| && Clear(seen[n]) && StandsInUnit(seen, n, unit) && StandsInTask(seen, n, unit, task)
    requires Bare(seen, n) && seen[n].reading.task.Some? ==> unit == Some(seen[n].reading.task.value.unit)
    ensures StandsInTask(seen, n + 1, UnitAfter(Bare(seen, n), seen[n].reading, unit), TaskAfter(Bare(seen, n), seen[n].reading, task))
  {
    var u, t := UnitAfter(Bare(seen, n), seen[n].reading, unit), TaskAfter(Bare(seen, n), seen[n].reading, task);
    var next := n + 1;
    forall x, y ensures (u == Some(x) && t == Some(y)) == InTask(seen, next, x, y) {
      TaskNext(seen, n, x, y);
      TaskStandsAt(seen, n, unit, task, x, y);
    }
    assert StandsInTask(seen, next, u, t);
  }

  lemma {:induction false} SectionStands(seen: seq<Seen>, n: nat, section: Option<Kind>)
    requires n < |seen| && Clear(seen[n]) && StandsInSection(seen, n, section)
    ensures StandsInSection(seen, n + 1, SectionAfter(Bare(seen, n), seen[n].reading, section))
  {
    var after := SectionAfter(Bare(seen, n), seen[n].reading, section);
    forall kind ensures after == Some(kind) <==> InSection(seen, n + 1, kind) {
      SectionNext(seen, n, kind);
      assert section == Some(kind) <==> InSection(seen, n, kind);
    }
  }

  lemma {:induction false} FenceStands(seen: seq<Seen>, n: nat, s: State, next: State)
    requires n < |seen| && s.fence == OpenFence(seen, n)
    requires Next(s, seen[n].reading, seen[n].declaration, n + 1) == On(next)
    ensures next.fence == OpenFence(seen, n + 1)
  {
  }

  /** One line on, what the parser remembers is still where it stands. */
  lemma {:induction false} StandsNext(seen: seq<Seen>, n: nat, s: State, next: State)
    requires n < |seen| && Clear(seen[n]) && Stands(seen, n, s)
    requires Next(s, seen[n].reading, seen[n].declaration, n + 1) == On(next)
    ensures Stands(seen, n + 1, next)
  {
    NextMoves(s, seen[n], n + 1, next);
    FenceStands(seen, n, s, next);
    UnitStands(seen, n, s.unit);
    TaskStands(seen, n, s.unit, s.task);
    SectionStands(seen, n, s.section);
  }

  lemma {:induction false} TasksPlacedNext(seen: seq<Seen>, n: nat, s: State)
    requires n < |seen| && Clear(seen[n]) && Stands(seen, n, s) && TasksPlaced(seen, n)
    requires Next(s, seen[n].reading, seen[n].declaration, n + 1).On?
    ensures TasksPlaced(seen, n + 1)
  {
  }

  /** What one line adds to the declarations. */
  predicate Adds(s: State, p: Option<Parsed>, number: nat, d: Declared) {
    && s.fence.None? && s.unit == Some(d.unit) && s.task == Some(d.task) && s.section == Some(d.kind)
    && ReadsAs(p, d) && !Known(s.declarations, d.id) && |s.declarations| < 126
    && d.ordinal == |s.declarations| && d.line == number
  }

  /** A line adds a declaration exactly where there must be one. */
  lemma {:induction false} NextAdds(seen: seq<Seen>, n: nat, s: State, next: State)
    requires n < |seen| && Clear(seen[n]) && Stands(seen, n, s) && |s.declarations| <= 126
    requires Next(s, seen[n].reading, seen[n].declaration, n + 1) == On(next)
    ensures !Declares(seen, n) ==> next.declarations == s.declarations
    ensures Declares(seen, n) ==>
      next.declarations != [] && Adds(s, seen[n].declaration, n + 1, next.declarations[|s.declarations|])
      && next.declarations == s.declarations + [next.declarations[|s.declarations|]]
  {
    if Bare(seen, n) && seen[n].reading.item && s.section.Some? {
      assert InSection(seen, n, s.section.value);
      DeclareAdds(s, s.section.value, seen[n].declaration, n + 1, next);
    }
  }

  lemma {:induction false} DeclareAdds(s: State, kind: Kind, p: Option<Parsed>, number: nat, next: State)
    requires Declare(s, kind, p, number) == On(next) && s.fence.None? && s.section == Some(kind) && |s.declarations| <= 126
    ensures |next.declarations| == |s.declarations| + 1 && Adds(s, p, number, next.declarations[|s.declarations|])
    ensures next.declarations == s.declarations + [next.declarations[|s.declarations|]]
  {
    var parts := IdParts(p.value.id).value;
    assert parts == Parts(s.unit.value, s.task.value, kind.Edge?);
  }

  lemma {:induction false} RecordsSame(seen: seq<Seen>, n: nat, ds: seq<Declared>)
    requires n < |seen| && Records(seen, n, ds) && !Declares(seen, n)
    ensures Records(seen, n + 1, ds)
  {
  }

  lemma {:induction false} DeclaredMore(seen: seq<Seen>, n: nat, ds: seq<Declared>, d: Declared)
    requires n < |seen| && Records(seen, n, ds) && d.line == n + 1
    ensures forall k | 0 <= k < n + 1 && Declares(seen, k) :: DeclaredOn(ds + [d], k + 1)
  {
    var more := ds + [d];
    forall k | 0 <= k < n + 1 && Declares(seen, k) ensures DeclaredOn(more, k + 1) {
      if k < n {
        assert DeclaredOn(ds, k + 1);
        var i :| 0 <= i < |ds| && ds[i].line == k + 1;
        assert more[i].line == k + 1;
      } else {
        assert more[|ds|].line == k + 1;
      }
    }
  }

  lemma {:induction false} RecordedMore(seen: seq<Seen>, n: nat, ds: seq<Declared>, d: Declared)
    requires Recorded(seen, d, |ds|) && d.line == n + 1 && forall i | 0 <= i < |ds| :: Recorded(seen, ds[i], i) && ds[i].line <= n
    ensures forall i | 0 <= i < |ds + [d]| :: Recorded(seen, (ds + [d])[i], i) && (ds + [d])[i].line <= n + 1
  {
  }

  lemma {:induction false} InOrderMore(ds: seq<Declared>, d: Declared)
    requires InOrder(ds) && !Known(ds, d.id) && forall i | 0 <= i < |ds| :: ds[i].line < d.line
    ensures InOrder(ds + [d])
  {
  }

  lemma {:induction false} AddsRecorded(seen: seq<Seen>, n: nat, s: State, d: Declared)
    requires n < |seen| && Stands(seen, n, s) && Bare(seen, n) && Adds(s, seen[n].declaration, n + 1, d)
    ensures Recorded(seen, d, |s.declarations|)
  {
    assert InTask(seen, n, d.unit, d.task) && InSection(seen, n, d.kind);
  }

  lemma {:induction false} RecordsMore(seen: seq<Seen>, n: nat, ds: seq<Declared>, d: Declared)
    requires n < |seen| && Records(seen, n, ds) && Recorded(seen, d, |ds|) && d.line == n + 1 && !Known(ds, d.id) && |ds| < 126
    ensures Records(seen, n + 1, ds + [d])
  {
    DeclaredMore(seen, n, ds, d);
    assert forall i | 0 <= i < |ds| :: Recorded(seen, ds[i], i) && ds[i].line <= n;
    RecordedMore(seen, n, ds, d);
    InOrderMore(ds, d);
  }

  lemma {:induction false} RecordsNext(seen: seq<Seen>, n: nat, s: State, next: State)
    requires n < |seen| && Clear(seen[n]) && Stands(seen, n, s) && Records(seen, n, s.declarations)
    requires Next(s, seen[n].reading, seen[n].declaration, n + 1) == On(next)
    ensures Records(seen, n + 1, next.declarations)
  {
    NextAdds(seen, n, s, next);
    if Declares(seen, n) {
      var d := next.declarations[|s.declarations|];
      AddsRecorded(seen, n, s, d);
      RecordsMore(seen, n, s.declarations, d);
    } else {
      RecordsSame(seen, n, s.declarations);
    }
  }

  function Onward(turn: Turn, x: Seen, number: nat): Turn {
    if turn.Stop? then turn else Next(turn.state, x.reading, x.declaration, number)
  }

  /** The parser's state after `n` lines, from what is seen in them. */
  function Run(seen: seq<Seen>, n: nat): Turn
    requires n <= |seen|
  {
    if n == 0 then On(START) else Onward(Run(seen, n - 1), seen[n - 1], n)
  }

  lemma {:induction false} RunIsAfter(lines: seq<string>, n: nat)
    requires n <= |lines|
    ensures Run(SeenIn(lines), n) == After(lines, n)
  {
    if n > 0 {
      RunIsAfter(lines, n - 1);
      AfterNext(lines, n, Run(SeenIn(lines), n - 1));
    }
  }

  lemma {:induction false} AfterNext(lines: seq<string>, n: nat, before: Turn)
    requires 0 < n <= |lines| && After(lines, n - 1) == before
    ensures After(lines, n) == Onward(before, SeenIn(lines)[n - 1], n)
  {
  }

  ghost predicate AllClear(seen: seq<Seen>) {
    forall k | 0 <= k < |seen| :: Clear(seen[k])
  }

  lemma {:induction false} SeenAllClear(lines: seq<string>)
    ensures AllClear(SeenIn(lines))
  {
    forall k | 0 <= k < |lines| ensures Clear(SeenIn(lines)[k]) {
      SeenClear(lines[k]);
    }
  }

  /** What the parser has collected when it has come to line `n`. */
  lemma {:induction false} RecordsAfter(seen: seq<Seen>, n: nat)
    requires n <= |seen| && AllClear(seen) && Run(seen, n).On?
    ensures
      var s := Run(seen, n).state;
      Stands(seen, n, s) && Records(seen, n, s.declarations) && TasksPlaced(seen, n)
  {
    if n > 0 {
      RecordsAfter(seen, n - 1);
      RecordsStep(seen, n - 1, Run(seen, n - 1).state, Run(seen, n).state);
    }
  }

  lemma {:induction false} RecordsStep(seen: seq<Seen>, n: nat, s: State, next: State)
    requires n < |seen| && Clear(seen[n]) && Stands(seen, n, s) && Records(seen, n, s.declarations) && TasksPlaced(seen, n)
    requires Next(s, seen[n].reading, seen[n].declaration, n + 1) == On(next)
    ensures Stands(seen, n + 1, next) && Records(seen, n + 1, next.declarations) && TasksPlaced(seen, n + 1)
  {
    StandsNext(seen, n, s, next);
    TasksPlacedNext(seen, n, s);
    RecordsNext(seen, n, s, next);
  }

  lemma {:induction false} RecordedDeclares(seen: seq<Seen>, d: Declared, i: nat)
    requires Recorded(seen, d, i) && Clear(seen[d.line - 1])
    ensures Declares(seen, d.line - 1)
  {
  }

  /** How far the declarations go that stand on the first `n` lines. */
  predicate UpTo(ds: seq<Declared>, n: nat, m: nat) {
    m <= |ds| && (m > 0 ==> ds[m - 1].line <= n) && (m < |ds| ==> ds[m].line > n)
  }

  /** A declaration on the next line is the next declaration. */
  lemma {:induction false} NextOnLine(ds: seq<Declared>, n: nat, m: nat)
    requires InOrder(ds) && UpTo(ds, n, m) && DeclaredOn(ds, n + 1)
    ensures m < |ds| && ds[m].line == n + 1
  {
    var i :| 0 <= i < |ds| && ds[i].line == n + 1;
  }

  lemma {:induction false} OneMore(ds: seq<Declared>, n: nat, m: nat)
    requires InOrder(ds) && UpTo(ds, n, m) && m < |ds| && ds[m].line == n + 1
    ensures UpTo(ds, n + 1, m + 1) && !Known(ds[..m], ds[m].id)
  {
    assert forall j | 0 <= j < m :: ds[j].id != ds[m].id;
  }

  /** On line `n` stands the declaration after the first `m`, or none. */
  ghost predicate Expected(seen: seq<Seen>, ds: seq<Declared>, n: nat, m: nat)
    requires n < |seen|
  {
    if m < |ds| && ds[m].line == n + 1 then Recorded(seen, ds[m], m) && m < 126 && !Known(ds[..m], ds[m].id) && UpTo(ds, n + 1, m + 1)
    else !Declares(seen, n) && UpTo(ds, n + 1, m)
  }

  lemma {:induction false} RecordsHere(seen: seq<Seen>, ds: seq<Declared>, n: nat)
    requires n < |seen| && Records(seen, |seen|, ds)
    ensures InOrder(ds) && |ds| <= 126 && (Declares(seen, n) ==> DeclaredOn(ds, n + 1))
    ensures forall i | 0 <= i < |ds| :: Recorded(seen, ds[i], i)
  {
  }

  lemma {:induction false} ExpectedHere(seen: seq<Seen>, ds: seq<Declared>, n: nat, m: nat)
    requires n < |seen| && UpTo(ds, n, m) && InOrder(ds) && |ds| <= 126
    requires Declares(seen, n) ==> DeclaredOn(ds, n + 1)
    requires m < |ds| ==> Recorded(seen, ds[m], m)
    ensures Expected(seen, ds, n, m)
  {
    if m < |ds| && ds[m].line == n + 1 {
      OneMore(ds, n, m);
    } else if Declares(seen, n) {
      NextOnLine(ds, n, m);
    }
  }

  /** The document declares exactly this. */
  ghost predicate Wanted(seen: seq<Seen>, ds: seq<Declared>) {
    ds != [] && TasksPlaced(seen, |seen|) && Records(seen, |seen|, ds)
  }

  lemma {:induction false} WantedHere(seen: seq<Seen>, ds: seq<Declared>, n: nat, m: nat)
    requires n < |seen| && Wanted(seen, ds) && UpTo(ds, n, m)
    ensures TasksPlaced(seen, |seen|) && Expected(seen, ds, n, m)
  {
    RecordsHere(seen, ds, n);
    ExpectedHere(seen, ds, n, m);
  }

  lemma {:induction false} StartsBefore(seen: seq<Seen>, ds: seq<Declared>)
    requires Wanted(seen, ds)
    ensures UpTo(ds, 0, 0) && (forall d | d in ds :: d.line <= |seen|)
  {
    assert Recorded(seen, ds[0], 0);
  }

  /** What is recorded of a line is what the parser makes of it. */
  lemma {:induction false} DeclaresNext(seen: seq<Seen>, n: nat, s: State, d: Declared)
    requires n < |seen| && Clear(seen[n]) && Stands(seen, n, s)
    requires Recorded(seen, d, |s.declarations|) && d.line == n + 1
    requires |s.declarations| < 126 && !Known(s.declarations, d.id)
    ensures Next(s, seen[n].reading, seen[n].declaration, n + 1) == On(s.(declarations := s.declarations + [d]))
  {
    assert s.unit == Some(d.unit) && s.task == Some(d.task) && s.section == Some(d.kind);
    assert seen[n].reading.item;
    assert Next(s, seen[n].reading, seen[n].declaration, n + 1) == Declare(s, d.kind, seen[n].declaration, n + 1);
  }

  /** Any other line adds nothing, and is no error. */
  lemma {:induction false} PassesOver(seen: seq<Seen>, n: nat, s: State)
    requires n < |seen| && Clear(seen[n]) && Stands(seen, n, s)
    requires TasksPlaced(seen, |seen|) && !Declares(seen, n)
    ensures
      var turn := Next(s, seen[n].reading, seen[n].declaration, n + 1);
      turn.On? && turn.state.declarations == s.declarations
  {
    if Bare(seen, n) && seen[n].reading.task.Some? {
      assert InUnit(seen, n, seen[n].reading.task.value.unit);
    }
    if Bare(seen, n) && s.section.Some? {
      assert InSection(seen, n, s.section.value);
    }
  }

  /** The parser has collected the declarations on the first `n` lines. */
  ghost predicate Collected(turn: Turn, ds: seq<Declared>, n: nat) {
    turn.On? && |turn.state.declarations| <= |ds| && turn.state.declarations <= ds && UpTo(ds, n, |turn.state.declarations|)
  }

  lemma {:induction false} CollectsDeclared(seen: seq<Seen>, ds: seq<Declared>, n: nat, s: State)
    requires n < |seen| && Clear(seen[n]) && Stands(seen, n, s) && Collected(On(s), ds, n) && |s.declarations| < |ds|
    requires Recorded(seen, ds[|s.declarations|], |s.declarations|) && ds[|s.declarations|].line == n + 1
    requires |s.declarations| < 126 && !Known(s.declarations, ds[|s.declarations|].id) && UpTo(ds, n + 1, |s.declarations| + 1)
    ensures Collected(Next(s, seen[n].reading, seen[n].declaration, n + 1), ds, n + 1)
  {
    var d := ds[|s.declarations|];
    DeclaresNext(seen, n, s, d);
    assert s.declarations + [d] <= ds;
  }

  lemma {:induction false} CollectsNothing(seen: seq<Seen>, ds: seq<Declared>, n: nat, s: State)
    requires n < |seen| && Clear(seen[n]) && Stands(seen, n, s) && Collected(On(s), ds, n)
    requires TasksPlaced(seen, |seen|) && !Declares(seen, n) && UpTo(ds, n + 1, |s.declarations|)
    ensures Collected(Next(s, seen[n].reading, seen[n].declaration, n + 1), ds, n + 1)
  {
    PassesOver(seen, n, s);
  }

  lemma {:induction false} CollectsNext(seen: seq<Seen>, ds: seq<Declared>, n: nat, s: State)
    requires n < |seen| && Clear(seen[n]) && Stands(seen, n, s) && Wanted(seen, ds) && Collected(On(s), ds, n)
    ensures Collected(Next(s, seen[n].reading, seen[n].declaration, n + 1), ds, n + 1)
  {
    var m := |s.declarations|;
    WantedHere(seen, ds, n, m);
    assert s.declarations == ds[..m];
    if m < |ds| && ds[m].line == n + 1 {
      CollectsDeclared(seen, ds, n, s);
    } else {
      CollectsNothing(seen, ds, n, s);
    }
  }

  lemma {:induction false} CollectsOnward(seen: seq<Seen>, ds: seq<Declared>, k: nat, n: nat, turn: Turn)
    requires n == k + 1 && k < |seen| && Clear(seen[k]) && Wanted(seen, ds) && Collected(turn, ds, k) && Stands(seen, k, turn.state)
    ensures Collected(Onward(turn, seen[k], n), ds, n)
  {
    CollectsNext(seen, ds, k, turn.state);
  }

  lemma {:induction false} StandsAfter(seen: seq<Seen>, n: nat)
    requires n <= |seen| && AllClear(seen) && Run(seen, n).On?
    ensures Stands(seen, n, Run(seen, n).state)
  {
    RecordsAfter(seen, n);
  }

  /** A document with these declarations is read to its end, and they are collected. */
  lemma {:induction false} CollectedAll(seen: seq<Seen>, ds: seq<Declared>, n: nat)
    requires n <= |seen| && AllClear(seen) && Wanted(seen, ds)
    ensures Collected(Run(seen, n), ds, n)
  {
    if n == 0 {
      StartsBefore(seen, ds);
    } else {
      CollectedAll(seen, ds, n - 1);
      CollectedOn(seen, ds, n);
    }
  }

  lemma {:induction false} CollectedOn(seen: seq<Seen>, ds: seq<Declared>, n: nat)
    requires 0 < n <= |seen| && AllClear(seen) && Wanted(seen, ds) && Collected(Run(seen, n - 1), ds, n - 1)
    ensures Collected(Run(seen, n), ds, n)
  {
    var turn := Run(seen, n - 1);
    StandsAfter(seen, n - 1);
    CollectsOnward(seen, ds, n - 1, n, turn);
    RunOnward(seen, n, turn);
  }

  lemma {:induction false} RunOnward(seen: seq<Seen>, n: nat, turn: Turn)
    requires 0 < n <= |seen| && Run(seen, n - 1) == turn
    ensures Run(seen, n) == Onward(turn, seen[n - 1], n)
  {
  }

  lemma {:induction false} ReadsAll(seen: seq<Seen>, ds: seq<Declared>)
    requires AllClear(seen) && Wanted(seen, ds)
    ensures Observed(Run(seen, |seen|)) == Valid(ds)
  {
    StartsBefore(seen, ds);
    CollectedAll(seen, ds, |seen|);
    CollectedInTheEnd(Run(seen, |seen|), ds, |seen|);
  }

  lemma {:induction false} CollectedInTheEnd(turn: Turn, ds: seq<Declared>, n: nat)
    requires Collected(turn, ds, n) && forall d | d in ds :: d.line <= n
    ensures turn.On? && turn.state.declarations == ds
  {
  }

  /** A document reads as valid with these declarations exactly if its tasks stand in the
      units that they name, and the declarations are what stands where criteria do: all
      of it, in order, each with its own identifier, the tick and the text of its line,
      and the unit, task and section that it stands in. */
  lemma {:induction false} ValidDocument(content: string, ds: seq<Declared>)
    ensures Inspected(content) == Valid(ds) <==> Wanted(SeenIn(SplitLines(content)), ds)
  {
    var lines := SplitLines(content);
    RunIsAfter(lines, |lines|);
    SeenAllClear(lines);
    if Inspected(content) == Valid(ds) {
      NeverStopsValid(lines, |lines|);
      RecordsAfter(SeenIn(lines), |lines|);
    }
    if Wanted(SeenIn(lines), ds) {
      ReadsAll(SeenIn(lines), ds);
    }
  }
}
