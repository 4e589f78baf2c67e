/** How one line of a task document reads, and how a rendered checkbox leaves that
    reading alone. */
module CriteriaLines {
  import opened Options
  import opened Text

  /** What ends a line for `^` and `$`, and is never matched by `.`. */
  predicate IsTerminator(c: char) {
    c == '\n' || c == '\r' || c as int == 0x2028 || c as int == 0x2029
  }

  predicate IsSpace(c: char) {
    var code := c as int;
    || 0x0009 <= code <= 0x000d
    || code == 0x0020
    || code == 0x00a0
    || code == 0x1680
    || 0x2000 <= code <= 0x200a
    || code == 0x2028
    || code == 0x2029
    || code == 0x202f
    || code == 0x205f
    || code == 0x3000
    || code == 0xfeff
  }

  /** From `i` on: the end of the run of spaces, of digits, of anything but spaces. */
  function SpacesEnd(s: string, i: nat): (j: nat)
    requires i <= |s|
    ensures i <= j <= |s| && (forall k | i <= k < j :: IsSpace(s[k])) && (j < |s| ==> !IsSpace(s[j]))
    decreases |s| - i
  {
    if i == |s| || !IsSpace(s[i]) then i else SpacesEnd(s, i + 1)
  }

  function DigitsEnd(s: string, i: nat): (j: nat)
    requires i <= |s|
    ensures i <= j <= |s| && (forall k | i <= k < j :: IsDigit(s[k])) && (j < |s| ==> !IsDigit(s[j]))
    decreases |s| - i
  {
    if i == |s| || !IsDigit(s[i]) then i else DigitsEnd(s, i + 1)
  }

  function WordEnd(s: string, i: nat): (j: nat)
    requires i <= |s|
    ensures i <= j <= |s| && (forall k | i <= k < j :: !IsSpace(s[k])) && (j < |s| ==> IsSpace(s[j]))
    decreases |s| - i
  {
    if i == |s| || IsSpace(s[i]) then i else WordEnd(s, i + 1)
  }

  function HashesEnd(s: string, i: nat): (j: nat)
    requires i <= |s|
    ensures i <= j <= |s| && (forall k | i <= k < j :: s[k] == '#') && (j < |s| ==> s[j] != '#')
    decreases |s| - i
  {
    if i == |s| || s[i] != '#' then i else HashesEnd(s, i + 1)
  }

  predicate NoTerminator(s: string, i: nat)
  {
    forall k | i <= k < |s| :: !IsTerminator(s[k])
  }

  /** A fence of backquotes or tildes, after any spaces. */
  function Fence(s: string): Option<char> {
    var i := SpacesEnd(s, 0);
    if i + 3 <= |s| && (s[i] == '`' || s[i] == '~') && s[i + 1] == s[i] && s[i + 2] == s[i] then Some(s[i]) else None
  }

  /** From `i` on: a colon, spaces, and a title to the end of the line. */
  predicate Titled(s: string, i: nat) {
    && i < |s| && s[i] == ':'
    && var j := SpacesEnd(s, i + 1);
    i + 1 < j < |s| && NoTerminator(s, j)
  }

  /** The number of a work unit whose heading this is; `prefix` is how it begins. */
  function UnitNumber(s: string, prefix: string): Option<string> {
    if !(prefix <= s) then None
    else
      var i, j := |prefix|, DigitsEnd(s, |prefix|);
      if j > i && Titled(s, j) then Some(s[i..j]) else None
  }

  datatype TaskNumber = TaskNumber(unit: string, task: string)

  function TaskNumbers(s: string, prefix: string): Option<TaskNumber> {
    if !(prefix <= s) then None
    else
      var i, j := |prefix|, DigitsEnd(s, |prefix|);
      if j == i || j == |s| || s[j] != '.' then None
      else
        var k := DigitsEnd(s, j + 1);
        if k > j + 1 && Titled(s, k) then Some(TaskNumber(s[i..j], s[j + 1..k])) else None
  }

  /** The number of hashes of a heading of any title, or 0. */
  function HeadingLevel(s: string): nat {
    var h := HashesEnd(s, 0);
    if h < |s| && IsSpace(s[h]) then h else 0
  }

  /** `- [`, a box that is blank or ticked, `] ` */
  predicate HasBox(s: string) {
    && |s| >= 6 && s[0] == '-' && s[1] == ' ' && s[2] == '['
    && (s[3] == ' ' || s[3] == 'x') && s[4] == ']' && s[5] == ' '
  }

  datatype Parsed = Parsed(checked: bool, id: string, text: string)

  /** A box, a word, a colon and a space, and a text to the end of the line. */
  function Declaration(s: string): Option<Parsed> {
    if !HasBox(s) then None
    else
      var w := WordEnd(s, 6);
      if w < 8 || w == |s| || s[w] != ' ' || s[w - 1] != ':' || w + 1 == |s| || IsSpace(s[w + 1]) || !NoTerminator(s, w + 1) then None
      else Some(Parsed(s[3] == 'x', s[6..w - 1], s[w + 1..]))
  }

  predicate StartsItem(s: string) {
    |s| >= 3 && s[0] == '-' && s[1] == ' ' && s[2] == '['
  }

  predicate LooksLikeCriterion(s: string) {
    HasBox(s) && |s| >= 9 && s[6] == 'A' && s[7] == 'C' && s[8] == '-'
  }

  /** Past digits and a full stop that start at `i`, if they do. */
  function DottedEnd(s: string, i: nat): Option<nat>
    requires i <= |s|
    ensures DottedEnd(s, i).Some? ==> i + 1 < DottedEnd(s, i).value <= |s|
  {
    var j := DigitsEnd(s, i);
    if j == i || j == |s| || s[j] != '.' then None else Some(j + 1)
  }

  /** The end of the number of a criterion, after an `E` for an edge case. */
  function NumberEnd(s: string, i: nat): Option<nat>
    requires i <= |s|
    ensures NumberEnd(s, i).Some? ==> i < NumberEnd(s, i).value <= |s|
  {
    var e := if i < |s| && s[i] == 'E' then i + 1 else i;
    var c := DigitsEnd(s, e);
    if c == e then None else Some(c)
  }

  predicate StartsId(s: string, i: nat) {
    i + 3 <= |s| && s[i] == 'A' && s[i + 1] == 'C' && s[i + 2] == '-'
  }

  /** Where a criterion identifier that starts at `i` ends, if there is one. */
  function IdEnd(s: string, i: nat): (r: Option<nat>)
    ensures r.Some? ==> i + 3 < r.value <= |s|
  {
    if !StartsId(s, i) then None
    else
      var a := DottedEnd(s, i + 3);
      if a.None? then None
      else
        var b := DottedEnd(s, a.value);
        if b.None? then None else NumberEnd(s, b.value)
  }

  datatype Parts = Parts(unit: string, task: string, edge: bool)

  /** The parts of an identifier. */
  function IdParts(id: string): Option<Parts> {
    if IdEnd(id, 0) != Some(|id|) then None
    else
      var a := DottedEnd(id, 3).value;
      var b := DottedEnd(id, a).value;
      Some(Parts(id[3..a - 1], id[a..b - 1], b < |id| && id[b] == 'E'))
  }

  const WORK_UNIT := "### Work unit "
  const TASK := "#### Task "
  const MAIN_SECTION := "##### Acceptance criteria"
  const EDGE_SECTION := "##### Edge cases"

  /** Everything that the document parser asks about a line. */
  datatype Reading = Reading(
    fence: Option<char>,
    unit: Option<string>,
    task: Option<TaskNumber>,
    mainSection: bool,
    edgeSection: bool,
    level: nat,
    criterionLike: bool,
    item: bool)

  function Read(s: string): Reading {
    Reading(Fence(s), UnitNumber(s, WORK_UNIT), TaskNumbers(s, TASK), s == MAIN_SECTION, s == EDGE_SECTION,
            HeadingLevel(s), LooksLikeCriterion(s), StartsItem(s))
  }

  /** Position `k` is inside a box at the start of a line. */
  predicate BoxAt(s: string, k: nat) {
    && 3 <= k < |s| - 1 && s[k - 3] == '-' && s[k - 2] == ' ' && s[k - 1] == '['
    && (s[k] == ' ' || s[k] == 'x') && s[k + 1] == ']'
    && (k == 3 || IsTerminator(s[k - 4]))
  }

  /** The same line but for some ticks. */
  predicate Near(a: string, b: string) {
    |a| == |b| && forall k | 0 <= k < |a| && a[k] != b[k] :: BoxAt(a, k) && BoxAt(b, k)
  }

  predicate NoDash(s: string, i: nat)
    requires i <= |s|
  {
    forall k | 0 <= k < i :: s[k] != '-'
  }

  /** Up to the first dash and beyond it by two, nothing differs. */
  lemma SameToDash(a: string, b: string, i: nat)
    requires Near(a, b) && i <= |a| && NoDash(a, i)
    ensures forall k | 0 <= k < i + 3 && k < |a| && (k < 3 || k - 3 < i) :: a[k] == b[k]
    ensures NoDash(b, i)
  {
  }

  lemma {:induction false} SpacesAgree(a: string, b: string, i: nat)
    requires Near(a, b) && i <= |a| && NoDash(a, i)
    ensures SpacesEnd(a, i) == SpacesEnd(b, i) && NoDash(a, SpacesEnd(a, i))
    decreases |a| - i
  {
    SameToDash(a, b, i);
    if i < |a| && IsSpace(a[i]) {
      SpacesAgree(a, b, i + 1);
    }
  }

  lemma {:induction false} DigitsAgree(a: string, b: string, i: nat)
    requires Near(a, b) && i <= |a| && NoDash(a, i)
    ensures DigitsEnd(a, i) == DigitsEnd(b, i) && NoDash(a, DigitsEnd(a, i))
    decreases |a| - i
  {
    SameToDash(a, b, i);
    if i < |a| && IsDigit(a[i]) {
      DigitsAgree(a, b, i + 1);
    }
  }

  lemma {:induction false} HashesAgree(a: string, b: string, i: nat)
    requires Near(a, b) && i <= |a| && NoDash(a, i)
    ensures HashesEnd(a, i) == HashesEnd(b, i) && NoDash(a, HashesEnd(a, i))
    decreases |a| - i
  {
    SameToDash(a, b, i);
    if i < |a| && a[i] == '#' {
      HashesAgree(a, b, i + 1);
    }
  }

  lemma FenceAgrees(a: string, b: string)
    requires Near(a, b)
    ensures Fence(a) == Fence(b)
  {
    SpacesAgree(a, b, 0);
    var i := SpacesEnd(a, 0);
    SameToDash(a, b, i);
    if i < |a| && (a[i] == '`' || a[i] == '~') {
      SameToDash(a, b, i + 1);
      if i + 1 < |a| && a[i + 1] == a[i] {
        SameToDash(a, b, i + 2);
      }
    }
  }

  lemma TerminatorsAgree(a: string, b: string, i: nat)
    requires Near(a, b)
    ensures NoTerminator(a, i) <==> NoTerminator(b, i)
  {
    assert forall k | 0 <= k < |a| :: IsTerminator(a[k]) <==> IsTerminator(b[k]);
  }

  lemma TitledAgrees(a: string, b: string, i: nat)
    requires Near(a, b) && i <= |a| && NoDash(a, i)
    ensures Titled(a, i) <==> Titled(b, i)
  {
    SameToDash(a, b, i);
    if i < |a| && a[i] == ':' {
      SpacesAgree(a, b, i + 1);
      TerminatorsAgree(a, b, SpacesEnd(a, i + 1));
    }
  }

  lemma PrefixAgrees(a: string, b: string, prefix: string)
    requires Near(a, b) && '-' !in prefix
    ensures prefix <= a <==> prefix <= b
    ensures prefix <= a ==> NoDash(a, |prefix|)
  {
    if prefix <= a {
      SameToDash(a, b, |prefix|);
    }
    if prefix <= b {
      SameToDash(b, a, |prefix|);
    }
  }

  lemma SliceAgrees(a: string, b: string, i: nat, j: nat)
    requires Near(a, b) && i <= j <= |a| && NoDash(a, j)
    ensures a[i..j] == b[i..j]
  {
    SameToDash(a, b, j);
  }

  lemma UnitAgrees(a: string, b: string, prefix: string)
    requires Near(a, b) && '-' !in prefix
    ensures UnitNumber(a, prefix) == UnitNumber(b, prefix)
  {
    PrefixAgrees(a, b, prefix);
    if prefix <= a {
      DigitsAgree(a, b, |prefix|);
      var j := DigitsEnd(a, |prefix|);
      TitledAgrees(a, b, j);
      SliceAgrees(a, b, |prefix|, j);
    }
  }

  lemma TaskAgrees(a: string, b: string, prefix: string)
    requires Near(a, b) && '-' !in prefix
    ensures TaskNumbers(a, prefix) == TaskNumbers(b, prefix)
  {
    PrefixAgrees(a, b, prefix);
    if prefix <= a {
      var i := |prefix|;
      DigitsAgree(a, b, i);
      var j := DigitsEnd(a, i);
      SameToDash(a, b, j);
      SliceAgrees(a, b, i, j);
      if j < |a| && a[j] == '.' {
        NumberAgrees(a, b, j + 1);
      }
    }
  }

  lemma NumberAgrees(a: string, b: string, j: nat)
    requires Near(a, b) && j <= |a| && NoDash(a, j)
    ensures
      var k := DigitsEnd(a, j);
      j <= |b| && DigitsEnd(b, j) == k <= |b| && (Titled(a, k) <==> Titled(b, k)) && a[j..k] == b[j..k]
  {
    DigitsAgree(a, b, j);
    var k := DigitsEnd(a, j);
    TitledAgrees(a, b, k);
    SliceAgrees(a, b, j, k);
  }

  lemma LevelAgrees(a: string, b: string)
    requires Near(a, b)
    ensures HeadingLevel(a) == HeadingLevel(b)
  {
    HashesAgree(a, b, 0);
    SameToDash(a, b, HashesEnd(a, 0));
  }

  lemma WholeAgrees(a: string, b: string, whole: string)
    requires Near(a, b) && '-' !in whole
    ensures a == whole <==> b == whole
  {
    PrefixAgrees(a, b, whole);
  }

  lemma HasBoxAgrees(a: string, b: string)
    requires Near(a, b)
    ensures HasBox(a) <==> HasBox(b)
    ensures StartsItem(a) <==> StartsItem(b)
    ensures HasBox(a) ==> forall k | 4 <= k < |a| && k < 10 :: a[k] == b[k]
  {
    SameToDash(a, b, 0);
  }

  /** Ticks do not change how a line reads. */
  lemma ReadAgrees(a: string, b: string)
    requires Near(a, b)
    ensures Read(a) == Read(b)
  {
    FenceAgrees(a, b);
    UnitAgrees(a, b, WORK_UNIT);
    TaskAgrees(a, b, TASK);
    WholeAgrees(a, b, MAIN_SECTION);
    WholeAgrees(a, b, EDGE_SECTION);
    LevelAgrees(a, b);
    HasBoxAgrees(a, b);
  }

  lemma {:induction false} WordAgrees(a: string, b: string, i: nat)
    requires Near(a, b) && HasBox(a) && 6 <= i <= |a|
    requires forall k | 6 <= k < i :: !IsSpace(a[k])
    ensures WordEnd(a, i) == WordEnd(b, i)
    ensures forall k | 4 <= k <= WordEnd(a, i) && k < |a| :: a[k] == b[k]
    decreases |a| - i
  {
    HasBoxAgrees(a, b);
    forall k | 4 <= k <= i && k < |a| ensures a[k] == b[k] {
      assert !IsTerminator(a[k - 4]);
    }
    if i < |a| && !IsSpace(a[i]) {
      WordAgrees(a, b, i + 1);
    }
  }

  /** A declaration stays the same but for its tick. */
  lemma DeclarationAgrees(a: string, b: string)
    requires Near(a, b)
    ensures Declaration(a).Some? <==> Declaration(b).Some?
    ensures Declaration(a).Some? ==>
      && Declaration(b).value == Declaration(a).value.(checked := b[3] == 'x')
      && forall k | 0 <= k < |a| && k != 3 :: a[k] == b[k]
  {
    HasBoxAgrees(a, b);
    if HasBox(a) {
      WordAgrees(a, b, 6);
      var w := WordEnd(a, 6);
      TerminatorsAgree(a, b, w + 1);
      if NoTerminator(a, w + 1) && w < |a| && a[w] == ' ' {
        forall k | 4 <= k < |a| ensures a[k] == b[k] {
          assert !IsTerminator(a[k - 4]);
        }
      }
    }
  }
}
