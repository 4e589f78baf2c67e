/** Digits, and the lines of a text. */
module Text {
  import opened Sequences

  predicate IsDigit(c: char) {
    '0' <= c <= '9'
  }

  /** Where the first line ends. */
  function LineEnd(s: string): (i: nat)
    ensures i <= |s|
    ensures forall j | 0 <= j < i :: s[j] != '\n'
    ensures i < |s| ==> s[i] == '\n'
  {
    if s == "" || s[0] == '\n' then 0 else 1 + LineEnd(s[1..])
  }

  function DropReturn(line: string): string {
    if line != "" && line[|line| - 1] == '\r' then line[..|line| - 1] else line
  }

  /** `split(/\r?\n/u)`. */
  function SplitLines(s: string): (lines: seq<string>)
    ensures lines != []
    decreases |s|
  {
    var i := LineEnd(s);
    if i == |s| then [s] else [DropReturn(s[..i])] + SplitLines(s[i + 1..])
  }

  lemma {:induction false} LineEndOf(a: string, rest: string)
    requires forall j | 0 <= j < |a| :: a[j] != '\n'
    requires rest != "" ==> rest[0] == '\n'
    ensures LineEnd(a + rest) == |a|
  {
    if a != "" {
      assert (a + rest)[1..] == a[1..] + rest;
      LineEndOf(a[1..], rest);
    } else {
      assert a + rest == rest;
    }
  }

  lemma SplitFirst(s: string, line: string, rest: string)
    requires forall j | 0 <= j < |line| :: line[j] != '\n'
    requires s == line + ['\n'] + rest
    ensures SplitLines(s) == [DropReturn(line)] + SplitLines(rest)
  {
    assert s == line + (['\n'] + rest);
    LineEndOf(line, ['\n'] + rest);
    assert s[..|line|] == line && s[|line| + 1..] == rest;
  }

  lemma SplitSingle(s: string)
    requires LineEnd(s) == |s|
    ensures SplitLines(s) == [s]
  {
  }

  /** Splitting distributes over a line feed that does not belong to a `\r\n`. */
  lemma {:induction false} SplitConcat(a: string, b: string)
    requires a == "" || a[|a| - 1] != '\r'
    ensures SplitLines(a + ['\n'] + b) == SplitLines(a) + SplitLines(b)
    decreases |a|
  {
    var i := LineEnd(a);
    if i == |a| {
      SplitSingle(a);
      SplitFirst(a + ['\n'] + b, a, b);
    } else {
      SplitConcatStep(a, b, a[..i], a[i + 1..]);
      SplitConcat(a[i + 1..], b);
      Associative([DropReturn(a[..i])], SplitLines(a[i + 1..]), SplitLines(b));
    }
  }

  lemma SplitConcatStep(a: string, b: string, line: string, rest: string)
    requires a == line + ['\n'] + rest
    requires forall j | 0 <= j < |line| :: line[j] != '\n'
    ensures SplitLines(a + ['\n'] + b) == [DropReturn(line)] + SplitLines(rest + ['\n'] + b)
    ensures SplitLines(a) == [DropReturn(line)] + SplitLines(rest)
  {
    assert a + ['\n'] + b == line + ['\n'] + (rest + ['\n'] + b);
    SplitFirst(a + ['\n'] + b, line, rest + ['\n'] + b);
    SplitFirst(a, line, rest);
  }
}
