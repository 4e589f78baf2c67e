/** Trimming as the Codex patch parser does it. */
module PatchText {
  predicate IsRustWhitespace(c: char) {
    var code := c as int;
    || 0x0009 <= code <= 0x000d
    || code == 0x0020
    || code == 0x0085
    || code == 0x00a0
    || code == 0x1680
    || 0x2000 <= code <= 0x200a
    || code == 0x2028
    || code == 0x2029
    || code == 0x202f
    || code == 0x205f
    || code == 0x3000
  }

  /** `t` is `s` without trailing whitespace. */
  predicate IsTrimEnd(s: string, t: string) {
    && t <= s
    && (forall i | |t| <= i < |s| :: IsRustWhitespace(s[i]))
    && (t != [] ==> !IsRustWhitespace(t[|t| - 1]))
  }

  function TrimEnd(s: string): (t: string)
    ensures IsTrimEnd(s, t)
  {
    if s == "" || !IsRustWhitespace(s[|s| - 1]) then s
    else TrimEnd(s[..|s| - 1])
  }

  function TrimStart(s: string): (t: string)
    ensures |t| <= |s| && t == s[|s| - |t|..]
    ensures t != "" ==> !IsRustWhitespace(t[0])
  {
    if s == "" || !IsRustWhitespace(s[0]) then s else TrimStart(s[1..])
  }

  function Trim(s: string): string {
    TrimEnd(TrimStart(s))
  }

  lemma TrimEndUnique(s: string, t: string)
    requires IsTrimEnd(s, t)
    ensures t == TrimEnd(s)
  {
    assert |t| == |TrimEnd(s)|;
  }

  /** A line that starts with a visible character starts so after trimming. */
  lemma TrimKeepsFirst(s: string)
    requires s != "" && !IsRustWhitespace(s[0])
    ensures Trim(s) == TrimEnd(s) && TrimEnd(s) != "" && TrimEnd(s)[0] == s[0]
  {
  }

  lemma TrimIdentity(s: string)
    requires s != "" && !IsRustWhitespace(s[0]) && !IsRustWhitespace(s[|s| - 1])
    ensures Trim(s) == s && TrimEnd(s) == s
  {
  }

  method RustTrimEnd(value: string) returns (r: string)
    ensures r == TrimEnd(value)
  {
    var end := |value|;
    while end > 0 && IsRustWhitespace(value[end - 1])
      invariant 0 <= end <= |value|
      invariant TrimEnd(value[..end]) == TrimEnd(value)
    {
      assert value[..end][..end - 1] == value[..end - 1];
      end := end - 1;
    }
    r := value[..end];
  }

  method RustTrim(value: string) returns (r: string)
    ensures r == Trim(value)
  {
    var start := 0;
    while start < |value| && IsRustWhitespace(value[start])
      invariant 0 <= start <= |value|
      invariant TrimStart(value[start..]) == TrimStart(value)
    {
      assert value[start..][1..] == value[start + 1..];
      start := start + 1;
    }
    r := RustTrimEnd(value[start..]);
  }
}
