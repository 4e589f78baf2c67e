/** JSON pointers: how the differ writes them and how the normalizer reads them
    (RFC 6901, sections 3 and 4). */
module JsonPointers {
  import opened Options
  import opened Sequences
  import opened JsonText
  import opened JsonTree

  /** `replaceAll` of one character. */
  function ReplaceChar(s: string, c: char, with: string): string {
    if s == "" then "" else (if s[0] == c then with else [s[0]]) + ReplaceChar(s[1..], c, with)
  }

  /** `replaceAll` of a tilde and a digit. */
  function ReplacePair(s: string, digit: char, with: char): string {
    if |s| >= 2 && s[0] == '~' && s[1] == digit then [with] + ReplacePair(s[2..], digit, with)
    else if s == "" then ""
    else [s[0]] + ReplacePair(s[1..], digit, with)
  }

  function Escape(segment: string): string {
    ReplaceChar(ReplaceChar(segment, '~', "~0"), '/', "~1")
  }

  function Unescape(segment: string): string {
    ReplacePair(ReplacePair(segment, '1', '/'), '0', '~')
  }

  function Encode(path: seq<string>): string {
    if path == [] then "" else Encode(path[..|path| - 1]) + (['/'] + Escape(path[|path| - 1]))
  }

  /** Where the first slash is. */
  function Slash(s: string): (i: nat)
    ensures i <= |s| && (forall j | 0 <= j < i :: s[j] != '/') && (i < |s| ==> s[i] == '/')
  {
    if s == "" || s[0] == '/' then 0 else 1 + Slash(s[1..])
  }

  function SplitSlashes(s: string): seq<string>
    decreases |s|
  {
    var i := Slash(s);
    if i == |s| then [s] else [s[..i]] + SplitSlashes(s[i + 1..])
  }

  function UnescapeAll(segments: seq<string>): (r: seq<string>)
    ensures |r| == |segments|
  {
    if segments == [] then [] else [Unescape(segments[0])] + UnescapeAll(segments[1..])
  }

  function DecodePointer(pointer: string): Option<seq<string>> {
    if pointer == "" || pointer[0] != '/' || pointer == "/" then None
    else Some(UnescapeAll(SplitSlashes(pointer[1..])))
  }

  /** Tildes escaped, slashes not. */
  function Tildes(s: string): string {
    ReplaceChar(s, '~', "~0")
  }

  lemma {:induction false} EscapeStep(s: string)
    requires s != ""
    ensures Escape(s) == (if s[0] == '~' then "~0" else if s[0] == '/' then "~1" else [s[0]]) + Escape(s[1..])
  {
    var rest := Tildes(s[1..]);
    if s[0] == '~' {
      assert Tildes(s) == ['~'] + (['0'] + rest);
      ReplaceStep('~', ['0'] + rest);
      ReplaceStep('0', rest);
    } else {
      assert Tildes(s) == [s[0]] + rest;
      ReplaceStep(s[0], rest);
    }
  }

  lemma ReplaceStep(c: char, rest: string)
    ensures ReplaceChar([c] + rest, '/', "~1") == (if c == '/' then "~1" else [c]) + ReplaceChar(rest, '/', "~1")
  {
    assert ([c] + rest)[1..] == rest;
  }

  lemma {:induction false} UnescapeSlashes(s: string)
    ensures ReplacePair(Escape(s), '1', '/') == Tildes(s)
  {
    if s != "" {
      EscapeStep(s);
      UnescapeSlashes(s[1..]);
      var e, rest := Escape(s), Escape(s[1..]);
      if s[0] == '~' {
        assert e == ['~', '0'] + rest;
        assert e[1..] == ['0'] + rest;
        assert e[1..][1..] == rest;
      } else if s[0] == '/' {
        assert e == ['~', '1'] + rest;
        assert e[2..] == rest;
      } else {
        assert e == [s[0]] + rest;
        assert e[1..] == rest;
      }
    }
  }

  lemma {:induction false} UnescapeTildes(s: string)
    ensures ReplacePair(Tildes(s), '0', '~') == s
  {
    if s != "" {
      UnescapeTildes(s[1..]);
      var t, rest := Tildes(s), Tildes(s[1..]);
      if s[0] == '~' {
        assert t == ['~', '0'] + rest;
        assert t[2..] == rest;
      } else {
        assert t == [s[0]] + rest;
        assert t[1..] == rest;
      }
      assert s == [s[0]] + s[1..];
    }
  }

  lemma UnescapeEscape(s: string)
    ensures Unescape(Escape(s)) == s
  {
    UnescapeSlashes(s);
    UnescapeTildes(s);
  }

  lemma {:induction false} EscapeHasNoSlash(s: string)
    ensures '/' !in Escape(s)
  {
    if s != "" {
      EscapeStep(s);
      EscapeHasNoSlash(s[1..]);
    }
  }

  lemma {:induction false} SlashAt(a: string, rest: string)
    requires '/' !in a && (rest != "" ==> rest[0] == '/')
    ensures Slash(a + rest) == |a|
  {
    if a != "" {
      assert (a + rest)[1..] == a[1..] + rest;
      SlashAt(a[1..], rest);
    } else {
      assert a + rest == rest;
    }
  }

  /** The segments of a path, with slashes between. */
  lemma {:induction false} SplitAppend(s: string, segment: string)
    requires '/' !in segment
    ensures SplitSlashes(s + (['/'] + segment)) == SplitSlashes(s) + [segment]
    decreases |s|
  {
    var i := Slash(s);
    if i == |s| {
      SplitLone(segment);
      SplitStep(s, segment);
    } else {
      SplitAppend(s[i + 1..], segment);
      assert s == s[..i] + (['/'] + s[i + 1..]);
      Associative(s[..i], ['/'] + s[i + 1..], ['/'] + segment);
      Associative(['/'], s[i + 1..], ['/'] + segment);
      assert '/' !in s[..i];
      SplitStep(s[..i], s[i + 1..] + (['/'] + segment));
      Associative([s[..i]], SplitSlashes(s[i + 1..]), [segment]);
    }
  }

  lemma SplitLone(segment: string)
    requires '/' !in segment
    ensures SplitSlashes(segment) == [segment]
  {
    SlashAt(segment, "");
    assert segment + "" == segment;
  }

  lemma SplitStep(segment: string, rest: string)
    requires '/' !in segment
    ensures SplitSlashes(segment + (['/'] + rest)) == [segment] + SplitSlashes(rest)
  {
    var s := segment + (['/'] + rest);
    SlashAt(segment, ['/'] + rest);
    assert s[..|segment|] == segment && s[|segment| + 1..] == rest;
  }

  lemma {:induction false} UnescapeAppend(segments: seq<string>, segment: string)
    ensures UnescapeAll(segments + [segment]) == UnescapeAll(segments) + [Unescape(segment)]
  {
    if segments != [] {
      assert (segments + [segment])[1..] == segments[1..] + [segment];
      UnescapeAppend(segments[1..], segment);
    }
  }

  lemma {:induction false} EncodeSplits(path: seq<string>)
    requires path != []
    ensures Encode(path) != "" && Encode(path)[0] == '/'
    ensures UnescapeAll(SplitSlashes(Encode(path)[1..])) == path
  {
    var init, last := path[..|path| - 1], path[|path| - 1];
    SplitLast(path);
    EscapeHasNoSlash(last);
    UnescapeEscape(last);
    if init == [] {
      assert Encode(path) == ['/'] + Escape(last);
      SlashAt(Escape(last), "");
      assert Escape(last) + "" == Escape(last);
      assert Encode(path)[1..] == Escape(last);
    } else {
      EncodeSplits(init);
      assert Encode(path)[1..] == Encode(init)[1..] + (['/'] + Escape(last));
      SplitAppend(Encode(init)[1..], Escape(last));
      UnescapeAppend(SplitSlashes(Encode(init)[1..]), Escape(last));
    }
  }

  /** Decoding gives back the path; only the path of one empty name is refused. */
  lemma DecodeEncode(path: seq<string>)
    ensures DecodePointer(Encode(path)) == if path == [] || path == [""] then None else Some(path)
  {
    if path != [] {
      EncodeSplits(path);
      if Encode(path) == "/" {
        SlashAt("", "");
        assert SplitSlashes("") == [""];
        assert Unescape("") == "";
        assert UnescapeAll([""]) == [""];
      }
    }
  }

  lemma EncodeInjective(p: seq<string>, q: seq<string>)
    requires Encode(p) == Encode(q)
    ensures p == q
  {
    if p != [] && q != [] {
      EncodeSplits(p);
      EncodeSplits(q);
    } else if p != [] {
      EncodeSplits(p);
    } else if q != [] {
      EncodeSplits(q);
    }
  }

  /** The member that one segment of a pointer refers to. */
  ghost function Member(v: Option<Value>, segment: string): Option<Value> {
    if v.None? then None
    else
      match v.value
      case List(items) =>
        if exists i | 0 <= i < |items| :: Decimal(i) == segment then
          var i :| 0 <= i < |items| && Decimal(i) == segment;
          Some(items[i])
        else None
      case Record(_, fields) => if segment in fields then Some(fields[segment]) else None
      case _ => None
  }

  ghost function Lookup(v: Option<Value>, path: seq<string>): Option<Value>
    decreases |path|
  {
    if path == [] then v else Lookup(Member(v, path[0]), path[1..])
  }

  lemma MemberAt(items: seq<Value>, i: nat)
    ensures Member(Some(List(items)), Decimal(i)) == if i < |items| then Some(items[i]) else None
  {
    forall j: nat | Decimal(j) == Decimal(i) ensures i == j {
      DecimalInjective(i, j);
    }
  }
}
