/** What each kind of rule writes, where it points. */
module NormalizerRules {
  import opened Options
  import opened Sequences
  import opened Sorting
  import opened JsonText
  import opened JsonTree
  import opened JsonPointers
  import opened Normalizer

  /** Pieces with the same text between each two of them. */
  function Joined(pieces: seq<string>, glue: string): string
    requires pieces != []
  {
    if |pieces| == 1 then pieces[0] else pieces[0] + (glue + Joined(pieces[1..], glue))
  }

  ghost predicate Occurs(pattern: string, s: string) {
    exists k | 0 <= k <= |s| :: pattern <= s[k..]
  }

  /** A piece ends where the pattern first begins, or where the text ends. */
  ghost predicate CutHere(piece: string, pattern: string, last: bool) {
    if last then !Occurs(pattern, piece)
    else forall k | 0 <= k < |piece| :: !(pattern <= (piece + pattern)[k..])
  }

  ghost predicate Cut(pieces: seq<string>, pattern: string) {
    forall i | 0 <= i < |pieces| :: CutHere(pieces[i], pattern, i == |pieces| - 1)
  }

  /** `t` is `s` with each occurrence of the pattern, from left to right, replaced. */
  ghost predicate Replaced(s: string, t: string, pattern: string, with: string) {
    exists pieces | pieces != [] :: s == Joined(pieces, pattern) && t == Joined(pieces, with) && Cut(pieces, pattern)
  }

  lemma JoinedMore(piece: string, pieces: seq<string>, glue: string)
    requires pieces != []
    ensures Joined([piece] + pieces, glue) == piece + (glue + Joined(pieces, glue))
  {
    assert ([piece] + pieces)[1..] == pieces;
  }

  lemma JoinedLonger(c: char, pieces: seq<string>, glue: string)
    requires pieces != []
    ensures Joined([[c] + pieces[0]] + pieces[1..], glue) == [c] + Joined(pieces, glue)
  {
    if |pieces| == 1 {
      assert [[c] + pieces[0]] + pieces[1..] == [[c] + pieces[0]];
    } else {
      JoinedMore([c] + pieces[0], pieces[1..], glue);
      Associative([c], pieces[0], glue + Joined(pieces[1..], glue));
    }
  }

  /** One more character before a piece, where the pattern does not begin. */
  lemma CutLonger(c: char, piece: string, pattern: string, last: bool, rest: string)
    requires pattern != "" && CutHere(piece, pattern, last)
    requires !(pattern <= [c] + (if last then piece else piece + (pattern + rest)))
    ensures CutHere([c] + piece, pattern, last)
  {
    var longer := [c] + piece;
    if last {
      forall k | 0 <= k <= |longer| ensures !(pattern <= longer[k..]) {
        assert k > 0 ==> longer[k..] == piece[k - 1..];
      }
    } else {
      assert [c] + (piece + (pattern + rest)) == (longer + pattern) + rest;
      forall k | 0 <= k < |longer| ensures !(pattern <= (longer + pattern)[k..]) {
        assert k > 0 ==> (longer + pattern)[k..] == (piece + pattern)[k - 1..];
      }
    }
  }

  lemma {:induction false} ReplacesAll(s: string, pattern: string, with: string) returns (pieces: seq<string>)
    requires pattern != ""
    ensures pieces != [] && s == Joined(pieces, pattern) && ReplaceAll(s, pattern, with) == Joined(pieces, with) && Cut(pieces, pattern)
    decreases |s|
  {
    if s == "" {
      pieces := [""];
    } else if pattern <= s {
      var more := ReplacesAll(s[|pattern|..], pattern, with);
      pieces := [""] + more;
      JoinedMore("", more, pattern);
      JoinedMore("", more, with);
      assert s == pattern + s[|pattern|..];
      assert "" + (pattern + Joined(more, pattern)) == pattern + Joined(more, pattern);
      assert "" + (with + Joined(more, with)) == with + Joined(more, with);
    } else {
      var more := ReplacesAll(s[1..], pattern, with);
      pieces := [[s[0]] + more[0]] + more[1..];
      JoinedLonger(s[0], more, pattern);
      JoinedLonger(s[0], more, with);
      SplitFirstOff(s);
      FirstCut(s, more, pattern);
    }
  }

  lemma FirstCut(s: string, more: seq<string>, pattern: string)
    requires s != "" && pattern != "" && !(pattern <= s) && more != [] && s[1..] == Joined(more, pattern) && Cut(more, pattern)
    ensures Cut([[s[0]] + more[0]] + more[1..], pattern)
  {
    SplitFirstOff(s);
    assert CutHere(more[0], pattern, 0 == |more| - 1);
    CutLonger(s[0], more[0], pattern, |more| == 1, if |more| == 1 then "" else Joined(more[1..], pattern));
  }

  ghost predicate Identified(items: seq<Value>, key: string) {
    forall item | item in items :: Identity(item, key).Some?
  }

  /** The items of one identity, in their order. */
  function Those(items: seq<Value>, key: string, id: string): seq<Value> {
    if items == [] then []
    else (if Identity(items[0], key) == Some(id) then [items[0]] else []) + Those(items[1..], key, id)
  }

  ghost predicate InOrder(items: seq<Value>, key: string)
    requires Identified(items, key)
  {
    forall i, j | 0 <= i < j < |items| :: AtMost(Identity(items[i], key).value, Identity(items[j], key).value)
  }

  /** The same items, in the order of their identities, and of their places where these
      are the same. */
  ghost predicate SortedLike(items: seq<Value>, sorted: seq<Value>, key: string) {
    && multiset(sorted) == multiset(items)
    && (|items| > 1 ==> Identified(items, key) && Identified(sorted, key) && InOrder(sorted, key))
    && forall id :: Those(sorted, key, id) == Those(items, key, id)
  }

  lemma {:induction false} InsertKeeps(v: Value, id: string, items: seq<Value>, key: string)
    requires Identified(items, key) && Identity(v, key) == Some(id)
    ensures multiset(InsertBy(v, id, items, key)) == multiset(items) + multiset{v}
    ensures Identified(InsertBy(v, id, items, key), key)
  {
    if items != [] && !AtMost(id, Identity(items[0], key).value) {
      InsertKeeps(v, id, items[1..], key);
      SplitFirstOff(items);
    }
  }

  lemma {:induction false} InsertThose(v: Value, id: string, items: seq<Value>, key: string, other: string)
    requires Identified(items, key) && Identity(v, key) == Some(id)
    ensures Those(InsertBy(v, id, items, key), key, other) == (if other == id then [v] else []) + Those(items, key, other)
  {
    if items == [] || AtMost(id, Identity(items[0], key).value) {
      assert ([v] + items)[1..] == items;
    } else {
      AtMostTotal(id, id);
      InsertThose(v, id, items[1..], key, other);
      assert ([items[0]] + InsertBy(v, id, items[1..], key))[1..] == InsertBy(v, id, items[1..], key);
      var first := if Identity(items[0], key) == Some(other) then [items[0]] else [];
      Associative(first, if other == id then [v] else [], Those(items[1..], key, other));
    }
  }

  /** Every item is after the first one. */
  lemma {:induction false} InsertOrders(v: Value, id: string, items: seq<Value>, key: string)
    requires Identified(items, key) && InOrder(items, key) && Identity(v, key) == Some(id)
    ensures Identified(InsertBy(v, id, items, key), key) && InOrder(InsertBy(v, id, items, key), key)
  {
    InsertKeeps(v, id, items, key);
    var r := InsertBy(v, id, items, key);
    if items != [] {
      if AtMost(id, Identity(items[0], key).value) {
        forall i | 0 <= i < |items| ensures AtMost(id, Identity(items[i], key).value) {
          if i > 0 {
            AtMostTransitive(id, Identity(items[0], key).value, Identity(items[i], key).value);
          }
        }
      } else {
        AtMostTotal(id, Identity(items[0], key).value);
        var rest := InsertBy(v, id, items[1..], key);
        InsertOrders(v, id, items[1..], key);
        InsertKeeps(v, id, items[1..], key);
        forall item | item in rest ensures AtMost(Identity(items[0], key).value, Identity(item, key).value) {
          assert item in multiset(items[1..]) + multiset{v};
          if item != v {
            assert item in multiset(items[1..]);
            assert item in items[1..];
          }
        }
      }
    }
  }

  lemma {:induction false} SortAllOrders(items: seq<Value>, key: string)
    requires forall i | 0 <= i < |items| :: Identity(items[i], key).Some?
    ensures
      var sorted := SortAll(items, key);
      multiset(sorted) == multiset(items) && Identified(sorted, key) && InOrder(sorted, key)
  {
    if items != [] {
      SortAllOrders(items[1..], key);
      InsertKeeps(items[0], Identity(items[0], key).value, SortAll(items[1..], key), key);
      InsertOrders(items[0], Identity(items[0], key).value, SortAll(items[1..], key), key);
      SplitFirstOff(items);
    }
  }

  lemma {:induction false} SortAllThose(items: seq<Value>, key: string, id: string)
    requires forall i | 0 <= i < |items| :: Identity(items[i], key).Some?
    ensures Those(SortAll(items, key), key, id) == Those(items, key, id)
  {
    if items != [] {
      SortAllThose(items[1..], key, id);
      SortAllOrders(items[1..], key);
      InsertThose(items[0], Identity(items[0], key).value, SortAll(items[1..], key), key, id);
    }
  }

  lemma SortsByIdentity(items: seq<Value>, key: string)
    ensures SortedBy(items, key).Some? <==> |items| < 2 || Identified(items, key)
    ensures SortedBy(items, key).Some? ==> SortedLike(items, SortedBy(items, key).value, key)
  {
    if |items| >= 2 && SortedBy(items, key).Some? {
      SortAllOrders(items, key);
      forall id ensures Those(SortAll(items, key), key, id) == Those(items, key, id) {
        SortAllThose(items, key, id);
      }
    }
  }

  /** What stands at the place, and in what, lets the rule be applied. */
  ghost predicate Allowed(rule: Rule, parent: Value, was: Value, setting: Setting) {
    match rule
    case LineEndings(_) => was.Text?
    case WorkspacePath(_) => was.Text? && setting.workspace != ""
    case ReplaceValue(_, _) => true
    case SortArray(_, key) => was.List? && (|was.items| < 2 || Identified(was.items, key))
    case RemoveField(_) => parent.Record?
  }

  /** What the rule makes of the value at its place. */
  ghost predicate Becomes(rule: Rule, was: Value, now: Option<Value>, setting: Setting) {
    match rule
    case LineEndings(_) => was.Text? && now.Some? && now.value.Text? && Replaced(was.s, now.value.s, "\r\n", "\n")
    case WorkspacePath(_) => was.Text? && now.Some? && now.value.Text? && Replaced(was.s, now.value.s, setting.workspace, "<WORKSPACE>")
    case ReplaceValue(_, token) => now == Some(Text(token))
    case SortArray(_, key) => was.List? && now.Some? && now.value.List? && SortedLike(was.items, now.value.items, key)
    case RemoveField(_) => now.None?
  }

  /** The length and the digest beside a content are those of the content. */
  ghost predicate Describes(parent: Value, setting: Setting) {
    var content := Child(parent, "content");
    content.Some? && content.value.Text? ==>
      && Child(parent, "bytes") == Some(Int(setting.bytes(content.value.s)))
      && Child(parent, "sha256") == Some(Text(setting.digest(content.value.s)))
  }

  predicate RewritesText(rule: Rule) {
    rule.LineEndings? || rule.WorkspacePath?
  }

  lemma {:induction false} NotWithout(keys: seq<string>, key: string)
    ensures key !in Without(keys, key)
  {
    if keys != [] {
      NotWithout(keys[1..], key);
    }
  }

  lemma TextReplaced(s: string, pattern: string, with: string)
    requires pattern != ""
    ensures Replaced(s, ReplaceAll(s, pattern, with), pattern, with)
  {
    var pieces := ReplacesAll(s, pattern, with);
  }

  /** What a rule does where it points, exactly. */
  lemma EditedExact(rule: Rule, parent: Value, key: string, setting: Setting)
    ensures Edited(rule, parent, key, setting).Some? <==> Child(parent, key).Some? && Allowed(rule, parent, Child(parent, key).value, setting)
    ensures Edited(rule, parent, key, setting).Some? ==>
      Becomes(rule, Child(parent, key).value, Child(Edited(rule, parent, key, setting).value, key), setting)
  {
    if Edited(rule, parent, key, setting).Some? {
      var was := Child(parent, key).value;
      match rule {
        case LineEndings(_) => TextReplaced(was.s, "\r\n", "\n");
        case WorkspacePath(_) => TextReplaced(was.s, setting.workspace, "<WORKSPACE>");
        case ReplaceValue(_, token) => SameChild(parent, key, Text(token));
        case SortArray(_, identityKey) =>
          SortsByIdentity(was.items, identityKey);
          SameChild(parent, key, List(SortedBy(was.items, identityKey).value));
        case RemoveField(_) =>
      }
      if RewritesText(rule) {
        RewrittenStays(rule, parent, key, setting);
      }
    } else if Child(parent, key).Some? && rule.SortArray? && Child(parent, key).value.List? {
      SortsByIdentity(Child(parent, key).value.items, rule.identityKey);
    }
  }

  /** The two fields beside a content are not the content. */
  lemma RewrittenStays(rule: Rule, parent: Value, key: string, setting: Setting)
    requires RewritesText(rule) && Edited(rule, parent, key, setting).Some?
    ensures
      var was := Child(parent, key).value.s;
      Child(Edited(rule, parent, key, setting).value, key) ==
        Some(Text(if rule.LineEndings? then ReplaceAll(was, "\r\n", "\n") else ReplaceAll(was, setting.workspace, "<WORKSPACE>")))
    ensures key == "content" && parent.Record? ==> Describes(Edited(rule, parent, key, setting).value, setting)
  {
    var was := Child(parent, key).value.s;
    var now := if rule.LineEndings? then ReplaceAll(was, "\r\n", "\n") else ReplaceAll(was, setting.workspace, "<WORKSPACE>");
    SameChild(parent, key, Text(now));
  }

  function Init(path: seq<string>): seq<string>
    requires path != []
  {
    path[..|path| - 1]
  }

  /** A rule is applied where its path leads, and nowhere else. */
  lemma {:induction false} EditReaches(rule: Rule, v: Value, path: seq<string>, setting: Setting)
    requires path != []
    ensures
      var parent := ValueAt(v, Init(path));
      && (EditAt(rule, v, path, setting).Some? <==> parent.Some? && Edited(rule, parent.value, path[|path| - 1], setting).Some?)
      && (EditAt(rule, v, path, setting).Some? ==>
        ValueAt(EditAt(rule, v, path, setting).value, Init(path)) == Edited(rule, parent.value, path[|path| - 1], setting))
    decreases |path|
  {
    if |path| > 1 {
      var child := Child(v, path[0]);
      assert Init(path)[1..] == Init(path[1..]);
      if child.Some? {
        EditReaches(rule, child.value, path[1..], setting);
        var edited := EditAt(rule, child.value, path[1..], setting);
        if edited.Some? {
          SameChild(v, path[0], edited.value);
        }
      }
    }
  }

  lemma {:induction false} LastStep(v: Value, path: seq<string>)
    requires path != []
    ensures ValueAt(v, path) == (var parent := ValueAt(v, Init(path)); if parent.None? then None else Child(parent.value, path[|path| - 1]))
    decreases |path|
  {
    if |path| > 1 {
      assert Init(path)[1..] == Init(path[1..]);
      if Child(v, path[0]).Some? {
        LastStep(Child(v, path[0]).value, path[1..]);
      }
    } else {
      OneStep(v, path[0]);
      assert path == [path[0]];
    }
  }

  /** A rule, where it points: when it can be applied, and what it leaves there. */
  lemma EditExact(rule: Rule, v: Value, path: seq<string>, setting: Setting)
    requires path != []
    ensures EditAt(rule, v, path, setting).Some? <==>
      ValueAt(v, Init(path)).Some? && ValueAt(v, path).Some? && Allowed(rule, ValueAt(v, Init(path)).value, ValueAt(v, path).value, setting)
    ensures EditAt(rule, v, path, setting).Some? ==>
      var w := EditAt(rule, v, path, setting).value;
      && Becomes(rule, ValueAt(v, path).value, ValueAt(w, path), setting)
      && (RewritesText(rule) && path[|path| - 1] == "content" && ValueAt(v, Init(path)).value.Record? ==>
        ValueAt(w, Init(path)).Some? && Describes(ValueAt(w, Init(path)).value, setting))
  {
    EditReaches(rule, v, path, setting);
    LastStep(v, path);
    var parent := ValueAt(v, Init(path));
    if parent.Some? {
      EditedExact(rule, parent.value, path[|path| - 1], setting);
      if EditAt(rule, v, path, setting).Some? {
        LastStep(EditAt(rule, v, path, setting).value, path);
        if RewritesText(rule) {
          RewrittenStays(rule, parent.value, path[|path| - 1], setting);
        }
      }
    }
  }

  /** The places that rules are kept away from, as they are named and not as they are
      written: all but the two contents of a process, files, Git, and of an artifact all
      that is not below its value or that goes through a decision field. */
  ghost predicate Sheltered(path: seq<string>)
    requires path != []
  {
    match path[0]
    case "process" => path != ["process", "stdout", "content"] && path != ["process", "stderr", "content"]
    case "filesystem" => true
    case "git" => true
    case "structured" =>
      |path| <= 2
      || ((forall s | s in path[2..] :: !HasLineBreak(s)) && (|path| == 3 || path[2] != "value" || exists s | s in path[3..] :: s in DECISION_FIELDS))
    case _ => false
  }

  lemma SameName(segments: seq<string>, i: nat, name: string)
    requires i < |segments| && IsPlain(name)
    ensures UnescapeAll(segments)[i] == name <==> segments[i] == name
  {
    if UnescapeAll(segments)[i] == name {
      Written(segments, i, name);
    }
    if segments[i] == name {
      Kept(segments, i);
    }
  }

  lemma NamesPlain()
    ensures IsPlain("process") && IsPlain("filesystem") && IsPlain("git") && IsPlain("structured")
    ensures IsPlain("stdout") && IsPlain("stderr") && IsPlain("content") && IsPlain("value") && IsPlain("state")
  {
  }

  lemma SameRoot(segments: seq<string>)
    requires segments != []
    ensures UnescapeAll(segments)[0] == "process" <==> segments[0] == "process"
    ensures UnescapeAll(segments)[0] == "filesystem" <==> segments[0] == "filesystem"
    ensures UnescapeAll(segments)[0] == "git" <==> segments[0] == "git"
    ensures UnescapeAll(segments)[0] == "structured" <==> segments[0] == "structured"
  {
    NamesPlain();
    SameName(segments, 0, "process");
    SameName(segments, 0, "filesystem");
    SameName(segments, 0, "git");
    SameName(segments, 0, "structured");
  }

  lemma SameStream(segments: seq<string>, name: string)
    requires segments != [] && IsPlain(name)
    ensures UnescapeAll(segments) == ["process", name, "content"] <==> segments == ["process", name, "content"]
  {
    NamesPlain();
    if |segments| == 3 {
      SameName(segments, 0, "process");
      SameName(segments, 1, name);
      SameName(segments, 2, "content");
    }
  }

  lemma SameBreaks(segments: seq<string>, n: nat)
    requires n <= |segments|
    ensures (exists s | s in segments[n..] :: HasLineBreak(s)) <==> (exists s | s in UnescapeAll(segments)[n..] :: HasLineBreak(s))
  {
    var path := UnescapeAll(segments);
    forall k | n <= k < |segments| ensures HasLineBreak(segments[k]) <==> HasLineBreak(path[k]) {
      UnescapedAt(segments, k);
      if HasLineBreak(segments[k]) {
        BreakStays(segments[k]);
      } else if HasLineBreak(path[k]) {
        BreakWasThere(segments[k]);
      }
    }
    if s :| s in segments[n..] && HasLineBreak(s) {
      var k :| n <= k < |segments| && segments[k] == s;
      assert path[k] in path[n..];
    }
    if s :| s in path[n..] && HasLineBreak(s) {
      var k :| n <= k < |path| && path[k] == s;
      assert segments[k] in segments[n..];
    }
  }

  lemma SameDecisions(segments: seq<string>, n: nat)
    requires n <= |segments|
    ensures (exists s | s in segments[n..] :: s in DECISION_FIELDS) <==> (exists s | s in UnescapeAll(segments)[n..] :: s in DECISION_FIELDS)
  {
    var path := UnescapeAll(segments);
    DecisionsArePlain();
    if s :| s in segments[n..] && s in DECISION_FIELDS {
      var k :| n <= k < |segments| && segments[k] == s;
      SameName(segments, k, s);
      assert path[k] in path[n..];
    }
    if s :| s in path[n..] && s in DECISION_FIELDS {
      var k :| n <= k < |path| && path[k] == s;
      SameName(segments, k, s);
      assert segments[k] in segments[n..];
    }
  }

  lemma ArtifactSheltered(segments: seq<string>, path: seq<string>)
    requires |segments| == |path| >= 3 && segments[0] == path[0] == "structured" && IsNumeral(segments[1])
    requires segments[2] == "value" <==> path[2] == "value"
    requires (exists s | s in segments[2..] :: HasLineBreak(s)) <==> (exists s | s in path[2..] :: HasLineBreak(s))
    requires (exists s | s in segments[3..] :: s in DECISION_FIELDS) <==> (exists s | s in path[3..] :: s in DECISION_FIELDS)
    ensures IsProtected(segments) <==> Sheltered(path)
  {
  }

  lemma ShortSheltered(segments: seq<string>, path: seq<string>)
    requires |segments| == |path| && 1 <= |path| <= 2 && segments[0] == path[0] == "structured" && (|segments| == 2 ==> IsNumeral(segments[1]))
    ensures IsProtected(segments) && Sheltered(path)
  {
  }

  lemma ArtifactProtected(segments: seq<string>, path: seq<string>)
    requires |segments| == |path| > 0 && segments[0] == path[0] == "structured" && (|segments| >= 2 ==> IsNumeral(segments[1]))
    requires |segments| >= 3 ==>
      && (segments[2] == "value" <==> path[2] == "value")
      && ((exists s | s in segments[2..] :: HasLineBreak(s)) <==> (exists s | s in path[2..] :: HasLineBreak(s)))
      && ((exists s | s in segments[3..] :: s in DECISION_FIELDS) <==> (exists s | s in path[3..] :: s in DECISION_FIELDS))
    ensures IsProtected(segments) <==> Sheltered(path)
  {
    if |segments| >= 3 {
      ArtifactSheltered(segments, path);
    } else {
      ShortSheltered(segments, path);
    }
  }

  lemma RootProtected(segments: seq<string>, path: seq<string>)
    requires |segments| == |path| > 0 && segments[0] != "structured" && path[0] != "structured"
    requires path[0] == "process" <==> segments[0] == "process"
    requires path[0] == "filesystem" <==> segments[0] == "filesystem"
    requires path[0] == "git" <==> segments[0] == "git"
    requires path == ["process", "stdout", "content"] <==> segments == ["process", "stdout", "content"]
    requires path == ["process", "stderr", "content"] <==> segments == ["process", "stderr", "content"]
    ensures IsProtected(segments) <==> Sheltered(path)
  {
  }

  /** Protection by spelling is shelter by name, for artifacts named by a number. */
  lemma ProtectedExact(segments: seq<string>)
    requires segments != [] && (segments[0] == "structured" && |segments| >= 2 ==> IsNumeral(segments[1]))
    ensures IsProtected(segments) <==> Sheltered(UnescapeAll(segments))
  {
    SameRoot(segments);
    NamesPlain();
    if segments[0] == "structured" {
      if |segments| >= 3 {
        SameName(segments, 2, "value");
        SameBreaks(segments, 2);
        SameDecisions(segments, 3);
      }
      ArtifactProtected(segments, UnescapeAll(segments));
    } else {
      SameStream(segments, "stdout");
      SameStream(segments, "stderr");
      RootProtected(segments, UnescapeAll(segments));
    }
  }

  lemma {:induction false} NumeralOfDecimal(n: nat)
    ensures NumeralValue(Decimal(n)) == n
    decreases n
  {
    var s := Decimal(n);
    if n >= 10 {
      NumeralOfDecimal(n / 10);
      assert s[..|s| - 1] == Decimal(n / 10);
    } else {
      assert s[..0] == "";
    }
  }

  /** The artifact that the path goes into is not a valid one. */
  ghost predicate Absent(v: Value, path: seq<string>) {
    |path| >= 3 && path[0] == "structured" && path[2] == "value" && ValueAt(v, [path[0], path[1], "state"]) != Some(Text("valid"))
  }

  lemma ThreeSteps(v: Value, a: string, b: string, c: string)
    requires Child(v, a).Some? && Child(Child(v, a).value, b).Some?
    ensures ValueAt(v, [a, b, c]) == Child(Child(Child(v, a).value, b).value, c)
  {
    var list := Child(v, a).value;
    var artifact := Child(list, b).value;
    OneStep(artifact, c);
    assert [a, b, c][1..] == [b, c] && [b, c][1..] == [c];
  }

  /** An artifact is found by its index. */
  lemma ArtifactAt(v: Value, path: seq<string>) returns (n: nat)
    requires ArtifactsListed(v) && |path| >= 2 && path[0] == "structured" && ValueAt(v, path).Some?
    ensures path[1] == Decimal(n) && n < |Child(v, path[0]).value.items|
    ensures Child(Child(v, path[0]).value, path[1]) == Some(Child(v, path[0]).value.items[n])
  {
    var list := Child(v, path[0]).value;
    assert ValueAt(list, path[1..]).Some?;
    assert path[1..][0] == path[1];
    n := FindIndex(path[1], |list.items|).value;
  }

  lemma StateOf(v: Value, numeral: string, n: nat, name: string)
    requires name == "structured" && ArtifactsListed(v) && numeral == Decimal(n) && IsNumeral(numeral) && n < |Child(v, name).value.items|
    ensures StateAt(v, numeral) == Child(Child(v, name).value.items[n], "state")
  {
    NumeralOfDecimal(n);
  }

  lemma ArtifactNumbered(v: Value, segments: seq<string>)
    requires ArtifactsListed(v) && |segments| >= 2 && segments[0] == UnescapeAll(segments)[0] == "structured" && ValueAt(v, UnescapeAll(segments)).Some?
    ensures IsNumeral(segments[1]) && segments[1] == UnescapeAll(segments)[1]
  {
    var n := ArtifactAt(v, UnescapeAll(segments));
    IndexWritten(segments);
  }

  lemma AbsentExact(v: Value, segments: seq<string>, path: seq<string>, name: string)
    requires path == UnescapeAll(segments) && |path| >= 3 && name == "structured" && path[0] == segments[0] == name
    requires ArtifactsListed(v) && ValueAt(v, path).Some? && (segments[2] == "value" <==> path[2] == "value")
    ensures TargetsAbsentArtifact(v, segments) <==> Absent(v, path)
  {
    var n := ArtifactAt(v, path);
    ArtifactNumbered(v, segments);
    StateOf(v, segments[1], n, name);
    ThreeSteps(v, path[0], path[1], "state");
  }

  lemma AbsentAlike(v: Value, segments: seq<string>)
    requires segments != [] && ArtifactsListed(v) && ValueAt(v, UnescapeAll(segments)).Some?
    ensures TargetsAbsentArtifact(v, segments) <==> Absent(v, UnescapeAll(segments))
  {
    SameRoot(segments);
    NamesPlain();
    if |segments| >= 3 && segments[0] == "structured" {
      SameName(segments, 2, "value");
      AbsentExact(v, segments, UnescapeAll(segments), segments[0]);
    }
  }

  lemma NumberedOrNot(v: Value, segments: seq<string>)
    requires segments != [] && ArtifactsListed(v) && ValueAt(v, UnescapeAll(segments)).Some?
    ensures segments[0] == "structured" && |segments| >= 2 ==> IsNumeral(segments[1])
  {
    SameRoot(segments);
    if segments[0] == "structured" && |segments| >= 2 {
      ArtifactNumbered(v, segments);
    }
  }

  lemma SplitSome(s: string)
    ensures SplitSlashes(s) != []
  {
  }

  /** A rule, in full: it is applied exactly if its place is not sheltered and of the
      right kind, or in an artifact that is not valid, which it then leaves alone; and
      what is at its place becomes what such a rule makes of it. */
  lemma RuleExact(rule: Rule, v: Value, path: seq<string>, setting: Setting)
    requires ArtifactsListed(v) && DecodePointer(rule.pointer) == Some(path) && path != [] && ValueAt(v, path).Some?
    ensures ValueAt(v, Init(path)).Some?
    ensures Applied(rule, v, setting).Some? <==>
      !Sheltered(path) && (Absent(v, path) || Allowed(rule, ValueAt(v, Init(path)).value, ValueAt(v, path).value, setting))
    ensures Applied(rule, v, setting).Some? && Absent(v, path) ==> Applied(rule, v, setting) == Some(v)
    ensures Applied(rule, v, setting).Some? && !Absent(v, path) ==>
      var w := Applied(rule, v, setting).value;
      && Becomes(rule, ValueAt(v, path).value, ValueAt(w, path), setting)
      && (RewritesText(rule) && path[|path| - 1] == "content" && ValueAt(v, Init(path)).value.Record? ==>
        ValueAt(w, Init(path)).Some? && Describes(ValueAt(w, Init(path)).value, setting))
  {
    var segments := SplitSlashes(rule.pointer[1..]);
    SplitSome(rule.pointer[1..]);
    NumberedOrNot(v, segments);
    ProtectedExact(segments);
    AbsentAlike(v, segments);
    LastStep(v, path);
    EditExact(rule, v, path, setting);
  }

  /** Where there is nothing a rule is refused or, in an artifact that is not valid, skipped. */
  lemma NothingThere(rule: Rule, v: Value, path: seq<string>, setting: Setting)
    requires DecodePointer(rule.pointer) == Some(path) && path != [] && ValueAt(v, path).None?
    ensures Applied(rule, v, setting).None? || Applied(rule, v, setting) == Some(v)
  {
    EditExact(rule, v, path, setting);
  }
}
