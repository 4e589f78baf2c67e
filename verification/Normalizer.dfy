/** The normalizer of observations, and what no accepted list of rules can change. */
module Normalizer {
  import opened Options
  import opened Sorting
  import opened JsonText
  import opened JsonTree
  import opened JsonPointers
  import opened Text

  datatype Rule =
    | LineEndings(pointer: string)
    | WorkspacePath(pointer: string)
    | ReplaceValue(pointer: string, token: string)
    | SortArray(pointer: string, identityKey: string)
    | RemoveField(pointer: string)

  /** Byte lengths and digests of stream contents, and the workspace's path. */
  datatype Setting = Setting(bytes: string -> nat, digest: string -> string, workspace: string)

  const DECISION_FIELDS: set<string> := {"status", "exitCode", "reasonCode", "stateChanged", "retryable"}

  predicate IsNumeral(s: string) {
    s != "" && forall c | c in s :: IsDigit(c)
  }

  /** What the protection pattern's `.` does not match. */
  predicate HasLineBreak(s: string) {
    exists c | c in s :: c == '\n' || c == '\r' || c as int == 0x2028 || c as int == 0x2029
  }

  /** `isProtected`, on the segments of the pointer as they are written. */
  predicate IsProtected(segments: seq<string>)
    requires segments != []
  {
    if segments == ["process", "stdout", "content"] || segments == ["process", "stderr", "content"] then false
    else if segments[0] == "process" || segments[0] == "filesystem" || segments[0] == "git" then true
    else if segments[0] != "structured" then false
    else if |segments| == 1 then true
    else if !IsNumeral(segments[1]) || exists s | s in segments[2..] :: HasLineBreak(s) then false
    else if |segments| <= 3 || segments[2] != "value" then true
    else exists s | s in segments[3..] :: s in DECISION_FIELDS
  }

  function FindIndex(segment: string, n: nat): (r: Option<nat>)
    ensures r.Some? ==> r.value < n && Decimal(r.value) == segment
    ensures r.None? ==> forall i | 0 <= i < n :: Decimal(i) != segment
  {
    if n == 0 then None else if Decimal(n - 1) == segment then Some(n - 1) else FindIndex(segment, n - 1)
  }

  /** `readValue`: an item under its canonical index, or a field. */
  function Child(v: Value, segment: string): Option<Value> {
    match v
    case List(items) =>
      var i := FindIndex(segment, |items|);
      if i.Some? then Some(items[i.value]) else None
    case Record(_, fields) => if segment in fields then Some(fields[segment]) else None
    case _ => None
  }

  function SetField(v: Value, key: string, value: Value): Value
    requires v.Record?
  {
    Record(if key in v.keys then v.keys else v.keys + [key], v.fields[key := value])
  }

  /** `writeValue` at a place that can be read. */
  function SetChild(v: Value, segment: string, value: Value): Value
    requires Child(v, segment).Some?
  {
    match v
    case List(items) => List(items[FindIndex(segment, |items|).value := value])
    case Record(_, _) => SetField(v, segment, value)
  }

  function ReplaceAll(s: string, pattern: string, with: string): string
    requires pattern != ""
    decreases |s|
  {
    if s == "" then ""
    else if pattern <= s then with + ReplaceAll(s[|pattern|..], pattern, with)
    else [s[0]] + ReplaceAll(s[1..], pattern, with)
  }

  /** `resynchronizeStream`: bytes and digest follow the content beside them. */
  function Resynchronized(parent: Value, key: string, setting: Setting): Value {
    if key != "content" || !parent.Record? || Child(parent, key).None? || !Child(parent, key).value.Text? then parent
    else
      var content := Child(parent, key).value.s;
      SetField(SetField(parent, "bytes", Int(setting.bytes(content))), "sha256", Text(setting.digest(content)))
  }

  function Identity(v: Value, key: string): Option<string> {
    if !v.Record? || key !in v.fields then None
    else
      match v.fields[key]
      case Text(s) => Some("string:" + s)
      case Int(n) => Some("number:" + Number(n))
      case _ => None
  }

  function InsertBy(v: Value, id: string, items: seq<Value>, key: string): seq<Value> {
    if items == [] || Identity(items[0], key).None? || AtMost(id, Identity(items[0], key).value) then [v] + items
    else [items[0]] + InsertBy(v, id, items[1..], key)
  }

  /** Sorted by identity; an item without one is an error as soon as two are compared. */
  function SortedBy(items: seq<Value>, key: string): Option<seq<Value>> {
    if |items| < 2 then Some(items)
    else if exists i | 0 <= i < |items| :: Identity(items[i], key).None? then None
    else Some(SortAll(items, key))
  }

  function SortAll(items: seq<Value>, key: string): seq<Value>
    requires forall i | 0 <= i < |items| :: Identity(items[i], key).Some?
  {
    if items == [] then [] else InsertBy(items[0], Identity(items[0], key).value, SortAll(items[1..], key), key)
  }

  /** What a rule does to the parent of the place it names. */
  function Edited(rule: Rule, parent: Value, key: string, setting: Setting): Option<Value> {
    var value := Child(parent, key);
    if value.None? then None
    else
      match rule
      case LineEndings(_) =>
        if !value.value.Text? then None
        else Some(Resynchronized(SetChild(parent, key, Text(ReplaceAll(value.value.s, "\r\n", "\n"))), key, setting))
      case WorkspacePath(_) =>
        if !value.value.Text? || setting.workspace == "" then None
        else Some(Resynchronized(SetChild(parent, key, Text(ReplaceAll(value.value.s, setting.workspace, "<WORKSPACE>"))), key, setting))
      case ReplaceValue(_, token) => Some(SetChild(parent, key, Text(token)))
      case SortArray(_, identityKey) =>
        if !value.value.List? then None
        else
          var sorted := SortedBy(value.value.items, identityKey);
          if sorted.None? then None else Some(SetChild(parent, key, List(sorted.value)))
      case RemoveField(_) =>
        if !parent.Record? then None
        else Some(Record(Without(parent.keys, key), parent.fields - {key}))
  }

  function Without(keys: seq<string>, key: string): seq<string> {
    if keys == [] then [] else (if keys[0] == key then [] else [keys[0]]) + Without(keys[1..], key)
  }

  /** The walk down to the parent, and the edit there. */
  function EditAt(rule: Rule, v: Value, path: seq<string>, setting: Setting): Option<Value>
    requires path != []
    decreases |path|
  {
    if |path| == 1 then Edited(rule, v, path[0], setting)
    else
      var child := Child(v, path[0]);
      if child.None? then None
      else
        var edited := EditAt(rule, child.value, path[1..], setting);
        if edited.None? then None else Some(SetChild(v, path[0], edited.value))
  }

  /** The pointer is into an artifact that the observation does not have. */
  predicate TargetsAbsentArtifact(v: Value, segments: seq<string>) {
    && |segments| >= 3 && segments[0] == "structured" && IsNumeral(segments[1]) && segments[2] == "value"
    && StateAt(v, segments[1]) != Some(Text("valid"))
  }

  /** The number that digits stand for, leading zeros or not. */
  function NumeralValue(s: string): nat
    requires forall c | c in s :: IsDigit(c)
  {
    if s == "" then 0
    else
      assert s[|s| - 1] in s && IsDigit(s[|s| - 1]);
      NumeralValue(s[..|s| - 1]) * 10 + (s[|s| - 1] as int - '0' as int)
  }

  function StateAt(v: Value, numeral: string): Option<Value>
    requires IsNumeral(numeral)
  {
    var structured := Child(v, "structured");
    if structured.None? || !structured.value.List? || NumeralValue(numeral) >= |structured.value.items| then None
    else Child(structured.value.items[NumeralValue(numeral)], "state")
  }

  /** One rule; None where the normalizer throws. */
  function Applied(rule: Rule, v: Value, setting: Setting): Option<Value> {
    if rule.pointer == "" || rule.pointer[0] != '/' || rule.pointer == "/" then None
    else
      var segments := SplitSlashes(rule.pointer[1..]);
      if segments == [] || IsProtected(segments) then None
      else if TargetsAbsentArtifact(v, segments) then Some(v)
      else EditAt(rule, v, UnescapeAll(segments), setting)
  }

  function Normalized(v: Value, rules: seq<Rule>, setting: Setting): Option<Value>
    decreases |rules|
  {
    if rules == [] then Some(v)
    else
      var before := Normalized(v, rules[..|rules| - 1], setting);
      if before.None? then None else Applied(rules[|rules| - 1], before.value, setting)
  }

  lemma {:induction false} ThrowsForGood(v: Value, rules: seq<Rule>, n: nat, setting: Setting)
    requires n <= |rules| && Normalized(v, rules[..n], setting).None?
    ensures Normalized(v, rules, setting).None?
    decreases |rules|
  {
    if n < |rules| {
      assert rules[..|rules| - 1][..n] == rules[..n];
      ThrowsForGood(v, rules[..|rules| - 1], n, setting);
    } else {
      assert rules[..n] == rules;
    }
  }

  /** `normalizeObservation` */
  method NormalizeObservation(observation: Value, rules: seq<Rule>, setting: Setting) returns (r: Option<Value>)
    ensures r == Normalized(observation, rules, setting)
  {
    var normalized := observation;
    for n := 0 to |rules|
      invariant Normalized(observation, rules[..n], setting) == Some(normalized)
    {
      assert rules[..n + 1][..n] == rules[..n];
      var next := Applied(rules[n], normalized, setting);
      if next.None? {
        ThrowsForGood(observation, rules, n + 1, setting);
        return None;
      }
      normalized := next.value;
    }
    assert rules[..|rules|] == rules;
    r := Some(normalized);
  }

  /** The value at a path. */
  function ValueAt(v: Value, path: seq<string>): Option<Value>
    decreases |path|
  {
    if path == [] then Some(v)
    else
      var child := Child(v, path[0]);
      if child.None? then None else ValueAt(child.value, path[1..])
  }

  lemma OtherChild(v: Value, segment: string, value: Value, other: string)
    requires Child(v, segment).Some? && other != segment
    ensures Child(SetChild(v, segment, value), other) == Child(v, other)
  {
  }

  lemma SameChild(v: Value, segment: string, value: Value)
    requires Child(v, segment).Some?
    ensures Child(SetChild(v, segment, value), segment) == Some(value)
  {
  }

  /** An edit changes the place it names, and perhaps the two fields beside a content. */
  lemma EditedKeeps(rule: Rule, parent: Value, key: string, setting: Setting, other: string)
    requires Edited(rule, parent, key, setting).Some? && other != key
    requires key == "content" ==> other != "bytes" && other != "sha256"
    ensures Child(Edited(rule, parent, key, setting).value, other) == Child(parent, other)
  {
    match rule {
      case LineEndings(_) => OtherChild(parent, key, Text(ReplaceAll(Child(parent, key).value.s, "\r\n", "\n")), other);
      case WorkspacePath(_) => OtherChild(parent, key, Text(ReplaceAll(Child(parent, key).value.s, setting.workspace, "<WORKSPACE>")), other);
      case ReplaceValue(_, token) => OtherChild(parent, key, Text(token), other);
      case SortArray(_, identityKey) => OtherChild(parent, key, List(SortedBy(Child(parent, key).value.items, identityKey).value), other);
      case RemoveField(_) =>
    }
  }

  /** The paths part at `j`, and not into fields that are resynchronized. */
  predicate PartAt(path: seq<string>, q: seq<string>, j: nat) {
    && j < |path| && j < |q| && path[..j] == q[..j] && path[j] != q[j]
    && (j == |path| - 1 && path[j] == "content" ==> q[j] != "bytes" && q[j] != "sha256")
  }

  lemma {:induction false} EditKeeps(rule: Rule, v: Value, path: seq<string>, setting: Setting, q: seq<string>, j: nat)
    requires path != [] && EditAt(rule, v, path, setting).Some? && PartAt(path, q, j)
    ensures ValueAt(EditAt(rule, v, path, setting).value, q) == ValueAt(v, q)
    decreases |path|
  {
    var edited := EditAt(rule, v, path, setting).value;
    if |path| == 1 {
      EditedKeeps(rule, v, path[0], setting, q[0]);
    } else {
      var inner := EditAt(rule, Child(v, path[0]).value, path[1..], setting).value;
      if j == 0 {
        OtherChild(v, path[0], inner, q[0]);
      } else {
        assert path[0] == path[..j][0] == q[..j][0] == q[0];
        assert path[1..][..j - 1] == path[..j][1..] == q[..j][1..] == q[1..][..j - 1];
        EditKeeps(rule, Child(v, path[0]).value, path[1..], setting, q[1..], j - 1);
        SameChild(v, path[0], inner);
      }
    }
  }

  /** Where the decisions are: the file system, Git, the outcome of the process, the
      identity and state of every artifact, and the decision fields of its value. */
  predicate IsFramed(q: seq<string>) {
    && q != []
    && match q[0]
       case "filesystem" => true
       case "git" => true
       case "process" => |q| >= 2 && q[1] in {"outcome", "exitCode", "signal"}
       case "structured" =>
         |q| >= 3 && (q[2] in {"id", "path", "state"} || (|q| >= 4 && q[2] == "value" && q[3] in DECISION_FIELDS))
       case _ => false
  }

  predicate IsPlain(s: string) {
    '~' !in s && '/' !in s
  }

  lemma {:induction false} ReplacedHas(s: string, digit: char, with: char, c: char)
    requires c in s && c != '~' && c != digit
    ensures c in ReplacePair(s, digit, with)
    decreases |s|
  {
    if |s| >= 2 && s[0] == '~' && s[1] == digit {
      assert s == [s[0], s[1]] + s[2..];
      ReplacedHas(s[2..], digit, with, c);
    } else if s[0] != c {
      assert s == [s[0]] + s[1..];
      ReplacedHas(s[1..], digit, with, c);
    }
  }

  lemma {:induction false} ReplacedTilde(s: string, digit: char, with: char)
    requires '~' in s && digit != '~'
    ensures '~' in ReplacePair(s, digit, with) || with in ReplacePair(s, digit, with)
    decreases |s|
  {
    if !(|s| >= 2 && s[0] == '~' && s[1] == digit) && s[0] != '~' {
      assert s == [s[0]] + s[1..];
      ReplacedTilde(s[1..], digit, with);
    }
  }

  lemma {:induction false} NothingReplaced(s: string, digit: char, with: char)
    requires '~' !in s
    ensures ReplacePair(s, digit, with) == s
    decreases |s|
  {
    if s != "" {
      NothingReplaced(s[1..], digit, with);
      assert s == [s[0]] + s[1..];
    }
  }

  /** A segment that decodes to a plain name is written like that name. */
  lemma PlainIsWritten(s: string)
    requires IsPlain(Unescape(s))
    ensures Unescape(s) == s
  {
    var t := ReplacePair(s, '1', '/');
    if '~' in t {
      ReplacedTilde(t, '0', '~');
    }
    if '~' !in t {
      NothingReplaced(t, '0', '~');
    }
    if '~' in s {
      ReplacedTilde(s, '1', '/');
    } else {
      NothingReplaced(s, '1', '/');
      NothingReplaced(s, '0', '~');
    }
  }

  lemma {:induction false} UnescapedAt(segments: seq<string>, i: nat)
    requires i < |segments|
    ensures UnescapeAll(segments)[i] == Unescape(segments[i])
    decreases |segments|
  {
    if i > 0 {
      UnescapedAt(segments[1..], i - 1);
    }
  }

  lemma DecisionsArePlain()
    ensures forall name | name in DECISION_FIELDS :: IsPlain(name) && name != "bytes" && name != "sha256"
  {
  }

  lemma NumeralsArePlain(n: nat)
    ensures IsPlain(Decimal(n)) && IsNumeral(Decimal(n))
  {
  }

  /** A segment that decodes to this plain name is this name. */
  lemma Written(segments: seq<string>, i: nat, name: string)
    requires i < |segments| && UnescapeAll(segments)[i] == name && IsPlain(name)
    ensures segments[i] == name
  {
    UnescapedAt(segments, i);
    PlainIsWritten(segments[i]);
  }

  ghost predicate IsIndex(s: string) {
    exists n: nat :: Decimal(n) == s
  }

  /** Into an artifact by its index, through one of its decisions, and on to a name
      with a line break in it: the protection, written for one line, misses it. */
  ghost predicate Strays(path: seq<string>) {
    && |path| >= 3 && path[0] == "structured" && IsIndex(path[1]) && IsFramed(path)
    && exists s | s in path[2..] :: HasLineBreak(s)
  }

  /** A rule's pointer that is accepted and does not stray, in segments. */
  ghost predicate Accepted(segments: seq<string>) {
    segments != [] && !IsProtected(segments) && !Strays(UnescapeAll(segments))
  }

  /** An accepted pointer by an index, all on one line after it, goes below a value. */
  lemma ThroughValue(segments: seq<string>)
    requires Accepted(segments) && segments[0] == "structured"
    ensures |segments| >= 2
    ensures IsNumeral(segments[1]) && (forall s | s in segments[2..] :: !HasLineBreak(s)) ==> WrittenBelowValue(segments)
  {
    assert |segments| >= 4 ==> segments[3] in segments[3..];
  }

  lemma BreakStays(s: string)
    requires HasLineBreak(s)
    ensures HasLineBreak(Unescape(s))
  {
    var c :| c in s && (c == '\n' || c == '\r' || c as int == 0x2028 || c as int == 0x2029);
    ReplacedHas(s, '1', '/', c);
    ReplacedHas(ReplacePair(s, '1', '/'), '0', '~', c);
  }

  lemma NamesHaveNoBreak()
    ensures !HasLineBreak("value")
  {
  }

  lemma UnframedIsOff(path: seq<string>)
    requires |path| >= 3 && path[0] == "structured" && !IsFramed(path) && (path[2] == "value" ==> |path| >= 4)
    ensures OffFrame(path)
  {
  }

  lemma NotStraying(path: seq<string>, k: nat)
    requires path != [] && path[0] == "structured" && 2 <= k < |path| && IsIndex(path[1]) && HasLineBreak(path[k])
    requires !Strays(path)
    ensures !IsFramed(path)
  {
    assert path[k] in path[2..];
  }

  /** A path by an index that is not on one line after it, and does not stray, goes elsewhere. */
  lemma PastFrame(path: seq<string>, k: nat)
    requires path != [] && path[0] == "structured" && 2 <= k < |path| && IsIndex(path[1]) && HasLineBreak(path[k])
    requires !Strays(path)
    ensures OffFrame(path)
  {
    NotStraying(path, k);
    NamesHaveNoBreak();
    UnframedIsOff(path);
  }

  lemma PartFirst(path: seq<string>, q: seq<string>)
    requires path != [] && q != [] && path[0] != q[0] && q[0] != "bytes" && q[0] != "sha256"
    ensures PartAt(path, q, 0)
  {
  }

  predicate ArtifactsListed(v: Value) {
    var structured := Child(v, "structured");
    structured.Some? && structured.value.List?
  }

  /** Into an artifact and through none of its decisions. */
  predicate OffFrame(path: seq<string>) {
    && |path| >= 3 && path[0] == "structured" && path[2] !in {"id", "path", "state"}
    && (path[2] == "value" ==> |path| >= 4 && path[3] !in DECISION_FIELDS)
  }

  lemma NumeralStep(rule: Rule, v: Value, path: seq<string>, setting: Setting)
    requires v.List? && path != [] && EditAt(rule, v, path, setting).Some?
    ensures IsPlain(path[0]) && IsNumeral(path[0]) && IsIndex(path[0])
  {
    assert Child(v, path[0]).Some?;
    NumeralsArePlain(FindIndex(path[0], |v.items|).value);
  }

  /** A pointer that can be followed into the artifacts goes by an index. */
  lemma ByIndex(v: Value, rule: Rule, path: seq<string>, setting: Setting)
    requires |path| >= 2 && path[0] == "structured" && ArtifactsListed(v) && EditAt(rule, v, path, setting).Some?
    ensures IsPlain(path[1]) && IsNumeral(path[1]) && IsIndex(path[1])
  {
    NumeralStep(rule, Child(v, "structured").value, path[1..], setting);
  }

  lemma Kept(segments: seq<string>, i: nat)
    requires i < |segments| && '~' !in segments[i]
    ensures UnescapeAll(segments)[i] == segments[i]
  {
    UnescapedAt(segments, i);
    PlainUnescapes(segments[i]);
  }

  lemma StillOutside(segments: seq<string>, i: nat, fields: set<string>)
    requires i < |segments| && segments[i] !in fields && forall name | name in fields :: IsPlain(name)
    ensures UnescapeAll(segments)[i] !in fields
  {
    if UnescapeAll(segments)[i] in fields {
      Written(segments, i, UnescapeAll(segments)[i]);
    }
  }

  lemma NamesArePlain()
    ensures '~' !in "structured" && '~' !in "value" && '~' !in "process" && '~' !in "stdout" && '~' !in "stderr" && '~' !in "content"
  {
  }

  /** Written below a value, outside its decision fields. */
  predicate WrittenBelowValue(segments: seq<string>) {
    |segments| >= 4 && segments[0] == "structured" && segments[2] == "value" && segments[3] !in DECISION_FIELDS
  }

  lemma ValueSegments(segments: seq<string>)
    requires WrittenBelowValue(segments)
    ensures OffFrame(UnescapeAll(segments))
  {
    NamesArePlain();
    DecisionsArePlain();
    Kept(segments, 0);
    Kept(segments, 2);
    StillOutside(segments, 3, DECISION_FIELDS);
  }

  lemma PlainUnescapes(s: string)
    requires '~' !in s
    ensures Unescape(s) == s
  {
    NothingReplaced(s, '1', '/');
    NothingReplaced(s, '0', '~');
  }

  lemma WrittenNumeral(segments: seq<string>)
    requires |segments| >= 2 && IsPlain(UnescapeAll(segments)[1]) && IsNumeral(UnescapeAll(segments)[1])
    ensures IsNumeral(segments[1])
  {
    Written(segments, 1, UnescapeAll(segments)[1]);
  }

  /** An accepted pointer that can be followed into the artifacts leads off the frame. */
  lemma ArtifactPath(v: Value, rule: Rule, segments: seq<string>, setting: Setting)
    requires Accepted(segments) && segments[0] == "structured" && UnescapeAll(segments)[0] == segments[0]
    requires ArtifactsListed(v) && EditAt(rule, v, UnescapeAll(segments), setting).Some?
    ensures OffFrame(UnescapeAll(segments))
  {
    ThroughValue(segments);
    ByIndex(v, rule, UnescapeAll(segments), setting);
    WrittenNumeral(segments);
    if k: nat :| 2 <= k < |segments| && HasLineBreak(segments[k]) {
      UnescapedAt(segments, k);
      BreakStays(segments[k]);
      PastFrame(UnescapeAll(segments), k);
    } else {
      ValueSegments(segments);
    }
  }

  lemma FramedNames(q: seq<string>)
    requires IsFramed(q)
    ensures q[0] in {"filesystem", "git", "process", "structured"} && q[0] != "bytes" && q[0] != "sha256" && IsPlain(q[0])
  {
  }

  lemma ArtifactPart(path: seq<string>, q: seq<string>) returns (j: nat)
    requires OffFrame(path) && IsFramed(q) && q[0] == path[0]
    ensures PartAt(path, q, j)
  {
    DecisionsArePlain();
    if path[1] != q[1] {
      j := 1;
      assert path[..1] == q[..1];
    } else if path[2] != q[2] {
      j := 2;
      assert path[..2] == q[..2];
    } else {
      j := 3;
      assert path[..3] == q[..3];
    }
  }

  predicate IsStream(segments: seq<string>) {
    |segments| == 3 && segments[0] == "process" && (segments[1] == "stdout" || segments[1] == "stderr") && segments[2] == "content"
  }

  lemma StreamPath(segments: seq<string>)
    requires IsStream(segments)
    ensures UnescapeAll(segments) == segments
  {
    NamesArePlain();
    Kept(segments, 0);
    Kept(segments, 1);
    Kept(segments, 2);
  }

  lemma StreamPart(path: seq<string>, q: seq<string>)
    requires IsStream(path) && IsFramed(q) && q[0] == path[0]
    ensures PartAt(path, q, 1)
  {
    assert path[..1] == q[..1];
  }

  /** The path of an accepted rule parts from every framed place. */
  lemma FramedPart(v: Value, rule: Rule, segments: seq<string>, setting: Setting, q: seq<string>) returns (j: nat)
    requires Accepted(segments) && ArtifactsListed(v) && IsFramed(q)
    requires EditAt(rule, v, UnescapeAll(segments), setting).Some?
    ensures PartAt(UnescapeAll(segments), q, j)
  {
    FramedNames(q);
    if UnescapeAll(segments)[0] != q[0] {
      j := 0;
      PartFirst(UnescapeAll(segments), q);
    } else {
      Written(segments, 0, q[0]);
      if q[0] == "structured" {
        ArtifactPath(v, rule, segments, setting);
        j := ArtifactPart(UnescapeAll(segments), q);
      } else {
        j := 1;
        StreamSegments(segments);
        StreamPath(segments);
        StreamPart(segments, q);
      }
    }
  }

  /** The only accepted pointers into the process are to the two contents. */
  lemma StreamSegments(segments: seq<string>)
    requires Accepted(segments) && (segments[0] == "process" || segments[0] == "filesystem" || segments[0] == "git")
    ensures IsStream(segments)
  {
  }

  /** The two observations agree wherever decisions are. */
  ghost predicate SameFrame(a: Value, b: Value) {
    && ArtifactsListed(b)
    && forall q | IsFramed(q) :: ValueAt(a, q) == ValueAt(b, q)
  }

  lemma EditKeepsList(rule: Rule, v: Value, path: seq<string>, setting: Setting)
    requires |path| >= 2 && v.List? && EditAt(rule, v, path, setting).Some?
    ensures EditAt(rule, v, path, setting).value.List?
  {
  }

  /** Below an artifact's value or elsewhere, the list of artifacts stays one. */
  lemma ListStays(rule: Rule, v: Value, path: seq<string>, setting: Setting)
    requires |path| >= 3 && path[0] == "structured" && ArtifactsListed(v) && EditAt(rule, v, path, setting).Some?
    ensures ArtifactsListed(EditAt(rule, v, path, setting).value)
  {
    var artifacts := Child(v, path[0]).value;
    EditKeepsList(rule, artifacts, path[1..], setting);
    SameChild(v, path[0], EditAt(rule, artifacts, path[1..], setting).value);
  }

  lemma ListElsewhere(rule: Rule, v: Value, path: seq<string>, setting: Setting)
    requires path != [] && path[0] != "structured" && ArtifactsListed(v) && EditAt(rule, v, path, setting).Some?
    ensures ArtifactsListed(EditAt(rule, v, path, setting).value)
  {
    var q := ["structured"];
    PartFirst(path, q);
    EditKeeps(rule, v, path, setting, q, 0);
    OneStep(v, "structured");
    OneStep(EditAt(rule, v, path, setting).value, "structured");
  }

  lemma OneStep(v: Value, segment: string)
    ensures ValueAt(v, [segment]) == Child(v, segment)
  {
    if Child(v, segment).Some? {
      assert ValueAt(Child(v, segment).value, []) == Child(v, segment);
    }
  }

  lemma StructuredIsPlain()
    ensures IsPlain("structured")
  {
  }

  lemma ArtifactsKept(v: Value, rule: Rule, segments: seq<string>, setting: Setting, name: string)
    requires Accepted(segments) && name == "structured" && UnescapeAll(segments)[0] == name
    requires ArtifactsListed(v) && EditAt(rule, v, UnescapeAll(segments), setting).Some?
    ensures ArtifactsListed(EditAt(rule, v, UnescapeAll(segments), setting).value)
  {
    StructuredIsPlain();
    Written(segments, 0, name);
    ArtifactPath(v, rule, segments, setting);
    ListStays(rule, v, UnescapeAll(segments), setting);
  }

  lemma ListKept(v: Value, rule: Rule, segments: seq<string>, setting: Setting)
    requires Accepted(segments) && ArtifactsListed(v) && EditAt(rule, v, UnescapeAll(segments), setting).Some?
    ensures ArtifactsListed(EditAt(rule, v, UnescapeAll(segments), setting).value)
  {
    var path := UnescapeAll(segments);
    if path[0] == "structured" {
      ArtifactsKept(v, rule, segments, setting, path[0]);
    } else {
      ListElsewhere(rule, v, path, setting);
    }
  }

  /** One accepted edit keeps the frame. */
  lemma EditKeepsFrame(v: Value, rule: Rule, segments: seq<string>, setting: Setting)
    requires Accepted(segments) && ArtifactsListed(v) && EditAt(rule, v, UnescapeAll(segments), setting).Some?
    ensures SameFrame(v, EditAt(rule, v, UnescapeAll(segments), setting).value)
  {
    ListKept(v, rule, segments, setting);
    forall q | IsFramed(q) ensures ValueAt(v, q) == ValueAt(EditAt(rule, v, UnescapeAll(segments), setting).value, q) {
      var j := FramedPart(v, rule, segments, setting, q);
      EditKeeps(rule, v, UnescapeAll(segments), setting, q, j);
    }
  }

  /** The pointer strays, read as the normalizer reads it. */
  ghost predicate PointsAstray(pointer: string) {
    DecodePointer(pointer).Some? && Strays(DecodePointer(pointer).value)
  }

  lemma AppliedKeepsFrame(rule: Rule, v: Value, setting: Setting)
    requires ArtifactsListed(v) && !PointsAstray(rule.pointer) && Applied(rule, v, setting).Some?
    ensures SameFrame(v, Applied(rule, v, setting).value)
  {
    var segments := SplitSlashes(rule.pointer[1..]);
    if !TargetsAbsentArtifact(v, segments) {
      EditKeepsFrame(v, rule, segments, setting);
    }
  }

  /** For every accepted list of rules none of which strays, whatever they do, no
      decision changes. */
  lemma {:induction false} NormalizationFrame(observation: Value, rules: seq<Rule>, setting: Setting)
    requires ArtifactsListed(observation) && (forall rule | rule in rules :: !PointsAstray(rule.pointer))
    requires Normalized(observation, rules, setting).Some?
    ensures SameFrame(observation, Normalized(observation, rules, setting).value)
    decreases |rules|
  {
    if rules != [] {
      var init, last := rules[..|rules| - 1], rules[|rules| - 1];
      assert forall rule | rule in init :: rule in rules;
      assert last in rules;
      NormalizationFrame(observation, init, setting);
      AppliedKeepsFrame(last, Normalized(observation, init, setting).value, setting);
    }
  }

  /** Records inside one another. */
  function Nested(path: seq<string>, leaf: Value): Value {
    if path == [] then leaf else Record([path[0]], map[path[0] := Nested(path[1..], leaf)])
  }

  lemma {:induction false} NestedAt(path: seq<string>, leaf: Value)
    ensures ValueAt(Nested(path, leaf), path) == Some(leaf)
  {
    if path != [] {
      NestedAt(path[1..], leaf);
    }
  }

  /** An artifact with a field and, if it is another one, a valid state. */
  function ArtifactWith(name: string, value: Value): Value {
    if name == "state" then Record([name], map[name := value])
    else Record(["state", name], map["state" := Text("valid"), name := value])
  }

  /** An observation whose artifacts are many, and alike. */
  function ArtifactsAlike(count: nat, artifact: Value): Value {
    Record(["structured"], map["structured" := List(seq(count, _ => artifact))])
  }

  /** A replacement puts its token where it points. */
  lemma {:induction false} ReplacementLands(v: Value, pointer: string, token: string, path: seq<string>, setting: Setting)
    requires path != [] && ValueAt(v, path).Some?
    ensures EditAt(ReplaceValue(pointer, token), v, path, setting).Some?
    ensures ValueAt(EditAt(ReplaceValue(pointer, token), v, path, setting).value, path) == Some(Text(token))
    decreases |path|
  {
    if |path| == 1 {
      OneStep(v, path[0]);
      SameChild(v, path[0], Text(token));
      assert path == [path[0]];
      OneStep(SetChild(v, path[0], Text(token)), path[0]);
    } else {
      ReplacementLands(Child(v, path[0]).value, pointer, token, path[1..], setting);
      SameChild(v, path[0], EditAt(ReplaceValue(pointer, token), Child(v, path[0]).value, path[1..], setting).value);
    }
  }

  lemma Onward(v: Value, path: seq<string>, child: Value, value: Option<Value>)
    requires path != [] && Child(v, path[0]) == Some(child) && ValueAt(child, path[1..]) == value
    ensures ValueAt(v, path) == value
  {
  }

  /** There is an observation that has something at the path, in valid artifacts. */
  lemma SomethingThere(path: seq<string>) returns (v: Value)
    requires |path| >= 3 && path[0] == "structured" && IsIndex(path[1]) && IsNumeral(path[1])
    ensures ArtifactsListed(v) && ValueAt(v, path) == Some(Null)
    ensures path[2] != "state" ==> StateAt(v, path[1]) == Some(Text("valid"))
  {
    var n: nat :| Decimal(n) == path[1];
    var count := n + NumeralValue(path[1]) + 1;
    var artifact := ArtifactWith(path[2], Nested(path[3..], Null));
    v := ArtifactsAlike(count, artifact);
    assert FindIndex(path[1], count).Some?;
    NestedAt(path[3..], Null);
    assert path[1..][1..] == path[2..] && path[2..][1..] == path[3..];
    Onward(artifact, path[2..], Nested(path[3..], Null), Some(Null));
    Onward(Child(v, path[0]).value, path[1..], artifact, Some(Null));
    Onward(v, path, Child(v, path[0]).value, Some(Null));
  }

  lemma IndexWritten(segments: seq<string>)
    requires |segments| >= 2 && IsIndex(UnescapeAll(segments)[1])
    ensures IsNumeral(segments[1]) && segments[1] == UnescapeAll(segments)[1]
  {
    var n: nat :| Decimal(n) == UnescapeAll(segments)[1];
    NumeralsArePlain(n);
    Written(segments, 1, Decimal(n));
  }

  lemma {:induction false} ReplacedBreak(s: string, digit: char, with: char, c: char)
    requires c in ReplacePair(s, digit, with) && c != with
    ensures c in s
    decreases |s|
  {
    if |s| >= 2 && s[0] == '~' && s[1] == digit {
      ReplacedBreak(s[2..], digit, with, c);
    } else if s != "" && s[0] != c {
      ReplacedBreak(s[1..], digit, with, c);
    }
  }

  lemma BreakWasThere(s: string)
    requires HasLineBreak(Unescape(s))
    ensures HasLineBreak(s)
  {
    var c :| c in Unescape(s) && (c == '\n' || c == '\r' || c as int == 0x2028 || c as int == 0x2029);
    ReplacedBreak(ReplacePair(s, '1', '/'), '0', '~', c);
    ReplacedBreak(s, '1', '/', c);
  }

  lemma PatternMisses(segments: seq<string>, k: nat)
    requires 2 <= k < |segments| && HasLineBreak(segments[k])
    requires segments[0] == "structured" && IsNumeral(segments[1])
    ensures !IsProtected(segments)
  {
    assert segments[k] in segments[2..];
  }

  lemma BreakInSegments(segments: seq<string>) returns (k: nat)
    requires |segments| >= 2 && exists s | s in UnescapeAll(segments)[2..] :: HasLineBreak(s)
    ensures 2 <= k < |segments| && HasLineBreak(segments[k])
  {
    var path := UnescapeAll(segments);
    var s :| s in path[2..] && HasLineBreak(s);
    k :| 2 <= k < |path| && path[k] == s;
    UnescapedAt(segments, k);
    BreakWasThere(segments[k]);
  }

  lemma StructuredWritten(segments: seq<string>)
    requires segments != [] && UnescapeAll(segments)[0] == "structured"
    ensures segments[0] == UnescapeAll(segments)[0]
  {
    StructuredIsPlain();
    Written(segments, 0, UnescapeAll(segments)[0]);
  }

  /** The protection misses a pointer that strays. */
  lemma StraysUnprotected(segments: seq<string>)
    requires segments != [] && Strays(UnescapeAll(segments))
    ensures |segments| >= 3 && segments[0] == "structured" && IsNumeral(segments[1]) && segments[1] == UnescapeAll(segments)[1]
    ensures !IsProtected(segments)
  {
    StructuredWritten(segments);
    IndexWritten(segments);
    var k := BreakInSegments(segments);
    PatternMisses(segments, k);
  }

  /** Wherever a pointer strays to, some observation has a decision there that a
      replacement changes. */
  lemma StrayingBreaksFrame(pointer: string, token: string, setting: Setting) returns (v: Value)
    requires PointsAstray(pointer)
    ensures ArtifactsListed(v) && Applied(ReplaceValue(pointer, token), v, setting).Some?
    ensures !SameFrame(v, Applied(ReplaceValue(pointer, token), v, setting).value)
  {
    var segments := SplitSlashes(pointer[1..]);
    var path := UnescapeAll(segments);
    StraysUnprotected(segments);
    v := SomethingThere(path);
    ReplacementLands(v, pointer, token, path, setting);
    if segments[2] == "value" {
      NamesArePlain();
      Kept(segments, 2);
    }
    assert IsFramed(path);
  }

  /** Per pointer, exactly: every accepted rule with it keeps every decision of every
      observation, unless the pointer strays. */
  lemma PointerKeepsFrame(pointer: string, setting: Setting)
    ensures !PointsAstray(pointer) <==>
      forall rule: Rule, v | rule.pointer == pointer && ArtifactsListed(v) && Applied(rule, v, setting).Some? ::
        SameFrame(v, Applied(rule, v, setting).value)
  {
    if PointsAstray(pointer) {
      var v := StrayingBreaksFrame(pointer, "", setting);
      assert ReplaceValue(pointer, "").pointer == pointer;
    } else {
      forall rule: Rule, v | rule.pointer == pointer && ArtifactsListed(v) && Applied(rule, v, setting).Some?
        ensures SameFrame(v, Applied(rule, v, setting).value)
      {
        AppliedKeepsFrame(rule, v, setting);
      }
    }
  }

  function StatusPath(name: string): seq<string> {
    ["structured", "0", "value", "status", name]
  }

  /** For instance: the pointer to a name with a line break below a status. */
  lemma LineBreakEscapes(name: string, token: string, setting: Setting) returns (v: Value)
    requires HasLineBreak(name)
    ensures DecodePointer(Encode(StatusPath(name))) == Some(StatusPath(name)) && IsFramed(StatusPath(name))
    ensures ArtifactsListed(v) && Applied(ReplaceValue(Encode(StatusPath(name)), token), v, setting).Some?
    ensures !SameFrame(v, Applied(ReplaceValue(Encode(StatusPath(name)), token), v, setting).value)
  {
    var path := StatusPath(name);
    DecodeEncode(path);
    assert Decimal(0) == path[1];
    assert path[2..][2] == name;
    v := StrayingBreaksFrame(Encode(path), token, setting);
  }
}
