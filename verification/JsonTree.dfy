/** Captured trees, the canonical text that digests are taken of, and its exactness. */
module JsonTree {
  import opened Sequences
  import opened Sorting
  import opened JsonText
  import opened Text

  /** A tree as the program holds it: the fields of a record come in some order. */
  datatype Value =
    | Null
    | Bool(b: bool)
    | Int(n: int)
    | Text(s: string)
    | List(items: seq<Value>)
    | Record(keys: seq<string>, fields: map<string, Value>)

  /** The order of the fields lists each exactly once. */
  predicate WellFormed(v: Value) {
    match v
    case List(items) => forall i | 0 <= i < |items| :: WellFormed(items[i])
    case Record(keys, fields) =>
      NoRepeats(keys) && (forall k | k in keys :: k in fields) && (forall k | k in fields :: k in keys) && forall k | k in fields :: WellFormed(fields[k])
    case _ => true
  }

  /** A tree without the order of fields. */
  datatype Tree =
    | NullTree
    | BoolTree(b: bool)
    | IntTree(n: int)
    | TextTree(s: string)
    | ListTree(items: seq<Tree>)
    | RecordTree(fields: map<string, Tree>)

  function Erase(v: Value): Tree {
    match v
    case Null => NullTree
    case Bool(b) => BoolTree(b)
    case Int(n) => IntTree(n)
    case Text(s) => TextTree(s)
    case List(items) => ListTree(seq(|items|, i requires 0 <= i < |items| => Erase(items[i])))
    case Record(_, fields) => RecordTree(map k | k in fields :: Erase(fields[k]))
  }

  /** The same tree, whatever the order of fields. */
  predicate Same(a: Value, b: Value) {
    Erase(a) == Erase(b)
  }

  function Canonical(v: Value): string
    requires WellFormed(v)
    decreases v, 1
  {
    match v
    case Null => "null"
    case Bool(b) => if b then "true" else "false"
    case Int(n) => Number(n)
    case Text(s) => Quote(s)
    case List(items) => ['['] + CanonicalItems(v, 0)
    case Record(keys, fields) =>
      SortElements(keys);
      ['{'] + CanonicalFields(v, Sort(keys), true)
  }

  /** The items from the i-th on, with their separators and the closing bracket. */
  function CanonicalItems(v: Value, i: nat): string
    requires v.List? && WellFormed(v) && i <= |v.items|
    decreases v, 0, |v.items| - i
  {
    if i == |v.items| then [']']
    else (if i == 0 then [] else [',']) + (Canonical(v.items[i]) + CanonicalItems(v, i + 1))
  }

  function CanonicalFields(v: Value, keys: seq<string>, first: bool): string
    requires v.Record? && WellFormed(v) && forall k | k in keys :: k in v.fields
    decreases v, 0, |keys|
  {
    if keys == [] then ['}']
    else
      (if first then [] else [','])
      + (Quote(keys[0]) + ([':'] + (Canonical(v.fields[keys[0]]) + CanonicalFields(v, keys[1..], false))))
  }

  /** What can follow a value in canonical text. */
  predicate Follows(x: string) {
    x == "" || x[0] == ',' || x[0] == ']' || x[0] == '}'
  }

  lemma CanonicalStart(v: Value)
    requires WellFormed(v)
    ensures Canonical(v) != ""
    ensures match v
            case Null => Canonical(v)[0] == 'n'
            case Bool(b) => Canonical(v)[0] == if b then 't' else 'f'
            case Int(_) => Canonical(v)[0] == '-' || IsDigit(Canonical(v)[0])
            case Text(_) => Canonical(v)[0] == '"'
            case List(_) => Canonical(v)[0] == '['
            case Record(_, _) => Canonical(v)[0] == '{'
  {
    if v.Int? {
      NumberStart(v.n);
    }
  }

  lemma ItemsStart(v: Value, i: nat)
    requires v.List? && WellFormed(v) && i <= |v.items|
    ensures CanonicalItems(v, i) != "" && (CanonicalItems(v, i)[0] == ']' <==> i == |v.items|)
    ensures i > 0 ==> Follows(CanonicalItems(v, i))
  {
    if i < |v.items| {
      CanonicalStart(v.items[i]);
    }
  }

  lemma FieldsStart(v: Value, keys: seq<string>, first: bool)
    requires v.Record? && WellFormed(v) && forall k | k in keys :: k in v.fields
    ensures CanonicalFields(v, keys, first) != "" && (CanonicalFields(v, keys, first)[0] == '}' <==> keys == [])
    ensures !first ==> Follows(CanonicalFields(v, keys, first))
  {
  }

  function Separator(first: bool): string {
    if first then [] else [',']
  }

  lemma ItemsStep(v: Value, i: nat, x: string)
    requires v.List? && WellFormed(v) && i < |v.items|
    ensures CanonicalItems(v, i) + x == Separator(i == 0) + (Canonical(v.items[i]) + (CanonicalItems(v, i + 1) + x))
    ensures Follows(CanonicalItems(v, i + 1) + x)
  {
    ItemsStart(v, i + 1);
    Associative(Separator(i == 0), Canonical(v.items[i]) + CanonicalItems(v, i + 1), x);
    Associative(Canonical(v.items[i]), CanonicalItems(v, i + 1), x);
  }

  lemma FieldsStep(v: Value, keys: seq<string>, first: bool, x: string)
    requires v.Record? && WellFormed(v) && keys != [] && forall k | k in keys :: k in v.fields
    ensures
      var rest := CanonicalFields(v, keys[1..], false) + x;
      && CanonicalFields(v, keys, first) + x == Separator(first) + (Quote(keys[0]) + ([':'] + (Canonical(v.fields[keys[0]]) + rest)))
      && Follows(rest)
  {
    var value, rest := Canonical(v.fields[keys[0]]), CanonicalFields(v, keys[1..], false);
    FieldsStart(v, keys[1..], false);
    Associative(Separator(first), Quote(keys[0]) + ([':'] + (value + rest)), x);
    Associative(Quote(keys[0]), [':'] + (value + rest), x);
    Associative([':'], value + rest, x);
    Associative(value, rest, x);
  }

  lemma ItemsEnd(v: Value, x: string)
    requires v.List? && WellFormed(v)
    ensures CanonicalItems(v, |v.items|) + x == [']'] + x
  {
  }

  lemma FirstChar(s: string, x: string)
    requires s != ""
    ensures s + x != "" && (s + x)[0] == s[0]
  {
  }

  lemma ItemsCancel(a: Value, b: Value, i: nat, x: string, y: string)
    requires a.List? && b.List? && WellFormed(a) && WellFormed(b) && i < |a.items| && i < |b.items|
    requires CanonicalItems(a, i) + x == CanonicalItems(b, i) + y
    ensures Canonical(a.items[i]) + (CanonicalItems(a, i + 1) + x) == Canonical(b.items[i]) + (CanonicalItems(b, i + 1) + y)
    ensures Follows(CanonicalItems(a, i + 1) + x) && Follows(CanonicalItems(b, i + 1) + y)
  {
    ItemsStep(a, i, x);
    ItemsStep(b, i, y);
    Cancel(Separator(i == 0), Canonical(a.items[i]) + (CanonicalItems(a, i + 1) + x), Canonical(b.items[i]) + (CanonicalItems(b, i + 1) + y));
  }

  lemma BothEnd(a: Value, b: Value, i: nat, x: string, y: string)
    requires a.List? && b.List? && WellFormed(a) && WellFormed(b) && i <= |a.items| && i <= |b.items|
    requires CanonicalItems(a, i) + x == CanonicalItems(b, i) + y
    ensures i == |a.items| <==> i == |b.items|
  {
    ItemsStart(a, i);
    ItemsStart(b, i);
    FirstChar(CanonicalItems(a, i), x);
    FirstChar(CanonicalItems(b, i), y);
  }

  lemma EndsCancel(a: Value, b: Value, x: string, y: string)
    requires a.List? && b.List? && WellFormed(a) && WellFormed(b)
    requires CanonicalItems(a, |a.items|) + x == CanonicalItems(b, |b.items|) + y
    ensures x == y
  {
    ItemsEnd(a, x);
    ItemsEnd(b, y);
    Cancel([']'], x, y);
  }

  predicate SameAt(a: Value, b: Value, k: nat)
    requires a.List? && b.List? && k < |a.items| && k < |b.items|
  {
    Same(a.items[k], b.items[k])
  }

  predicate SameFrom(a: Value, b: Value, i: nat)
    requires a.List? && b.List? && |a.items| == |b.items| && i <= |a.items|
    decreases |a.items| - i
  {
    i < |a.items| ==> SameAt(a, b, i) && SameFrom(a, b, i + 1)
  }

  lemma {:induction false} SameFromAt(a: Value, b: Value, i: nat, k: nat)
    requires a.List? && b.List? && |a.items| == |b.items| && i <= k < |a.items| && SameFrom(a, b, i)
    ensures SameAt(a, b, k)
    decreases |a.items| - i
  {
    if i < k {
      SameFromAt(a, b, i + 1, k);
    }
  }

  lemma ItemFree(a: Value, b: Value, i: nat, x: string, y: string)
    requires a.List? && b.List? && WellFormed(a) && WellFormed(b) && i < |a.items| && i < |b.items|
    requires CanonicalItems(a, i) + x == CanonicalItems(b, i) + y
    ensures SameAt(a, b, i) && CanonicalItems(a, i + 1) + x == CanonicalItems(b, i + 1) + y
    decreases a, 0, |a.items| - i, 0
  {
    ItemsCancel(a, b, i, x, y);
    CanonicalPrefixFree(a.items[i], CanonicalItems(a, i + 1) + x, b.items[i], CanonicalItems(b, i + 1) + y);
  }

  /** Reading canonical text back: it determines the items, and where they end. */
  lemma {:induction false} ItemsPrefixFree(a: Value, b: Value, i: nat, x: string, y: string)
    requires a.List? && b.List? && WellFormed(a) && WellFormed(b) && i <= |a.items| && i <= |b.items|
    requires CanonicalItems(a, i) + x == CanonicalItems(b, i) + y
    ensures |a.items| == |b.items| && x == y && SameFrom(a, b, i)
    decreases a, 0, |a.items| - i, 1
  {
    BothEnd(a, b, i, x, y);
    if i == |a.items| {
      EndsCancel(a, b, x, y);
    } else {
      ItemFree(a, b, i, x, y);
      ItemsPrefixFree(a, b, i + 1, x, y);
    }
  }

  predicate SameField(a: Value, b: Value, k: string)
    requires a.Record? && b.Record? && k in a.fields && k in b.fields
  {
    Same(a.fields[k], b.fields[k])
  }

  predicate SameOn(a: Value, b: Value, ks: seq<string>)
    requires a.Record? && b.Record? && forall k | k in ks :: k in a.fields && k in b.fields
  {
    forall k {:trigger SameField(a, b, k)} | k in ks :: SameField(a, b, k)
  }

  lemma BothEndFields(a: Value, b: Value, ks: seq<string>, ls: seq<string>, first: bool, x: string, y: string)
    requires a.Record? && b.Record? && WellFormed(a) && WellFormed(b)
    requires (forall k | k in ks :: k in a.fields) && (forall k | k in ls :: k in b.fields)
    requires CanonicalFields(a, ks, first) + x == CanonicalFields(b, ls, first) + y
    ensures ks == [] <==> ls == []
  {
    FieldsStart(a, ks, first);
    FieldsStart(b, ls, first);
    FirstChar(CanonicalFields(a, ks, first), x);
    FirstChar(CanonicalFields(b, ls, first), y);
  }

  /** The text after the first key. */
  function AfterKey(v: Value, keys: seq<string>, x: string): string
    requires v.Record? && WellFormed(v) && keys != [] && forall k | k in keys :: k in v.fields
  {
    Canonical(v.fields[keys[0]]) + (CanonicalFields(v, keys[1..], false) + x)
  }

  lemma FieldsCancel(a: Value, b: Value, ks: seq<string>, ls: seq<string>, first: bool, x: string, y: string)
    requires a.Record? && b.Record? && WellFormed(a) && WellFormed(b) && ks != [] && ls != []
    requires (forall k | k in ks :: k in a.fields) && (forall k | k in ls :: k in b.fields)
    requires CanonicalFields(a, ks, first) + x == CanonicalFields(b, ls, first) + y
    ensures ks[0] == ls[0] && AfterKey(a, ks, x) == AfterKey(b, ls, y)
    ensures Follows(CanonicalFields(a, ks[1..], false) + x) && Follows(CanonicalFields(b, ls[1..], false) + y)
  {
    FieldsStep(a, ks, first, x);
    FieldsStep(b, ls, first, y);
    Cancel(Separator(first), Quote(ks[0]) + ([':'] + AfterKey(a, ks, x)), Quote(ls[0]) + ([':'] + AfterKey(b, ls, y)));
    QuotePrefixFree(ks[0], [':'] + AfterKey(a, ks, x), ls[0], [':'] + AfterKey(b, ls, y));
    Cancel([':'], AfterKey(a, ks, x), AfterKey(b, ls, y));
  }

  lemma {:induction false} FieldsPrefixFree(a: Value, b: Value, ks: seq<string>, ls: seq<string>, first: bool, x: string, y: string)
    requires a.Record? && b.Record? && WellFormed(a) && WellFormed(b)
    requires (forall k | k in ks :: k in a.fields) && (forall k | k in ls :: k in b.fields)
    requires CanonicalFields(a, ks, first) + x == CanonicalFields(b, ls, first) + y
    ensures ks == ls && x == y && SameOn(a, b, ks)
    decreases a, 0, |ks|
  {
    BothEndFields(a, b, ks, ls, first, x, y);
    if ks == [] {
      Cancel(['}'], x, y);
    } else {
      FieldsCancel(a, b, ks, ls, first, x, y);
      CanonicalPrefixFree(a.fields[ks[0]], CanonicalFields(a, ks[1..], false) + x, b.fields[ls[0]], CanonicalFields(b, ls[1..], false) + y);
      assert SameField(a, b, ks[0]);
      FieldsPrefixFree(a, b, ks[1..], ls[1..], false, x, y);
      SplitFirstOff(ks);
      SplitFirstOff(ls);
    }
  }

  lemma SameKind(a: Value, x: string, b: Value, y: string)
    requires WellFormed(a) && WellFormed(b) && Canonical(a) + x == Canonical(b) + y
    ensures (a.Null? <==> b.Null?) && (a.Bool? <==> b.Bool?) && (a.Int? <==> b.Int?) && (a.Text? <==> b.Text?)
    ensures (a.List? <==> b.List?) && (a.Record? <==> b.Record?)
    ensures a.Bool? && b.Bool? ==> a == b
  {
    CanonicalStart(a);
    CanonicalStart(b);
    FirstChar(Canonical(a), x);
    FirstChar(Canonical(b), y);
  }

  /** Canonical text determines the tree, and where the tree's text ends. */
  lemma {:induction false} CanonicalPrefixFree(a: Value, x: string, b: Value, y: string)
    requires WellFormed(a) && WellFormed(b) && Follows(x) && Follows(y)
    requires Canonical(a) + x == Canonical(b) + y
    ensures Same(a, b) && x == y
    decreases a, 1
  {
    SameKind(a, x, b, y);
    match a {
      case Null => Cancel("null", x, y);
      case Bool(_) => Cancel(Canonical(a), x, y);
      case Int(n) => NumberPrefixFree(n, x, b.n, y);
      case Text(s) => QuotePrefixFree(s, x, b.s, y);
      case List(items) => ListPrefixFree(a, x, b, y);
      case Record(keys, fields) => RecordPrefixFree(a, x, b, y);
    }
  }

  lemma {:induction false} ListPrefixFree(a: Value, x: string, b: Value, y: string)
    requires WellFormed(a) && WellFormed(b) && a.List? && b.List?
    requires Canonical(a) + x == Canonical(b) + y
    ensures Same(a, b) && x == y
    decreases a, 0, |a.items| + 1
  {
    Associative(['['], CanonicalItems(a, 0), x);
    Associative(['['], CanonicalItems(b, 0), y);
    Cancel(['['], CanonicalItems(a, 0) + x, CanonicalItems(b, 0) + y);
    ItemsPrefixFree(a, b, 0, x, y);
    SameItems(a, b);
  }

  lemma SameItems(a: Value, b: Value)
    requires a.List? && b.List? && |a.items| == |b.items| && SameFrom(a, b, 0)
    ensures Same(a, b)
  {
    forall k | 0 <= k < |a.items| ensures Erase(a).items[k] == Erase(b).items[k] {
      SameFromAt(a, b, 0, k);
    }
    assert Erase(a).items == Erase(b).items;
  }

  lemma {:induction false} RecordPrefixFree(a: Value, x: string, b: Value, y: string)
    requires WellFormed(a) && WellFormed(b) && a.Record? && b.Record?
    requires Canonical(a) + x == Canonical(b) + y
    ensures Same(a, b) && x == y
    decreases a, 0, |a.keys| + 1
  {
    SortElements(a.keys);
    SortElements(b.keys);
    var ks, ls := Sort(a.keys), Sort(b.keys);
    Associative(['{'], CanonicalFields(a, ks, true), x);
    Associative(['{'], CanonicalFields(b, ls, true), y);
    Cancel(['{'], CanonicalFields(a, ks, true) + x, CanonicalFields(b, ls, true) + y);
    FieldsPrefixFree(a, b, ks, ls, true, x, y);
    forall k | k in a.keys ensures Same(a.fields[k], b.fields[k]) {
      assert k in ks && SameField(a, b, k);
    }
    SameRecords(a, b);
  }

  lemma SameRecords(a: Value, b: Value)
    requires WellFormed(a) && WellFormed(b) && a.Record? && b.Record?
    requires forall k :: k in a.keys <==> k in b.keys
    requires forall k | k in a.keys :: Same(a.fields[k], b.fields[k])
    ensures Same(a, b)
  {
    assert forall k :: k in a.fields <==> k in b.fields;
    assert Erase(a).fields == Erase(b).fields;
  }

  lemma {:induction false} ItemsAgree(a: Value, b: Value, i: nat)
    requires a.List? && b.List? && WellFormed(a) && WellFormed(b) && Same(a, b) && i <= |a.items|
    ensures |a.items| == |b.items| && CanonicalItems(a, i) == CanonicalItems(b, i)
    decreases a, 0, |a.items| - i
  {
    assert |Erase(a).items| == |a.items| && |Erase(b).items| == |b.items|;
    if i < |a.items| {
      assert Erase(a).items[i] == Erase(b).items[i];
      CanonicalForgets(a.items[i], b.items[i]);
      ItemsAgree(a, b, i + 1);
    }
  }

  lemma {:induction false} FieldsAgree(a: Value, b: Value, keys: seq<string>, first: bool)
    requires a.Record? && b.Record? && WellFormed(a) && WellFormed(b) && Same(a, b)
    requires forall k | k in keys :: k in a.fields && k in b.fields
    ensures CanonicalFields(a, keys, first) == CanonicalFields(b, keys, first)
    decreases a, 0, |keys|
  {
    if keys != [] {
      assert Erase(a).fields[keys[0]] == Erase(b).fields[keys[0]];
      CanonicalForgets(a.fields[keys[0]], b.fields[keys[0]]);
      FieldsAgree(a, b, keys[1..], false);
    }
  }

  /** The order of fields does not show in canonical text. */
  lemma {:induction false} CanonicalForgets(a: Value, b: Value)
    requires WellFormed(a) && WellFormed(b) && Same(a, b)
    ensures Canonical(a) == Canonical(b)
    decreases a, 1
  {
    if a.List? {
      ItemsAgree(a, b, 0);
    } else if a.Record? {
      SameKeys(a, b);
      SortSameElements(a.keys, b.keys);
      SortElements(a.keys);
      FieldsAgree(a, b, Sort(a.keys), true);
    }
  }

  lemma SameKeys(a: Value, b: Value)
    requires a.Record? && b.Record? && WellFormed(a) && WellFormed(b) && Same(a, b)
    ensures forall k :: k in a.fields <==> k in b.fields
    ensures forall k :: k in a.keys <==> k in b.keys
  {
    assert Erase(a).fields.Keys == a.fields.Keys;
    assert Erase(b).fields.Keys == b.fields.Keys;
  }

  /** Digests of canonical text are equal exactly for equal trees. */
  lemma CanonicalExact(a: Value, b: Value)
    requires WellFormed(a) && WellFormed(b)
    ensures Canonical(a) == Canonical(b) <==> Same(a, b)
  {
    if Canonical(a) == Canonical(b) {
      CanonicalPrefixFree(a, "", b, "");
    }
    if Same(a, b) {
      CanonicalForgets(a, b);
    }
  }
}
