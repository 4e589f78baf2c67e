/** The structural differ: what it reports, and why the report is exact. */
module Differ {
  import opened Options
  import opened Sequences
  import opened Sorting
  import opened JsonText
  import opened JsonTree
  import opened JsonPointers
  import opened Text

  datatype Kind = Timeout | Crash | PartialMutation | Unexpected | Missing | TypeDiffers | ValueDiffers

  /** A place where the trees differ. */
  datatype Finding = Finding(path: seq<string>, kind: Kind)

  datatype Mismatch = Mismatch(pointer: string, kind: Kind)

  /** `digests`: captured artifacts are disclosed as digests only. `failed`: the
      observed process did not exit with code zero. */
  datatype Context = Context(side: string, digests: bool, failed: bool)

  /** `/structured/<digits>/value` */
  predicate IsArtifactPointer(pointer: string) {
    var prefix, suffix := "/structured/", "/value";
    && |pointer| > |prefix| + |suffix|
    && prefix <= pointer
    && pointer[|pointer| - |suffix|..] == suffix
    && forall c | c in pointer[|prefix|..|pointer| - |suffix|] :: IsDigit(c)
  }

  function TypeName(v: Value): string {
    match v
    case Bool(_) => "boolean"
    case Int(_) => "number"
    case Text(_) => "string"
    case _ => "object"
  }

  function MismatchKind(pointer: string, expected: Option<Value>, actual: Option<Value>, failed: bool): Kind {
    if pointer == "/process/outcome" && actual == Some(Text("timeout")) then Timeout
    else if pointer == "/process/outcome" && actual == Some(Text("signal")) then Crash
    else if "/filesystem/mutations/" <= pointer && failed then PartialMutation
    else if expected.None? then Unexpected
    else if actual.None? then Missing
    else if expected.value.List? != actual.value.List? || TypeName(expected.value) != TypeName(actual.value) then TypeDiffers
    else ValueDiffers
  }

  predicate IsScalar(v: Value) {
    !v.List? && !v.Record?
  }

  /** `Object.is`, on scalars and on absent values. */
  predicate Identical(a: Option<Value>, b: Option<Value>) {
    if a.None? || b.None? then a == b else IsScalar(a.value) && a == b
  }

  predicate WellFormedOpt(v: Option<Value>) {
    v.Some? ==> WellFormed(v.value)
  }

  predicate SameOpt(a: Option<Value>, b: Option<Value>) {
    if a.None? || b.None? then a == b else Same(a.value, b.value)
  }

  function ItemAt(items: seq<Value>, i: nat): Option<Value> {
    if i < |items| then Some(items[i]) else None
  }

  function FieldAt(v: Value, key: string): Option<Value>
    requires v.Record?
  {
    if key in v.fields then Some(v.fields[key]) else None
  }

  function Missed(keys: seq<string>, more: seq<string>): (r: seq<string>)
    ensures forall k :: k in r <==> k in more && k !in keys
    ensures NoRepeats(more) ==> NoRepeats(r)
  {
    if more == [] then []
    else
      var rest := Missed(keys, more[1..]);
      assert forall k :: k in more <==> k == more[0] || k in more[1..];
      if more[0] in keys then rest else [more[0]] + rest
  }

  /** All keys of both records, sorted. */
  function AllKeys(a: Value, b: Value): (r: seq<string>)
    requires a.Record? && b.Record?
  {
    Sort(a.keys + Missed(a.keys, b.keys))
  }

  function Longer(a: nat, b: nat): nat {
    if a < b then b else a
  }

  function Under(v: Option<Value>): Value {
    if v.Some? then v.value else Null
  }

  /** What the differ finds below this path. */
  function Differences(expected: Option<Value>, actual: Option<Value>, path: seq<string>, ctx: Context): seq<Finding>
    requires WellFormedOpt(expected) && WellFormedOpt(actual)
    decreases expected.Some?, Under(expected), 1, 0
  {
    var finding := [Finding(path, MismatchKind(Encode(path), expected, actual, ctx.failed))];
    if Identical(expected, actual) then []
    else if ctx.digests && IsArtifactPointer(Encode(path)) then
      if expected.Some? && actual.Some? && Canonical(expected.value) == Canonical(actual.value) then [] else finding
    else if expected.Some? && actual.Some? && expected.value.List? && actual.value.List? then
      ItemDifferences(expected.value, actual.value, path, 0, ctx)
    else if expected.Some? && actual.Some? && expected.value.Record? && actual.value.Record? then
      FieldDifferences(expected.value, actual.value, path, AllKeys(expected.value, actual.value), ctx)
    else finding
  }

  function ItemDifferences(expected: Value, actual: Value, path: seq<string>, i: nat, ctx: Context): seq<Finding>
    requires expected.List? && actual.List? && WellFormed(expected) && WellFormed(actual)
    requires i <= Longer(|expected.items|, |actual.items|)
    decreases true, expected, 0, Longer(|expected.items|, |actual.items|) - i
  {
    if i == Longer(|expected.items|, |actual.items|) then []
    else
      Differences(ItemAt(expected.items, i), ItemAt(actual.items, i), path + [Decimal(i)], ctx)
      + ItemDifferences(expected, actual, path, i + 1, ctx)
  }

  function FieldDifferences(expected: Value, actual: Value, path: seq<string>, keys: seq<string>, ctx: Context): seq<Finding>
    requires expected.Record? && actual.Record? && WellFormed(expected) && WellFormed(actual)
    decreases true, expected, 0, |keys|
  {
    if keys == [] then []
    else
      Differences(FieldAt(expected, keys[0]), FieldAt(actual, keys[0]), path + [keys[0]], ctx)
      + FieldDifferences(expected, actual, path, keys[1..], ctx)
  }

  function Reported(findings: seq<Finding>, side: string): (r: seq<Mismatch>)
    ensures |r| == |findings|
    ensures forall i | 0 <= i < |r| :: r[i] == Mismatch(['/'] + side + Encode(findings[i].path), findings[i].kind)
  {
    seq(|findings|, i requires 0 <= i < |findings| => Mismatch(['/'] + side + Encode(findings[i].path), findings[i].kind))
  }

  lemma ReportedConcat(a: seq<Finding>, b: seq<Finding>, side: string)
    ensures Reported(a + b, side) == Reported(a, side) + Reported(b, side)
  {
  }

  /** The report being written. */
  class Output {
    var mismatches: seq<Mismatch>

    constructor ()
      ensures mismatches == []
    {
      mismatches := [];
    }

    method Collect(expected: Option<Value>, actual: Option<Value>, pointer: string, ctx: Context, ghost path: seq<string>)
      requires WellFormedOpt(expected) && WellFormedOpt(actual) && pointer == Encode(path)
      modifies this
      ensures mismatches == old(mismatches) + Reported(Differences(expected, actual, path, ctx), ctx.side)
      decreases expected.Some?, Under(expected), 1, 0
    {
      if Identical(expected, actual) {
        return;
      }
      if ctx.digests && IsArtifactPointer(pointer) {
        if expected.None? || actual.None? || Canonical(expected.value) != Canonical(actual.value) {
          Push(expected, actual, pointer, ctx);
        }
        return;
      }
      if expected.Some? && actual.Some? && expected.value.List? && actual.value.List? {
        CollectItems(expected.value, actual.value, pointer, ctx, path);
      } else if expected.Some? && actual.Some? && expected.value.Record? && actual.value.Record? {
        CollectFields(expected.value, actual.value, pointer, ctx, path);
      } else {
        Push(expected, actual, pointer, ctx);
      }
    }

    method Push(expected: Option<Value>, actual: Option<Value>, pointer: string, ctx: Context)
      modifies this
      ensures mismatches == old(mismatches) + [Mismatch(['/'] + ctx.side + pointer, MismatchKind(pointer, expected, actual, ctx.failed))]
    {
      mismatches := mismatches + [Mismatch(['/'] + ctx.side + pointer, MismatchKind(pointer, expected, actual, ctx.failed))];
    }

    method CollectItems(expected: Value, actual: Value, pointer: string, ctx: Context, ghost path: seq<string>)
      requires expected.List? && actual.List? && WellFormed(expected) && WellFormed(actual) && pointer == Encode(path)
      modifies this
      ensures mismatches == old(mismatches) + Reported(ItemDifferences(expected, actual, path, 0, ctx), ctx.side)
      decreases true, expected, 0, 0
    {
      var length := Longer(|expected.items|, |actual.items|);
      var i := 0;
      while i < length
        invariant 0 <= i <= length
        invariant mismatches + Reported(ItemDifferences(expected, actual, path, i, ctx), ctx.side)
               == old(mismatches) + Reported(ItemDifferences(expected, actual, path, 0, ctx), ctx.side)
      {
        ghost var here := Differences(ItemAt(expected.items, i), ItemAt(actual.items, i), path + [Decimal(i)], ctx);
        ghost var rest := ItemDifferences(expected, actual, path, i + 1, ctx);
        ghost var before := mismatches;
        EncodeChild(path, Decimal(i));
        DecimalIsEscaped(i);
        Collect(ItemAt(expected.items, i), ItemAt(actual.items, i), pointer + (['/'] + Decimal(i)), ctx, path + [Decimal(i)]);
        ReportedConcat(here, rest, ctx.side);
        Associative(before, Reported(here, ctx.side), Reported(rest, ctx.side));
        i := i + 1;
      }
    }

    method CollectFields(expected: Value, actual: Value, pointer: string, ctx: Context, ghost path: seq<string>)
      requires expected.Record? && actual.Record? && WellFormed(expected) && WellFormed(actual) && pointer == Encode(path)
      modifies this
      ensures mismatches == old(mismatches) + Reported(FieldDifferences(expected, actual, path, AllKeys(expected, actual), ctx), ctx.side)
      decreases true, expected, 0, 0
    {
      var keys := AllKeys(expected, actual);
      var i := 0;
      while i < |keys|
        invariant 0 <= i <= |keys|
        invariant mismatches + Reported(FieldDifferences(expected, actual, path, keys[i..], ctx), ctx.side)
               == old(mismatches) + Reported(FieldDifferences(expected, actual, path, keys, ctx), ctx.side)
      {
        ghost var here := Differences(FieldAt(expected, keys[i]), FieldAt(actual, keys[i]), path + [keys[i]], ctx);
        ghost var rest := FieldDifferences(expected, actual, path, keys[i + 1..], ctx);
        ghost var before := mismatches;
        EncodeChild(path, keys[i]);
        Collect(FieldAt(expected, keys[i]), FieldAt(actual, keys[i]), pointer + (['/'] + Escape(keys[i])), ctx, path + [keys[i]]);
        assert keys[i..][1..] == keys[i + 1..];
        ReportedConcat(here, rest, ctx.side);
        Associative(before, Reported(here, ctx.side), Reported(rest, ctx.side));
        i := i + 1;
      }
    }
  }

  lemma EncodeChild(path: seq<string>, segment: string)
    ensures Encode(path + [segment]) == Encode(path) + (['/'] + Escape(segment))
  {
    assert (path + [segment])[..|path|] == path;
  }

  lemma {:induction false} NothingToReplace(s: string, c: char, with: string)
    requires c !in s
    ensures ReplaceChar(s, c, with) == s
  {
    if s != "" {
      NothingToReplace(s[1..], c, with);
    }
  }

  lemma DecimalIsEscaped(n: nat)
    ensures Escape(Decimal(n)) == Decimal(n)
  {
    NothingToReplace(Decimal(n), '~', "~0");
    NothingToReplace(Decimal(n), '/', "~1");
  }
}
