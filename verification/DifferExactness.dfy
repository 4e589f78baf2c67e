/** The report is exact: empty for equal trees only, and each pointer in it names
    another place where the trees differ. */
module DifferExactness {
  import opened Options
  import opened Sequences
  import opened Sorting
  import opened JsonText
  import opened JsonTree
  import opened JsonPointers
  import opened Differ

  lemma SameLists(a: Value, b: Value)
    requires a.List? && b.List?
    ensures Same(a, b) <==> forall k | 0 <= k < Longer(|a.items|, |b.items|) :: SameOpt(ItemAt(a.items, k), ItemAt(b.items, k))
  {
    var x, y := Erase(a).items, Erase(b).items;
    assert |x| == |a.items| && |y| == |b.items|;
    var shorter := if |x| < |y| then |x| else |y|;
    assert |x| != |y| ==> !SameOpt(ItemAt(a.items, shorter), ItemAt(b.items, shorter));
    if forall k | 0 <= k < Longer(|x|, |y|) :: SameOpt(ItemAt(a.items, k), ItemAt(b.items, k)) {
      forall k | 0 <= k < |x| ensures x[k] == y[k] {
        assert SameOpt(ItemAt(a.items, k), ItemAt(b.items, k));
      }
      assert x == y;
    }
    if x == y {
      assert forall k | 0 <= k < |x| :: x[k] == Erase(a.items[k]) && y[k] == Erase(b.items[k]);
    }
  }

  lemma AllKeysAre(a: Value, b: Value)
    requires a.Record? && b.Record? && WellFormed(a) && WellFormed(b)
    ensures forall k :: k in AllKeys(a, b) <==> k in a.fields || k in b.fields
    ensures NoRepeats(AllKeys(a, b))
  {
    var keys := a.keys + Missed(a.keys, b.keys);
    SortElements(keys);
    ConcatDistinct(a.keys, Missed(a.keys, b.keys));
    SortKeepsDistinct(keys);
  }

  lemma ConcatDistinct(s: seq<string>, t: seq<string>)
    requires NoRepeats(s) && NoRepeats(t) && forall x | x in t :: x !in s
    ensures NoRepeats(s + t)
    ensures forall x :: x in s + t <==> x in s || x in t
  {
    forall i, j | 0 <= i < j < |s + t| ensures (s + t)[i] != (s + t)[j] {
      if i < |s| <= j {
        assert s[i] in s && t[j - |s|] in t;
      }
    }
  }

  lemma ErasedField(v: Value, k: string)
    requires v.Record? && WellFormed(v)
    ensures k in Erase(v).fields <==> k in v.fields
    ensures k in v.fields ==> Erase(v).fields[k] == Erase(v.fields[k])
  {
  }

  lemma FieldsOfSame(a: Value, b: Value, k: string)
    requires a.Record? && b.Record? && WellFormed(a) && WellFormed(b) && Same(a, b)
    ensures SameOpt(FieldAt(a, k), FieldAt(b, k))
  {
    ErasedField(a, k);
    ErasedField(b, k);
  }

  lemma SameOfFields(a: Value, b: Value)
    requires a.Record? && b.Record? && WellFormed(a) && WellFormed(b)
    requires forall k | k in a.fields || k in b.fields :: SameOpt(FieldAt(a, k), FieldAt(b, k))
    ensures Same(a, b)
  {
    var x, y := Erase(a).fields, Erase(b).fields;
    forall k ensures (k in x <==> k in y) && (k in x ==> x[k] == y[k]) {
      ErasedField(a, k);
      ErasedField(b, k);
    }
    assert x == y;
  }

  lemma SameFields(a: Value, b: Value)
    requires a.Record? && b.Record? && WellFormed(a) && WellFormed(b)
    ensures Same(a, b) <==> forall k | k in AllKeys(a, b) :: SameOpt(FieldAt(a, k), FieldAt(b, k))
  {
    AllKeysAre(a, b);
    if Same(a, b) {
      forall k | k in AllKeys(a, b) ensures SameOpt(FieldAt(a, k), FieldAt(b, k)) {
        FieldsOfSame(a, b, k);
      }
    }
    if forall k | k in AllKeys(a, b) :: SameOpt(FieldAt(a, k), FieldAt(b, k)) {
      SameOfFields(a, b);
    }
  }

  /** From `i` on the items are the same pairwise, the shorter list being continued
      with absent items. */
  predicate PairsSameFrom(a: Value, b: Value, i: nat)
    requires a.List? && b.List?
  {
    forall k | i <= k < Longer(|a.items|, |b.items|) :: SameOpt(ItemAt(a.items, k), ItemAt(b.items, k))
  }

  lemma PairsSameFromNext(a: Value, b: Value, i: nat)
    requires a.List? && b.List? && i < Longer(|a.items|, |b.items|)
    ensures PairsSameFrom(a, b, i) <==> SameOpt(ItemAt(a.items, i), ItemAt(b.items, i)) && PairsSameFrom(a, b, i + 1)
  {
  }

  lemma {:induction false} ItemsExact(a: Value, b: Value, path: seq<string>, i: nat, ctx: Context)
    requires a.List? && b.List? && WellFormed(a) && WellFormed(b) && i <= Longer(|a.items|, |b.items|)
    ensures ItemDifferences(a, b, path, i, ctx) == [] <==> PairsSameFrom(a, b, i)
    decreases true, a, 0, Longer(|a.items|, |b.items|) - i
  {
    if i < Longer(|a.items|, |b.items|) {
      DifferencesExact(ItemAt(a.items, i), ItemAt(b.items, i), path + [Decimal(i)], ctx);
      ItemsExact(a, b, path, i + 1, ctx);
      PairsSameFromNext(a, b, i);
    }
  }

  lemma {:induction false} FieldsExact(a: Value, b: Value, path: seq<string>, keys: seq<string>, ctx: Context)
    requires a.Record? && b.Record? && WellFormed(a) && WellFormed(b)
    ensures FieldDifferences(a, b, path, keys, ctx) == [] <==> forall k | k in keys :: SameOpt(FieldAt(a, k), FieldAt(b, k))
    decreases true, a, 0, |keys|
  {
    if keys != [] {
      DifferencesExact(FieldAt(a, keys[0]), FieldAt(b, keys[0]), path + [keys[0]], ctx);
      FieldsExact(a, b, path, keys[1..], ctx);
      assert forall k :: k in keys <==> k == keys[0] || k in keys[1..];
    }
  }

  /** Nothing is found exactly when the trees are the same, also through digests. */
  lemma {:induction false} DifferencesExact(a: Option<Value>, b: Option<Value>, path: seq<string>, ctx: Context)
    requires WellFormedOpt(a) && WellFormedOpt(b)
    ensures Differences(a, b, path, ctx) == [] <==> SameOpt(a, b)
    decreases a.Some?, Under(a), 1, 0
  {
    if a.Some? && b.Some? {
      if ctx.digests && IsArtifactPointer(Encode(path)) {
        CanonicalExact(a.value, b.value);
      } else if a.value.List? && b.value.List? {
        ItemsExact(a.value, b.value, path, 0, ctx);
        SameLists(a.value, b.value);
      } else if a.value.Record? && b.value.Record? {
        FieldsExact(a.value, b.value, path, AllKeys(a.value, b.value), ctx);
        SameFields(a.value, b.value);
      }
    }
  }

  /** The finding is below the path, at a place where the trees differ. */
  ghost predicate Real(f: Finding, a: Option<Value>, b: Option<Value>, path: seq<string>) {
    path <= f.path && !SameOpt(Lookup(a, f.path[|path|..]), Lookup(b, f.path[|path|..]))
  }

  ghost predicate AllReal(fs: seq<Finding>, a: Option<Value>, b: Option<Value>, path: seq<string>) {
    forall f | f in fs :: Real(f, a, b, path)
  }

  ghost predicate DistinctPlaces(fs: seq<Finding>) {
    forall i, j | 0 <= i < j < |fs| :: fs[i].path != fs[j].path
  }

  lemma RealInside(f: Finding, a: Option<Value>, b: Option<Value>, path: seq<string>, segment: string)
    requires Real(f, Member(a, segment), Member(b, segment), path + [segment])
    ensures Real(f, a, b, path) && |f.path| > |path| && f.path[|path|] == segment
  {
    var rest := f.path[|path|..];
    assert (path + [segment])[|path|] == f.path[|path|];
    assert rest[0] == segment && rest[1..] == f.path[|path + [segment]|..];
    assert path <= path + [segment] <= f.path;
  }

  /** All findings go through a segment from the set. */
  ghost predicate Through(fs: seq<Finding>, path: seq<string>, segments: iset<string>) {
    forall f | f in fs :: |f.path| > |path| && f.path[|path|] in segments
  }

  lemma JoinPlaces(fs: seq<Finding>, gs: seq<Finding>, path: seq<string>, here: iset<string>, there: iset<string>)
    requires DistinctPlaces(fs) && DistinctPlaces(gs) && Through(fs, path, here) && Through(gs, path, there)
    requires here !! there
    ensures DistinctPlaces(fs + gs) && Through(fs + gs, path, here + there)
  {
    forall i, j | 0 <= i < |fs| && 0 <= j < |gs| ensures fs[i].path != gs[j].path {
      assert fs[i] in fs && gs[j] in gs;
    }
  }

  ghost function LaterItems(i: nat): iset<string> {
    iset k: nat | k >= i :: Decimal(k)
  }

  lemma {:induction false} ItemsPlaced(a: Value, b: Value, path: seq<string>, i: nat, ctx: Context)
    requires a.List? && b.List? && WellFormed(a) && WellFormed(b) && i <= Longer(|a.items|, |b.items|)
    ensures AllReal(ItemDifferences(a, b, path, i, ctx), Some(a), Some(b), path)
    ensures DistinctPlaces(ItemDifferences(a, b, path, i, ctx))
    ensures Through(ItemDifferences(a, b, path, i, ctx), path, LaterItems(i))
    decreases true, a, 0, Longer(|a.items|, |b.items|) - i
  {
    if i < Longer(|a.items|, |b.items|) {
      var here := Differences(ItemAt(a.items, i), ItemAt(b.items, i), path + [Decimal(i)], ctx);
      var rest := ItemDifferences(a, b, path, i + 1, ctx);
      DifferencesPlaced(ItemAt(a.items, i), ItemAt(b.items, i), path + [Decimal(i)], ctx);
      ItemsPlaced(a, b, path, i + 1, ctx);
      MemberAt(a.items, i);
      MemberAt(b.items, i);
      forall f | f in here ensures Real(f, Some(a), Some(b), path) && |f.path| > |path| && f.path[|path|] == Decimal(i) {
        RealInside(f, Some(a), Some(b), path, Decimal(i));
      }
      forall k: nat | k >= i + 1 ensures Decimal(k) != Decimal(i) {
        if Decimal(k) == Decimal(i) {
          DecimalInjective(k, i);
        }
      }
      JoinPlaces(here, rest, path, iset{Decimal(i)}, LaterItems(i + 1));
    }
  }

  lemma {:induction false} FieldsPlaced(a: Value, b: Value, path: seq<string>, keys: seq<string>, ctx: Context)
    requires a.Record? && b.Record? && WellFormed(a) && WellFormed(b) && NoRepeats(keys)
    ensures AllReal(FieldDifferences(a, b, path, keys, ctx), Some(a), Some(b), path)
    ensures DistinctPlaces(FieldDifferences(a, b, path, keys, ctx))
    ensures Through(FieldDifferences(a, b, path, keys, ctx), path, iset k | k in keys)
    decreases true, a, 0, |keys|
  {
    if keys != [] {
      var k := keys[0];
      var here := Differences(FieldAt(a, k), FieldAt(b, k), path + [k], ctx);
      var rest := FieldDifferences(a, b, path, keys[1..], ctx);
      DifferencesPlaced(FieldAt(a, k), FieldAt(b, k), path + [k], ctx);
      FieldsPlaced(a, b, path, keys[1..], ctx);
      forall f | f in here ensures Real(f, Some(a), Some(b), path) && |f.path| > |path| && f.path[|path|] == k {
        RealInside(f, Some(a), Some(b), path, k);
      }
      JoinPlaces(here, rest, path, iset{k}, iset l | l in keys[1..]);
    }
  }

  /** Every finding is real, and no two are at the same place. */
  lemma {:induction false} DifferencesPlaced(a: Option<Value>, b: Option<Value>, path: seq<string>, ctx: Context)
    requires WellFormedOpt(a) && WellFormedOpt(b)
    ensures AllReal(Differences(a, b, path, ctx), a, b, path)
    ensures DistinctPlaces(Differences(a, b, path, ctx))
    decreases a.Some?, Under(a), 1, 0
  {
    if a.Some? && b.Some? {
      if ctx.digests && IsArtifactPointer(Encode(path)) {
        CanonicalExact(a.value, b.value);
      } else if a.value.List? && b.value.List? {
        ItemsPlaced(a.value, b.value, path, 0, ctx);
      } else if a.value.Record? && b.value.Record? {
        AllKeysAre(a.value, b.value);
        FieldsPlaced(a.value, b.value, path, AllKeys(a.value, b.value), ctx);
      }
    }
  }

  /** Both sides of a comparison. */
  function SideFindings(side: string, expected: Value, actual: Value, ctx: Context): seq<Mismatch>
    requires WellFormed(expected) && WellFormed(actual)
  {
    Reported(Differences(Some(expected), Some(actual), [], ctx), side)
  }

  method CompareGolden(side: string, expected: Value, actual: Value, digests: bool, failed: bool) returns (mismatches: seq<Mismatch>)
    requires WellFormed(expected) && WellFormed(actual)
    ensures mismatches == SideFindings(side, expected, actual, Context(side, digests, failed))
  {
    var output := new Output();
    output.Collect(Some(expected), Some(actual), "", Context(side, digests, failed), []);
    mismatches := output.mismatches;
  }

  /** The position of a finding in the report: the side, then the path. */
  lemma PointerDecodes(side: string, path: seq<string>)
    requires side != "" && '~' !in side && '/' !in side
    ensures DecodePointer(['/'] + side + Encode(path)) == Some([side] + path)
  {
    EncodeUnder(side, path);
    DecodeEncode([side] + path);
  }

  lemma {:induction false} EncodeUnder(side: string, path: seq<string>)
    requires '~' !in side && '/' !in side
    ensures Encode([side] + path) == ['/'] + side + Encode(path)
    decreases |path|
  {
    NothingToReplace(side, '~', "~0");
    NothingToReplace(side, '/', "~1");
    if path == [] {
      EncodeChild([], side);
      assert [side] + path == [] + [side];
    } else {
      var init, last := path[..|path| - 1], path[|path| - 1];
      SplitLast(path);
      EncodeUnder(side, init);
      Associative([side], init, [last]);
      EncodeChild([side] + init, last);
      Associative(['/'] + side, Encode(init), ['/'] + Escape(last));
    }
  }

  /** A pointer in the report leads, on both sides, to values that differ. */
  ghost predicate Exact(m: Mismatch, side: string, expected: Value, actual: Value) {
    exists path ::
      && DecodePointer(m.pointer) == Some([side] + path)
      && !SameOpt(Lookup(Some(expected), path), Lookup(Some(actual), path))
  }

  predicate DistinctPointers(ms: seq<Mismatch>) {
    forall i, j | 0 <= i < j < |ms| :: ms[i].pointer != ms[j].pointer
  }

  predicate IsSide(side: string) {
    side == "oracle" || side == "candidate"
  }

  lemma SideExact(side: string, expected: Value, actual: Value, ctx: Context)
    requires WellFormed(expected) && WellFormed(actual) && IsSide(side)
    ensures var ms := SideFindings(side, expected, actual, ctx);
      && (ms == [] <==> Same(expected, actual))
      && DistinctPointers(ms)
      && (forall m | m in ms :: Exact(m, side, expected, actual))
      && (forall m | m in ms :: DecodePointer(m.pointer).Some? && DecodePointer(m.pointer).value != [] && DecodePointer(m.pointer).value[0] == side)
  {
    var fs := Differences(Some(expected), Some(actual), [], ctx);
    var ms := Reported(fs, side);
    DifferencesExact(Some(expected), Some(actual), [], ctx);
    DifferencesPlaced(Some(expected), Some(actual), [], ctx);
    forall i | 0 <= i < |ms|
      ensures Exact(ms[i], side, expected, actual) && DecodePointer(ms[i].pointer) == Some([side] + fs[i].path)
    {
      assert Real(fs[i], Some(expected), Some(actual), []);
      assert fs[i].path[0..] == fs[i].path;
      PointerDecodes(side, fs[i].path);
    }
    forall i, j | 0 <= i < j < |ms| ensures ms[i].pointer != ms[j].pointer {
      assert ([side] + fs[i].path)[1..] == fs[i].path && ([side] + fs[j].path)[1..] == fs[j].path;
    }
  }

  datatype Report = Report(equal: bool, mismatches: seq<Mismatch>)

  /** The report's order: by pointer and then kind. */
  function SortKey(m: Mismatch): string {
    m.pointer + [0 as char] + KindName(m.kind)
  }

  function KindName(k: Kind): string {
    match k
    case Timeout => "timeout"
    case Crash => "crash"
    case PartialMutation => "partial_mutation"
    case Unexpected => "unexpected"
    case Missing => "missing"
    case TypeDiffers => "type"
    case ValueDiffers => "value"
  }

  function InsertMismatch(m: Mismatch, s: seq<Mismatch>): (r: seq<Mismatch>)
    ensures multiset(r) == multiset(s) + multiset{m}
  {
    if s == [] || AtMost(SortKey(m), SortKey(s[0])) then [m] + s
    else
      assert s == [s[0]] + s[1..];
      [s[0]] + InsertMismatch(m, s[1..])
  }

  function SortMismatches(s: seq<Mismatch>): (r: seq<Mismatch>)
    ensures multiset(r) == multiset(s)
  {
    if s == [] then []
    else
      assert s == [s[0]] + s[1..];
      InsertMismatch(s[0], SortMismatches(s[1..]))
  }

  /** By pointer, and by kind at one pointer. */
  ghost predicate InReportOrder(ms: seq<Mismatch>) {
    forall i, j | 0 <= i < j < |ms| :: AtMost(SortKey(ms[i]), SortKey(ms[j]))
  }

  lemma {:induction false} InsertedInOrder(m: Mismatch, s: seq<Mismatch>)
    requires InReportOrder(s)
    ensures InReportOrder(InsertMismatch(m, s))
  {
    if s != [] {
      if AtMost(SortKey(m), SortKey(s[0])) {
        forall i | 0 <= i < |s| ensures AtMost(SortKey(m), SortKey(s[i])) {
          if i > 0 {
            AtMostTransitive(SortKey(m), SortKey(s[0]), SortKey(s[i]));
          }
        }
      } else {
        AtMostTotal(SortKey(m), SortKey(s[0]));
        InsertedInOrder(m, s[1..]);
        var rest := InsertMismatch(m, s[1..]);
        forall n | n in rest ensures AtMost(SortKey(s[0]), SortKey(n)) {
          assert n in multiset(s[1..]) + multiset{m};
          if n != m {
            assert n in multiset(s[1..]);
            assert n in s[1..];
          }
        }
      }
    }
  }

  lemma {:induction false} SortedInOrder(s: seq<Mismatch>)
    ensures InReportOrder(SortMismatches(s))
  {
    if s != [] {
      SortedInOrder(s[1..]);
      InsertedInOrder(s[0], SortMismatches(s[1..]));
    }
  }

  /** Against the golden tree, a report is equal exactly when both observations are
      the golden tree; and every mismatch in it is exact, at a pointer of its own. */
  method CompareObservations(golden: Value, oracle: Value, candidate: Value, digests: bool, oracleFailed: bool, candidateFailed: bool)
    returns (report: Report)
    requires WellFormed(golden) && WellFormed(oracle) && WellFormed(candidate)
    ensures report.equal <==> Same(golden, oracle) && Same(golden, candidate)
    ensures report.equal <==> report.mismatches == []
    ensures forall m | m in report.mismatches :: Exact(m, "oracle", golden, oracle) || Exact(m, "candidate", golden, candidate)
    ensures forall m | m in report.mismatches :: multiset(report.mismatches)[m] == 1
    ensures forall m, n | m in report.mismatches && n in report.mismatches && m.pointer == n.pointer :: m == n
    ensures multiset(report.mismatches) == multiset(SideFindings("oracle", golden, oracle, Context("oracle", digests, oracleFailed))
      + SideFindings("candidate", golden, candidate, Context("candidate", digests, candidateFailed)))
    ensures InReportOrder(report.mismatches)
  {
    var first := CompareGolden("oracle", golden, oracle, digests, oracleFailed);
    var second := CompareGolden("candidate", golden, candidate, digests, candidateFailed);
    SideExact("oracle", golden, oracle, Context("oracle", digests, oracleFailed));
    SideExact("candidate", golden, candidate, Context("candidate", digests, candidateFailed));
    var all := first + second;
    var mismatches := SortMismatches(all);
    SortedInOrder(all);
    BothSidesDistinct(first, second);
    CountedByPointer(all);
    assert forall m :: m in mismatches <==> m in multiset(mismatches);
    assert forall m :: m in all <==> m in multiset(all);
    assert |mismatches| == |multiset(mismatches)| == |all|;
    report := Report(mismatches == [], mismatches);
  }

  lemma BothSidesDistinct(first: seq<Mismatch>, second: seq<Mismatch>)
    requires DistinctPointers(first) && DistinctPointers(second)
    requires forall m | m in first :: DecodePointer(m.pointer).Some? && DecodePointer(m.pointer).value != [] && DecodePointer(m.pointer).value[0] == "oracle"
    requires forall m | m in second :: DecodePointer(m.pointer).Some? && DecodePointer(m.pointer).value != [] && DecodePointer(m.pointer).value[0] == "candidate"
    ensures DistinctPointers(first + second)
  {
    forall i, j | 0 <= i < |first| && 0 <= j < |second| ensures first[i].pointer != second[j].pointer {
      assert first[i] in first && second[j] in second;
      assert "oracle"[0] != "candidate"[0];
    }
  }

  lemma {:induction false} CountedByPointer(ms: seq<Mismatch>)
    requires DistinctPointers(ms)
    ensures forall m | m in ms :: multiset(ms)[m] == 1
    ensures forall m, n | m in ms && n in ms && m.pointer == n.pointer :: m == n
  {
    if ms != [] {
      assert ms == [ms[0]] + ms[1..];
      CountedByPointer(ms[1..]);
      assert ms[0] !in ms[1..];
    }
  }
}
