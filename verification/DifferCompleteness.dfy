/** The report is complete: it holds every place where both trees can be followed to and
    differ, and says of each what kind of difference it is. */
module DifferCompleteness {
  import opened Options
  import opened Sequences
  import opened JsonText
  import opened JsonTree
  import opened JsonPointers
  import opened Differ
  import opened DifferExactness
  import opened Text

  predicate BothContain(a: Option<Value>, b: Option<Value>) {
    a.Some? && b.Some? && ((a.value.List? && b.value.List?) || (a.value.Record? && b.value.Record?))
  }

  /** The value of an artifact that is compared by digest only. */
  predicate Opaque(path: seq<string>, ctx: Context) {
    ctx.digests && |path| == 3 && path[0] == "structured" && path[2] == "value" && path[1] != "" && forall c | c in path[1] :: IsDigit(c)
  }

  /** Below `base`, both trees are lists or both are records all the way to the end of
      `rest`, and there they differ and cannot be followed further. */
  ghost predicate Site(a: Option<Value>, b: Option<Value>, base: seq<string>, rest: seq<string>, ctx: Context)
    decreases |rest|
  {
    if rest == [] then !SameOpt(a, b) && (Opaque(base, ctx) || !BothContain(a, b))
    else BothContain(a, b) && !Opaque(base, ctx) && Site(Member(a, rest[0]), Member(b, rest[0]), base + [rest[0]], rest[1..], ctx)
  }

  /** What kind of difference it is, by the place and the two values there. */
  predicate IsKind(path: seq<string>, expected: Option<Value>, actual: Option<Value>, failed: bool, kind: Kind) {
    var timeout := path == ["process", "outcome"] && actual == Some(Text("timeout"));
    var crash := path == ["process", "outcome"] && actual == Some(Text("signal"));
    var partial := |path| > 2 && path[0] == "filesystem" && path[1] == "mutations" && failed;
    match kind
    case Timeout => timeout
    case Crash => crash
    case PartialMutation => partial
    case Unexpected => !timeout && !crash && !partial && expected.None?
    case Missing => !timeout && !crash && !partial && expected.Some? && actual.None?
    case TypeDiffers => !timeout && !crash && !partial && expected.Some? && actual.Some? && !Alike(expected.value, actual.value)
    case ValueDiffers => !timeout && !crash && !partial && expected.Some? && actual.Some? && Alike(expected.value, actual.value)
  }

  /** Of one JavaScript type, where null and records are objects, and so are lists, which
      are told apart from these. */
  predicate Alike(a: Value, b: Value) {
    match a
    case Bool(_) => b.Bool?
    case Int(_) => b.Int?
    case Text(_) => b.Text?
    case List(_) => b.List?
    case _ => b.Null? || b.Record?
  }

  /** A finding is of a site, and of its kind. */
  ghost predicate Belongs(f: Finding, a: Option<Value>, b: Option<Value>, base: seq<string>, ctx: Context) {
    && base <= f.path
    && var rest := f.path[|base|..];
    && Site(a, b, base, rest, ctx)
    && f.kind == MismatchKind(Encode(f.path), Lookup(a, rest), Lookup(b, rest), ctx.failed)
  }

  lemma BelongsInside(f: Finding, a: Option<Value>, b: Option<Value>, base: seq<string>, segment: string, ctx: Context)
    requires BothContain(a, b) && !Opaque(base, ctx)
    ensures Belongs(f, Member(a, segment), Member(b, segment), base + [segment], ctx) <==>
      Belongs(f, a, b, base, ctx) && |f.path| > |base| && f.path[|base|] == segment
  {
    var longer := base + [segment];
    if base <= f.path && |f.path| > |base| && f.path[|base|] == segment {
      assert longer <= f.path;
    }
    if longer <= f.path {
      assert longer[|base|] == segment && base <= f.path;
      assert f.path[|base|..][0] == segment && f.path[|base|..][1..] == f.path[|longer|..];
    }
  }

  lemma PlainEscapes(s: string)
    requires '~' !in s && '/' !in s
    ensures Escape(s) == s
  {
    NothingToReplace(s, '~', "~0");
    NothingToReplace(s, '/', "~1");
  }

  lemma EncodeOne(a: string)
    ensures Encode([a]) == ['/'] + Escape(a)
  {
    EncodeChild([], a);
    assert [] + [a] == [a];
  }

  lemma EncodeTwo(a: string, b: string)
    requires '~' !in a && '/' !in a && '~' !in b && '/' !in b
    ensures Encode([a, b]) == (['/'] + a) + (['/'] + b)
  {
    EncodeOne(a);
    EncodeChild([a], b);
    PlainEscapes(a);
    PlainEscapes(b);
    assert [a] + [b] == [a, b];
  }

  lemma EncodeThree(a: string, b: string, c: string)
    requires '~' !in a && '/' !in a && '~' !in b && '/' !in b && '~' !in c && '/' !in c
    ensures Encode([a, b, c]) == ((['/'] + a) + (['/'] + b)) + (['/'] + c)
  {
    EncodeTwo(a, b);
    EncodeChild([a, b], c);
    PlainEscapes(c);
    assert [a, b] + [c] == [a, b, c];
  }

  lemma ArtifactText(prefix: string, digits: string, suffix: string, pointer: string)
    requires pointer == prefix + digits + suffix
    ensures |pointer| == |prefix| + |digits| + |suffix| && prefix <= pointer
    ensures pointer[|pointer| - |suffix|..] == suffix && pointer[|prefix|..|pointer| - |suffix|] == digits
  {
  }

  lemma DigitsArePlain(digits: string)
    requires forall c | c in digits :: IsDigit(c)
    ensures '~' !in digits && '/' !in digits
  {
  }

  lemma ArtifactMarks(a: string, b: string, prefix: string, suffix: string)
    requires a == "structured" && b == "value" && prefix == "/structured/" && suffix == "/value"
    ensures prefix == (['/'] + a) + ['/'] && suffix == ['/'] + b
    ensures '~' !in a && '/' !in a && '~' !in b && '/' !in b
  {
  }

  lemma IsArtifact(pointer: string, prefix: string, suffix: string)
    requires prefix == "/structured/" && suffix == "/value"
    ensures IsArtifactPointer(pointer) <==>
      && |pointer| > |prefix| + |suffix| && prefix <= pointer && pointer[|pointer| - |suffix|..] == suffix
      && forall c | c in pointer[|prefix|..|pointer| - |suffix|] :: IsDigit(c)
  {
  }

  /** A pointer of three plain segments, by its parts. */
  lemma ThreeParts(path: seq<string>, a: string, b: string, prefix: string, suffix: string)
    requires '~' !in a && '/' !in a && '~' !in b && '/' !in b
    requires prefix == (['/'] + a) + ['/'] && suffix == ['/'] + b
    ensures
      var pointer := Encode(path);
      (&& |pointer| > |prefix| + |suffix| && prefix <= pointer && pointer[|pointer| - |suffix|..] == suffix
       && forall c | c in pointer[|prefix|..|pointer| - |suffix|] :: IsDigit(c))
      <==> |path| == 3 && path[0] == a && path[2] == b && path[1] != "" && forall c | c in path[1] :: IsDigit(c)
  {
    var pointer := Encode(path);
    if |pointer| > |prefix| + |suffix| && prefix <= pointer && pointer[|pointer| - |suffix|..] == suffix
       && forall c | c in pointer[|prefix|..|pointer| - |suffix|] :: IsDigit(c) {
      var digits := pointer[|prefix|..|pointer| - |suffix|];
      assert pointer == prefix + digits + suffix;
      EncodedThree(a, digits, b, prefix, suffix);
      EncodeInjective(path, [a, digits, b]);
    }
    if |path| == 3 && path[0] == a && path[2] == b && path[1] != "" && forall c | c in path[1] :: IsDigit(c) {
      assert path == [a, path[1], b];
      EncodedThree(a, path[1], b, prefix, suffix);
      ArtifactText(prefix, path[1], suffix, pointer);
    }
  }

  lemma EncodedThree(a: string, digits: string, b: string, prefix: string, suffix: string)
    requires '~' !in a && '/' !in a && '~' !in b && '/' !in b && forall c | c in digits :: IsDigit(c)
    requires prefix == (['/'] + a) + ['/'] && suffix == ['/'] + b
    ensures Encode([a, digits, b]) == prefix + digits + suffix
  {
    DigitsArePlain(digits);
    EncodeThree(a, digits, b);
    Associative(['/'] + a, ['/'], digits);
  }

  lemma OpaqueIs(path: seq<string>, a: string, b: string, ctx: Context)
    requires a == "structured" && b == "value"
    ensures Opaque(path, ctx) <==> ctx.digests && |path| == 3 && path[0] == a && path[2] == b && path[1] != "" && forall c | c in path[1] :: IsDigit(c)
  {
  }

  lemma OpaqueBy(path: seq<string>, ctx: Context, a: string, b: string, prefix: string, suffix: string)
    requires a == "structured" && b == "value" && prefix == "/structured/" && suffix == "/value"
    ensures ctx.digests && IsArtifactPointer(Encode(path)) <==> Opaque(path, ctx)
  {
    ArtifactMarks(a, b, prefix, suffix);
    IsArtifact(Encode(path), prefix, suffix);
    ThreeParts(path, a, b, prefix, suffix);
    OpaqueIs(path, a, b, ctx);
  }

  /** Which pointers are compared by digest, by their path. */
  lemma OpaqueExact(path: seq<string>, ctx: Context)
    ensures ctx.digests && IsArtifactPointer(Encode(path)) <==> Opaque(path, ctx)
  {
    OpaqueBy(path, ctx, "structured", "value", "/structured/", "/value");
  }

  lemma EncodedPair(path: seq<string>, a: string, b: string, pointer: string)
    requires '~' !in a && '/' !in a && '~' !in b && '/' !in b && pointer == (['/'] + a) + (['/'] + b)
    ensures Encode(path) == pointer <==> path == [a, b]
  {
    EncodeTwo(a, b);
    if Encode(path) == pointer {
      EncodeInjective(path, [a, b]);
    }
  }

  lemma OutcomeMarks(a: string, b: string, pointer: string)
    requires a == "process" && b == "outcome" && pointer == "/process/outcome"
    ensures pointer == (['/'] + a) + (['/'] + b) && '~' !in a && '/' !in a && '~' !in b && '/' !in b
  {
  }

  lemma MutationMarks(a: string, b: string, prefix: string)
    requires a == "filesystem" && b == "mutations" && prefix == "/filesystem/mutations/"
    ensures prefix == ((['/'] + a) + (['/'] + b)) + ['/'] && '~' !in a && '/' !in a && '~' !in b && '/' !in b
  {
  }

  lemma {:induction false} EncodeConcat(p: seq<string>, q: seq<string>)
    ensures Encode(p + q) == Encode(p) + Encode(q)
    decreases |q|
  {
    if q == [] {
      assert p + q == p;
    } else {
      var init, last := q[..|q| - 1], q[|q| - 1];
      SplitLast(q);
      EncodeConcat(p, init);
      Associative(p, init, [last]);
      EncodeChild(p + init, last);
      EncodeChild(init, last);
      Associative(Encode(p), Encode(init), ['/'] + Escape(last));
    }
  }

  lemma PlainUnescapes(s: string)
    requires '~' !in s && '/' !in s
    ensures Unescape(s) == s
  {
    PlainEscapes(s);
    UnescapeEscape(s);
  }

  /** A pointer that starts with two plain names and goes on. */
  lemma StartsWith(path: seq<string>, a: string, b: string, prefix: string)
    requires '~' !in a && '/' !in a && '~' !in b && '/' !in b && prefix == ((['/'] + a) + (['/'] + b)) + ['/']
    ensures prefix <= Encode(path) <==> |path| > 2 && path[0] == a && path[1] == b
  {
    if |path| > 2 && path[0] == a && path[1] == b {
      LongerStarts(path, a, b, prefix);
    }
    if prefix <= Encode(path) {
      var x := Encode(path)[|prefix|..];
      assert Encode(path) == prefix + x;
      PrefixSegments(path, a, b, prefix, x);
    }
  }

  lemma LongerStarts(path: seq<string>, a: string, b: string, prefix: string)
    requires '~' !in a && '/' !in a && '~' !in b && '/' !in b && prefix == ((['/'] + a) + (['/'] + b)) + ['/']
    requires |path| > 2 && path[0] == a && path[1] == b
    ensures prefix <= Encode(path)
  {
    assert path == [a, b] + path[2..];
    EncodeConcat([a, b], path[2..]);
    EncodeTwo(a, b);
    EncodeSplits(path[2..]);
  }

  lemma Regrouped(a: string, b: string, x: string)
    ensures (((['/'] + a) + (['/'] + b)) + ['/'] + x)[1..] == a + (['/'] + (b + (['/'] + x)))
  {
    Associative(['/'], b, ['/'] + x);
  }

  lemma PrefixSegments(path: seq<string>, a: string, b: string, prefix: string, x: string)
    requires '~' !in a && '/' !in a && '~' !in b && '/' !in b && prefix == ((['/'] + a) + (['/'] + b)) + ['/']
    requires Encode(path) == prefix + x && path != []
    ensures |path| > 2 && path[0] == a && path[1] == b
  {
    Regrouped(a, b, x);
    SplitStep(a, b + (['/'] + x));
    SplitStep(b, x);
    EncodeSplits(path);
    PlainUnescapes(a);
    PlainUnescapes(b);
    var segments := [a] + ([b] + SplitSlashes(x));
    SplitSomething(x);
    UnescapedFirst(segments);
    UnescapedFirst(segments[1..]);
  }

  lemma SplitSomething(s: string)
    ensures SplitSlashes(s) != []
  {
  }

  lemma UnescapedFirst(segments: seq<string>)
    requires segments != []
    ensures UnescapeAll(segments) == [Unescape(segments[0])] + UnescapeAll(segments[1..])
  {
  }

  lemma OutcomeExact(path: seq<string>, a: string, b: string, pointer: string)
    requires a == "process" && b == "outcome" && pointer == "/process/outcome"
    ensures Encode(path) == pointer <==> path == [a, b]
  {
    OutcomeMarks(a, b, pointer);
    EncodedPair(path, a, b, pointer);
  }

  lemma MutationExact(path: seq<string>, a: string, b: string, prefix: string)
    requires a == "filesystem" && b == "mutations" && prefix == "/filesystem/mutations/"
    ensures prefix <= Encode(path) <==> |path| > 2 && path[0] == a && path[1] == b
  {
    MutationMarks(a, b, prefix);
    StartsWith(path, a, b, prefix);
  }

  /** Kinds, once pointers have been told apart. */
  lemma KindByPlace(path: seq<string>, pointer: string, expected: Option<Value>, actual: Option<Value>, failed: bool, kind: Kind)
    requires expected.Some? || actual.Some?
    requires pointer == "/process/outcome" <==> path == ["process", "outcome"]
    requires "/filesystem/mutations/" <= pointer <==> |path| > 2 && path[0] == "filesystem" && path[1] == "mutations"
    requires expected.Some? && actual.Some? ==>
      (Alike(expected.value, actual.value) <==> expected.value.List? == actual.value.List? && TypeName(expected.value) == TypeName(actual.value))
    ensures MismatchKind(pointer, expected, actual, failed) == kind <==> IsKind(path, expected, actual, failed, kind)
  {
    assert actual != Some(Text("timeout")) || actual != Some(Text("signal")) by {
      assert "timeout"[0] != "signal"[0];
    }
  }

  /** The kind that is reported is the kind that the place and the values call for. */
  lemma KindExact(path: seq<string>, expected: Option<Value>, actual: Option<Value>, failed: bool, kind: Kind)
    requires expected.Some? || actual.Some?
    ensures MismatchKind(Encode(path), expected, actual, failed) == kind <==> IsKind(path, expected, actual, failed, kind)
  {
    OutcomeExact(path, "process", "outcome", "/process/outcome");
    MutationExact(path, "filesystem", "mutations", "/filesystem/mutations/");
    if expected.Some? && actual.Some? {
      TypesAlike(expected.value, actual.value);
    }
    KindByPlace(path, Encode(path), expected, actual, failed, kind);
  }

  lemma TypesAlike(a: Value, b: Value)
    ensures Alike(a, b) <==> a.List? == b.List? && TypeName(a) == TypeName(b)
  {
    assert "boolean"[0] != "number"[0] && "boolean"[0] != "string"[0] && "boolean"[0] != "object"[0];
    assert "number"[0] != "string"[0] && "number"[0] != "object"[0] && "string"[0] != "object"[0];
  }

  /** The findings are exactly the sites below `base`. */
  ghost predicate AllSites(fs: seq<Finding>, a: Option<Value>, b: Option<Value>, base: seq<string>, ctx: Context) {
    forall f :: f in fs <==> Belongs(f, a, b, base, ctx)
  }

  ghost predicate BelongsAt(f: Finding, a: Value, b: Value, path: seq<string>, k: nat, ctx: Context)
    requires a.List? && b.List?
  {
    Belongs(f, ItemAt(a.items, k), ItemAt(b.items, k), path + [Decimal(k)], ctx)
  }

  /** At a site among the items from `i` on. */
  ghost predicate BelongsFrom(f: Finding, a: Value, b: Value, path: seq<string>, i: nat, ctx: Context)
    requires a.List? && b.List?
  {
    exists k | i <= k < Longer(|a.items|, |b.items|) :: BelongsAt(f, a, b, path, k, ctx)
  }

  lemma {:induction false} BelongsLater(f: Finding, a: Value, b: Value, path: seq<string>, i: nat, ctx: Context)
    requires a.List? && b.List? && i < Longer(|a.items|, |b.items|)
    ensures BelongsFrom(f, a, b, path, i, ctx) <==> BelongsAt(f, a, b, path, i, ctx) || BelongsFrom(f, a, b, path, i + 1, ctx)
  {
  }

  lemma {:induction false} ItemsComplete(a: Value, b: Value, path: seq<string>, i: nat, ctx: Context)
    requires a.List? && b.List? && WellFormed(a) && WellFormed(b) && i <= Longer(|a.items|, |b.items|)
    ensures forall f :: f in ItemDifferences(a, b, path, i, ctx) <==> BelongsFrom(f, a, b, path, i, ctx)
    decreases true, a, 0, Longer(|a.items|, |b.items|) - i
  {
    if i < Longer(|a.items|, |b.items|) {
      DifferencesComplete(ItemAt(a.items, i), ItemAt(b.items, i), path + [Decimal(i)], ctx);
      ItemsComplete(a, b, path, i + 1, ctx);
      forall f ensures f in ItemDifferences(a, b, path, i, ctx) <==> BelongsFrom(f, a, b, path, i, ctx) {
        BelongsLater(f, a, b, path, i, ctx);
      }
    }
  }

  lemma {:induction false} FieldsComplete(a: Value, b: Value, path: seq<string>, keys: seq<string>, ctx: Context)
    requires a.Record? && b.Record? && WellFormed(a) && WellFormed(b)
    ensures forall f :: f in FieldDifferences(a, b, path, keys, ctx) <==>
      exists k | k in keys :: Belongs(f, FieldAt(a, k), FieldAt(b, k), path + [k], ctx)
    decreases true, a, 0, |keys|
  {
    if keys != [] {
      DifferencesComplete(FieldAt(a, keys[0]), FieldAt(b, keys[0]), path + [keys[0]], ctx);
      FieldsComplete(a, b, path, keys[1..], ctx);
      assert forall k :: k in keys <==> k == keys[0] || k in keys[1..];
    }
  }

  /** Nothing is a site where neither tree has anything. */
  lemma NothingIsNoSite(base: seq<string>, rest: seq<string>, ctx: Context)
    ensures !Site(None, None, base, rest, ctx)
  {
  }

  lemma ListSites(f: Finding, a: Value, b: Value, path: seq<string>, ctx: Context)
    requires a.List? && b.List? && !Opaque(path, ctx)
    ensures Belongs(f, Some(a), Some(b), path, ctx) <==> BelongsFrom(f, a, b, path, 0, ctx)
  {
    if k :| 0 <= k < Longer(|a.items|, |b.items|) && BelongsAt(f, a, b, path, k, ctx) {
      MemberAt(a.items, k);
      MemberAt(b.items, k);
      BelongsInside(f, Some(a), Some(b), path, Decimal(k), ctx);
    }
    if Belongs(f, Some(a), Some(b), path, ctx) {
      var rest := f.path[|path|..];
      assert rest != [];
      var segment := rest[0];
      BelongsInside(f, Some(a), Some(b), path, segment, ctx);
      ListMember(a, b, segment);
      if Member(Some(a), segment).None? && Member(Some(b), segment).None? {
        NothingIsNoSite(path + [segment], rest[1..], ctx);
      } else {
        var k :| 0 <= k < Longer(|a.items|, |b.items|)
          && Decimal(k) == segment && Member(Some(a), segment) == ItemAt(a.items, k) && Member(Some(b), segment) == ItemAt(b.items, k);
        assert BelongsAt(f, a, b, path, k, ctx);
      }
    }
  }

  lemma ListMember(a: Value, b: Value, segment: string)
    requires a.List? && b.List?
    ensures Member(Some(a), segment).Some? || Member(Some(b), segment).Some? ==>
      exists k | 0 <= k < Longer(|a.items|, |b.items|) ::
        Decimal(k) == segment && Member(Some(a), segment) == ItemAt(a.items, k) && Member(Some(b), segment) == ItemAt(b.items, k)
  {
    if Member(Some(a), segment).Some? {
      var k: nat :| k < |a.items| && Decimal(k) == segment;
      MemberAt(a.items, k);
      MemberAt(b.items, k);
    } else if Member(Some(b), segment).Some? {
      var k: nat :| k < |b.items| && Decimal(k) == segment;
      MemberAt(a.items, k);
      MemberAt(b.items, k);
    }
  }

  lemma RecordSites(f: Finding, a: Value, b: Value, path: seq<string>, ctx: Context)
    requires a.Record? && b.Record? && WellFormed(a) && WellFormed(b) && !Opaque(path, ctx)
    ensures Belongs(f, Some(a), Some(b), path, ctx) <==>
      exists k | k in AllKeys(a, b) :: Belongs(f, FieldAt(a, k), FieldAt(b, k), path + [k], ctx)
  {
    if k :| k in AllKeys(a, b) && Belongs(f, FieldAt(a, k), FieldAt(b, k), path + [k], ctx) {
      BelongsInside(f, Some(a), Some(b), path, k, ctx);
    }
    if Belongs(f, Some(a), Some(b), path, ctx) {
      var k := SiteInField(f, a, b, path, ctx);
    }
  }

  lemma SiteInField(f: Finding, a: Value, b: Value, path: seq<string>, ctx: Context) returns (k: string)
    requires a.Record? && b.Record? && WellFormed(a) && WellFormed(b) && !Opaque(path, ctx)
    requires Belongs(f, Some(a), Some(b), path, ctx)
    ensures k in AllKeys(a, b) && Belongs(f, FieldAt(a, k), FieldAt(b, k), path + [k], ctx)
  {
    var rest := f.path[|path|..];
    assert rest != [];
    k := rest[0];
    BelongsInside(f, Some(a), Some(b), path, k, ctx);
    AllKeysAre(a, b);
    if k !in AllKeys(a, b) {
      NothingIsNoSite(path + [k], rest[1..], ctx);
    }
  }

  /** Where nothing is followed further, there is at most the place itself. */
  lemma EndSites(f: Finding, a: Option<Value>, b: Option<Value>, path: seq<string>, ctx: Context)
    requires Opaque(path, ctx) || !BothContain(a, b)
    ensures Belongs(f, a, b, path, ctx) <==> !SameOpt(a, b) && f == Finding(path, MismatchKind(Encode(path), a, b, ctx.failed))
  {
    assert path[|path|..] == [];
    if Belongs(f, a, b, path, ctx) {
      assert f.path[|path|..] == [];
      assert f.path == path;
    }
  }

  /** The differ reports every site, and nothing else. */
  lemma {:induction false} DifferencesComplete(a: Option<Value>, b: Option<Value>, path: seq<string>, ctx: Context)
    requires WellFormedOpt(a) && WellFormedOpt(b)
    ensures AllSites(Differences(a, b, path, ctx), a, b, path, ctx)
    decreases a.Some?, Under(a), 1, 0
  {
    OpaqueExact(path, ctx);
    if Opaque(path, ctx) || !BothContain(a, b) {
      if a.Some? && b.Some? {
        CanonicalExact(a.value, b.value);
      }
      forall f ensures f in Differences(a, b, path, ctx) <==> Belongs(f, a, b, path, ctx) {
        EndSites(f, a, b, path, ctx);
      }
    } else if a.value.List? {
      ItemsComplete(a.value, b.value, path, 0, ctx);
      forall f ensures f in Differences(a, b, path, ctx) <==> Belongs(f, a, b, path, ctx) {
        ListSites(f, a.value, b.value, path, ctx);
      }
    } else {
      FieldsComplete(a.value, b.value, path, AllKeys(a.value, b.value), ctx);
      forall f ensures f in Differences(a, b, path, ctx) <==> Belongs(f, a, b, path, ctx) {
        RecordSites(f, a.value, b.value, path, ctx);
      }
    }
  }

  lemma ReportedHas(fs: seq<Finding>, side: string, path: seq<string>, kind: Kind)
    ensures Mismatch(['/'] + side + Encode(path), kind) in Reported(fs, side) <==> Finding(path, kind) in fs
  {
    var ms := Reported(fs, side);
    if i :| 0 <= i < |ms| && ms[i] == Mismatch(['/'] + side + Encode(path), kind) {
      SamePointer(side, fs[i].path, path);
      assert fs[i] == Finding(path, kind);
    }
    if i :| 0 <= i < |fs| && fs[i] == Finding(path, kind) {
      assert ms[i] == Mismatch(['/'] + side + Encode(path), kind);
    }
  }

  lemma BelongsByKind(a: Option<Value>, b: Option<Value>, path: seq<string>, kind: Kind, ctx: Context)
    ensures Belongs(Finding(path, kind), a, b, [], ctx) <==>
      Site(a, b, [], path, ctx) && IsKind(path, Lookup(a, path), Lookup(b, path), ctx.failed, kind)
  {
    assert path[0..] == path;
    if Site(a, b, [], path, ctx) {
      SiteDiffers(a, b, [], path, ctx);
      KindExact(path, Lookup(a, path), Lookup(b, path), ctx.failed, kind);
    }
  }

  /** One side of a report names a place exactly if it is a site, with its kind. */
  lemma SideComplete(side: string, expected: Value, actual: Value, ctx: Context, path: seq<string>, kind: Kind)
    requires WellFormed(expected) && WellFormed(actual)
    ensures Mismatch(['/'] + side + Encode(path), kind) in SideFindings(side, expected, actual, ctx) <==>
      && Site(Some(expected), Some(actual), [], path, ctx)
      && IsKind(path, Lookup(Some(expected), path), Lookup(Some(actual), path), ctx.failed, kind)
  {
    DifferencesComplete(Some(expected), Some(actual), [], ctx);
    ReportedHas(Differences(Some(expected), Some(actual), [], ctx), side, path, kind);
    BelongsByKind(Some(expected), Some(actual), path, kind, ctx);
  }

  lemma SamePointer(side: string, p: seq<string>, q: seq<string>)
    requires ['/'] + side + Encode(p) == ['/'] + side + Encode(q)
    ensures p == q
  {
    Cancel(['/'] + side, Encode(p), Encode(q));
    EncodeInjective(p, q);
  }

  lemma {:induction false} SiteDiffers(a: Option<Value>, b: Option<Value>, base: seq<string>, rest: seq<string>, ctx: Context)
    requires Site(a, b, base, rest, ctx)
    ensures !SameOpt(Lookup(a, rest), Lookup(b, rest)) && (Lookup(a, rest).Some? || Lookup(b, rest).Some?)
    decreases |rest|
  {
    if rest != [] {
      SiteDiffers(Member(a, rest[0]), Member(b, rest[0]), base + [rest[0]], rest[1..], ctx);
    }
  }
}
