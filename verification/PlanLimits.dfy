/** Plan limits and features: what the metadata of all subscribed products adds
    up to, in whatever order subscriptions, items and metadata are visited. */
module PlanLimits {
  import opened Options
  import opened Text
  import opened Decimals
  import opened Int64
  import opened Ordering
  import opened CatalogSpec
  import CreditRedelivery

  /** strconv.ParseInt(s, 10, 64). */
  function ParseInt64(s: string): (r: Option<int>)
    ensures r.Some? ==> InInt64(r.value)
  {
    var signed := s != "" && (s[0] == '-' || s[0] == '+');
    var digits := if signed then s[1..] else s;
    if digits == "" || !AllDigits(digits) then None
    else
      var n: int := Value(digits);
      var v := if signed && s[0] == '-' then -n else n;
      if InInt64(v) then Some(v) else None
  }

  // ------------------------------------------------------------- declarations

  const FEATURE := "feature."
  const LIMIT := "limit."
  const ADD := ".add"
  const UNLIMITED := "unlimited"

  /** What one metadata entry declares. */
  datatype Declaration = Feature(name: string) | Base(name: string, value: int) | Add(name: string, value: int)

  predicate HasSuffix(s: string, suffix: string) {
    |s| > |suffix| && s[|s| - |suffix|..] == suffix
  }

  function Declares(k: string, v: string): Option<Declaration> {
    if |k| > |FEATURE| && k[..|FEATURE|] == FEATURE then
      if v != "" && v != "false" && v != "0" then Some(Feature(k[|FEATURE|..])) else None
    else if |k| > |LIMIT| && k[..|LIMIT|] == LIMIT then
      var name := k[|LIMIT|..];
      if HasSuffix(name, ADD) then
        if v == UNLIMITED || ParseInt64(v).None? then None
        else Some(Add(name[..|name| - |ADD|], ParseInt64(v).value))
      else if v == UNLIMITED then Some(Base(name, MAX_INT64))
      else if ParseInt64(v).Some? then Some(Base(name, ParseInt64(v).value))
      else None
    else None
  }

  /** Numerals, with or without a sign, are read exactly while they fit int64;
      strings without a digit are not read at all. */
  lemma {:induction false} ParsesNumerals(n: nat, s: string)
    ensures ParseInt64(Decimal(n)) == if n <= MAX_INT64 then Some(n) else None
    ensures ParseInt64("+" + Decimal(n)) == ParseInt64(Decimal(n))
    ensures ParseInt64("-" + Decimal(n)) == if 0 - n >= MIN_INT64 then Some(0 - n) else None
    ensures (forall i :: 0 <= i < |s| ==> !IsDigit(s[i])) ==> ParseInt64(s) == None
  {
    hide Decimal, Value;
    ValueOfDecimal(n);
    ParsesDigits(Decimal(n));
  }

  lemma {:induction false} ParsesDigits(d: string)
    requires d != "" && AllDigits(d)
    ensures ParseInt64(d) == if InInt64(Value(d)) then Some(Value(d)) else None
    ensures ParseInt64("+" + d) == ParseInt64(d)
    ensures ParseInt64("-" + d) == if InInt64(0 - Value(d)) then Some(0 - Value(d)) else None
  {
    hide Value;
    assert IsDigit(d[0]);
    assert ("+" + d)[1..] == d && ("-" + d)[1..] == d;
  }

  lemma {:induction false} SuffixIsAdd(name: string)
    requires HasSuffix(name, ADD)
    ensures exists other :: other != "" && name == other + ".add"
  {
    var other := name[..|name| - |ADD|];
    assert other != "" && name == other + ".add";
  }

  /** limit.<name> = <n> declares a base of n. */
  lemma {:induction false} BaseDeclaration(name: string, n: nat)
    requires name != "" && n <= MAX_INT64 && forall other :: other != "" ==> name != other + ".add"
    ensures Declares("limit." + name, Decimal(n)) == Some(Base(name, n))
    ensures Declares("limit." + name, "unlimited") == Some(Base(name, MAX_INT64))
  {
    if HasSuffix(name, ADD) { SuffixIsAdd(name); }
    var k := LIMIT + name;
    assert k[..|LIMIT|] == LIMIT && k[|LIMIT|..] == name;
    assert k[0] == 'l' && FEATURE[0] == 'f';
    ParsesNumerals(n, "");
    assert IsDigit(Decimal(n)[0]) && !IsDigit(UNLIMITED[0]);
  }

  /** limit.<name>.add = <n> declares an addition of n; unlimited additions are
      ignored. */
  lemma {:induction false} AddDeclaration(name: string, n: nat)
    requires name != "" && n <= MAX_INT64
    ensures Declares("limit." + name + ".add", Decimal(n)) == Some(Add(name, n))
    ensures Declares("limit." + name + ".add", "unlimited") == None
  {
    var k, full := LIMIT + name + ADD, name + ADD;
    assert k == LIMIT + full;
    assert k[..|LIMIT|] == LIMIT && k[|LIMIT|..] == full;
    assert full[|full| - |ADD|..] == ADD && full[..|full| - |ADD|] == name;
    assert k[0] == 'l' && FEATURE[0] == 'f';
    ParsesNumerals(n, "");
    assert IsDigit(Decimal(n)[0]) && !IsDigit(UNLIMITED[0]);
  }

  /** feature.<name> switches a feature on unless the value is empty, "false" or
      "0". */
  lemma {:induction false} FeatureDeclaration(name: string, v: string)
    requires name != ""
    ensures Declares("feature." + name, v) == if v == "" || v == "false" || v == "0" then None else Some(Feature(name))
  {
    var k := FEATURE + name;
    assert k[..|FEATURE|] == FEATURE && k[|FEATURE|..] == name;
    assert k[0] == 'f' && LIMIT[0] == 'l';
  }

  /** Other keys, limits without a name and values that are no numerals declare
      nothing. */
  lemma {:induction false} OtherEntriesAreIgnored(k: string, v: string)
    requires || (!("feature." <= k) && !("limit." <= k)) || k == "limit." || k == "feature."
             || ("limit." <= k && v != "unlimited" && ParseInt64(v).None?)
    ensures Declares(k, v) == None
  {
    assert FEATURE[0] == 'f' && LIMIT[0] == 'l';
    assert |k| > 6 && k[..6] == LIMIT ==> k[0] == 'l';
  }

  datatype Snapshot = Snapshot(
    features: set<string>, limits: map<string, int>, adds: map<string, int>, hasLimit: set<string>)

  const NOTHING := Snapshot({}, map[], map[], {})

  function Get(m: map<string, int>, k: string): int {
    if k in m then m[k] else 0
  }

  function Merge(s: Snapshot, d: Declaration): Snapshot {
    match d
    case Feature(n) => s.(features := s.features + {n})
    case Base(n, v) =>
      s.(limits := s.limits[n := if n in s.limits && s.limits[n] >= v then s.limits[n] else v],
         hasLimit := s.hasLimit + {n})
    case Add(n, v) => s.(adds := s.adds[n := Wrap64(Get(s.adds, n) + v)], hasLimit := s.hasLimit + {n})
  }

  function MergeAll(s: Snapshot, ds: seq<Declaration>): Snapshot {
    if ds == [] then s else Merge(MergeAll(s, ds[..|ds| - 1]), ds[|ds| - 1])
  }

  // ------------------------------------------------------- order is irrelevant

  lemma {:induction false} MergeCommutes(s: Snapshot, a: Declaration, b: Declaration)
    ensures Merge(Merge(s, a), b) == Merge(Merge(s, b), a)
  {
    hide Wrap64;
    assert Merge(Merge(s, a), b).features == Merge(Merge(s, b), a).features;
    assert Merge(Merge(s, a), b).hasLimit == Merge(Merge(s, b), a).hasLimit;
    BasesCommute(s, a, b);
    AddsCommute(s, a, b);
  }

  lemma {:induction false} BasesCommute(s: Snapshot, a: Declaration, b: Declaration)
    ensures Merge(Merge(s, a), b).limits == Merge(Merge(s, b), a).limits
  {
    hide Wrap64;
    assert Merge(Merge(s, a), b).limits == Merge(Merge(s, b), a).limits;
  }

  lemma {:induction false} AddsCommute(s: Snapshot, a: Declaration, b: Declaration)
    ensures Merge(Merge(s, a), b).adds == Merge(Merge(s, b), a).adds
  {
    hide Wrap64;
    if a.Add? && b.Add? && a.name == b.name {
      WrapOnce(Get(s.adds, a.name) + a.value, b.value);
      WrapOnce(Get(s.adds, a.name) + b.value, a.value);
    }
    assert Merge(Merge(s, a), b).adds == Merge(Merge(s, b), a).adds;
  }

  lemma {:induction false} MoveToEnd(s: Snapshot, pre: seq<Declaration>, x: Declaration, post: seq<Declaration>)
    ensures MergeAll(s, pre + [x] + post) == Merge(MergeAll(s, pre + post), x)
  {
    hide Merge;
    if post == [] {
      assert pre + [x] + post == pre + [x] && pre + post == pre;
      assert (pre + [x])[..|pre|] == pre;
    } else {
      var n := |post| - 1;
      var init, last := post[..n], post[n];
      MoveToEnd(s, pre, x, init);
      var whole, rest := pre + [x] + post, pre + post;
      assert whole[..|whole| - 1] == pre + [x] + init && whole[|whole| - 1] == last;
      assert rest[..|rest| - 1] == pre + init && rest[|rest| - 1] == last;
      MergeCommutes(MergeAll(s, pre + init), x, last);
    }
  }

  lemma {:induction false} RemoveOne<T>(a: seq<T>, pre: seq<T>, x: T, post: seq<T>)
    requires multiset(a + [x]) == multiset(pre + [x] + post)
    ensures multiset(a) == multiset(pre + post)
  {
    assert multiset(a) == multiset(a + [x]) - multiset{x};
    assert multiset(pre + post) == multiset(pre + [x] + post) - multiset{x};
  }

  /** Any permutation of the declarations gives the same snapshot. */
  lemma {:induction false} OrderIrrelevant(s: Snapshot, ds: seq<Declaration>, es: seq<Declaration>)
    requires multiset(ds) == multiset(es)
    ensures MergeAll(s, ds) == MergeAll(s, es)
    decreases |ds|
  {
    hide Merge;
    if ds == [] {
      assert |multiset(es)| == 0;
      assert es == [];
    } else {
      var n := |ds| - 1;
      var x := ds[n];
      assert ds == ds[..n] + [x];
      assert x in multiset(es);
      var i :| 0 <= i < |es| && es[i] == x;
      var pre, post := es[..i], es[i + 1..];
      assert es == pre + [x] + post;
      MoveToEnd(s, pre, x, post);
      RemoveOne(ds[..n], pre, x, post);
      OrderIrrelevant(s, ds[..n], pre + post);
    }
  }

  // ----------------------------------------------------------- what it adds up to

  function Sum(ds: seq<Declaration>, name: string): int {
    if ds == [] then 0
    else
      var d := ds[|ds| - 1];
      Sum(ds[..|ds| - 1], name) + (if d.Add? && d.name == name then d.value else 0)
  }

  /** The largest base value declared for a limit. */
  ghost predicate IsMaxBase(ds: seq<Declaration>, name: string, v: int) {
    Base(name, v) in ds && forall u :: Base(name, u) in ds ==> u <= v
  }

  /** Each limit carries the MAX of its bases and the SUM of its adds. */
  lemma {:induction false} SnapshotMeaning(ds: seq<Declaration>, name: string)
    ensures var s := MergeAll(NOTHING, ds);
            && (name in s.limits <==> exists v :: Base(name, v) in ds)
            && (name in s.limits ==> IsMaxBase(ds, name, s.limits[name]))
            && Get(s.adds, name) == Wrap64(Sum(ds, name))
            && (name in s.hasLimit <==> exists v :: Base(name, v) in ds || Add(name, v) in ds)
            && (name in s.features <==> Feature(name) in ds)
  {
    hide Wrap64;
    if ds != [] {
      var n := |ds| - 1;
      var init, d := ds[..n], ds[n];
      assert ds == init + [d];
      SnapshotMeaning(init, name);
      WrapOnce(Sum(init, name), if d.Add? && d.name == name then d.value else 0);
      assert forall v :: Base(name, v) in ds <==> Base(name, v) in init || d == Base(name, v);
      assert forall v :: Add(name, v) in ds <==> Add(name, v) in init || d == Add(name, v);
      WrapWithin(Sum(init, name));
    }
  }

  // ---------------------------------------------------------------- IntLimit

  /** The cap of a limit, and whether it is declared at all.  MAX_INT64 - base is
      computed in int64. */
  function IntLimit(s: Snapshot, name: string): (int, bool) {
    if name !in s.hasLimit then (0, false)
    else
      var base, add := Get(s.limits, name), Get(s.adds, name);
      if base == MAX_INT64 then (MAX_INT64, true)
      else if add > Wrap64(MAX_INT64 - base) then (MAX_INT64, true)
      else (Wrap64(base + add), true)
  }

  function Saturated(x: int): int {
    if x > MAX_INT64 then MAX_INT64 else x
  }

  /** A base of MAX_INT64 means unlimited; below that the cap is base plus adds,
      saturated, exactly when the base is not negative. */
  lemma {:induction false} IntLimitSaturates(s: Snapshot, name: string)
    requires name in s.hasLimit && InInt64(Get(s.limits, name)) && InInt64(Get(s.adds, name))
    ensures IntLimit(s, name).1
    ensures Get(s.limits, name) == MAX_INT64 ==> IntLimit(s, name).0 == MAX_INT64
    ensures Get(s.limits, name) < MAX_INT64 ==>
              (IntLimit(s, name).0 == Saturated(Get(s.limits, name) + Get(s.adds, name)) <==> Get(s.limits, name) >= 0)
  {
    var base, add := Get(s.limits, name), Get(s.adds, name);
    if base < 0 {
      WrapUnder(MAX_INT64 - base);
      WrapOver(base + add);
    }
  }

  /** So a negative limit such as -1 without adds reads as unlimited. */
  lemma {:induction false} NegativeLimitIsUnlimited(s: Snapshot, name: string)
    requires name in s.hasLimit && InInt64(Get(s.limits, name)) && Get(s.limits, name) < 0 && Get(s.adds, name) == 0
    ensures IntLimit(s, name) == (MAX_INT64, true)
  {
    WrapUnder(MAX_INT64 - Get(s.limits, name));
  }

  ghost predicate NonNegative(ds: seq<Declaration>) {
    forall d :: d in ds && !d.Feature? ==> 0 <= d.value <= MAX_INT64
  }

  /** The base of a limit: the MAX of its declared bases, 0 if there is none. */
  ghost predicate IsBase(ds: seq<Declaration>, name: string, v: int) {
    if exists u :: Base(name, u) in ds then IsMaxBase(ds, name, v) else v == 0
  }

  /** Where the sum of the adds leaves int64 the code still gets the cap right only
      if the base is unlimited or the wrapped sum happens to saturate too. */
  predicate AddsUp(base: int, sum: int) {
    base == MAX_INT64 || sum <= MAX_INT64 || base + Wrap64(sum) >= MAX_INT64
  }

  /** The cap the code arrives at when the base is not negative. */
  function Cap(base: int, sum: int): int {
    if base == MAX_INT64 then MAX_INT64 else Saturated(base + Wrap64(sum))
  }

  /** The cap in terms of the declarations: declared exactly when some base or add
      is, and equal to MAX(base) + SUM(adds), saturated, exactly when AddsUp. */
  lemma {:induction false} LimitMeaning(ds: seq<Declaration>, name: string)
    requires NonNegative(ds)
    ensures var s := MergeAll(NOTHING, ds);
            && (IntLimit(s, name).1 <==> exists v :: Base(name, v) in ds || Add(name, v) in ds)
            && IsBase(ds, name, Get(s.limits, name))
            && (IntLimit(s, name).1 ==>
                  && IntLimit(s, name).0 == Cap(Get(s.limits, name), Sum(ds, name))
                  && (IntLimit(s, name).0 == Saturated(Get(s.limits, name) + Sum(ds, name)) <==>
                      AddsUp(Get(s.limits, name), Sum(ds, name))))
  {
    hide Wrap64;
    SnapshotMeaning(ds, name);
    SumNonNegative(ds, name);
    var s := MergeAll(NOTHING, ds);
    CapIff(Get(s.limits, name), Sum(ds, name));
  }

  lemma {:induction false} CapIff(base: int, sum: int)
    requires 0 <= base <= MAX_INT64 && 0 <= sum
    ensures var add := Wrap64(sum);
            var cap := if base == MAX_INT64 || add > Wrap64(MAX_INT64 - base) then MAX_INT64 else Wrap64(base + add);
            cap == Cap(base, sum) && (cap == Saturated(base + sum) <==> AddsUp(base, sum))
  {
    hide Wrap64;
    WrapInside(sum);
    WrapInside(MAX_INT64 - base);
    WrapInside(base + Wrap64(sum));
  }

  lemma {:induction false} WrapInside(x: int)
    ensures InInt64(Wrap64(x)) && (InInt64(x) ==> Wrap64(x) == x)
  {
  }

  /** Two adds that wrap: the cap turns negative, below what the first add alone
      grants. */
  lemma {:induction false} WrappingAddsTurnNegative(name: string, a: int, b: int)
    requires 0 <= a <= MAX_INT64 && 0 <= b <= MAX_INT64 && a + b > MAX_INT64
    ensures IntLimit(MergeAll(NOTHING, [Add(name, a), Add(name, b)]), name) == (a + b - TWO_64, true)
    ensures a + b - TWO_64 < 0 <= a
    ensures IntLimit(MergeAll(NOTHING, [Add(name, a)]), name) == (a, true)
  {
    var one, two := [Add(name, a)], [Add(name, a), Add(name, b)];
    assert two[..1] == one && one[..0] == [];
    assert MergeAll(NOTHING, one) == Merge(NOTHING, Add(name, a));
    assert MergeAll(NOTHING, two) == Merge(MergeAll(NOTHING, one), Add(name, b));
    WrapUnder(a + b);
  }

  lemma {:induction false} SumNonNegative(ds: seq<Declaration>, name: string)
    requires NonNegative(ds)
    ensures 0 <= Sum(ds, name)
  {
    if ds != [] {
      assert ds == ds[..|ds| - 1] + [ds[|ds| - 1]];
      SumNonNegative(ds[..|ds| - 1], name);
    }
  }

  lemma {:induction false} SumConcat(ds: seq<Declaration>, es: seq<Declaration>, name: string)
    ensures Sum(ds + es, name) == Sum(ds, name) + Sum(es, name)
  {
    if es == [] {
      assert ds + es == ds;
    } else {
      SumConcat(ds, es[..|es| - 1], name);
      assert (ds + es)[..|ds + es| - 1] == ds + es[..|es| - 1];
    }
  }

  /** A cap does not drop from (base, sum) to (base', sum'): the new adds add up,
      or what they wrap to still reaches the old cap. */
  predicate KeepsUp(base: int, sum: int, base': int, sum': int) {
    AddsUp(base', sum') || Cap(base, sum) <= base' + Wrap64(sum')
  }

  /** More declarations take no feature away and leave every limit declared; they
      lower its cap exactly when KeepsUp fails, never while the adds add up. */
  lemma {:induction false} MoreIsNotLess(ds: seq<Declaration>, es: seq<Declaration>, name: string)
    requires NonNegative(ds + es)
    ensures var s, t := MergeAll(NOTHING, ds), MergeAll(NOTHING, ds + es);
            && s.features <= t.features
            && (IntLimit(s, name).1 ==>
                  && IntLimit(t, name).1
                  && (IntLimit(s, name).0 <= IntLimit(t, name).0 <==>
                      KeepsUp(Get(s.limits, name), Sum(ds, name), Get(t.limits, name), Sum(ds + es, name))))
  {
    hide MergeAll, IntLimit, IsMaxBase, Wrap64, Cap, AddsUp;
    var s, t := MergeAll(NOTHING, ds), MergeAll(NOTHING, ds + es);
    PartsNonNegative(ds, es);
    SumConcat(ds, es, name);
    SumNonNegative(ds, name);
    SumNonNegative(es, name);
    LimitMeaning(ds, name);
    LimitMeaning(ds + es, name);
    BaseGrows(ds, es, name);
    FeaturesGrow(ds, es);
    BasesInRange(ds, name);
    BasesInRange(ds + es, name);
    CapsCompare(Get(s.limits, name), Sum(ds, name), Get(t.limits, name), Sum(ds + es, name));
  }

  lemma {:induction false} BasesInRange(ds: seq<Declaration>, name: string)
    requires NonNegative(ds)
    ensures 0 <= Get(MergeAll(NOTHING, ds).limits, name) <= MAX_INT64
  {
    SnapshotMeaning(ds, name);
  }

  lemma {:induction false} CapsCompare(base: int, sum: int, base': int, sum': int)
    requires 0 <= base <= base' <= MAX_INT64 && 0 <= sum <= sum'
    ensures Cap(base, sum) <= Cap(base', sum') <==> KeepsUp(base, sum, base', sum')
  {
    hide Wrap64;
    WrapLowers(sum);
    WrapLowers(sum');
  }

  lemma {:induction false} WrapLowers(x: int)
    requires 0 <= x
    ensures InInt64(Wrap64(x)) && Wrap64(x) <= x && (x <= MAX_INT64 ==> Wrap64(x) == x)
  {
    if x > MAX_INT64 { WrapInside(x); }
  }

  /** With a negative base even that is lost: it reads as unlimited, and a further
      declaration of any other limit lowers it. */
  lemma {:induction false} NegativeLimitIsLowered(name: string, v: int, w: int)
    requires MIN_INT64 <= v < 0 <= w < MAX_INT64
    ensures IntLimit(MergeAll(NOTHING, [Base(name, v)]), name) == (MAX_INT64, true)
    ensures IntLimit(MergeAll(NOTHING, [Base(name, v), Base(name, w)]), name) == (w, true)
  {
    var one, two := [Base(name, v)], [Base(name, v), Base(name, w)];
    assert two[..1] == one && one[..0] == [];
    assert MergeAll(NOTHING, one) == Merge(NOTHING, Base(name, v));
    assert MergeAll(NOTHING, two) == Merge(MergeAll(NOTHING, one), Base(name, w));
    NegativeLimitIsUnlimited(MergeAll(NOTHING, one), name);
  }

  lemma {:induction false} PartsNonNegative(ds: seq<Declaration>, es: seq<Declaration>)
    requires NonNegative(ds + es)
    ensures NonNegative(ds) && NonNegative(es)
  {
    assert forall d :: d in ds || d in es ==> d in ds + es;
  }

  lemma {:induction false} FeaturesGrow(ds: seq<Declaration>, es: seq<Declaration>)
    ensures MergeAll(NOTHING, ds).features <= MergeAll(NOTHING, ds + es).features
  {
    hide MergeAll, IsMaxBase, Wrap64;
    forall f | f in MergeAll(NOTHING, ds).features ensures f in MergeAll(NOTHING, ds + es).features {
      SnapshotMeaning(ds, f);
      SnapshotMeaning(ds + es, f);
    }
  }

  lemma {:induction false} BaseGrows(ds: seq<Declaration>, es: seq<Declaration>, name: string)
    requires NonNegative(ds + es)
    ensures Get(MergeAll(NOTHING, ds).limits, name) <= Get(MergeAll(NOTHING, ds + es).limits, name)
    ensures name in MergeAll(NOTHING, ds).hasLimit ==> name in MergeAll(NOTHING, ds + es).hasLimit
  {
    SnapshotMeaning(ds, name);
    SnapshotMeaning(ds + es, name);
    var s, t := MergeAll(NOTHING, ds), MergeAll(NOTHING, ds + es);
    if name in s.limits { assert Base(name, s.limits[name]) in ds + es; }
  }

  // ---------------------------------------------------------------- metadata

  /** All results of f, in order. */
  function Flat<A, B>(f: A -> seq<B>, xs: seq<A>): seq<B> {
    if xs == [] then [] else Flat(f, xs[..|xs| - 1]) + f(xs[|xs| - 1])
  }

  lemma {:induction false} FlatConcat<A, B>(f: A -> seq<B>, xs: seq<A>, ys: seq<A>)
    ensures Flat(f, xs + ys) == Flat(f, xs) + Flat(f, ys)
  {
    if ys == [] {
      assert xs + ys == xs;
    } else {
      FlatConcat(f, xs, ys[..|ys| - 1]);
      assert (xs + ys)[..|xs + ys| - 1] == xs + ys[..|ys| - 1];
    }
  }

  lemma {:induction false} FlatPermuted<A, B>(f: A -> seq<B>, xs: seq<A>, ys: seq<A>)
    requires multiset(xs) == multiset(ys)
    ensures multiset(Flat(f, xs)) == multiset(Flat(f, ys))
    decreases |xs|
  {
    if xs == [] {
      assert |multiset(ys)| == 0;
      assert ys == [];
    } else {
      var n := |xs| - 1;
      var x := xs[n];
      assert xs == xs[..n] + [x];
      assert x in multiset(ys);
      var i :| 0 <= i < |ys| && ys[i] == x;
      var pre, post := ys[..i], ys[i + 1..];
      assert ys == pre + [x] + post;
      RemoveOne(xs[..n], pre, x, post);
      FlatPermuted(f, xs[..n], pre + post);
      FlatConcat(f, pre + [x], post);
      FlatConcat(f, pre, [x]);
      FlatConcat(f, pre, post);
      assert [x][..0] == [];
      assert Flat(f, [x]) == f(x);
    }
  }

  function EntryOf(meta: map<string, string>): string -> seq<Declaration> {
    k => if k !in meta || Declares(k, meta[k]).None? then [] else [Declares(k, meta[k]).value]
  }

  function DeclaredBy(meta: map<string, string>, ks: seq<string>): seq<Declaration> {
    Flat(EntryOf(meta), ks)
  }

  /** The declarations of a product's metadata, by key. */
  ghost function MetadataOf(meta: map<string, string>): seq<Declaration> {
    DeclaredBy(meta, Sorted(meta.Keys))
  }

  lemma {:induction false} CountOnce<T>(a: seq<T>, x: T)
    requires forall i, j :: 0 <= i < j < |a| ==> a[i] != a[j]
    ensures multiset(a)[x] == if x in a then 1 else 0
  {
    if a != [] {
      var n := |a| - 1;
      assert a == a[..n] + [a[n]];
      CountOnce(a[..n], x);
      assert a[n] !in a[..n];
    }
  }

  /** Visiting the keys of a map in any order gives the same snapshot. */
  lemma {:induction false} IterationOrderIrrelevant(s: Snapshot, meta: map<string, string>, ks: seq<string>)
    requires (forall i, j :: 0 <= i < j < |ks| ==> ks[i] != ks[j]) && (forall k :: k in ks <==> k in meta)
    ensures MergeAll(s, DeclaredBy(meta, ks)) == MergeAll(s, MetadataOf(meta))
  {
    hide MergeAll;
    var sorted := Sorted(meta.Keys);
    AscendingDistinct(sorted);
    forall k ensures multiset(ks)[k] == multiset(sorted)[k] {
      CountOnce(ks, k);
      CountOnce(sorted, k);
      assert k in sorted <==> k in meta.Keys;
    }
    FlatPermuted(EntryOf(meta), ks, sorted);
    OrderIrrelevant(s, DeclaredBy(meta, ks), DeclaredBy(meta, sorted));
  }

  /** One metadata entry. */
  method MergeEntry(s: Snapshot, k: string, v: string) returns (t: Snapshot)
    ensures t == if Declares(k, v).None? then s else Merge(s, Declares(k, v).value)
  {
    hide Wrap64, ParseInt64;
    t := s;
    if |k| > |FEATURE| && k[..|FEATURE|] == FEATURE {
      var name := k[|FEATURE|..];
      if v != "" && v != "false" && v != "0" {
        t := t.(features := t.features + {name});
      }
    } else if |k| > |LIMIT| && k[..|LIMIT|] == LIMIT {
      var name := k[|LIMIT|..];
      var additive := false;
      if |name| > |ADD| && name[|name| - |ADD|..] == ADD {
        additive := true;
        name := name[..|name| - |ADD|];
      }
      if v == UNLIMITED {
        if additive { return; }
        t := RaiseBase(t, name, MAX_INT64);
        return;
      }
      var parsed := ParseInt64(v);
      if parsed.None? { return; }
      if additive {
        t := t.(adds := t.adds[name := Wrap64(Get(t.adds, name) + parsed.value)], hasLimit := t.hasLimit + {name});
      } else {
        t := RaiseBase(t, name, parsed.value);
      }
    }
  }

  method RaiseBase(s: Snapshot, name: string, value: int) returns (t: Snapshot)
    ensures t == Merge(s, Base(name, value))
  {
    t := s.(hasLimit := s.hasLimit + {name});
    if name !in s.limits || value > s.limits[name] {
      t := t.(limits := s.limits[name := value]);
    } else {
      assert s.limits[name := s.limits[name]] == s.limits;
    }
  }

  /** The loop over a metadata map, in whatever order its keys come up. */
  method MergeMetadata(s: Snapshot, meta: map<string, string>) returns (t: Snapshot)
    ensures t == MergeAll(s, MetadataOf(meta))
  {
    hide Declares, Merge, MergeAll, DeclaredBy, MetadataOf;
    t := s;
    NothingDeclared(s, meta);
    var todo := meta.Keys;
    ghost var ks: seq<string> := [];
    while todo != {}
      invariant todo <= meta.Keys
      invariant forall k :: k in ks <==> k in meta.Keys - todo
      invariant forall i, j :: 0 <= i < j < |ks| ==> ks[i] != ks[j]
      invariant t == MergeAll(s, DeclaredBy(meta, ks))
      decreases |todo|
    {
      var k :| k in todo;
      t := MergeEntry(t, k, meta[k]);
      EntryMerged(s, meta, ks, k);
      assert k !in ks;
      assert forall i :: 0 <= i < |ks| ==> ks[i] in ks;
      ks := ks + [k];
      todo := todo - {k};
    }
    IterationOrderIrrelevant(s, meta, ks);
  }

  lemma {:induction false} NothingDeclared(s: Snapshot, meta: map<string, string>)
    ensures MergeAll(s, DeclaredBy(meta, [])) == s
  {
  }

  lemma {:induction false} EntryMerged(s: Snapshot, meta: map<string, string>, ks: seq<string>, k: string)
    requires k in meta
    ensures MergeAll(s, DeclaredBy(meta, ks + [k]))
         == (var t := MergeAll(s, DeclaredBy(meta, ks));
             if Declares(k, meta[k]).None? then t else Merge(t, Declares(k, meta[k]).value))
  {
    hide Declares, Merge;
    var ds := DeclaredBy(meta, ks);
    assert (ks + [k])[..|ks|] == ks;
    if Declares(k, meta[k]).Some? {
      assert (ds + [Declares(k, meta[k]).value])[..|ds|] == ds;
    } else {
      assert ds + [] == ds;
    }
  }

  // ------------------------------------------------------------ subscriptions

  function StripNamespace(namespace: string, key: string): (string, bool) {
    var prefix := namespace + ".";
    if |key| > |prefix| && key[..|prefix|] == prefix then (key[|prefix|..], true) else (key, false)
  }

  function SplitAtDot(key: string): (string, string) {
    match Cut(key, '.')
    case None => ("", "")
    case Some(parts) => parts
  }

  method SplitPriceKey(key: string) returns (product: string, price: string)
    ensures (product, price) == SplitAtDot(key)
    ensures '.' !in key ==> product == "" && price == ""
    ensures '.' in key ==> key == product + "." + price && '.' !in product
  {
    for i := 0 to |key|
      invariant IndexFrom(key, '.', 0) == IndexFrom(key, '.', i)
    {
      if key[i] == '.' { return key[..i], key[i + 1..]; }
    }
    return "", "";
  }

  /** All four ways the code takes a lookup key apart agree on declared prices. */
  lemma {:induction false} KeyReadersAgree(spec: Spec, p: string, q: string)
    requires WellFormed(spec) && Declared(spec, p, q)
    ensures var key := PriceKey(spec.namespace, p, q);
            && StripNamespace(spec.namespace, key) == (p + "." + q, true)
            && SplitAtDot(p + "." + q) == (p, q)
            && CreditRedelivery.SplitKey(spec.namespace, key) == Some((p, q))
            && LookupKeyInSpec(spec, key) == Some((p, q))
  {
    hide WellFormed, Cut, LookupKeyInSpec;
    var key, prefix := PriceKey(spec.namespace, p, q), spec.namespace + ".";
    DotFree(spec);
    LookupKeyRoundTrip(spec, p, q);
    assert key == prefix + (p + "." + q);
    assert key[..|prefix|] == prefix && key[|prefix|..] == p + "." + q;
    CutJoin(p, '.', q);
  }

  /** What the snapshot reads of a mirrored subscription. */
  datatype Subscription = Subscription(status: string, priceKeys: seq<string>)

  predicate AccessGranting(status: string) {
    status == "active" || status == "trialing" || status == "past_due"
  }

  function ProductOf(spec: Spec, priceKey: string): Option<Product> {
    var productKey := SplitAtDot(StripNamespace(spec.namespace, priceKey).0).0;
    if productKey != "" && productKey in spec.products then Some(spec.products[productKey]) else None
  }

  /** The declarations one subscription item contributes. */
  ghost function ItemOf(spec: Spec): string -> seq<Declaration> {
    key => if ProductOf(spec, key).None? then [] else MetadataOf(ProductOf(spec, key).value.metadata)
  }

  function KeysOf(sub: Subscription): seq<string> {
    if AccessGranting(sub.status) then sub.priceKeys else []
  }

  /** The items of all access-granting subscriptions. */
  function ItemKeys(subs: seq<Subscription>): seq<string> {
    Flat(KeysOf, subs)
  }

  ghost function Contributions(spec: Spec, keys: seq<string>): seq<Declaration> {
    Flat(ItemOf(spec), keys)
  }

  ghost function SnapshotOf(spec: Spec, subs: seq<Subscription>): Snapshot {
    MergeAll(NOTHING, Contributions(spec, ItemKeys(subs)))
  }

  lemma {:induction false} MergeConcat(s: Snapshot, ds: seq<Declaration>, es: seq<Declaration>)
    ensures MergeAll(s, ds + es) == MergeAll(MergeAll(s, ds), es)
  {
    hide Merge;
    if es == [] {
      assert ds + es == ds;
    } else {
      MergeConcat(s, ds, es[..|es| - 1]);
      assert (ds + es)[..|ds + es| - 1] == ds + es[..|es| - 1];
    }
  }

  /** What one more item, or one more subscription, changes. */
  lemma {:induction false} OneMoreItem(spec: Spec, keys: seq<string>, key: string)
    ensures MergeAll(NOTHING, Contributions(spec, keys + [key]))
         == (var s := MergeAll(NOTHING, Contributions(spec, keys));
             if ProductOf(spec, key).None? then s else MergeAll(s, MetadataOf(ProductOf(spec, key).value.metadata)))
  {
    hide MergeAll, MetadataOf, ProductOf;
    assert (keys + [key])[..|keys|] == keys;
    var ds := Contributions(spec, keys);
    if ProductOf(spec, key).None? {
      assert ds + [] == ds;
    } else {
      MergeConcat(NOTHING, ds, MetadataOf(ProductOf(spec, key).value.metadata));
    }
  }

  lemma {:induction false} OneMoreSubscription(subs: seq<Subscription>, sub: Subscription)
    ensures ItemKeys(subs + [sub]) == ItemKeys(subs) + KeysOf(sub)
  {
    assert (subs + [sub])[..|subs|] == subs;
  }

  lemma {:induction false} NothingContributed(spec: Spec)
    ensures MergeAll(NOTHING, Contributions(spec, [])) == NOTHING
    ensures ItemKeys([]) == []
  {
  }

  /** Only active, trialing and past due subscriptions contribute; a further one
      merges what its items declare into the snapshot. */
  lemma {:induction false} StatusDecides(spec: Spec, subs: seq<Subscription>, sub: Subscription)
    ensures SnapshotOf(spec, subs + [sub]) ==
              if sub.status in {"active", "trialing", "past_due"}
              then MergeAll(SnapshotOf(spec, subs), Contributions(spec, sub.priceKeys))
              else SnapshotOf(spec, subs)
  {
    hide MergeAll;
    OneMoreSubscription(subs, sub);
    FlatConcat(ItemOf(spec), ItemKeys(subs), KeysOf(sub));
    MergeConcat(NOTHING, Contributions(spec, ItemKeys(subs)), Contributions(spec, KeysOf(sub)));
    assert ItemKeys(subs) + [] == ItemKeys(subs);
  }

  /** A key without a dot names no product. */
  lemma {:induction false} PlainItem(spec: Spec, key: string)
    requires '.' !in key
    ensures StripNamespace(spec.namespace, key) == (key, false) && Contributions(spec, [key]) == []
  {
    hide MetadataOf;
    var prefix := spec.namespace + ".";
    assert prefix[|spec.namespace|] == '.';
    OneItem(spec, key);
  }

  lemma {:induction false} OneItem(spec: Spec, key: string)
    ensures Contributions(spec, [key]) == ItemOf(spec)(key)
  {
    hide MetadataOf, ProductOf;
    FlatOne(ItemOf(spec), key);
  }

  lemma {:induction false} FlatOne<A, B>(f: A -> seq<B>, x: A)
    ensures Flat(f, [x]) == f(x)
  {
    assert [x][..0] == [];
  }

  /** And an item declares what the metadata of its product does, whether its key
      carries the namespace or not. */
  lemma {:induction false} ItemDeclares(spec: Spec, p: string, q: string)
    requires WellFormed(spec) && '.' !in p && p != ""
    ensures var ds := if p in spec.products then MetadataOf(spec.products[p].metadata) else [];
            && Contributions(spec, [PriceKey(spec.namespace, p, q)]) == ds
            && (p != spec.namespace ==> Contributions(spec, [p + "." + q]) == ds)
  {
    hide WellFormed, MetadataOf, Contributions, ProductOf, PriceKey;
    ProductOfKey(spec, p, q);
    OneItem(spec, PriceKey(spec.namespace, p, q));
    OneItem(spec, p + "." + q);
  }

  lemma {:induction false} ProductOfKey(spec: Spec, p: string, q: string)
    requires WellFormed(spec) && '.' !in p && p != ""
    ensures var product := if p in spec.products then Some(spec.products[p]) else None;
            && ProductOf(spec, PriceKey(spec.namespace, p, q)) == product
            && (p != spec.namespace ==> ProductOf(spec, p + "." + q) == product)
  {
    hide WellFormed, Cut;
    DotFree(spec);
    var key, bare, prefix := PriceKey(spec.namespace, p, q), p + "." + q, spec.namespace + ".";
    assert key == prefix + bare && key[..|prefix|] == prefix && key[|prefix|..] == bare;
    CutJoin(p, '.', q);
    if prefix <= bare {
      assert bare == prefix + bare[|prefix|..];
      JoinUnique('.', p, q, spec.namespace, bare[|prefix|..]);
    }
  }

  method SnapshotFor(spec: Spec, subs: seq<Subscription>) returns (snap: Snapshot, active: bool)
    ensures snap == SnapshotOf(spec, subs)
    ensures active <==> exists i :: 0 <= i < |subs| && subs[i].status in {"active", "trialing", "past_due"}
  {
    hide MergeAll, Contributions, ItemKeys, AccessGranting;
    snap, active := NOTHING, false;
    NothingContributed(spec);
    for i := 0 to |subs|
      invariant snap == MergeAll(NOTHING, Contributions(spec, ItemKeys(subs[..i])))
      invariant active <==> exists j :: 0 <= j < i && AccessGranting(subs[j].status)
    {
      ghost var before := ItemKeys(subs[..i]);
      OneMoreSubscription(subs[..i], subs[i]);
      assert subs[..i + 1] == subs[..i] + [subs[i]];
      if !AccessGranting(subs[i].status) {
        assert before + [] == before;
        continue;
      }
      active := true;
      snap := AddItems(spec, snap, subs[i].priceKeys, before);
    }
    assert subs[..|subs|] == subs;
    forall i | 0 <= i < |subs|
      ensures AccessGranting(subs[i].status) <==> subs[i].status in {"active", "trialing", "past_due"}
    {
      AccessStatuses(subs[i].status);
    }
  }

  lemma {:induction false} AccessStatuses(status: string)
    ensures AccessGranting(status) <==> status in {"active", "trialing", "past_due"}
  {
  }

  method AddItems(spec: Spec, start: Snapshot, keys: seq<string>, ghost before: seq<string>) returns (snap: Snapshot)
    requires start == MergeAll(NOTHING, Contributions(spec, before))
    ensures snap == MergeAll(NOTHING, Contributions(spec, before + keys))
  {
    hide MergeAll, MetadataOf, Contributions, StripNamespace, SplitAtDot;
    snap := start;
    assert before + keys[..0] == before;
    for j := 0 to |keys|
      invariant snap == MergeAll(NOTHING, Contributions(spec, before + keys[..j]))
    {
      OneMoreItem(spec, before + keys[..j], keys[j]);
      assert before + keys[..j + 1] == before + keys[..j] + [keys[j]];
      var pk := StripNamespace(spec.namespace, keys[j]).0;
      var productKey, _ := SplitPriceKey(pk);
      if productKey == "" || productKey !in spec.products { continue; }
      snap := MergeMetadata(snap, spec.products[productKey].metadata);
    }
    assert keys[..|keys|] == keys;
  }

  /** Only which items the access-granting subscriptions have matters, not their
      order or how they are spread over subscriptions. */
  lemma {:induction false} ItemOrderIrrelevant(spec: Spec, subs: seq<Subscription>, subs': seq<Subscription>)
    requires multiset(ItemKeys(subs)) == multiset(ItemKeys(subs'))
    ensures SnapshotOf(spec, subs) == SnapshotOf(spec, subs')
  {
    hide MergeAll;
    FlatPermuted(ItemOf(spec), ItemKeys(subs), ItemKeys(subs'));
    OrderIrrelevant(NOTHING, Contributions(spec, ItemKeys(subs)), Contributions(spec, ItemKeys(subs')));
  }

  /** In particular the order of the subscriptions does not. */
  lemma {:induction false} SubscriptionOrderIrrelevant(spec: Spec, subs: seq<Subscription>, subs': seq<Subscription>)
    requires multiset(subs) == multiset(subs')
    ensures SnapshotOf(spec, subs) == SnapshotOf(spec, subs')
  {
    FlatPermuted(KeysOf, subs, subs');
    ItemOrderIrrelevant(spec, subs, subs');
  }

  /** The cap of a subject: MAX(base) + SUM(adds) over all items of access-granting
      subscriptions, saturated, exactly when AddsUp. */
  lemma {:induction false} CapOfSubscriptions(spec: Spec, subs: seq<Subscription>, name: string)
    ensures var ds, s := Contributions(spec, ItemKeys(subs)), SnapshotOf(spec, subs);
            NonNegative(ds) && IntLimit(s, name).1 ==>
              && IsBase(ds, name, Get(s.limits, name))
              && (IntLimit(s, name).0 == Saturated(Get(s.limits, name) + Sum(ds, name)) <==>
                  AddsUp(Get(s.limits, name), Sum(ds, name)))
  {
    hide MergeAll, IntLimit, NonNegative, IsBase, AddsUp, Contributions, ItemKeys, Sum, Get, Saturated;
    var ds := Contributions(spec, ItemKeys(subs));
    if NonNegative(ds) { LimitMeaning(ds, name); }
  }

  /** A further access-granting subscription takes no feature away and leaves every
      limit declared; it lowers a cap exactly when KeepsUp fails, so never while the
      adds of all subscriptions add up. */
  lemma {:induction false} MoreSubscriptionsNeverLess(spec: Spec, subs: seq<Subscription>, sub: Subscription,
                                                      name: string)
    requires NonNegative(Contributions(spec, ItemKeys(subs + [sub])))
    ensures var s, t := SnapshotOf(spec, subs), SnapshotOf(spec, subs + [sub]);
            var sum, sum' := Sum(Contributions(spec, ItemKeys(subs)), name),
                             Sum(Contributions(spec, ItemKeys(subs + [sub])), name);
            && s.features <= t.features
            && (IntLimit(s, name).1 ==>
                  && IntLimit(t, name).1
                  && (IntLimit(s, name).0 <= IntLimit(t, name).0 <==>
                      KeepsUp(Get(s.limits, name), sum, Get(t.limits, name), sum'))
                  && (AddsUp(Get(t.limits, name), sum') ==> IntLimit(s, name).0 <= IntLimit(t, name).0))
  {
    hide MergeAll, IntLimit, NonNegative, AddsUp, Cap, Sum;
    OneMoreSubscription(subs, sub);
    FlatConcat(ItemOf(spec), ItemKeys(subs), KeysOf(sub));
    var ds, es := Contributions(spec, ItemKeys(subs)), Contributions(spec, KeysOf(sub));
    MoreIsNotLess(ds, es, name);
  }
}
