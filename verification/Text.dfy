/** Absent or present values. */
module Options {
  datatype Option<+T> = None | Some(value: T)
}

/** Facts about joined keys: where a join can be taken apart again. */
module Text {
  import opened Options

  /** First position of c at or after i. */
  function IndexFrom(s: string, c: char, i: nat): (r: Option<nat>)
    requires i <= |s|
    ensures r.Some? ==> i <= r.value < |s| && s[r.value] == c && forall p :: i <= p < r.value ==> s[p] != c
    ensures r.None? ==> forall p :: i <= p < |s| ==> s[p] != c
    decreases |s| - i
  {
    if i == |s| then None else if s[i] == c then Some(i) else IndexFrom(s, c, i + 1)
  }

  /** The parts before and after the first c, as strings.SplitN(s, c, 2) gives them. */
  function Cut(s: string, c: char): (r: Option<(string, string)>)
    ensures r.Some? ==> s == r.value.0 + [c] + r.value.1 && c !in r.value.0
    ensures r.None? <==> c !in s
  {
    match IndexFrom(s, c, 0)
    case None => None
    case Some(i) => Some((s[..i], s[i + 1..]))
  }

  /** Cutting a join gives back its parts. */
  lemma {:induction false} CutJoin(a: string, c: char, x: string)
    requires c !in a
    ensures Cut(a + [c] + x, c) == Some((a, x))
  {
    var s := a + [c] + x;
    assert s[|a|] == c;
    var r := Cut(s, c).value;
    JoinUnique(c, a, x, r.0, r.1);
  }

  /** A join at a separator that the left parts avoid has one reading. */
  lemma {:induction false} JoinUnique(sep: char, a: string, x: string, b: string, y: string)
    requires sep !in a && sep !in b
    requires a + [sep] + x == b + [sep] + y
    ensures a == b && x == y
  {
    var k := a + [sep] + x;
    assert k[|a|] == sep && k[|b|] == sep;
    assert forall p :: 0 <= p < |a| ==> k[p] == a[p] != sep;
    assert forall p :: 0 <= p < |b| ==> k[p] == b[p] != sep;
    assert k[..|a|] == a && k[..|b|] == b;
    assert k[|a| + 1..] == x && k[|b| + 1..] == y;
  }

  /** A join at a separator that the right parts avoid has one reading. */
  lemma {:induction false} JoinUniqueRight(sep: char, a: string, x: string, b: string, y: string)
    requires sep !in x && sep !in y
    requires a + [sep] + x == b + [sep] + y
    ensures a == b && x == y
  {
    var k := a + [sep] + x;
    assert k[|a|] == sep && k[|b|] == sep;
    assert forall p :: |a| < p < |k| ==> k[p] == x[p - |a| - 1] != sep;
    assert forall p :: |b| < p < |k| ==> k[p] == y[p - |b| - 1] != sep;
    assert k[..|a|] == a && k[..|b|] == b;
    assert k[|a| + 1..] == x && k[|b| + 1..] == y;
  }

  /** If two joins agree, the shorter left part is followed by the separator
      inside the longer one. */
  lemma {:induction false} JoinOverlap(sep: char, a: string, x: string, b: string, y: string)
    requires a + [sep] + x == b + [sep] + y && a != b && |a| <= |b|
    ensures a + [sep] <= b
  {
    var k := a + [sep] + x;
    assert k[..|a|] == a && k[..|b|] == b;
    assert k[|a|] == sep;
    if |a| < |b| {
      assert b[..|a| + 1] == a + [sep];
    }
  }
}

/** Decimal numerals, as %d prints them. */
module Decimals {
  predicate IsDigit(c: char) {
    '0' <= c <= '9'
  }

  predicate AllDigits(s: string) {
    forall i :: 0 <= i < |s| ==> IsDigit(s[i])
  }

  function Digit(d: nat): (c: char)
    requires d < 10
    ensures IsDigit(c) && c as int - '0' as int == d
  {
    ('0' as int + d) as char
  }

  function Decimal(n: nat): (s: string)
    ensures |s| >= 1 && AllDigits(s)
  {
    if n < 10 then [Digit(n)] else Decimal(n / 10) + [Digit(n % 10)]
  }

  function Value(s: string): nat
    requires AllDigits(s)
  {
    if s == "" then 0 else Value(s[..|s| - 1]) * 10 + (s[|s| - 1] as int - '0' as int)
  }

  /** Printing and reading a numeral is the identity. */
  lemma {:induction false} ValueOfDecimal(n: nat)
    ensures Value(Decimal(n)) == n
  {
    if n < 10 {
      assert Decimal(n)[..0] == "";
    } else {
      ValueOfDecimal(n / 10);
      assert Decimal(n)[..|Decimal(n)| - 1] == Decimal(n / 10);
    }
  }

  lemma {:induction false} DecimalInjective(m: nat, n: nat)
    requires Decimal(m) == Decimal(n)
    ensures m == n
  {
    ValueOfDecimal(m);
    ValueOfDecimal(n);
  }
}

/** Byte-wise string order and the sorted enumeration of a key set. */
module Ordering {
  predicate Below(a: string, b: string) {
    if b == "" then false
    else if a == "" then true
    else if a[0] != b[0] then a[0] < b[0]
    else Below(a[1..], b[1..])
  }

  lemma {:induction false} BelowIrreflexive(a: string)
    ensures !Below(a, a)
  {
    if a != "" { BelowIrreflexive(a[1..]); }
  }

  lemma {:induction false} BelowTotal(a: string, b: string)
    ensures Below(a, b) || a == b || Below(b, a)
  {
    if a != "" && b != "" && a[0] == b[0] {
      BelowTotal(a[1..], b[1..]);
      assert a == [a[0]] + a[1..] && b == [b[0]] + b[1..];
    }
  }

  lemma {:induction false} BelowTransitive(a: string, b: string, c: string)
    requires Below(a, b) && Below(b, c)
    ensures Below(a, c)
  {
    if a != "" && a[0] == b[0] == c[0] { BelowTransitive(a[1..], b[1..], c[1..]); }
  }

  ghost predicate Ascending(ks: seq<string>) {
    forall i, j :: 0 <= i < j < |ks| ==> Below(ks[i], ks[j])
  }

  ghost predicate Enumerates(ks: seq<string>, s: set<string>) {
    Ascending(ks) && forall x :: x in ks <==> x in s
  }

  lemma {:induction false} AscendingDistinct(ks: seq<string>)
    requires Ascending(ks)
    ensures forall i, j :: 0 <= i < j < |ks| ==> ks[i] != ks[j]
  {
    forall i, j | 0 <= i < j < |ks| ensures ks[i] != ks[j] {
      BelowIrreflexive(ks[i]);
    }
  }

  /** A set has only one sorted enumeration: sorting removes the order in which
      a map happened to be iterated. */
  lemma {:induction false} EnumerationUnique(a: seq<string>, b: seq<string>, s: set<string>)
    requires Enumerates(a, s) && Enumerates(b, s)
    ensures a == b
    decreases |a|
  {
    assert forall i :: 0 <= i < |b| ==> b[i] in s;
    if a == [] {
      assert s == {};
      assert |b| == 0;
    } else {
      assert a[0] in s && b != [];
      LeastFirst(a, b);
      AscendingDistinct(a);
      AscendingDistinct(b);
      forall x ensures x in a[1..] <==> x in s - {a[0]} { InTail(a, x); }
      forall x ensures x in b[1..] <==> x in s - {a[0]} { InTail(b, x); }
      EnumerationUnique(a[1..], b[1..], s - {a[0]});
      assert a == [a[0]] + a[1..] && b == [b[0]] + b[1..];
    }
  }

  lemma {:induction false} InTail(a: seq<string>, x: string)
    requires a != [] && forall i, j :: 0 <= i < j < |a| ==> a[i] != a[j]
    ensures x in a[1..] <==> x in a && x != a[0]
  {
    assert a == [a[0]] + a[1..];
    if x in a[1..] {
      var i :| 0 <= i < |a[1..]| && a[1..][i] == x;
      assert a[i + 1] == x;
    }
  }

  lemma {:induction false} LeastFirst(a: seq<string>, b: seq<string>)
    requires a != [] && b != [] && Ascending(a) && Ascending(b)
    requires a[0] in b && b[0] in a
    ensures a[0] == b[0]
  {
    var i :| 0 <= i < |b| && b[i] == a[0];
    var j :| 0 <= j < |a| && a[j] == b[0];
    if i > 0 && j > 0 {
      BelowTransitive(a[0], b[0], a[0]);
      BelowIrreflexive(a[0]);
    }
  }

  function Spliced(ks: seq<string>, at: nat, x: string): (r: seq<string>)
    requires at <= |ks|
    ensures forall y :: y in r <==> y in ks || y == x
  {
    ks[..at] + [x] + ks[at..]
  }

  lemma {:induction false} SplicedAscending(ks: seq<string>, at: nat, x: string)
    requires Ascending(ks) && at <= |ks|
    requires at > 0 ==> Below(ks[at - 1], x)
    requires at < |ks| ==> Below(x, ks[at])
    ensures Ascending(Spliced(ks, at, x))
  {
    var r := Spliced(ks, at, x);
    forall i, j | 0 <= i < j < |r| ensures Below(r[i], r[j]) {
      if j == at && i < at - 1 {
        BelowTransitive(ks[i], ks[at - 1], x);
      } else if i == at && j > at + 1 {
        BelowTransitive(x, ks[at], ks[j - 1]);
      }
    }
  }

  /** Sorts a key set, whatever order its elements come out in. */
  method SortedKeys(s: set<string>) returns (ks: seq<string>)
    ensures Enumerates(ks, s)
  {
    ks := [];
    var todo := s;
    while todo != {}
      invariant todo <= s && Ascending(ks)
      invariant forall x :: x in ks <==> x in s - todo
      decreases |todo|
    {
      var x :| x in todo;
      var at := |ks|;
      while at > 0 && !Below(ks[at - 1], x)
        invariant 0 <= at <= |ks|
        invariant at < |ks| ==> Below(x, ks[at])
      {
        assert ks[at - 1] in ks;
        BelowTotal(ks[at - 1], x);
        at := at - 1;
      }
      SplicedAscending(ks, at, x);
      ks := Spliced(ks, at, x);
      todo := todo - {x};
    }
  }

  lemma {:induction false} EnumerationExists(s: set<string>) returns (ks: seq<string>)
    ensures Enumerates(ks, s)
    decreases |s|
  {
    if s == {} {
      ks := [];
    } else {
      var x :| x in s;
      var r := EnumerationExists(s - {x});
      var at := |r|;
      while at > 0 && !Below(r[at - 1], x)
        invariant 0 <= at <= |r|
        invariant at < |r| ==> Below(x, r[at])
      {
        assert r[at - 1] in r;
        BelowTotal(r[at - 1], x);
        at := at - 1;
      }
      SplicedAscending(r, at, x);
      ks := Spliced(r, at, x);
    }
  }

  ghost function Sorted(s: set<string>): (ks: seq<string>)
    ensures Enumerates(ks, s)
  {
    assert exists ks :: Enumerates(ks, s) by {
      var ks := EnumerationExists(s);
    }
    var ks :| Enumerates(ks, s);
    ks
  }
}

/** 64-bit signed arithmetic, which wraps around. */
module Int64 {
  const MAX_INT64: int := 0x7FFF_FFFF_FFFF_FFFF
  const MIN_INT64: int := -0x8000_0000_0000_0000
  const TWO_64: int := 0x1_0000_0000_0000_0000

  predicate InInt64(x: int) {
    MIN_INT64 <= x <= MAX_INT64
  }

  /** The int64 a sum wraps around to. */
  function Wrap64(x: int): (r: int)
    ensures InInt64(r) && (InInt64(x) ==> r == x)
  {
    (x - MIN_INT64) % TWO_64 + MIN_INT64
  }

  lemma {:induction false} WrapOnce(x: int, y: int)
    ensures Wrap64(Wrap64(x) + y) == Wrap64(x + y)
  {
    var q := (x - MIN_INT64) / TWO_64;
    assert Wrap64(x) == x - q * TWO_64;
    ModShift(x + y - MIN_INT64, q);
  }

  lemma {:induction false} ModShift(a: int, q: int)
    ensures (a - q * TWO_64) % TWO_64 == a % TWO_64
  {
    var r, d := a % TWO_64, a / TWO_64;
    assert a - q * TWO_64 == (d - q) * TWO_64 + r;
    DivUnique(a - q * TWO_64, d - q, r);
  }

  lemma {:induction false} DivUnique(a: int, d: int, r: int)
    requires a == d * TWO_64 + r && 0 <= r < TWO_64
    ensures a % TWO_64 == r
  {
  }

  lemma {:induction false} WrapUnder(x: int)
    requires MAX_INT64 < x < MAX_INT64 + TWO_64
    ensures Wrap64(x) == x - TWO_64
  {
    ModShift(x - MIN_INT64, 1);
  }

  lemma {:induction false} WrapOver(x: int)
    requires MIN_INT64 - TWO_64 <= x < MAX_INT64
    ensures Wrap64(x) == if x < MIN_INT64 then x + TWO_64 else x
  {
    ModShift(x - MIN_INT64, -1);
  }

  lemma {:induction false} WrapWithin(x: int)
    ensures Wrap64(Wrap64(x)) == Wrap64(x) && Wrap64(0) == 0
  {
  }
}
