/** The byte strings fed to sha256 when an idempotency key is derived, and why
    they can be taken apart again.  A Go string is a sequence of bytes; here a
    byte is a char below 256. */
module IdempotencyKeys {
  import opened Options
  import opened Text
  import opened Ordering

  type Bytes = string

  // ------------------------------------------------------------ big endian

  function Power256(k: nat): nat {
    if k == 0 then 1 else 256 * Power256(k - 1)
  }

  /** The last k base-256 digits of n, highest first. */
  function BigEndian(n: nat, k: nat): (b: Bytes)
    ensures |b| == k
    decreases k
  {
    if k == 0 then "" else BigEndian(n / 256, k - 1) + [(n % 256) as char]
  }

  function FromBigEndian(b: Bytes): nat {
    if b == "" then 0 else FromBigEndian(b[..|b| - 1]) * 256 + b[|b| - 1] as int
  }

  lemma {:induction false} BigEndianRoundTrip(n: nat, k: nat)
    requires n < Power256(k)
    ensures FromBigEndian(BigEndian(n, k)) == n
    decreases k
  {
    if k > 0 {
      assert n / 256 < Power256(k - 1);
      BigEndianRoundTrip(n / 256, k - 1);
      assert BigEndian(n, k)[..k - 1] == BigEndian(n / 256, k - 1);
    }
  }

  predicate AllBytes(b: Bytes) {
    forall i :: 0 <= i < |b| ==> b[i] as int < 256
  }

  lemma {:induction false} FromBigEndianRoundTrip(b: Bytes)
    requires AllBytes(b)
    ensures FromBigEndian(b) < Power256(|b|) && BigEndian(FromBigEndian(b), |b|) == b
  {
    if b != "" {
      var init, last := b[..|b| - 1], b[|b| - 1];
      FromBigEndianRoundTrip(init);
      assert b == init + [last];
      assert FromBigEndian(b) / 256 == FromBigEndian(init) && FromBigEndian(b) % 256 == last as int;
    }
  }

  // ---------------------------------------------------------- length prefixes

  const LENGTH_BYTES: nat := 8

  /** Every Go string is shorter than 2^64 bytes. */
  ghost predicate Fits(s: Bytes) {
    |s| < Power256(LENGTH_BYTES)
  }

  ghost predicate AllFit(ss: seq<Bytes>) {
    forall i :: 0 <= i < |ss| ==> Fits(ss[i])
  }

  function Prefixed(s: Bytes): Bytes {
    BigEndian(|s|, LENGTH_BYTES) + s
  }

  function Encode(ss: seq<Bytes>): Bytes {
    if ss == [] then "" else Encode(ss[..|ss| - 1]) + Prefixed(ss[|ss| - 1])
  }

  /** Takes an encoding apart from the front. */
  function Decode(b: Bytes): Option<seq<Bytes>> {
    if b == "" then Some([])
    else if |b| < LENGTH_BYTES then None
    else
      var n := FromBigEndian(b[..LENGTH_BYTES]);
      if |b| < LENGTH_BYTES + n then None
      else match Decode(b[LENGTH_BYTES + n..])
           case None => None
           case Some(rest) => Some([b[LENGTH_BYTES..LENGTH_BYTES + n]] + rest)
  }

  lemma {:induction false} EncodeConcat(a: seq<Bytes>, b: seq<Bytes>)
    ensures Encode(a + b) == Encode(a) + Encode(b)
  {
    hide Prefixed;
    if b == [] {
      assert a + b == a;
    } else {
      EncodeConcat(a, b[..|b| - 1]);
      assert (a + b)[..|a + b| - 1] == a + b[..|b| - 1];
    }
  }

  lemma {:induction false} EncodeFront(s: Bytes, rest: seq<Bytes>)
    ensures Encode([s] + rest) == Prefixed(s) + Encode(rest)
  {
    hide Prefixed;
    EncodeConcat([s], rest);
    assert [s][..0] == [];
    assert Encode([s]) == Encode([]) + Prefixed(s);
  }

  /** What was encoded is what is decoded. */
  lemma {:induction false} DecodeEncode(ss: seq<Bytes>)
    requires AllFit(ss)
    ensures Decode(Encode(ss)) == Some(ss)
  {
    if ss != [] {
      var s, rest := ss[0], ss[1..];
      assert ss == [s] + rest;
      EncodeFront(s, rest);
      var b := Encode(ss);
      assert b[..LENGTH_BYTES] == BigEndian(|s|, LENGTH_BYTES);
      assert Fits(ss[0]);
      BigEndianRoundTrip(|s|, LENGTH_BYTES);
      assert b[LENGTH_BYTES..LENGTH_BYTES + |s|] == s;
      assert b[LENGTH_BYTES + |s|..] == Encode(rest);
      DecodeEncode(rest);
    }
  }

  /** And only encodings decode. */
  lemma {:induction false} EncodeDecode(b: Bytes)
    requires AllBytes(b) && Decode(b).Some?
    ensures Encode(Decode(b).value) == b
    decreases |b|
  {
    hide BigEndian, FromBigEndian, Encode;
    EncodeNothing();
    if b != "" {
      var n := FromBigEndian(b[..LENGTH_BYTES]);
      var s, rest := b[LENGTH_BYTES..LENGTH_BYTES + n], b[LENGTH_BYTES + n..];
      EncodeDecode(rest);
      EncodeFront(s, Decode(rest).value);
      FromBigEndianRoundTrip(b[..LENGTH_BYTES]);
      assert b == b[..LENGTH_BYTES] + s + rest;
    }
  }

  /** The encoding of a list determines the list. */
  lemma {:induction false} EncodeInjective(a: seq<Bytes>, b: seq<Bytes>)
    requires AllFit(a) && AllFit(b)
    ensures Encode(a) == Encode(b) <==> a == b
  {
    DecodeEncode(a);
    DecodeEncode(b);
  }

  // ----------------------------------------------------------------- deriveKey

  class Hash {
    var written: Bytes

    constructor ()
      ensures written == ""
    {
      written := "";
    }

    method Write(b: Bytes)
      modifies this
      ensures written == old(written) + b
    {
      written := written + b;
    }
  }

  lemma {:induction false} EightBytes()
    ensures Power256(8) == 0x1_0000_0000_0000_0000
  {
    assert Power256(4) == 0x1_0000_0000;
    assert Power256(8) == 256 * (256 * (256 * (256 * Power256(4))));
  }

  method WriteLenPrefixed(h: Hash, s: Bytes)
    modifies h
    ensures h.written == old(h.written) + Prefixed(s)
    ensures var n := |old(h.written)|;
            && |h.written| == n + 8 + |s| && h.written[n + 8..] == s
            && (|s| < 0x1_0000_0000_0000_0000 ==> FromBigEndian(h.written[n..n + 8]) == |s|)
  {
    if |s| < 0x1_0000_0000_0000_0000 {
      EightBytes();
      BigEndianRoundTrip(|s|, LENGTH_BYTES);
    }
    hide BigEndian, FromBigEndian;
    assert |old(h.written)| + 8 <= |old(h.written) + BigEndian(|s|, LENGTH_BYTES)|;
    h.Write(BigEndian(|s|, LENGTH_BYTES));
    h.Write(s);
  }

  /** `digest` stands for sha256, truncated and in hex. */
  method DeriveKey(digest: Bytes -> string, op: Bytes, inputs: seq<Bytes>) returns (key: string)
    ensures key == op + ":" + digest(Encode([op] + inputs))
  {
    hide Prefixed;
    var h := new Hash();
    WriteLenPrefixed(h, op);
    for i := 0 to |inputs|
      invariant h.written == Prefixed(op) + Encode(inputs[..i])
    {
      WriteLenPrefixed(h, inputs[i]);
      assert inputs[..i + 1][..i] == inputs[..i];
    }
    assert inputs[..|inputs|] == inputs;
    EncodeFront(op, inputs);
    key := op + ":" + digest(h.written);
  }

  /** The bytes deriveKey hashes determine the operation and the input list. */
  lemma {:induction false} DerivedBytesDetermine(op: Bytes, inputs: seq<Bytes>, op': Bytes, inputs': seq<Bytes>)
    requires Fits(op) && Fits(op') && AllFit(inputs) && AllFit(inputs')
    ensures Encode([op] + inputs) == Encode([op'] + inputs') <==> op == op' && inputs == inputs'
  {
    EncodeInjective([op] + inputs, [op'] + inputs');
    if [op] + inputs == [op'] + inputs' {
      assert ([op] + inputs)[0] == op && ([op'] + inputs')[0] == op';
      assert ([op] + inputs)[1..] == inputs && ([op'] + inputs')[1..] == inputs';
    }
  }

  const DIGEST_CHARS: nat := 32

  ghost predicate IsDigest(digest: Bytes -> string) {
    forall b :: |digest(b)| == DIGEST_CHARS
  }

  /** Two derived keys agree exactly for the same operation and inputs, or when the
      digest itself collides on two different byte strings. */
  lemma {:induction false} KeysCollideOnlyInDigest(digest: Bytes -> string, op: Bytes, inputs: seq<Bytes>, op': Bytes,
                                                   inputs': seq<Bytes>)
    requires IsDigest(digest) && Fits(op) && Fits(op') && AllFit(inputs) && AllFit(inputs')
    ensures op + ":" + digest(Encode([op] + inputs)) == op' + ":" + digest(Encode([op'] + inputs')) <==>
              op == op' && (inputs == inputs' || (Encode([op] + inputs) != Encode([op'] + inputs')
                                                  && digest(Encode([op] + inputs)) == digest(Encode([op'] + inputs'))))
  {
    var b, b' := Encode([op] + inputs), Encode([op'] + inputs');
    var k, k' := op + ":" + digest(b), op' + ":" + digest(b');
    DerivedBytesDetermine(op, inputs, op', inputs');
    if k == k' {
      assert |op| == |op'|;
      assert k[..|op|] == op && k'[..|op'|] == op';
      assert k[|op| + 1..] == digest(b) && k'[|op'| + 1..] == digest(b');
    }
  }

  // --------------------------------------------------------------- ContentHash

  function Pairs(m: map<Bytes, Bytes>, ks: seq<Bytes>): (r: seq<Bytes>)
    requires forall i :: 0 <= i < |ks| ==> ks[i] in m
    ensures |r| == 2 * |ks|
    ensures forall i :: 0 <= i < |ks| ==> r[2 * i] == ks[i] && r[2 * i + 1] == m[ks[i]]
  {
    if ks == [] then [] else Pairs(m, ks[..|ks| - 1]) + [ks[|ks| - 1], m[ks[|ks| - 1]]]
  }

  /** The bytes ContentHash hashes: a function of the map alone. */
  ghost function ContentBytes(op: Bytes, fields: map<Bytes, Bytes>): Bytes {
    var ks := Sorted(fields.Keys);
    assert forall i :: 0 <= i < |ks| ==> ks[i] in fields.Keys;
    Encode([op] + Pairs(fields, ks))
  }

  /** Map iteration order is lost in sorting, so the digest does not depend on it. */
  method ContentHash(digest: Bytes -> string, op: Bytes, fields: map<Bytes, Bytes>) returns (hash: string)
    ensures hash == digest(ContentBytes(op, fields))
  {
    hide Prefixed, Encode, Pairs;
    var ks := SortedKeys(fields.Keys);
    EnumerationUnique(ks, Sorted(fields.Keys), fields.Keys);
    assert forall i :: 0 <= i < |ks| ==> ks[i] in fields.Keys;
    var h := new Hash();
    WritePairs(h, op, fields, ks);
    EncodeFront(op, Pairs(fields, ks));
    hash := digest(h.written);
  }

  method WritePairs(h: Hash, op: Bytes, fields: map<Bytes, Bytes>, ks: seq<Bytes>)
    requires h.written == "" && forall i :: 0 <= i < |ks| ==> ks[i] in fields
    modifies h
    ensures h.written == Prefixed(op) + Encode(Pairs(fields, ks))
  {
    hide Prefixed;
    WriteLenPrefixed(h, op);
    for i := 0 to |ks|
      invariant h.written == Prefixed(op) + Encode(Pairs(fields, ks[..i]))
    {
      EncodePair(fields, ks, i);
      WriteLenPrefixed(h, ks[i]);
      WriteLenPrefixed(h, fields[ks[i]]);
    }
    assert ks[..|ks|] == ks;
  }

  lemma {:induction false} EncodePair(fields: map<Bytes, Bytes>, ks: seq<Bytes>, i: nat)
    requires i < |ks| && forall j :: 0 <= j < |ks| ==> ks[j] in fields
    ensures Encode(Pairs(fields, ks[..i + 1])) ==
            Encode(Pairs(fields, ks[..i])) + Prefixed(ks[i]) + Prefixed(fields[ks[i]])
  {
    hide Prefixed, Encode;
    var k, v := ks[i], fields[ks[i]];
    assert ks[..i + 1][..i] == ks[..i];
    EncodeConcat(Pairs(fields, ks[..i]), [k, v]);
    assert [k] + [v] == [k, v] && [v] + [] == [v];
    EncodeFront(k, [v]);
    EncodeFront(v, []);
    EncodeNothing();
  }

  lemma {:induction false} EncodeNothing()
    ensures Encode([]) == ""
  {
  }

  ghost predicate MapFits(m: map<Bytes, Bytes>) {
    forall k :: k in m ==> Fits(k) && Fits(m[k])
  }

  /** The bytes determine the operation and the whole field map. */
  lemma {:induction false} ContentBytesDetermine(op: Bytes, m: map<Bytes, Bytes>, op': Bytes, m': map<Bytes, Bytes>)
    requires Fits(op) && Fits(op') && MapFits(m) && MapFits(m')
    ensures ContentBytes(op, m) == ContentBytes(op', m') <==> op == op' && m == m'
  {
    var ks, ks' := Sorted(m.Keys), Sorted(m'.Keys);
    assert (forall i :: 0 <= i < |ks| ==> ks[i] in m.Keys) && (forall i :: 0 <= i < |ks'| ==> ks'[i] in m'.Keys);
    PairsFit(m, ks);
    PairsFit(m', ks');
    DerivedBytesDetermine(op, Pairs(m, ks), op', Pairs(m', ks'));
    if Pairs(m, ks) == Pairs(m', ks') { PairsDetermine(m, ks, m', ks'); }
  }

  lemma {:induction false} PairsFit(m: map<Bytes, Bytes>, ks: seq<Bytes>)
    requires MapFits(m) && forall i :: 0 <= i < |ks| ==> ks[i] in m
    ensures AllFit(Pairs(m, ks))
  {
    forall j | 0 <= j < |Pairs(m, ks)| ensures Fits(Pairs(m, ks)[j]) {
      assert j == 2 * (j / 2) || j == 2 * (j / 2) + 1;
      assert ks[j / 2] in m;
    }
  }

  lemma {:induction false} PairsDetermine(m: map<Bytes, Bytes>, ks: seq<Bytes>, m': map<Bytes, Bytes>, ks': seq<Bytes>)
    requires Enumerates(ks, m.Keys) && Enumerates(ks', m'.Keys)
    requires (forall i :: 0 <= i < |ks| ==> ks[i] in m) && (forall i :: 0 <= i < |ks'| ==> ks'[i] in m')
    requires Pairs(m, ks) == Pairs(m', ks')
    ensures m == m'
  {
    forall i | 0 <= i < |ks| ensures ks[i] == ks'[i] && m[ks[i]] == m'[ks[i]] {
      assert Pairs(m, ks)[2 * i] == ks[i] && Pairs(m', ks')[2 * i] == ks'[i];
      assert Pairs(m, ks)[2 * i + 1] == m[ks[i]];
    }
    assert ks == ks';
    forall k ensures k in m <==> k in m' { assert k in m.Keys <==> k in ks; }
    forall k | k in m ensures m[k] == m'[k] {
      var i :| 0 <= i < |ks| && ks[i] == k;
    }
  }

  // -------------------------------------------------------------- CanonicalMap

  const NUL: char := '\0'

  function Entry(m: map<Bytes, Bytes>, k: Bytes): Bytes
    requires k in m
  {
    k + "=" + m[k]
  }

  function Render(m: map<Bytes, Bytes>, ks: seq<Bytes>): Bytes
    requires forall i :: 0 <= i < |ks| ==> ks[i] in m
  {
    if ks == [] then ""
    else if |ks| == 1 then Entry(m, ks[0])
    else Entry(m, ks[0]) + [NUL] + Render(m, ks[1..])
  }

  ghost function Canonical(m: map<Bytes, Bytes>): Bytes {
    var ks := Sorted(m.Keys);
    assert forall i :: 0 <= i < |ks| ==> ks[i] in m.Keys;
    Render(m, ks)
  }

  method CanonicalMap(m: map<Bytes, Bytes>) returns (b: Bytes)
    ensures b == Canonical(m)
  {
    var ks := SortedKeys(m.Keys);
    EnumerationUnique(ks, Sorted(m.Keys), m.Keys);
    assert forall i :: 0 <= i < |ks| ==> ks[i] in m.Keys;
    b := RenderLoop(m, ks);
  }

  method RenderLoop(m: map<Bytes, Bytes>, ks: seq<Bytes>) returns (b: Bytes)
    requires forall i :: 0 <= i < |ks| ==> ks[i] in m
    ensures b == Render(m, ks)
  {
    b := "";
    for i := 0 to |ks|
      invariant b == Render(m, ks[..i])
    {
      RenderMore(m, ks[..i], ks[i]);
      assert ks[..i + 1] == ks[..i] + [ks[i]];
      if i > 0 { b := b + [NUL]; }
      b := b + ks[i] + "=" + m[ks[i]];
    }
    assert ks[..|ks|] == ks;
  }

  lemma {:induction false} RenderMore(m: map<Bytes, Bytes>, ks: seq<Bytes>, k: Bytes)
    requires (forall i :: 0 <= i < |ks| ==> ks[i] in m) && k in m
    ensures Render(m, ks + [k]) == (if ks == [] then "" else Render(m, ks) + [NUL]) + Entry(m, k)
  {
    if |ks| > 1 {
      RenderMore(m, ks[1..], k);
      assert (ks + [k])[1..] == ks[1..] + [k];
    } else if |ks| == 1 {
      assert (ks + [k])[1..] == [k];
    }
  }

  /** Keys without '=' and NUL, values without NUL. */
  predicate Plain(m: map<Bytes, Bytes>) {
    forall k :: k in m ==> '=' !in k && NUL !in k && NUL !in m[k]
  }

  lemma {:induction false} PlainEntry(m: map<Bytes, Bytes>, k: Bytes)
    requires Plain(m) && k in m
    ensures NUL !in Entry(m, k)
  {
  }

  /** A rendered list of plain entries has one reading. */
  lemma {:induction false} RenderUnique(m: map<Bytes, Bytes>, ks: seq<Bytes>, m': map<Bytes, Bytes>, ks': seq<Bytes>)
    requires Plain(m) && Plain(m')
    requires (forall i :: 0 <= i < |ks| ==> ks[i] in m) && (forall i :: 0 <= i < |ks'| ==> ks'[i] in m')
    requires Render(m, ks) == Render(m', ks')
    ensures ks == ks' && forall i :: 0 <= i < |ks| ==> m[ks[i]] == m'[ks[i]]
    decreases |ks|
  {
    if ks != [] && ks' != [] {
      HeadUnique(m, ks, m', ks');
      if |ks| > 1 {
        RenderUnique(m, ks[1..], m', ks'[1..]);
      }
      assert ks == [ks[0]] + ks[1..] && ks' == [ks'[0]] + ks'[1..];
    }
  }

  lemma {:induction false} HeadUnique(m: map<Bytes, Bytes>, ks: seq<Bytes>, m': map<Bytes, Bytes>, ks': seq<Bytes>)
    requires Plain(m) && Plain(m') && ks != [] && ks' != []
    requires (forall i :: 0 <= i < |ks| ==> ks[i] in m) && (forall i :: 0 <= i < |ks'| ==> ks'[i] in m')
    requires Render(m, ks) == Render(m', ks')
    ensures ks[0] == ks'[0] && m[ks[0]] == m'[ks'[0]]
    ensures (|ks| == 1 <==> |ks'| == 1) && Render(m, ks[1..]) == Render(m', ks'[1..])
  {
    var e, e' := Entry(m, ks[0]), Entry(m', ks'[0]);
    PlainEntry(m, ks[0]);
    PlainEntry(m', ks'[0]);
    var b := Render(m, ks);
    assert |ks| > 1 ==> b[|e|] == NUL;
    assert |ks'| > 1 ==> b[|e'|] == NUL;
    if |ks| > 1 && |ks'| > 1 {
      JoinUnique(NUL, e, Render(m, ks[1..]), e', Render(m', ks'[1..]));
    }
    assert e == e';
    JoinUnique('=', ks[0], m[ks[0]], ks'[0], m'[ks'[0]]);
  }

  /** CanonicalMap is injective on plain maps. */
  lemma {:induction false} CanonicalInjective(m: map<Bytes, Bytes>, m': map<Bytes, Bytes>)
    requires Plain(m) && Plain(m')
    ensures Canonical(m) == Canonical(m') <==> m == m'
  {
    var ks, ks' := Sorted(m.Keys), Sorted(m'.Keys);
    assert (forall i :: 0 <= i < |ks| ==> ks[i] in m.Keys) && (forall i :: 0 <= i < |ks'| ==> ks'[i] in m'.Keys);
    if Canonical(m) == Canonical(m') {
      RenderUnique(m, ks, m', ks');
      forall k ensures k in m <==> k in m' { assert k in m.Keys <==> k in ks; }
      forall k | k in m ensures m[k] == m'[k] {
        assert k in m.Keys && k in ks;
        var i :| 0 <= i < |ks| && ks[i] == k;
      }
    }
  }

  /** A NUL in a value is enough to lose that: one field reads as two. */
  lemma {:induction false} CanonicalClash(a: Bytes, b: Bytes, c: Bytes, d: Bytes)
    requires Below(a, c)
    ensures Canonical(map[a := b + [NUL] + c + "=" + d]) == Canonical(map[a := b, c := d])
  {
    var one, two := map[a := b + [NUL] + c + "=" + d], map[a := b, c := d];
    BelowIrreflexive(a);
    assert Enumerates([a], one.Keys) && Enumerates([a, c], two.Keys);
    EnumerationUnique([a], Sorted(one.Keys), one.Keys);
    EnumerationUnique([a, c], Sorted(two.Keys), two.Keys);
    assert [a, c][1..] == [c];
    assert Render(two, [a, c]) == a + "=" + b + [NUL] + (c + "=" + d);
    assert Render(one, [a]) == a + "=" + (b + [NUL] + c + "=" + d);
  }

  /** And so is an '=' in a key: it may belong to the key or to the value. */
  lemma {:induction false} CanonicalClashAtEquals(a: Bytes, b: Bytes, c: Bytes)
    ensures Canonical(map[a + "=" + b := c]) == Canonical(map[a := b + "=" + c])
    ensures map[a + "=" + b := c] != map[a := b + "=" + c]
  {
    var one, two := map[a + "=" + b := c], map[a := b + "=" + c];
    assert a + "=" + b in one && |a + "=" + b| != |a|;
    assert Enumerates([a + "=" + b], one.Keys) && Enumerates([a], two.Keys);
    EnumerationUnique([a + "=" + b], Sorted(one.Keys), one.Keys);
    EnumerationUnique([a], Sorted(two.Keys), two.Keys);
    assert Render(one, [a + "=" + b]) == a + "=" + b + "=" + c;
    assert Render(two, [a]) == a + "=" + (b + "=" + c);
  }
}
