/**
 The canonical query string of AWS Signature Version 4, as aetelier-entrepot/src/sign.rs builds it.

 Strings are the bytes of their UTF-8 form. Percent-encoding follows sections 2.1 and 2.3 of RFC 3986.
 */
module Signing {

  type Byte = b: int | 0 <= b < 256

  type Text = seq<Byte>

  const PERCENT: Byte := 37
  const AMPERSAND: Byte := 38
  const SLASH: Byte := 47
  const EQUALS: Byte := 61

  predicate Unreserved(b: Byte) {
    || 65 <= b <= 90
    || 97 <= b <= 122
    || 48 <= b <= 57
    || b == 45 || b == 95 || b == 46 || b == 126
  }

  /** An upper-case hexadecimal digit. */
  function Hex(d: int): (b: Byte)
    requires 0 <= d < 16
  {
    if d < 10 then 48 + d else 55 + d
  }

  function Unhex(b: Byte): int {
    if b < 58 then b - 48 else b - 55
  }

  function EncodeByte(b: Byte, encodeSlash: bool): Text {
    if Unreserved(b) then [b]
    else if b == SLASH && !encodeSlash then [SLASH]
    else [PERCENT, Hex(b / 16), Hex(b % 16)]
  }

  function Encode(s: Text, encodeSlash: bool): Text {
    if s == [] then [] else Encode(s[..|s| - 1], encodeSlash) + EncodeByte(s[|s| - 1], encodeSlash)
  }

  method UriEncode(input: Text, encodeSlash: bool) returns (out: Text)
    ensures out == Encode(input, encodeSlash)
  {
    out := [];
    for i := 0 to |input|
      invariant out == Encode(input[..i], encodeSlash)
    {
      assert input[..i + 1][..i] == input[..i];
      var b := input[i];
      if Unreserved(b) {
        out := out + [b];
      } else if b == SLASH && !encodeSlash {
        out := out + [SLASH];
      } else {
        out := out + [PERCENT, Hex(b / 16), Hex(b % 16)];
      }
    }
    assert input[..|input|] == input;
  }

  // ---------------------------------------------------------------------------
  // Encoding is reversible and stays clear of the separators
  // ---------------------------------------------------------------------------

  /** The inverse: one byte per literal, one per percent triple. */
  function Decode(s: Text): Text
    decreases |s|
  {
    if s == [] then []
    else if s[0] == PERCENT && |s| >= 3 then
      var v := Unhex(s[1]) * 16 + Unhex(s[2]);
      (if 0 <= v < 256 then [v] else []) + Decode(s[3..])
    else [s[0]] + Decode(s[1..])
  }

  lemma DecodeByte(b: Byte, encodeSlash: bool, rest: Text)
    ensures Decode(EncodeByte(b, encodeSlash) + rest) == [b] + Decode(rest)
  {
    var e := EncodeByte(b, encodeSlash);
    assert (e + rest)[|e|..] == rest;
    assert Unhex(Hex(b / 16)) * 16 + Unhex(Hex(b % 16)) == b;
  }

  lemma EncodeLast(s: Text, encodeSlash: bool, rest: Text)
    requires s != []
    ensures Encode(s, encodeSlash) + rest
            == Encode(s[..|s| - 1], encodeSlash) + (EncodeByte(s[|s| - 1], encodeSlash) + rest)
  {}

  lemma {:induction false} DecodeEncode(s: Text, encodeSlash: bool, rest: Text)
    ensures Decode(Encode(s, encodeSlash) + rest) == s + Decode(rest)
    decreases |s|
  {
    if s == [] {
      assert Encode(s, encodeSlash) + rest == rest;
    } else {
      var init, b := s[..|s| - 1], s[|s| - 1];
      EncodeLast(s, encodeSlash, rest);
      DecodeEncode(init, encodeSlash, EncodeByte(b, encodeSlash) + rest);
      DecodeByte(b, encodeSlash, rest);
      assert s + Decode(rest) == init + ([b] + Decode(rest));
    }
  }

  /** Decoding undoes encoding, with or without slashes encoded. */
  lemma EncodingRoundTrips(s: Text, encodeSlash: bool)
    ensures Decode(Encode(s, encodeSlash)) == s
  {
    DecodeEncode(s, encodeSlash, []);
    assert Encode(s, encodeSlash) + [] == Encode(s, encodeSlash);
  }

  lemma {:induction false} EncodingIsClean(s: Text)
    ensures EQUALS !in Encode(s, true) && AMPERSAND !in Encode(s, true) && SLASH !in Encode(s, true)
  {
    if s != [] {
      EncodingIsClean(s[..|s| - 1]);
    }
  }

  // ---------------------------------------------------------------------------
  // The order the pairs are sorted in
  // ---------------------------------------------------------------------------

  datatype Param = Param(key: Text, value: Text)

  /** Byte-wise lexicographic order. */
  predicate TextLeq(a: Text, b: Text) {
    a == [] || (b != [] && (a[0] < b[0] || (a[0] == b[0] && TextLeq(a[1..], b[1..]))))
  }

  predicate Leq(x: Param, y: Param) {
    if x.key == y.key then TextLeq(x.value, y.value) else TextLeq(x.key, y.key)
  }

  lemma {:induction false} TextTotal(a: Text, b: Text)
    ensures TextLeq(a, b) || TextLeq(b, a)
    ensures TextLeq(a, b) && TextLeq(b, a) ==> a == b
  {
    if a != [] && b != [] {
      TextTotal(a[1..], b[1..]);
      assert a == [a[0]] + a[1..] && b == [b[0]] + b[1..];
    }
  }

  lemma {:induction false} TextTransitive(a: Text, b: Text, c: Text)
    requires TextLeq(a, b) && TextLeq(b, c)
    ensures TextLeq(a, c)
  {
    if a != [] && a[0] == b[0] == c[0] {
      TextTransitive(a[1..], b[1..], c[1..]);
    }
  }

  lemma Total(x: Param, y: Param)
    ensures Leq(x, y) || Leq(y, x)
    ensures Leq(x, y) && Leq(y, x) ==> x == y
  {
    TextTotal(x.key, y.key);
    TextTotal(x.value, y.value);
  }

  lemma Transitive(x: Param, y: Param, z: Param)
    requires Leq(x, y) && Leq(y, z)
    ensures Leq(x, z)
  {
    TextTotal(x.key, y.key);
    if x.key == y.key == z.key {
      TextTransitive(x.value, y.value, z.value);
    } else if x.key != y.key && y.key != z.key {
      TextTransitive(x.key, y.key, z.key);
    }
  }

  predicate Sorted(ps: seq<Param>) {
    forall i, j | 0 <= i < j < |ps| :: Leq(ps[i], ps[j])
  }

  function Insert(p: Param, ps: seq<Param>): (r: seq<Param>)
    ensures multiset(r) == multiset(ps) + multiset{p}
  {
    if ps == [] || Leq(p, ps[0]) then [p] + ps
    else
      assert ps == [ps[0]] + ps[1..];
      [ps[0]] + Insert(p, ps[1..])
  }

  /** `sort`: the same pairs in order. */
  function Sort(ps: seq<Param>): (r: seq<Param>)
    ensures multiset(r) == multiset(ps)
  {
    if ps == [] then []
    else
      assert ps == [ps[0]] + ps[1..];
      Insert(ps[0], Sort(ps[1..]))
  }

  lemma {:induction false} InsertKeepsSorted(p: Param, ps: seq<Param>)
    requires Sorted(ps)
    ensures Sorted(Insert(p, ps))
  {
    if ps != [] {
      var tail := ps[1..];
      if Leq(p, ps[0]) {
        forall j | 0 < j < |ps|
          ensures Leq(p, ps[j])
        {
          Transitive(p, ps[0], ps[j]);
        }
      } else {
        Total(p, ps[0]);
        InsertKeepsSorted(p, tail);
        var r := Insert(p, tail);
        forall j | 0 <= j < |r|
          ensures Leq(ps[0], r[j])
        {
          assert r[j] in multiset(r);
          assert r[j] in multiset(tail) || r[j] == p;
          if r[j] in tail {
            var i :| 0 <= i < |tail| && tail[i] == r[j];
            assert ps[i + 1] == r[j];
          }
        }
      }
    }
  }

  lemma {:induction false} SortSorts(ps: seq<Param>)
    ensures Sorted(Sort(ps))
  {
    if ps != [] {
      SortSorts(ps[1..]);
      InsertKeepsSorted(ps[0], Sort(ps[1..]));
    }
  }

  /** A multiset has one sorted listing. */
  lemma {:induction false} SortedIsUnique(xs: seq<Param>, ys: seq<Param>)
    requires Sorted(xs) && Sorted(ys) && multiset(xs) == multiset(ys)
    ensures xs == ys
    decreases |xs|
  {
    assert |xs| == |multiset(xs)| == |multiset(ys)| == |ys|;
    if xs != [] {
      assert ys[0] in multiset(xs) && xs[0] in multiset(ys);
      HeadIsLeast(xs, ys[0]);
      HeadIsLeast(ys, xs[0]);
      Total(xs[0], ys[0]);
      RemoveHead(xs);
      RemoveHead(ys);
      SortedIsUnique(xs[1..], ys[1..]);
      assert xs == [xs[0]] + xs[1..] && ys == [ys[0]] + ys[1..];
    }
  }

  lemma HeadIsLeast(xs: seq<Param>, p: Param)
    requires Sorted(xs) && p in xs
    ensures Leq(xs[0], p)
  {
    Total(p, p);
  }

  lemma RemoveHead(xs: seq<Param>)
    requires xs != []
    ensures multiset(xs[1..]) == multiset(xs) - multiset{xs[0]}
  {
    assert xs == [xs[0]] + xs[1..];
  }

  // ---------------------------------------------------------------------------
  // The canonical query
  // ---------------------------------------------------------------------------

  function EncodeParam(p: Param): Param {
    Param(Encode(p.key, true), Encode(p.value, true))
  }

  function DecodeParam(p: Param): Param {
    Param(Decode(p.key), Decode(p.value))
  }

  function Each(f: Param -> Param, ps: seq<Param>): seq<Param> {
    seq(|ps|, i requires 0 <= i < |ps| => f(ps[i]))
  }

  function Join(ps: seq<Param>): Text {
    if ps == [] then []
    else ps[0].key + [EQUALS] + ps[0].value + (if |ps| == 1 then [] else [AMPERSAND] + Join(ps[1..]))
  }

  function CanonicalQuery(query: seq<Param>): Text {
    Join(Sort(Each(EncodeParam, query)))
  }

  /** `canonical_query`: encode every pair, sort, join. */
  method BuildCanonicalQuery(query: seq<Param>) returns (out: Text)
    ensures out == CanonicalQuery(query)
  {
    var pairs: seq<Param> := [];
    for i := 0 to |query|
      invariant pairs == Each(EncodeParam, query[..i])
    {
      var key := UriEncode(query[i].key, true);
      var value := UriEncode(query[i].value, true);
      assert Each(EncodeParam, query[..i + 1]) == Each(EncodeParam, query[..i]) + [EncodeParam(query[i])];
      pairs := pairs + [Param(key, value)];
    }
    assert query[..|query|] == query;
    pairs := Sort(pairs);
    out := [];
    var i := |pairs|;
    while i > 0
      invariant 0 <= i <= |pairs| && out == Join(pairs[i..])
    {
      i := i - 1;
      assert pairs[i..][1..] == pairs[i + 1..];
      out := pairs[i].key + [EQUALS] + pairs[i].value + (if i + 1 == |pairs| then [] else [AMPERSAND] + out);
    }
  }

  /** Where c first occurs, or the length. */
  ghost function FirstAt(s: Text, c: Byte): nat {
    if s == [] || s[0] == c then 0 else 1 + FirstAt(s[1..], c)
  }

  lemma {:induction false} FirstAfter(a: Text, c: Byte, x: Text)
    requires c !in a && (x == [] || x[0] == c)
    ensures FirstAt(a + x, c) == |a|
  {
    if a == [] {
      assert a + x == x;
    } else {
      FirstAfter(a[1..], c, x);
      assert (a + x)[1..] == a[1..] + x;
    }
  }

  /** Splitting at the first separator or the end is unambiguous. */
  lemma SplitAtFirst(a: Text, b: Text, c: Byte, x: Text, y: Text)
    requires c !in a && c !in b && a + x == b + y
    requires (x == [] || x[0] == c) && (y == [] || y[0] == c)
    ensures a == b && x == y
  {
    FirstAfter(a, c, x);
    FirstAfter(b, c, y);
    var s := a + x;
    assert a == s[..|a|] == b;
    assert x == s[|a|..] == y;
  }

  ghost predicate Clean(ps: seq<Param>) {
    forall p | p in ps :: EQUALS !in p.key && AMPERSAND !in p.value && EQUALS !in p.value && AMPERSAND !in p.key
  }

  /** What follows the first pair. */
  ghost function After(ps: seq<Param>): Text
    requires ps != []
  {
    if |ps| == 1 then [] else [AMPERSAND] + Join(ps[1..])
  }

  /** A key, a value and what follows can be told apart. */
  lemma PairSplits(k: Text, v: Text, x: Text, k': Text, v': Text, x': Text)
    requires EQUALS !in k && EQUALS !in k' && AMPERSAND !in v && AMPERSAND !in v'
    requires (x == [] || x[0] == AMPERSAND) && (x' == [] || x'[0] == AMPERSAND)
    requires k + ([EQUALS] + (v + x)) == k' + ([EQUALS] + (v' + x'))
    ensures k == k' && v == v' && x == x'
  {
    SplitAtFirst(k, k', EQUALS, [EQUALS] + (v + x), [EQUALS] + (v' + x'));
    assert v + x == ([EQUALS] + (v + x))[1..] == ([EQUALS] + (v' + x'))[1..] == v' + x';
    SplitAtFirst(v, v', AMPERSAND, x, x');
  }

  lemma JoinSplits(ps: seq<Param>)
    requires ps != []
    ensures Join(ps) == ps[0].key + ([EQUALS] + (ps[0].value + After(ps)))
  {}

  lemma HeadsAgree(ps: seq<Param>, qs: seq<Param>)
    requires Clean(ps) && Clean(qs) && ps != [] && qs != [] && Join(ps) == Join(qs)
    ensures ps[0] == qs[0] && After(ps) == After(qs)
  {
    JoinSplits(ps);
    JoinSplits(qs);
    assert ps[0] in ps && qs[0] in qs;
    PairSplits(ps[0].key, ps[0].value, After(ps), qs[0].key, qs[0].value, After(qs));
  }

  lemma {:induction false} JoinIsInjective(ps: seq<Param>, qs: seq<Param>)
    requires Clean(ps) && Clean(qs) && Join(ps) == Join(qs)
    ensures ps == qs
    decreases |ps|
  {
    JoinIsNonempty(ps);
    JoinIsNonempty(qs);
    if ps != [] && qs != [] {
      HeadsAgree(ps, qs);
      if |ps| > 1 {
        assert Join(ps[1..]) == After(ps)[1..] && Join(qs[1..]) == After(qs)[1..];
        JoinIsInjective(ps[1..], qs[1..]);
      }
      assert ps == [ps[0]] + ps[1..] && qs == [qs[0]] + qs[1..];
    }
  }

  lemma JoinIsNonempty(ps: seq<Param>)
    ensures Join(ps) == [] <==> ps == []
  {
    if ps != [] {
      assert |Join(ps)| >= |ps[0].key + [EQUALS]|;
    }
  }

  lemma RemoveAt(xs: seq<Param>, i: nat)
    requires i < |xs|
    ensures multiset(xs) == multiset(xs[..i] + xs[i + 1..]) + multiset{xs[i]}
  {
    assert xs == xs[..i] + [xs[i]] + xs[i + 1..];
  }

  lemma EachRemoveAt(f: Param -> Param, xs: seq<Param>, i: nat)
    requires i < |xs|
    ensures multiset(Each(f, xs)) == multiset(Each(f, xs[..i] + xs[i + 1..])) + multiset{f(xs[i])}
  {
    var fx := Each(f, xs);
    RemoveAt(fx, i);
    assert fx[..i] + fx[i + 1..] == Each(f, xs[..i] + xs[i + 1..]);
  }

  /** Taking the first element out of one listing and an equal one out of the other leaves equal multisets. */
  lemma TakeOut(xs: seq<Param>, ys: seq<Param>) returns (i: nat)
    requires xs != [] && multiset(xs) == multiset(ys)
    ensures i < |ys| && ys[i] == xs[0] && multiset(xs[1..]) == multiset(ys[..i] + ys[i + 1..])
  {
    assert xs[0] in multiset(ys);
    i :| 0 <= i < |ys| && ys[i] == xs[0];
    RemoveHead(xs);
    RemoveAt(ys, i);
    assert multiset(ys[..i] + ys[i + 1..]) == multiset(ys) - multiset{ys[i]};
  }

  lemma EachHead(f: Param -> Param, xs: seq<Param>)
    requires xs != []
    ensures multiset(Each(f, xs)) == multiset(Each(f, xs[1..])) + multiset{f(xs[0])}
  {
    EachRemoveAt(f, xs, 0);
    assert xs[..0] + xs[1..] == xs[1..];
  }

  /** Mapping keeps permutations permutations. */
  lemma {:induction false} EachPermutes(f: Param -> Param, xs: seq<Param>, ys: seq<Param>)
    requires multiset(xs) == multiset(ys)
    ensures multiset(Each(f, xs)) == multiset(Each(f, ys))
    decreases |xs|
  {
    if xs == [] {
      assert |multiset(ys)| == 0;
    } else {
      var i := TakeOut(xs, ys);
      EachPermutes(f, xs[1..], ys[..i] + ys[i + 1..]);
      EachHead(f, xs);
      EachRemoveAt(f, ys, i);
    }
  }

  lemma EncodedIsClean(query: seq<Param>)
    ensures Clean(Sort(Each(EncodeParam, query)))
  {
    var es := Each(EncodeParam, query);
    forall p | p in Sort(es)
      ensures EQUALS !in p.key && AMPERSAND !in p.value && EQUALS !in p.value && AMPERSAND !in p.key
    {
      assert p in multiset(Sort(es));
      assert p in es;
      var i :| 0 <= i < |es| && es[i] == p;
      ParamIsClean(query[i]);
    }
  }

  lemma ParamIsClean(q: Param)
    ensures var p := EncodeParam(q);
            EQUALS !in p.key && AMPERSAND !in p.value && EQUALS !in p.value && AMPERSAND !in p.key
  {
    EncodingIsClean(q.key);
    EncodingIsClean(q.value);
  }

  lemma DecodingRecovers(query: seq<Param>)
    ensures Each(DecodeParam, Each(EncodeParam, query)) == query
  {
    forall i | 0 <= i < |query|
      ensures DecodeParam(EncodeParam(query[i])) == query[i]
    {
      EncodingRoundTrips(query[i].key, true);
      EncodingRoundTrips(query[i].value, true);
    }
  }

  /**
   The canonical query is a function of the multiset of parameters and injective on it: two queries
   have the same canonical string exactly when one is a permutation of the other.
   */
  lemma CanonicalExactlyOnPermutations(a: seq<Param>, b: seq<Param>)
    ensures CanonicalQuery(a) == CanonicalQuery(b) <==> multiset(a) == multiset(b)
  {
    var ea, eb := Each(EncodeParam, a), Each(EncodeParam, b);
    if CanonicalQuery(a) == CanonicalQuery(b) {
      EncodedIsClean(a);
      EncodedIsClean(b);
      JoinIsInjective(Sort(ea), Sort(eb));
      assert multiset(ea) == multiset(eb);
      EachPermutes(DecodeParam, ea, eb);
      DecodingRecovers(a);
      DecodingRecovers(b);
    }
    if multiset(a) == multiset(b) {
      EachPermutes(EncodeParam, a, b);
      SortSorts(ea);
      SortSorts(eb);
      SortedIsUnique(Sort(ea), Sort(eb));
    }
  }

  // ---------------------------------------------------------------------------
  // The very string
  // ---------------------------------------------------------------------------

  const HEX_DIGITS := "0123456789ABCDEF"

  /** The characters section 2.3 of RFC 3986 leaves alone. */
  ghost predicate LeftAlone(c: char) {
    'A' <= c <= 'Z' || 'a' <= c <= 'z' || '0' <= c <= '9' || c == '-' || c == '.' || c == '_' || c == '~'
  }

  /**
   What a byte becomes: itself when it is left alone, and a slash too when slashes are not encoded;
   otherwise a percent sign and two upper-case hexadecimal digits.
   */
  lemma ByteBecomes(b: Byte, encodeSlash: bool)
    ensures var c, e := b as char, Encode([b], encodeSlash);
            if LeftAlone(c) || (c == '/' && !encodeSlash) then e == [b]
            else
              && |e| == 3 && e[0] as char == '%'
              && e[1] as char == HEX_DIGITS[b / 16] && e[2] as char == HEX_DIGITS[b % 16]
  {
    assert [b][..0] == [] && Encode([], encodeSlash) == [];
    HexIs(b / 16);
    HexIs(b % 16);
  }

  lemma HexIs(d: nat)
    requires d < 16
    ensures Hex(d) as char == HEX_DIGITS[d]
  {}

  /** Encoding goes byte by byte. */
  lemma EncodeSnoc(s: Text, b: Byte, encodeSlash: bool)
    ensures Encode(s + [b], encodeSlash) == Encode(s, encodeSlash) + EncodeByte(b, encodeSlash)
  {
    assert (s + [b])[..|s|] == s;
  }

  lemma {:induction false} EncodeConcat(s: Text, t: Text, encodeSlash: bool)
    ensures Encode(s + t, encodeSlash) == Encode(s, encodeSlash) + Encode(t, encodeSlash)
  {
    if t == [] {
      assert s + t == s;
    } else {
      var init, b := t[..|t| - 1], t[|t| - 1];
      EncodeConcat(s, init, encodeSlash);
      EncodeSnoc(s + init, b, encodeSlash);
      EncodeSnoc(init, b, encodeSlash);
      Associates(Encode(s, encodeSlash), Encode(init, encodeSlash), EncodeByte(b, encodeSlash));
      Associates(s, init, [b]);
      assert t == init + [b];
    }
  }

  lemma Associates(a: Text, b: Text, c: Text)
    ensures (a + b) + c == a + (b + c)
  {}

  /** Byte order: a prefix comes first, otherwise the first difference decides. */
  ghost predicate AtOrBefore(a: Text, b: Text) {
    a <= b || exists k :: 0 <= k < |a| && k < |b| && a[..k] == b[..k] && a[k] < b[k]
  }

  lemma {:induction false} TextLeqMeans(a: Text, b: Text)
    ensures TextLeq(a, b) <==> AtOrBefore(a, b)
  {
    if a != [] && b != [] && a[0] == b[0] {
      TextLeqMeans(a[1..], b[1..]);
      assert a == [a[0]] + a[1..] && b == [b[0]] + b[1..];
      if k :| 0 <= k < |a| && k < |b| && a[..k] == b[..k] && a[k] < b[k] {
        assert k > 0 && a[1..][..k - 1] == a[..k][1..] && b[1..][..k - 1] == b[..k][1..];
        assert a[1..][k - 1] < b[1..][k - 1];
      }
      if k :| 0 <= k < |a[1..]| && k < |b[1..]| && a[1..][..k] == b[1..][..k] && a[1..][k] < b[1..][k] {
        assert a[..k + 1] == [a[0]] + a[1..][..k] && b[..k + 1] == [b[0]] + b[1..][..k];
        assert a[k + 1] < b[k + 1];
      }
    } else if a != [] && b != [] && a[0] < b[0] {
      assert a[..0] == b[..0];
    }
  }

  /** In ascending byte order of the keys, and of the values under one key. */
  ghost predicate InByteOrder(ps: seq<Param>) {
    forall i, j | 0 <= i < j < |ps| ::
      if ps[i].key == ps[j].key then AtOrBefore(ps[i].value, ps[j].value) else AtOrBefore(ps[i].key, ps[j].key)
  }

  ghost function Code(c: char): Byte
    requires c as int < 256
  {
    c as int
  }

  /** key=value pairs with ampersands between. */
  ghost function Written(ps: seq<Param>): Text {
    if ps == [] then []
    else if |ps| == 1 then ps[0].key + [Code('=')] + ps[0].value
    else Written(ps[..1]) + [Code('&')] + Written(ps[1..])
  }

  lemma {:induction false} JoinIsWritten(ps: seq<Param>)
    ensures Join(ps) == Written(ps)
    decreases |ps|
  {
    if |ps| > 1 {
      JoinIsWritten(ps[1..]);
      assert ps[..1] == [ps[0]];
    }
  }

  /**
   The canonical query is the encoded pairs, in ascending byte order of key and then value, each written
   key=value, with ampersands between.
   */
  lemma CanonicalIsWritten(query: seq<Param>) returns (ps: seq<Param>)
    ensures CanonicalQuery(query) == Written(ps) && InByteOrder(ps)
    ensures multiset(ps) == multiset(seq(|query|, i requires 0 <= i < |query| =>
                                       Param(Encode(query[i].key, true), Encode(query[i].value, true))))
  {
    var encoded := Each(EncodeParam, query);
    assert encoded == seq(|query|, i requires 0 <= i < |query| =>
                            Param(Encode(query[i].key, true), Encode(query[i].value, true)));
    ps := Sort(encoded);
    SortSorts(encoded);
    JoinIsWritten(ps);
    forall i, j | 0 <= i < j < |ps|
      ensures if ps[i].key == ps[j].key then AtOrBefore(ps[i].value, ps[j].value) else AtOrBefore(ps[i].key, ps[j].key)
    {
      TextLeqMeans(ps[i].value, ps[j].value);
      TextLeqMeans(ps[i].key, ps[j].key);
    }
  }
}
