/**
 The L2 level engine of aetelier-types/src/orderbooks/delta.rs, and the venue it mirrors.

 A book maps a level (side and price) to the size resting there. The two ordered maps of the
 source, bids and asks, are one map here, keyed by side and price. Prices and sizes are exact reals.
 */
module Levels {
  import opened Wrappers

  datatype Key = Key(isAsk: bool, price: real)

  type Book = map<Key, real>

  datatype Write = Write(key: Key, size: real)

  /** One level of a frame: a pair of decimal strings that parses or does not. */
  datatype Text = Parsed(write: Write) | Malformed

  predicate WellFormed(texts: seq<Text>) {
    forall t | t in texts :: t.Parsed?
  }

  /** The levels read before the first one that does not parse. */
  function ReadPrefix(texts: seq<Text>): (ws: seq<Write>)
    ensures |ws| <= |texts|
    ensures forall i | 0 <= i < |ws| :: texts[i] == Parsed(ws[i])
    ensures |ws| < |texts| ==> texts[|ws|] == Malformed
    ensures |ws| == |texts| <==> WellFormed(texts)
  {
    if texts == [] then []
    else if texts[0].Malformed? then assert texts[0] in texts; []
    else
      assert texts == [texts[0]] + texts[1..];
      [texts[0].write] + ReadPrefix(texts[1..])
  }

  /** A delta level: zero deletes, anything else upserts. */
  function WriteLevel(b: Book, w: Write): Book {
    if w.size == 0.0 then b - {w.key} else b[w.key := w.size]
  }

  function Overlay(b: Book, ws: seq<Write>): Book {
    if ws == [] then b else WriteLevel(Overlay(b, ws[..|ws| - 1]), ws[|ws| - 1])
  }

  /** A snapshot level: only positive sizes rest. */
  function LoadLevel(b: Book, w: Write): Book {
    if w.size > 0.0 then b[w.key := w.size] else b
  }

  function Load(ws: seq<Write>): Book {
    if ws == [] then map[] else LoadLevel(Load(ws[..|ws| - 1]), ws[|ws| - 1])
  }

  /** Some bid at or above some ask. */
  predicate Crossed(b: Book) {
    exists x, y | x in b && y in b :: !x.isAsk && y.isAsk && x.price >= y.price
  }

  /** The L2 engine: levels plus whether a snapshot was ever taken. */
  class OrderbookDelta {
    var levels: Book
    var initialized: bool

    constructor ()
      ensures levels == map[] && !initialized
    {
      levels, initialized := map[], false;
    }

    /** `process`: a parse failure stops half way and leaves what was already written. */
    method Process(texts: seq<Text>, isSnapshot: bool) returns (ok: bool)
      modifies this
      ensures ok == (WellFormed(texts) && (isSnapshot || old(initialized)))
      ensures initialized == (old(initialized) || (isSnapshot && ok))
      ensures isSnapshot ==> levels == Load(ReadPrefix(texts))
      ensures !isSnapshot && old(initialized) ==> levels == Overlay(old(levels), ReadPrefix(texts))
      ensures !isSnapshot && !old(initialized) ==> levels == old(levels)
    {
      if isSnapshot {
        ok := Reset(texts);
      } else if initialized {
        ok := Update(texts);
      } else {
        ok := false;
      }
    }

    method Reset(texts: seq<Text>) returns (ok: bool)
      modifies this
      ensures ok == WellFormed(texts)
      ensures levels == Load(ReadPrefix(texts))
      ensures initialized == (old(initialized) || ok)
    {
      ghost var ws := ReadPrefix(texts);
      levels := map[];
      var i := 0;
      while i < |texts|
        invariant 0 <= i <= |ws|
        invariant levels == Load(ws[..i])
        invariant initialized == old(initialized)
      {
        if texts[i].Malformed? {
          assert ws[..i] == ws;
          return false;
        }
        assert ws[..i + 1][..i] == ws[..i];
        levels := LoadLevel(levels, texts[i].write);
        i := i + 1;
      }
      assert ws[..i] == ws;
      initialized := true;
      ok := true;
    }

    method Update(texts: seq<Text>) returns (ok: bool)
      modifies this`levels
      ensures ok == WellFormed(texts)
      ensures levels == Overlay(old(levels), ReadPrefix(texts))
    {
      ghost var ws := ReadPrefix(texts);
      var i := 0;
      while i < |texts|
        invariant 0 <= i <= |ws|
        invariant levels == Overlay(old(levels), ws[..i])
      {
        if texts[i].Malformed? {
          assert ws[..i] == ws;
          return false;
        }
        assert ws[..i + 1][..i] == ws[..i];
        levels := WriteLevel(levels, texts[i].write);
        i := i + 1;
      }
      assert ws[..i] == ws;
      ok := true;
    }

    /** `best_bid` / `best_ask`: the highest bid price, or the lowest ask price. */
    method Best(isAsk: bool) returns (best: Option<real>)
      ensures best.None? <==> forall k | k in levels :: k.isAsk != isAsk
      ensures best.Some? ==> Key(isAsk, best.value) in levels
      ensures best.Some? ==> forall k | k in levels && k.isAsk == isAsk ::
                if isAsk then best.value <= k.price else k.price <= best.value
    {
      best := None;
      var rest := levels.Keys;
      while rest != {}
        invariant rest <= levels.Keys
        invariant best.None? <==> forall k | k in levels && k !in rest :: k.isAsk != isAsk
        invariant best.Some? ==> Key(isAsk, best.value) in levels
        invariant best.Some? ==> forall k | k in levels && k !in rest && k.isAsk == isAsk ::
                    if isAsk then best.value <= k.price else k.price <= best.value
        decreases rest
      {
        var k: Key :| k in rest;
        rest := rest - {k};
        if k.isAsk == isAsk && (best.None? || (if isAsk then k.price < best.value else best.value < k.price)) {
          assert k == Key(isAsk, k.price);
          best := Some(k.price);
        }
      }
    }

    /** The crossing test made after every accepted frame. */
    method IsCrossed() returns (crossed: bool)
      ensures crossed == Crossed(levels)
    {
      var bid := Best(false);
      var ask := Best(true);
      crossed := bid.Some? && ask.Some? && bid.value >= ask.value;
    }
  }

  // ---------------------------------------------------------------------------
  // The venue: an unbounded history of absolute level writes, one batch per update id.
  // ---------------------------------------------------------------------------

  type History = nat -> seq<Write>

  /** The venue's book after updates 0..n. */
  ghost function TrueBook(h: History, n: nat): Book {
    if n == 0 then Overlay(map[], h(0)) else Overlay(TrueBook(h, n - 1), h(n))
  }

  /** All writes of updates a..b, in order; empty when b < a. */
  ghost function Updates(h: History, a: nat, b: nat): seq<Write>
    decreases b
  {
    if b < a then [] else if b == 0 then h(0) else Updates(h, a, b - 1) + h(b)
  }

  /** The last size written to each level. */
  ghost function Net(ws: seq<Write>): map<Key, real> {
    if ws == [] then map[] else Net(ws[..|ws| - 1])[ws[|ws| - 1].key := ws[|ws| - 1].size]
  }

  /** A book with a net effect laid over it. */
  ghost function Patch(b: Book, net: map<Key, real>): Book {
    map k | k in b.Keys + net.Keys && (k in net ==> net[k] != 0.0) :: if k in net then net[k] else b[k]
  }

  lemma {:induction false} OverlayIsPatch(b: Book, ws: seq<Write>)
    ensures Overlay(b, ws) == Patch(b, Net(ws))
  {
    if ws != [] {
      OverlayIsPatch(b, ws[..|ws| - 1]);
    }
  }

  lemma {:induction false} NetConcat(xs: seq<Write>, ys: seq<Write>)
    ensures Net(xs + ys) == Net(xs) + Net(ys)
  {
    if ys == [] {
      assert xs + ys == xs;
    } else {
      NetConcat(xs, ys[..|ys| - 1]);
      assert (xs + ys)[..|xs + ys| - 1] == xs + ys[..|ys| - 1];
    }
  }

  lemma {:induction false} TrueBookIsPatch(h: History, n: nat)
    ensures TrueBook(h, n) == Patch(map[], Net(Updates(h, 0, n)))
  {
    if n == 0 {
      OverlayIsPatch(map[], h(0));
    } else {
      TrueBookIsPatch(h, n - 1);
      OverlayIsPatch(TrueBook(h, n - 1), h(n));
      NetConcat(Updates(h, 0, n - 1), h(n));
    }
  }

  lemma {:induction false} UpdatesSplit(h: History, a: nat, m: nat, b: nat)
    requires a <= m + 1 && m <= b
    ensures Updates(h, a, b) == Updates(h, a, m) + Updates(h, m + 1, b)
    decreases b
  {
    if m < b {
      UpdatesSplit(h, a, m, b - 1);
      assert Updates(h, m + 1, b) == Updates(h, m + 1, b - 1) + h(b);
    }
  }

  lemma NetSplit(h: History, a: nat, m: nat, b: nat)
    requires a <= m + 1 && m <= b
    ensures Net(Updates(h, a, b)) == Net(Updates(h, a, m)) + Net(Updates(h, m + 1, b))
  {
    UpdatesSplit(h, a, m, b);
    NetConcat(Updates(h, a, m), Updates(h, m + 1, b));
  }

  /** Laying q + r over a book that already holds p + q is laying r over it. */
  lemma RepatchIsHarmless(p: map<Key, real>, q: map<Key, real>, r: map<Key, real>)
    ensures Patch(Patch(map[], p + q), q + r) == Patch(map[], (p + q) + r)
  {}

  /**
   An honest range a..b laid over the true book of any m it touches or overlaps gives the true book
   of b: re-applying updates the book already holds is harmless because they are absolute.
   */
  lemma Bridge(h: History, a: nat, m: nat, b: nat)
    requires a <= m + 1 && m <= b
    ensures Patch(TrueBook(h, m), Net(Updates(h, a, b))) == TrueBook(h, b)
  {
    var q, r := Net(Updates(h, a, m)), Net(Updates(h, m + 1, b));
    var p := if a == 0 then map[] else Net(Updates(h, 0, a - 1));
    assert Net(Updates(h, 0, m)) == p + q by {
      if a == 0 {
        assert p + q == q;
      } else {
        NetSplit(h, 0, a - 1, m);
      }
    }
    assert Net(Updates(h, a, b)) == q + r by { NetSplit(h, a, m, b); }
    assert TrueBook(h, m) == Patch(map[], p + q) by { TrueBookIsPatch(h, m); }
    assert TrueBook(h, b) == Patch(map[], (p + q) + r) by {
      NetSplit(h, 0, m, b);
      TrueBookIsPatch(h, b);
    }
    assert Patch(TrueBook(h, m), Net(Updates(h, a, b))) == Patch(Patch(map[], p + q), q + r);
    RepatchIsHarmless(p, q, r);
  }
}
