/**
 The keys an archive window asks for, in the order it asks for them (`planned_keys` in
 aetelier-connect/src/framework/entrepot.rs). Days are numbered; their eight-character texts are a
 parameter.
 */
module ArchivePlan {
  import opened Naming

  type Key = string

  ghost predicate Distinct(s: seq<string>) {
    forall i, j | 0 <= i < j < |s| :: s[i] != s[j]
  }

  ghost predicate Disjoint(a: seq<string>, b: seq<string>) {
    forall x | x in a :: x !in b
  }

  function ContextKey(day: string): Key {
    "asset_ctxs/" + day + ".csv.lz4"
  }

  function BookKey(day: string, hour: nat, coin: string): Key {
    "market_data/" + day + "/" + Decimal(hour) + "/l2Book/" + coin + ".lz4"
  }

  function HourKeys(day: string, hour: nat, coins: seq<string>): seq<Key> {
    seq(|coins|, i requires 0 <= i < |coins| => BookKey(day, hour, coins[i]))
  }

  /** The book keys of the first `hours` hours. */
  function BookKeys(day: string, hours: nat, coins: seq<string>): seq<Key> {
    if hours == 0 then [] else BookKeys(day, hours - 1, coins) + HourKeys(day, hours - 1, coins)
  }

  function DayKeys(day: string, contexts: bool, coins: seq<string>): seq<Key> {
    (if contexts then [ContextKey(day)] else []) + BookKeys(day, 24, coins)
  }

  /** The keys of `days` days from `start`. */
  function Planned(text: int -> string, start: int, days: nat, contexts: bool, coins: seq<string>): seq<Key> {
    if days == 0 then [] else
      Planned(text, start, days - 1, contexts, coins) + DayKeys(text(start + days - 1), contexts, coins)
  }

  method PlannedKeys(text: int -> string, start: int, end: int, contexts: bool, coins: seq<string>)
    returns (keys: seq<Key>)
    ensures keys == Planned(text, start, if start <= end then end - start + 1 else 0, contexts, coins)
  {
    keys := [];
    var date := start;
    while date <= end
      invariant start <= date && (date <= end + 1 || date == start)
      invariant keys == Planned(text, start, date - start, contexts, coins)
      decreases end + 1 - date
    {
      keys := PushDay(keys, text(date), contexts, coins);
      date := date + 1;
    }
  }

  method PushDay(keys: seq<Key>, day: string, contexts: bool, coins: seq<string>) returns (r: seq<Key>)
    ensures r == keys + DayKeys(day, contexts, coins)
  {
    r := keys;
    if contexts {
      r := r + [ContextKey(day)];
    }
    ghost var head := r;
    for hour := 0 to 24
      invariant r == head + BookKeys(day, hour, coins)
    {
      r := PushHour(r, day, hour, coins);
    }
  }

  method PushHour(keys: seq<Key>, day: string, hour: nat, coins: seq<string>) returns (r: seq<Key>)
    ensures r == keys + HourKeys(day, hour, coins)
  {
    r := keys;
    for i := 0 to |coins|
      invariant r == keys + HourKeys(day, hour, coins)[..i]
    {
      r := r + [BookKey(day, hour, coins[i])];
    }
  }

  // ---------------------------------------------------------------------------
  // No key is asked for twice, exactly when no coin is named twice
  // ---------------------------------------------------------------------------

  /** `%Y%m%d` of the years 0 to 9999. */
  ghost predicate DayTexts(text: int -> string, start: int, days: nat) {
    && (forall d | start <= d < start + days :: |text(d)| == 8)
    && (forall d, e | start <= d < e < start + days :: text(d) != text(e))
  }

  lemma DistinctConcat(a: seq<string>, b: seq<string>)
    ensures Distinct(a + b) <==> Distinct(a) && Distinct(b) && Disjoint(a, b)
  {
    var s := a + b;
    assert forall i | 0 <= i < |a| :: s[i] == a[i];
    assert forall j | |a| <= j < |s| :: s[j] == b[j - |a|];
    if Distinct(s) {
      forall i, j | 0 <= i < j < |b|
        ensures b[i] != b[j]
      {
        assert s[|a| + i] != s[|a| + j];
      }
      forall x | x in a
        ensures x !in b
      {
        var i :| 0 <= i < |a| && a[i] == x;
        forall j | 0 <= j < |b|
          ensures b[j] != x
        {
          assert s[i] != s[|a| + j];
        }
      }
    } else if Distinct(a) && Distinct(b) {
      var i, j :| 0 <= i < j < |s| && s[i] == s[j];
      assert s[i] in a && s[i] in b;
    }
  }

  lemma HourText(hour: nat)
    requires hour < 24
    ensures |Decimal(hour)| == if hour < 10 then 1 else 2
    ensures hour >= 10 ==> Decimal(hour)[1] != '/'
  {}

  lemma BookKeyIsInjective(d: string, h: nat, c: string, d': string, h': nat, c': string)
    requires |d| == |d'| == 8 && h < 24 && h' < 24
    requires BookKey(d, h, c) == BookKey(d', h', c')
    ensures d == d' && h == h' && c == c'
  {
    BookKeyParts(d, h, c);
    BookKeyParts(d', h', c');
    DecimalValue(h);
    DecimalValue(h');
  }

  /** Where the parts of a key are: one digit is followed by a slash, two are not. */
  lemma BookKeyParts(d: string, h: nat, c: string)
    requires |d| == 8 && h < 24
    ensures var k, n := BookKey(d, h, c), if h < 10 then 1 else 2;
            && |k| == 33 + n + |c| && k[12..20] == d && k[21..21 + n] == Decimal(h)
            && (k[22] == '/' <==> n == 1) && k[29 + n..|k| - 4] == c
  {
    HourText(h);
    var k, n := BookKey(d, h, c), |Decimal(h)|;
    assert k[12..20] == d;
    assert k[21..21 + n] == Decimal(h);
    assert n == 2 ==> k[22] == Decimal(h)[1];
    assert k[29 + n..|k| - 4] == c;
  }

  lemma InBookKeys(day: string, hours: nat, coins: seq<string>, k: Key) returns (h: nat, i: nat)
    requires k in BookKeys(day, hours, coins)
    ensures h < hours && i < |coins| && k == BookKey(day, h, coins[i])
  {
    if k in HourKeys(day, hours - 1, coins) {
      h := hours - 1;
      i :| 0 <= i < |coins| && HourKeys(day, h, coins)[i] == k;
    } else {
      h, i := InBookKeys(day, hours - 1, coins, k);
    }
  }

  lemma HourDistinct(day: string, hour: nat, coins: seq<string>)
    requires |day| == 8 && hour < 24
    ensures Distinct(HourKeys(day, hour, coins)) <==> Distinct(coins)
  {
    var keys := HourKeys(day, hour, coins);
    forall i, j | 0 <= i < j < |coins|
      ensures keys[i] == keys[j] <==> coins[i] == coins[j]
    {
      if keys[i] == keys[j] {
        BookKeyIsInjective(day, hour, coins[i], day, hour, coins[j]);
      }
    }
  }

  lemma {:induction false} BookKeysDistinct(day: string, hours: nat, coins: seq<string>)
    requires |day| == 8 && 0 < hours <= 24
    ensures Distinct(BookKeys(day, hours, coins)) <==> Distinct(coins)
  {
    var before, last := BookKeys(day, hours - 1, coins), HourKeys(day, hours - 1, coins);
    DistinctConcat(before, last);
    HourDistinct(day, hours - 1, coins);
    if hours > 1 {
      BookKeysDistinct(day, hours - 1, coins);
      forall k | k in before
        ensures k !in last
      {
        var h, i := InBookKeys(day, hours - 1, coins, k);
        forall j | 0 <= j < |coins|
          ensures last[j] != k
        {
          if last[j] == k {
            BookKeyIsInjective(day, h, coins[i], day, hours - 1, coins[j]);
          }
        }
      }
    }
  }

  lemma KindsDiffer(d: string, d': string, h: nat, c: string)
    ensures ContextKey(d) != BookKey(d', h, c)
  {
    assert ContextKey(d)[0] == 'a' && BookKey(d', h, c)[0] == 'm';
  }

  lemma DayDistinct(day: string, contexts: bool, coins: seq<string>)
    requires |day| == 8
    ensures Distinct(DayKeys(day, contexts, coins)) <==> Distinct(coins)
  {
    var head := if contexts then [ContextKey(day)] else [];
    var books := BookKeys(day, 24, coins);
    DistinctConcat(head, books);
    BookKeysDistinct(day, 24, coins);
    forall k | k in head
      ensures k !in books
    {
      if k in books {
        var h, i := InBookKeys(day, 24, coins, k);
        KindsDiffer(day, day, h, coins[i]);
      }
    }
  }

  /** A day's keys show their day. */
  lemma DayOf(day: string, contexts: bool, coins: seq<string>, k: Key)
    requires |day| == 8 && k in DayKeys(day, contexts, coins)
    ensures |k| >= 19
    ensures k[0] == 'a' ==> k[11..19] == day
    ensures k[0] != 'a' ==> |k| >= 20 && k[12..20] == day
  {
    if k in BookKeys(day, 24, coins) {
      var h, i := InBookKeys(day, 24, coins, k);
      assert k[12..20] == day;
    } else {
      assert k == ContextKey(day);
      assert k[11..19] == day;
    }
  }

  lemma {:induction false} InPlanned(
    text: int -> string, start: int, days: nat, contexts: bool, coins: seq<string>, k: Key)
    returns (d: int)
    requires k in Planned(text, start, days, contexts, coins)
    ensures start <= d < start + days && k in DayKeys(text(d), contexts, coins)
  {
    d := start + days - 1;
    if k !in DayKeys(text(d), contexts, coins) {
      d := InPlanned(text, start, days - 1, contexts, coins, k);
    }
  }

  /** A window plans every key once exactly when it names every coin once. */
  lemma {:induction false} PlanIsDistinct(
    text: int -> string, start: int, days: nat, contexts: bool, coins: seq<string>)
    requires DayTexts(text, start, days)
    ensures Distinct(Planned(text, start, days, contexts, coins)) <==> days == 0 || Distinct(coins)
  {
    if days > 0 {
      var before := Planned(text, start, days - 1, contexts, coins);
      var day := text(start + days - 1);
      var last := DayKeys(day, contexts, coins);
      PlanIsDistinct(text, start, days - 1, contexts, coins);
      DayDistinct(day, contexts, coins);
      DistinctConcat(before, last);
      forall k | k in before
        ensures k !in last
      {
        var d := InPlanned(text, start, days - 1, contexts, coins, k);
        DayOf(text(d), contexts, coins, k);
        if k in last {
          DayOf(day, contexts, coins, k);
        }
      }
    }
  }

  // ---------------------------------------------------------------------------
  // The keys, one by one
  // ---------------------------------------------------------------------------

  lemma KeysLookLikeThis()
    ensures ContextKey("20230916") == "asset_ctxs/20230916.csv.lz4"
    ensures BookKey("20230916", 9, "SOL") == "market_data/20230916/9/l2Book/SOL.lz4"
  {
    assert Decimal(9) == "9";
  }

  lemma {:induction false} BookKeysAt(day: string, hours: nat, coins: seq<string>, h: nat, i: nat)
    requires h < hours && i < |coins|
    ensures |BookKeys(day, hours, coins)| == hours * |coins|
    ensures h * |coins| + i < hours * |coins|
    ensures BookKeys(day, hours, coins)[h * |coins| + i] == BookKey(day, h, coins[i])
  {
    BookKeysCount(day, hours, coins);
    BookKeysCount(day, hours - 1, coins);
    var n := |coins|;
    assert hours * n == (hours - 1) * n + n;
    if h < hours - 1 {
      BookKeysAt(day, hours - 1, coins, h, i);
    }
  }

  lemma {:induction false} BookKeysCount(day: string, hours: nat, coins: seq<string>)
    ensures |BookKeys(day, hours, coins)| == hours * |coins|
  {
    if hours > 0 {
      BookKeysCount(day, hours - 1, coins);
      assert hours * |coins| == (hours - 1) * |coins| + |coins|;
    }
  }

  /** How many keys a day has: its context, if asked for, and one for each of 24 hours and each coin. */
  ghost function PerDay(contexts: bool, coins: seq<string>): nat {
    (if contexts then 1 else 0) + 24 * |coins|
  }

  lemma {:induction false} DayAt(
    text: int -> string, start: int, days: nat, contexts: bool, coins: seq<string>, d: nat, r: nat)
    requires d < days && r < PerDay(contexts, coins)
    ensures |Planned(text, start, days, contexts, coins)| == days * PerDay(contexts, coins)
    ensures d * PerDay(contexts, coins) + r < days * PerDay(contexts, coins)
    ensures |DayKeys(text(start + d), contexts, coins)| == PerDay(contexts, coins)
    ensures Planned(text, start, days, contexts, coins)[d * PerDay(contexts, coins) + r]
            == DayKeys(text(start + d), contexts, coins)[r]
  {
    var n := PerDay(contexts, coins);
    PlannedCount(text, start, days, contexts, coins);
    PlannedCount(text, start, days - 1, contexts, coins);
    BookKeysCount(text(start + d), 24, coins);
    assert days * n == (days - 1) * n + n;
    if d < days - 1 {
      DayAt(text, start, days - 1, contexts, coins, d, r);
    }
  }

  lemma {:induction false} PlannedCount(text: int -> string, start: int, days: nat, contexts: bool, coins: seq<string>)
    ensures |Planned(text, start, days, contexts, coins)| == days * PerDay(contexts, coins)
  {
    if days > 0 {
      PlannedCount(text, start, days - 1, contexts, coins);
      BookKeysCount(text(start + days - 1), 24, coins);
      assert days * PerDay(contexts, coins) == (days - 1) * PerDay(contexts, coins) + PerDay(contexts, coins);
    }
  }

  /**
   Every key of a window has its place, and there are no others: day by day, the context of the day first
   when asked for, then the 24 hours in order, and in each hour the coins in order.
   */
  lemma PlanIsInOrder(
    text: int -> string, start: int, days: nat, contexts: bool, coins: seq<string>, d: nat, h: nat, i: nat)
    requires d < days && h < 24 && i < |coins|
    ensures var keys, day := Planned(text, start, days, contexts, coins), d * PerDay(contexts, coins);
            var place := day + InDay(contexts, coins, h, i);
            && |keys| == days * PerDay(contexts, coins)
            && 0 <= day <= place < |keys| && keys[place] == BookKey(text(start + d), h, coins[i])
            && (contexts ==> keys[day] == ContextKey(text(start + d)))
  {
    DayKeyAt(text(start + d), contexts, coins, h, i);
    DayAt(text, start, days, contexts, coins, d, InDay(contexts, coins, h, i));
    DayAt(text, start, days, contexts, coins, d, 0);
  }

  /** The place of a book key in its day. */
  ghost function InDay(contexts: bool, coins: seq<string>, h: nat, i: nat): nat {
    (if contexts then 1 else 0) + (h * |coins| + i)
  }

  lemma DayKeyAt(day: string, contexts: bool, coins: seq<string>, h: nat, i: nat)
    requires h < 24 && i < |coins|
    ensures InDay(contexts, coins, h, i) < PerDay(contexts, coins) == |DayKeys(day, contexts, coins)|
    ensures DayKeys(day, contexts, coins)[InDay(contexts, coins, h, i)] == BookKey(day, h, coins[i])
    ensures contexts ==> DayKeys(day, contexts, coins)[0] == ContextKey(day)
  {
    BookKeysAt(day, 24, coins, h, i);
  }
}
