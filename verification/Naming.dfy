/**
 Collision-free file names, as aetelier-io/src/naming.rs finds them: the name itself, or the stem
 with the first free number. The search has no bound of its own; the directory is finite.
 */
module Naming {

  const PARQUET := ".parquet"

  predicate EndsWith(s: string, suffix: string) {
    |s| >= |suffix| && s[|s| - |suffix|..] == suffix
  }

  function Stem(filename: string): string {
    if EndsWith(filename, PARQUET) then filename[..|filename| - |PARQUET|] else filename
  }

  function Digit(d: nat): char
    requires d < 10
  {
    ['0', '1', '2', '3', '4', '5', '6', '7', '8', '9'][d]
  }

  /** Decimal digits without leading zeros. */
  function Decimal(n: nat): string {
    if n < 10 then [Digit(n)] else Decimal(n / 10) + [Digit(n % 10)]
  }

  function Numbered(stem: string, n: nat): string {
    stem + "-" + Decimal(n) + PARQUET
  }

  lemma NamesLookLikeThis()
    ensures Numbered(Stem("trades.parquet"), 1) == "trades-1.parquet"
    ensures Numbered(Stem("trades"), 12) == "trades-12.parquet"
  {
    assert "trades.parquet"[6..] == ".parquet" && "trades.parquet"[..6] == "trades";
    assert Decimal(12) == Decimal(1) + "2";
  }

  // ---------------------------------------------------------------------------
  // Distinct numbers give distinct names
  // ---------------------------------------------------------------------------

  ghost function DigitValue(c: char): int {
    c as int - '0' as int
  }

  ghost function Value(s: string): int {
    if s == [] then 0 else 10 * Value(s[..|s| - 1]) + DigitValue(s[|s| - 1])
  }

  lemma {:induction false} DecimalValue(n: nat)
    ensures Value(Decimal(n)) == n
  {
    if n < 10 {
      assert [Digit(n)][..0] == [];
    } else {
      DecimalValue(n / 10);
      var s := Decimal(n);
      assert s[..|s| - 1] == Decimal(n / 10);
    }
  }

  lemma NumberedIsInjective(stem: string, a: nat, b: nat)
    requires Numbered(stem, a) == Numbered(stem, b)
    ensures a == b
  {
    var x, y := Numbered(stem, a), Numbered(stem, b);
    assert Decimal(a) == x[|stem| + 1..|x| - |PARQUET|] == y[|stem| + 1..|y| - |PARQUET|] == Decimal(b);
    DecimalValue(a);
    DecimalValue(b);
  }

  /** Pigeonhole: n taken numbers need a directory of at least n names. */
  lemma {:induction false} TakenNumbersFit(dir: set<string>, stem: string, n: nat)
    requires forall i | 1 <= i <= n :: Numbered(stem, i) in dir
    ensures n <= |dir|
  {
    if n > 0 {
      var name := Numbered(stem, n);
      forall i | 1 <= i <= n - 1
        ensures Numbered(stem, i) in dir - {name}
      {
        if Numbered(stem, i) == name {
          NumberedIsInjective(stem, i, n);
        }
      }
      TakenNumbersFit(dir - {name}, stem, n - 1);
    }
  }

  /** The name chosen in a directory, as a condition on it. */
  predicate Chosen(dir: set<string>, filename: string, name: string) {
    && name !in dir
    && (name == filename || (filename in dir &&
                               exists n | 1 <= n <= |dir| + 1 :: FirstFree(dir, Stem(filename), n, name)))
  }

  predicate FirstFree(dir: set<string>, stem: string, n: nat, name: string) {
    name == Numbered(stem, n) && forall i | 1 <= i < n :: Numbered(stem, i) in dir
  }

  method UniquePath(dir: set<string>, filename: string) returns (name: string)
    ensures Chosen(dir, filename, name)
  {
    if filename !in dir {
      return filename;
    }
    var stem := Stem(filename);
    var n := 1;
    while Numbered(stem, n) in dir
      invariant n >= 1 && forall i | 1 <= i < n :: Numbered(stem, i) in dir
      decreases |dir| - n
    {
      TakenNumbersFit(dir, stem, n);
      n := n + 1;
    }
    TakenNumbersFit(dir, stem, n - 1);
    name := Numbered(stem, n);
    assert FirstFree(dir, stem, n, name);
  }

  lemma EndsInParquet(stem: string, n: nat)
    ensures EndsWith(Numbered(stem, n), PARQUET)
  {
    var s := Numbered(stem, n);
    assert s[|s| - |PARQUET|..] == PARQUET;
  }

  /** The search decides one name: same directory, same request, same answer. */
  lemma ChosenIsUnique(dir: set<string>, filename: string, a: string, b: string)
    requires Chosen(dir, filename, a) && Chosen(dir, filename, b)
    ensures a == b
  {
    if filename in dir {
      var stem := Stem(filename);
      var i :| 1 <= i <= |dir| + 1 && FirstFree(dir, stem, i, a);
      var j :| 1 <= j <= |dir| + 1 && FirstFree(dir, stem, j, b);
    }
  }
}
