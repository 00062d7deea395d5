/** Three-way comparisons: what it takes to be a total order, and the
    lexicographic order on sequences.

    Lex is shared by the three orders the client storage sorts with: address
    bits, label bytes (both with the shorter sequence first) and label lists
    (with the end of the name last). */
module Orders {

  ghost predicate TotalOrder<T(!new)>(cmp: (T, T) -> int) {
    && (forall x, y :: cmp(x, y) == 0 <==> x == y)
    && (forall x, y :: cmp(x, y) < 0 <==> cmp(y, x) > 0)
    && (forall x, y, z :: cmp(x, y) < 0 && cmp(y, z) < 0 ==> cmp(x, z) < 0)
  }

  function CompareInts(x: int, y: int): int {
    if x < y then -1 else if x > y then 1 else 0
  }

  function CompareChars(x: char, y: char): int {
    if x < y then -1 else if x > y then 1 else 0
  }

  function CompareBools(x: bool, y: bool): int {
    if x == y then 0 else if y then -1 else 1
  }

  /** Lexicographic comparison.  short is the result when a is a proper prefix
      of b: -1 puts the shorter sequence first, 1 puts it last. */
  function Lex<T>(cmp: (T, T) -> int, short: int, a: seq<T>, b: seq<T>): int {
    if a == [] then
      if b == [] then 0 else short
    else if b == [] then
      -short
    else if cmp(a[0], b[0]) != 0 then
      cmp(a[0], b[0])
    else
      Lex(cmp, short, a[1..], b[1..])
  }

  lemma {:induction false} LexZero<T(!new)>(cmp: (T, T) -> int, short: int, a: seq<T>, b: seq<T>)
    requires TotalOrder(cmp) && short != 0
    ensures Lex(cmp, short, a, b) == 0 <==> a == b
  {
    if a == [] || b == [] {
    } else if cmp(a[0], b[0]) == 0 {
      LexZero(cmp, short, a[1..], b[1..]);
      assert a == [a[0]] + a[1..] && b == [b[0]] + b[1..];
    }
  }

  lemma {:induction false} LexAntisymmetric<T(!new)>(cmp: (T, T) -> int, short: int, a: seq<T>, b: seq<T>)
    requires TotalOrder(cmp) && short != 0
    ensures Lex(cmp, short, a, b) < 0 <==> Lex(cmp, short, b, a) > 0
  {
    if a == [] || b == [] {
    } else if cmp(a[0], b[0]) == 0 {
      LexAntisymmetric(cmp, short, a[1..], b[1..]);
    }
  }

  lemma {:induction false} LexTransitive<T(!new)>(
    cmp: (T, T) -> int, short: int, a: seq<T>, b: seq<T>, c: seq<T>)
    requires TotalOrder(cmp) && short != 0
    requires Lex(cmp, short, a, b) < 0 && Lex(cmp, short, b, c) < 0
    ensures Lex(cmp, short, a, c) < 0
  {
    if a == [] || b == [] || c == [] {
    } else if cmp(a[0], b[0]) == 0 && cmp(b[0], c[0]) == 0 {
      LexTransitive(cmp, short, a[1..], b[1..], c[1..]);
    }
  }

  /** a is below b at n, up to where they are equal. */
  ghost predicate BelowAt<T>(cmp: (T, T) -> int, short: int, a: seq<T>, b: seq<T>, n: nat) {
    && n <= |a| && n <= |b| && a[..n] == b[..n]
    && if n == |a| then n < |b| && short < 0 else if n == |b| then short > 0 else cmp(a[n], b[n]) < 0
  }

  lemma {:induction false} BelowAtIsLess<T(!new)>(cmp: (T, T) -> int, short: int, a: seq<T>, b: seq<T>, n: nat)
    requires TotalOrder(cmp) && BelowAt(cmp, short, a, b, n)
    ensures Lex(cmp, short, a, b) < 0
  {
    if n > 0 {
      assert a[0] == a[..n][0] == b[..n][0] == b[0];
      assert a[1..][..n - 1] == a[..n][1..] == b[..n][1..] == b[1..][..n - 1];
      BelowAtIsLess(cmp, short, a[1..], b[1..], n - 1);
    }
  }

  lemma {:induction false} LessIsBelowAt<T(!new)>(cmp: (T, T) -> int, short: int, a: seq<T>, b: seq<T>)
    returns (n: nat)
    requires TotalOrder(cmp) && short != 0 && Lex(cmp, short, a, b) < 0
    ensures BelowAt(cmp, short, a, b, n)
  {
    if a == [] || b == [] || cmp(a[0], b[0]) != 0 {
      n := 0;
    } else {
      n := LessIsBelowAt(cmp, short, a[1..], b[1..]);
      assert a[..n + 1] == [a[0]] + a[1..][..n] && b[..n + 1] == [b[0]] + b[1..][..n];
      n := n + 1;
    }
  }

  /** strings.Compare: bytes first to last, a prefix before its extensions. */
  function CompareStrings(a: string, b: string): int {
    Lex(CompareChars, -1, a, b)
  }

  lemma StringsAreOrdered()
    ensures TotalOrder(CompareStrings)
  {
    forall a: string, b: string
      ensures CompareStrings(a, b) == 0 <==> a == b
      ensures CompareStrings(a, b) < 0 <==> CompareStrings(b, a) > 0
    {
      LexZero(CompareChars, -1, a, b);
      LexAntisymmetric(CompareChars, -1, a, b);
    }
    forall a: string, b: string, c: string | CompareStrings(a, b) < 0 && CompareStrings(b, c) < 0
      ensures CompareStrings(a, c) < 0
    {
      LexTransitive(CompareChars, -1, a, b, c);
    }
  }

  /** The shorter of a name and its extension first, else the first byte that differs. */
  lemma StringsCompareBytes(a: string, b: string)
    ensures CompareStrings(a, b) < 0 <==>
      exists n: nat :: n <= |a| && n < |b| && a[..n] == b[..n] && (n < |a| ==> a[n] < b[n])
  {
    if CompareStrings(a, b) < 0 {
      var n := LessIsBelowAt(CompareChars, -1, a, b);
      assert n <= |a| && n < |b| && a[..n] == b[..n] && (n < |a| ==> a[n] < b[n]);
    }
    if n: nat :| n <= |a| && n < |b| && a[..n] == b[..n] && (n < |a| ==> a[n] < b[n]) {
      BelowAtIsLess(CompareChars, -1, a, b, n);
    }
  }

  /** A proper extension of p sorts before p when the end of a sequence is last. */
  lemma {:induction false} LexExtension<T(!new)>(cmp: (T, T) -> int, short: int, p: seq<T>, x: seq<T>)
    requires TotalOrder(cmp) && x != []
    ensures Lex(cmp, short, p + x, p) == -short
  {
    if p == [] {
      assert p + x == x;
    } else {
      assert (p + x)[0] == p[0] && (p + x)[1..] == p[1..] + x;
      LexExtension(cmp, short, p[1..], x);
    }
  }

  lemma BasicOrders()
    ensures TotalOrder(CompareInts) && TotalOrder(CompareChars) && TotalOrder(CompareBools)
  {
  }
}
