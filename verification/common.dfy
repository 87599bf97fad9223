/** Vocabulary shared by the server routes and the client pages: optional values,
    the HTTP status codes the routes answer with, ASCII case folding, substring
    search and decimal number strings. */
module Common {

  /** A value that may be absent: a missing JSON key, a SQL NULL, JavaScript's null. */
  datatype Option<T> = None | Some(value: T) {
    /** The value, or `default` when absent (Python's `dict.get(key, default)`). */
    function GetOr(default: T): T {
      if Some? then value else default
    }
  }

  /** The user object the client pages read back from `sessionStorage`, as the
      login response wrote it. `!user.user_id` in the pages is `user_id == ""`. */
  datatype SessionUser = SessionUser(user_id: string, user_name: string, is_admin: bool)

  // HTTP status codes used by the route handlers.
  const OK: int := 200
  const CREATED: int := 201
  const BAD_REQUEST: int := 400
  const UNAUTHORIZED: int := 401
  const FORBIDDEN: int := 403
  const NOT_FOUND: int := 404
  const SERVER_ERROR: int := 500

  /** ASCII lower-casing of one character. */
  function LowerChar(c: char): char {
    if 'A' <= c <= 'Z' then (c as int + 32) as char else c
  }

  /** ASCII lower-casing of a string; stands for Python's `str.lower()` and the
      case folding behind SQL `ILIKE`. */
  function Lower(s: string): (r: string)
    ensures |r| == |s|
    ensures forall i :: 0 <= i < |s| ==> r[i] == LowerChar(s[i])
  {
    if s == [] then [] else [LowerChar(s[0])] + Lower(s[1..])
  }

  /** Lower-casing twice is lower-casing once. */
  lemma LowerIdempotent(s: string)
    ensures Lower(Lower(s)) == Lower(s)
  {
  }

  predicate StartsWith(s: string, prefix: string) {
    |prefix| <= |s| && s[..|prefix|] == prefix
  }

  /** Python's `sub in s`: `sub` occurs as a contiguous piece of `s`. */
  predicate Contains(s: string, sub: string)
    decreases |s|
  {
    StartsWith(s, sub) || (s != [] && Contains(s[1..], sub))
  }

  lemma {:induction false} ContainsAt(s: string, sub: string, i: nat)
    requires i + |sub| <= |s| && s[i..i + |sub|] == sub
    ensures Contains(s, sub)
    decreases i
  {
    if i > 0 {
      assert s[1..][i - 1..i - 1 + |sub|] == sub;
      ContainsAt(s[1..], sub, i - 1);
    } else {
      assert StartsWith(s, sub);
    }
  }

  predicate IsDigit(c: char) {
    '0' <= c <= '9'
  }

  predicate AllDigits(s: string) {
    forall i :: 0 <= i < |s| ==> IsDigit(s[i])
  }

  function DigitChar(d: nat): (c: char)
    requires d < 10
    ensures IsDigit(c)
  {
    ('0' as int + d) as char
  }

  function DigitValue(c: char): (d: nat)
    requires IsDigit(c)
    ensures d < 10
  {
    c as int - '0' as int
  }

  /** `String(n)` / `str(n)` for a natural number: decimal digits, no leading zero. */
  function NatToString(n: nat): (s: string)
    ensures 1 <= |s| && AllDigits(s)
    ensures s[0] == '0' ==> n == 0 && s == "0"
    decreases n
  {
    if n < 10 then [DigitChar(n)] else NatToString(n / 10) + [DigitChar(n % 10)]
  }

  /** `String(n)` for any integer: a minus sign before the digits of a negative number. */
  function IntToString(n: int): string {
    if n < 0 then "-" + NatToString(-n) else NatToString(n)
  }

  /** The number a string of decimal digits denotes. */
  function DigitsValue(s: string): nat
    requires AllDigits(s)
  {
    if s == [] then 0 else DigitsValue(s[..|s| - 1]) * 10 + DigitValue(s[|s| - 1])
  }

  /** Reading back the digits written by `NatToString` gives the number again. */
  lemma {:induction false} NatToStringRoundTrip(n: nat)
    ensures DigitsValue(NatToString(n)) == n
    decreases n
  {
    if n >= 10 {
      var s := NatToString(n);
      assert s[..|s| - 1] == NatToString(n / 10);
      NatToStringRoundTrip(n / 10);
    }
  }

  /** A decimal string starts with a minus sign exactly for a negative number. */
  lemma IntToStringSign(n: int)
    ensures 1 <= |IntToString(n)| && (IntToString(n)[0] == '-' <==> n < 0)
  {
  }

  /** Different integers have different decimal strings. */
  lemma IntToStringInjective(a: int, b: int)
    requires IntToString(a) == IntToString(b)
    ensures a == b
  {
    IntToStringSign(a);
    IntToStringSign(b);
    if a < 0 {
      DigitsAfterMinus(a);
      DigitsAfterMinus(b);
      NatToStringInjective(-a, -b);
    } else {
      NatToStringInjective(a, b);
    }
  }

  lemma DigitsAfterMinus(n: int)
    requires n < 0
    ensures |IntToString(n)| >= 1 && IntToString(n)[1..] == NatToString(-n)
  {
    assert IntToString(n) == "-" + NatToString(-n);
  }

  lemma NatToStringInjective(x: nat, y: nat)
    requires NatToString(x) == NatToString(y)
    ensures x == y
  {
    NatToStringRoundTrip(x);
    NatToStringRoundTrip(y);
  }

  /** Leading zeros do not change the value of a digit string. */
  lemma {:induction false} LeadingZeroValue(s: string)
    requires AllDigits(s)
    ensures AllDigits("0" + s) && DigitsValue("0" + s) == DigitsValue(s)
    decreases |s|
  {
    if s != [] {
      var t := "0" + s;
      assert t[..|t| - 1] == "0" + s[..|s| - 1];
      LeadingZeroValue(s[..|s| - 1]);
    }
  }

  /** No element occurs twice. */
  predicate Distinct<T(==)>(xs: seq<T>) {
    forall i, j :: 0 <= i < j < |xs| ==> xs[i] != xs[j]
  }

  lemma {:induction false} DistinctCountsOnce<T>(xs: seq<T>, x: T)
    requires Distinct(xs)
    ensures multiset(xs)[x] <= 1
    decreases |xs|
  {
    if xs != [] {
      var rest := xs[1..];
      assert xs == [xs[0]] + rest;
      assert Distinct(rest) by {
        forall i, j | 0 <= i < j < |rest|
          ensures rest[i] != rest[j]
        {
          assert rest[i] == xs[i + 1] && rest[j] == xs[j + 1];
        }
      }
      DistinctCountsOnce(rest, x);
      if xs[0] == x {
        forall i | 0 <= i < |rest|
          ensures rest[i] != x
        {
          assert rest[i] == xs[i + 1];
        }
        assert x !in rest;
      }
    }
  }

  /** Reordering a list without repeats gives a list without repeats. */
  lemma PermutationKeepsDistinct<T>(xs: seq<T>, ys: seq<T>)
    requires Distinct(xs) && multiset(xs) == multiset(ys)
    ensures Distinct(ys)
  {
    forall i, j | 0 <= i < j < |ys|
      ensures ys[i] != ys[j]
    {
      if ys[i] == ys[j] {
        var x := ys[i];
        assert ys == ys[..j] + ys[j..];
        assert ys[..j][i] == x && ys[j..][0] == x;
        assert multiset(ys)[x] == multiset(ys[..j])[x] + multiset(ys[j..])[x];
        DistinctCountsOnce(xs, x);
        assert false;
      }
    }
  }

  /** A list without repeats has as many elements as the set of its elements. */
  lemma {:induction false} DistinctCard(xs: seq<int>)
    requires Distinct(xs)
    ensures |set x | x in xs| == |xs|
    decreases |xs|
  {
    if xs != [] {
      var rest := xs[1..];
      assert xs == [xs[0]] + rest;
      assert Distinct(rest) by {
        forall i, j | 0 <= i < j < |rest|
          ensures rest[i] != rest[j]
        {
          assert rest[i] == xs[i + 1] && rest[j] == xs[j + 1];
        }
      }
      DistinctCard(rest);
      forall i | 0 <= i < |rest|
        ensures rest[i] != xs[0]
      {
        assert rest[i] == xs[i + 1];
      }
      assert (set x | x in xs) == {xs[0]} + (set x | x in rest);
      assert xs[0] !in (set x | x in rest);
    }
  }

  /** `scan` is an order in which the database may return the rows of `rows`:
      every key exactly once. The source does not fix this order. */
  predicate ScanOrder<T>(scan: seq<int>, rows: map<int, T>) {
    && (forall i, j :: 0 <= i < j < |scan| ==> scan[i] != scan[j])
    && (forall k :: k in rows ==> k in scan)
    && (forall i :: 0 <= i < |scan| ==> scan[i] in rows)
  }

  /** The rows of `rows` in the order `scan` visits their keys. */
  function RowsOf<T>(scan: seq<int>, rows: map<int, T>): (r: seq<T>)
    requires forall i :: 0 <= i < |scan| ==> scan[i] in rows
    ensures |r| == |scan|
    ensures forall j :: 0 <= j < |scan| ==> r[j] == rows[scan[j]]
  {
    if scan == [] then [] else [rows[scan[0]]] + RowsOf(scan[1..], rows)
  }

  /** A scan visits as many rows as the table holds. */
  lemma {:induction false} ScanLength<T>(scan: seq<int>, rows: map<int, T>)
    requires ScanOrder(scan, rows)
    ensures |scan| == |rows|
    decreases |scan|
  {
    if scan == [] {
      assert forall k :: k !in rows.Keys;
      assert rows.Keys == {};
    } else {
      var n := |scan| - 1;
      var k := scan[n];
      var prefix := scan[..n];
      var smaller := rows - {k};
      forall j | j in smaller
        ensures j in prefix
      {
        var i :| 0 <= i < |scan| && scan[i] == j;
        assert i != n;
      }
      forall i | 0 <= i < |prefix|
        ensures prefix[i] in smaller
      {
        assert prefix[i] == scan[i] && scan[i] != scan[n];
      }
      ScanLength(prefix, smaller);
      assert smaller.Keys == rows.Keys - {k};
    }
  }
}
