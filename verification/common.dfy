/** Shared vocabulary of the model: optional values, pass/fail outcomes,
    the process environment, a few string predicates, decimal rendering of
    naturals and counting over sequences. */
module Common {

  /** A value that may be absent: a JavaScript `undefined`/`null` field, an
      unset environment variable, a storage client that was never created. */
  datatype Option<+T> = None | Some(value: T) {
    function GetOr(default: T): T {
      match this
      case Some(v) => v
      case None => default
    }
  }

  /** The result of an operation that returns only an error, like a Go
      `error` return value (`nil` is `Pass`). */
  datatype Outcome<+E> = Pass | Fail(error: E)

  /** The process environment. A key that is absent is an unset variable. */
  type Env = map<string, string>

  /** `process.env[key] || fallback`: JavaScript treats both an unset
      variable and the empty string as falsy. */
  function EnvOr(env: Env, key: string, fallback: string): (r: string)
    ensures key in env && env[key] != "" ==> r == env[key]
    ensures key !in env || env[key] == "" ==> r == fallback
    ensures r == "" ==> fallback == ""
  {
    if key in env && env[key] != "" then env[key] else fallback
  }

  /** Go's `os.Getenv`: the empty string for an unset variable. */
  function Getenv(env: Env, key: string): string {
    if key in env then env[key] else ""
  }

  function Min(a: int, b: int): int {
    if a <= b then a else b
  }

  /** `s.startsWith(p)` */
  predicate StartsWith(s: string, p: string) {
    |p| <= |s| && s[..|p|] == p
  }

  /** `s.includes(p)`: `p` occurs at some position of `s`. */
  predicate Includes(s: string, p: string)
    decreases |s|
  {
    StartsWith(s, p) || (|s| > 0 && Includes(s[1..], p))
  }

  /** A prefix test at any position `k` is an occurrence. */
  lemma {:induction false} StartsWithAtIncludes(s: string, q: string, k: nat)
    requires k <= |s| && StartsWith(s[k..], q)
    ensures Includes(s, q)
    decreases k
  {
    if k == 0 {
      assert s[0..] == s;
    } else {
      assert s[1..][k - 1..] == s[k..];
      StartsWithAtIncludes(s[1..], q, k - 1);
    }
  }

  /** A string that contains `p + q` contains `q`. */
  lemma {:induction false} IncludesSuffix(s: string, p: string, q: string)
    requires Includes(s, p + q)
    ensures Includes(s, q)
    decreases |s|
  {
    if StartsWith(s, p + q) {
      assert s[|p|..][..|q|] == (p + q)[|p|..] == q;
      StartsWithAtIncludes(s, q, |p|);
    } else {
      IncludesSuffix(s[1..], p, q);
    }
  }

  // ---------------------------------------------------------------------
  // Decimal rendering of naturals (JavaScript template-literal formatting
  // of a non-negative integer)

  predicate IsDigit(c: char) {
    '0' <= c <= '9'
  }

  predicate AllDigits(s: string) {
    forall i :: 0 <= i < |s| ==> IsDigit(s[i])
  }

  function DigitChar(d: nat): (c: char)
    requires d < 10
    ensures IsDigit(c)
  {
    ['0', '1', '2', '3', '4', '5', '6', '7', '8', '9'][d]
  }

  function DigitValue(c: char): (d: nat)
    requires IsDigit(c)
    ensures d < 10
  {
    (c as int - '0' as int) as nat
  }

  lemma DigitRoundTrip(d: nat)
    requires d < 10
    ensures DigitValue(DigitChar(d)) == d
  {
  }

  /** The shortest decimal numeral of `n`: digits only, never empty, and no
      leading zero unless the numeral is "0". */
  function NatToDecimal(n: nat): (s: string)
    ensures |s| > 0 && AllDigits(s)
    ensures |s| > 1 ==> s[0] != '0'
    ensures s[0] == '0' <==> n == 0
    decreases n
  {
    if n < 10 then [DigitChar(n)] else NatToDecimal(n / 10) + [DigitChar(n % 10)]
  }

  /** The value of a numeral, the inverse of `NatToDecimal`. */
  function DecimalToNat(s: string): nat
    requires AllDigits(s)
    decreases |s|
  {
    if |s| == 0 then 0 else DecimalToNat(s[..|s| - 1]) * 10 + DigitValue(s[|s| - 1])
  }

  lemma {:induction false} DecimalRoundTrip(n: nat)
    ensures DecimalToNat(NatToDecimal(n)) == n
    decreases n
  {
    var s := NatToDecimal(n);
    if n < 10 {
      DigitRoundTrip(n);
    } else {
      DecimalRoundTrip(n / 10);
      DigitRoundTrip(n % 10);
      assert s[..|s| - 1] == NatToDecimal(n / 10);
    }
  }

  // ---------------------------------------------------------------------
  // Counting and distinctness over sequences

  /** The number of elements of `xs` that satisfy `p`: a SQL `COUNT(*)` with
      a `WHERE p` clause. */
  function CountWhere<T>(xs: seq<T>, p: T -> bool): (n: nat)
    ensures n <= |xs|
    decreases |xs|
  {
    if |xs| == 0 then 0
    else CountWhere(xs[..|xs| - 1], p) + (if p(xs[|xs| - 1]) then 1 else 0)
  }

  /** Something is counted exactly when some element satisfies `p`. */
  lemma {:induction false} CountWherePositive<T>(xs: seq<T>, p: T -> bool)
    ensures CountWhere(xs, p) > 0 <==> exists i :: 0 <= i < |xs| && p(xs[i])
    decreases |xs|
  {
    if |xs| > 0 {
      var init := xs[..|xs| - 1];
      CountWherePositive(init, p);
      assert forall i :: 0 <= i < |init| ==> init[i] == xs[i];
    }
  }

  lemma {:induction false} CountWhereAppend<T>(xs: seq<T>, ys: seq<T>, p: T -> bool)
    ensures CountWhere(xs + ys, p) == CountWhere(xs, p) + CountWhere(ys, p)
    decreases |ys|
  {
    if |ys| > 0 {
      assert (xs + ys)[..|xs + ys| - 1] == xs + ys[..|ys| - 1];
      CountWhereAppend(xs, ys[..|ys| - 1], p);
    } else {
      assert xs + ys == xs;
    }
  }

  /** Counting under a predicate that implies another never counts more. */
  lemma {:induction false} CountWhereMono<T>(xs: seq<T>, p: T -> bool, q: T -> bool)
    requires forall x :: x in xs && p(x) ==> q(x)
    ensures CountWhere(xs, p) <= CountWhere(xs, q)
    decreases |xs|
  {
    if |xs| > 0 {
      CountWhereMono(xs[..|xs| - 1], p, q);
    }
  }

  /** Nothing satisfies `p`: the count is zero. */
  lemma {:induction false} CountWhereNone<T>(xs: seq<T>, p: T -> bool)
    requires forall x :: x in xs ==> !p(x)
    ensures CountWhere(xs, p) == 0
    decreases |xs|
  {
    if |xs| > 0 {
      CountWhereNone(xs[..|xs| - 1], p);
    }
  }

  /** Counting under the disjunction of two disjoint predicates adds. */
  lemma {:induction false} CountWhereDisjoint<T>(xs: seq<T>, p: T -> bool, q: T -> bool, pq: T -> bool)
    requires forall x :: x in xs ==> !(p(x) && q(x))
    requires forall x :: x in xs ==> (pq(x) <==> p(x) || q(x))
    ensures CountWhere(xs, pq) == CountWhere(xs, p) + CountWhere(xs, q)
    decreases |xs|
  {
    if |xs| > 0 {
      CountWhereDisjoint(xs[..|xs| - 1], p, q, pq);
    }
  }

  /** No element occurs twice. */
  predicate Distinct<T(==)>(xs: seq<T>) {
    forall i, j :: 0 <= i < j < |xs| ==> xs[i] != xs[j]
  }

  /** The elements of `xs` that satisfy `p`, in their original order. */
  function Filter<T(==)>(xs: seq<T>, p: T -> bool): (r: seq<T>)
    ensures |r| == CountWhere(xs, p)
    ensures forall i :: 0 <= i < |r| ==> r[i] in xs && p(r[i])
    ensures forall i :: 0 <= i < |xs| && p(xs[i]) ==> xs[i] in r
    decreases |xs|
  {
    if |xs| == 0 then []
    else Filter(xs[..|xs| - 1], p) + (if p(xs[|xs| - 1]) then [xs[|xs| - 1]] else [])
  }

  /** Filtering by a predicate every element meets keeps the whole sequence. */
  lemma {:induction false} FilterAll<T>(xs: seq<T>, p: T -> bool)
    requires forall i :: 0 <= i < |xs| ==> p(xs[i])
    ensures Filter(xs, p) == xs
    decreases |xs|
  {
    if |xs| > 0 {
      FilterAll(xs[..|xs| - 1], p);
      assert xs[..|xs| - 1] + [xs[|xs| - 1]] == xs;
    }
  }

  /** `ys` keeps some of the elements of `xs`, in the order `xs` has them. */
  predicate IsSubsequence<T(==)>(ys: seq<T>, xs: seq<T>)
    decreases |xs|
  {
    if |ys| == 0 then true
    else if |xs| == 0 then false
    else if ys[|ys| - 1] == xs[|xs| - 1] then IsSubsequence(ys[..|ys| - 1], xs[..|xs| - 1])
    else IsSubsequence(ys, xs[..|xs| - 1])
  }

  lemma {:induction false} FilterIsSubsequence<T>(xs: seq<T>, p: T -> bool)
    ensures IsSubsequence(Filter(xs, p), xs)
    decreases |xs|
  {
    if |xs| > 0 {
      var init, last := xs[..|xs| - 1], xs[|xs| - 1];
      FilterIsSubsequence(init, p);
      var r := Filter(xs, p);
      assert xs == init + [last];
      if p(last) {
        assert r[..|r| - 1] == Filter(init, p);
      } else {
        assert r == Filter(init, p);
        SubsequenceExtend(r, init, last);
      }
    }
  }

  lemma {:induction false} SubsequenceExtend<T>(ys: seq<T>, xs: seq<T>, x: T)
    requires IsSubsequence(ys, xs)
    ensures IsSubsequence(ys, xs + [x])
    decreases |xs|, 1
  {
    if |ys| > 0 {
      assert (xs + [x])[..|xs + [x]| - 1] == xs;
      if ys[|ys| - 1] == x {
        SubsequenceTrimmed(ys[..|ys| - 1], ys, xs);
      }
    }
  }

  /** Dropping the last element of a subsequence keeps it a subsequence. */
  lemma {:induction false} SubsequenceTrimmed<T>(zs: seq<T>, ys: seq<T>, xs: seq<T>)
    requires |ys| > 0 && zs == ys[..|ys| - 1]
    requires IsSubsequence(ys, xs)
    ensures IsSubsequence(zs, xs)
    decreases |xs|, 0
  {
    if |zs| > 0 {
      var xi, last := xs[..|xs| - 1], xs[|xs| - 1];
      assert xi + [last] == xs;
      if ys[|ys| - 1] != last {
        SubsequenceTrimmed(zs, ys, xi);
      }
      SubsequenceExtend(zs, xi, last);
    }
  }
}
