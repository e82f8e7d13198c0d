/** Round robin (internal/router/selector.go) over a 64-bit call counter: when its rotation is a
    permutation, and how evenly it leads. */
module RoundRobinSpec {
  import opened SelectorSpec

  /** The counter's range. */
  const WRAP: nat := 0x1_0000_0000_0000_0000

  function Next(calls: nat): nat { (calls + 1) % WRAP }

  /** The chain from start on, with the addition wrapping as a 64-bit one does. */
  function Rotated(avail: seq<string>, start: nat): (out: seq<string>)
    ensures |out| == |avail|
  {
    seq(|avail|, i requires 0 <= i < |avail| => avail[(start + i) % WRAP % |avail|])
  }

  /** The rotation round robin is meant to be. */
  function Rotation(avail: seq<string>, k: nat): seq<string>
    requires k <= |avail|
  {
    avail[k..] + avail[..k]
  }

  lemma ModIs(x: nat, k: nat, m: nat)
    requires k > 0 && m * k <= x < m * k + k
    ensures x % k == x - m * k && x / k == m
  {
    var q := x / k;
    assert x == q * k + x % k;
    assert q < m ==> (q + 1) * k <= m * k;
    assert q > m ==> (m + 1) * k <= q * k;
  }

  lemma ModStep(start: nat, i: nat, k: nat)
    requires i < k
    ensures (start + i) % k == if start % k + i < k then start % k + i else start % k + i - k
  {
    var m := start / k;
    assert start == m * k + start % k;
    if start % k + i < k {
      ModIs(start + i, k, m);
    } else {
      assert (m + 1) * k == m * k + k;
      ModIs(start + i, k, m + 1);
    }
  }

  /** The sum passes the end of the counter inside this call, at a chain length that does not
      divide the counter's range. */
  predicate Torn(start: nat, k: nat) {
    start + k > WRAP && k > 0 && WRAP % k != 0
  }

  lemma WrapIsHarmless(start: nat, i: nat, k: nat)
    requires start < WRAP && i < k && !Torn(start, k)
    ensures (start + i) % WRAP % k == (start + i) % k
  {
    if start + i >= WRAP {
      ModIs(start + i, WRAP, 1) by { assert start + i < WRAP + WRAP || k > WRAP; WideChain(start, i, k); }
      var m, d := WRAP / k, start + i - WRAP;
      assert WRAP == m * k;
      ModIs(start + i, k, m);
      ModIs(d, k, 0);
    } else {
      ModIs(start + i, WRAP, 0);
    }
  }

  lemma WideChain(start: nat, i: nat, k: nat)
    requires start < WRAP && i < k && !Torn(start, k) && start + i >= WRAP
    ensures k <= WRAP
  {
    if k > WRAP { ModIs(WRAP, k, 0); }
  }

  /** Unless the counter wraps inside the call, the result is the chain rotated to start. */
  lemma RotatedIsRotation(avail: seq<string>, start: nat)
    requires start < WRAP && avail != [] && !Torn(start, |avail|)
    ensures Rotated(avail, start) == Rotation(avail, start % |avail|)
  {
    var k := |avail|;
    forall i | 0 <= i < k ensures Rotated(avail, start)[i] == Rotation(avail, start % k)[i] {
      WrapIsHarmless(start, i, k);
      ModStep(start, i, k);
    }
  }

  lemma RotationIsPermutation(avail: seq<string>, k: nat)
    requires k <= |avail|
    ensures multiset(Rotation(avail, k)) == multiset(avail)
  {
    assert avail == avail[..k] + avail[k..];
  }

  lemma TwiceIn(s: seq<string>, i: nat, j: nat)
    requires i < j < |s| && s[i] == s[j]
    ensures multiset(s)[s[i]] >= 2
  {
    var a, b := s[..j], s[j..];
    assert s == a + b && a[i] == s[i] && b[0] == s[i];
    assert s[i] in multiset(a) && s[i] in multiset(b);
  }

  lemma {:induction false} OnceIn(s: seq<string>, x: string)
    requires Distinct(s)
    ensures multiset(s)[x] <= 1
  {
    if s != [] {
      OnceIn(s[1..], x);
      assert s == [s[0]] + s[1..];
      if x == s[0] { assert x !in s[1..]; }
    }
  }

  /** Two places whose sums fall on either side of w, alike modulo k. */
  lemma TornPlaces(start: nat, k: nat, w: nat) returns (i: nat, j: nat)
    requires start < w && 0 < k <= w && start + k > w && w % k != 0
    ensures i < j < k && start + i < w <= start + j && (start + i) % k == (start + j - w) % k
  {
    var r, q, m := start + k - w, w % k, w / k;
    assert w == m * k + q;
    if q + r < k {
      i, j := k - q - r, k - r;
      ModIs(start + i, k, m);
      ModIs(0, k, 0);
    } else {
      i, j := 0, q;
      ModIs(start, k, m);
      ModIs(q + r - k, k, 0);
    }
  }

  /** A wrap inside the call makes two places of the result the same provider. */
  lemma TornRepeats(avail: seq<string>, start: nat)
    requires start < WRAP && |avail| <= WRAP && Torn(start, |avail|)
    ensures exists i, j :: 0 <= i < j < |avail| && Rotated(avail, start)[i] == Rotated(avail, start)[j]
  {
    var i, j := TornPlaces(start, |avail|, WRAP);
    ModIs(start + i, WRAP, 0);
    ModIs(start + j, WRAP, 1);
    assert Rotated(avail, start)[i] == Rotated(avail, start)[j];
  }

  /** Wraparound is harmless exactly when it does not fall inside a call, or the chain length
      divides the counter's range: then and only then is the result a permutation. */
  lemma PermutationUnlessTorn(avail: seq<string>, start: nat)
    requires start < WRAP && avail != [] && |avail| <= WRAP && Distinct(avail)
    ensures multiset(Rotated(avail, start)) == multiset(avail) <==> !Torn(start, |avail|)
  {
    if Torn(start, |avail|) {
      TornRepeats(avail, start);
      var out := Rotated(avail, start);
      var i, j :| 0 <= i < j < |avail| && out[i] == out[j];
      TwiceIn(out, i, j);
      OnceIn(avail, out[i]);
    } else {
      RotatedIsRotation(avail, start);
      RotationIsPermutation(avail, start % |avail|);
    }
  }

  /** The last call before the counter wraps, over three providers: the third is left out. */
  lemma TornExample(a: string, b: string, c: string)
    ensures Rotated([a, b, c], WRAP - 1) == [a, a, b]
  {
  }

  // ----- fairness

  lemma Distributes(p: nat, q: nat, k: nat)
    ensures (p + q) * k == p * k + q * k
  {
  }

  lemma SumQuotient(a: nat, n: nat, k: nat)
    requires k > 0
    ensures (a + n) / k == a / k + n / k + if a % k + n % k < k then 0 else 1
  {
    var p, q, carry := a / k, n / k, if a % k + n % k < k then 0 else 1;
    Distributes(p, q, k);
    Distributes(p + q, carry, k);
    ModIs(a + n, k, p + q + carry);
  }

  /** How often provider j of k leads in the n calls from start on, none of them wrapping. */
  function Leads(start: nat, n: nat, k: nat, j: nat): nat
    requires k > 0
  {
    if n == 0 then 0 else Leads(start, n - 1, k, j) + if (start + n - 1) % k == j then 1 else 0
  }

  /** Calls before n that provider j leads, counted from zero. */
  function LedBefore(n: nat, k: nat, j: nat): nat
    requires j < k
  {
    (n + k - 1 - j) / k
  }

  lemma LedStep(n: nat, k: nat, j: nat)
    requires j < k
    ensures LedBefore(n + 1, k, j) == LedBefore(n, k, j) + if n % k == j then 1 else 0
  {
    var a := k - 1 - j;
    ModIs(a, k, 0);
    SumQuotient(n, a, k);
    ModIs(a + 1, k, if j == 0 then 1 else 0);
    SumQuotient(n, a + 1, k);
    assert n + 1 + k - 1 - j == n + (a + 1) && n + k - 1 - j == n + a;
  }

  lemma {:induction false} LeadsIsDifference(start: nat, n: nat, k: nat, j: nat)
    requires j < k
    ensures Leads(start, n, k, j) == LedBefore(start + n, k, j) - LedBefore(start, k, j)
  {
    if n > 0 {
      LeadsIsDifference(start, n - 1, k, j);
      LedStep(start + n - 1, k, j);
    }
  }

  lemma QuotientGap(a: nat, n: nat, k: nat)
    requires k > 0
    ensures n / k <= (a + n) / k - a / k <= (n + k - 1) / k
  {
    SumQuotient(a, n, k);
    RoundedUp(n, k);
  }

  lemma RoundedUp(n: nat, k: nat)
    requires k > 0
    ensures (n + k - 1) / k == if n % k == 0 then n / k else n / k + 1
  {
    var q := n / k;
    assert n == q * k + n % k && (q + 1) * k == q * k + k;
    ModIs(n + k - 1, k, if n % k == 0 then q else q + 1);
  }

  /** The counter after n calls that each found somebody available. */
  function After(calls: nat, n: nat): nat { if n == 0 then calls else Next(After(calls, n - 1)) }

  lemma {:induction false} AfterIsSum(calls: nat, n: nat)
    requires calls + n < WRAP
    ensures After(calls, n) == calls + n
  {
    if n > 0 {
      AfterIsSum(calls, n - 1);
      ModIs(calls + n, WRAP, 0);
    }
  }

  /** How many of n calls in a row have p lead. */
  function Led(avail: seq<string>, calls: nat, n: nat, p: string): nat
    requires avail != []
  {
    if n == 0 then 0 else Led(avail, calls, n - 1, p) + if Rotated(avail, After(calls, n - 1))[0] == p then 1 else 0
  }

  lemma {:induction false} LedIsLeads(avail: seq<string>, calls: nat, n: nat, j: nat)
    requires j < |avail| && Distinct(avail) && calls + n <= WRAP
    ensures Led(avail, calls, n, avail[j]) == Leads(calls, n, |avail|, j)
  {
    if n > 0 {
      LedIsLeads(avail, calls, n - 1, j);
      AfterIsSum(calls, n - 1);
      ModIs(calls + n - 1, WRAP, 0);
    }
  }

  /** Over any n calls in a row with the same k providers available, before the counter wraps, each
      leads n/k times, rounded down or rounded up. */
  lemma Fairness(avail: seq<string>, calls: nat, n: nat, j: nat)
    requires j < |avail| && Distinct(avail) && calls + n <= WRAP
    ensures |avail| > 0 && n / |avail| <= Led(avail, calls, n, avail[j]) <= (n + |avail| - 1) / |avail|
  {
    var k := |avail|;
    LedIsLeads(avail, calls, n, j);
    LeadsIsDifference(calls, n, k, j);
    assert LedBefore(calls + n, k, j) == ((calls + k - 1 - j) + n) / k;
    QuotientGap(calls + k - 1 - j, n, k);
  }
}
