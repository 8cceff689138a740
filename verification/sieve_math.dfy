/** The mathematics of TPs/Fork/primes.c: repeatedly dropping the multiples of the first number of a stream
    that starts as 2..n leaves, as first numbers, exactly the primes up to n. */
module SieveMath {

  predicate Divides(d: int, m: int) { d > 0 && m % d == 0 }

  ghost predicate IsPrime(m: int) { m >= 2 && forall d :: 2 <= d < m ==> !Divides(d, m) }

  /** All primes up to n, in increasing order. */
  ghost function PrimesUpTo(n: int): seq<int>
    decreases if n < 2 then 0 else n
  {
    if n < 2 then [] else PrimesUpTo(n - 1) + (if IsPrime(n) then [n] else [])
  }

  // The numbers a, a+1, ..., b-1.
  function Range(a: int, b: int): (r: seq<int>)
    ensures |r| == (if a < b then b - a else 0) && forall i | 0 <= i < |r| :: r[i] == a + i
    decreases b - a
  {
    if a >= b then [] else Range(a, b - 1) + [b - 1]
  }

  /** What send_primes_candidates forwards: the numbers of s that p does not divide. */
  function Drop(p: int, s: seq<int>): seq<int>
  {
    if s == [] then [] else Drop(p, s[..|s| - 1]) + (if !Divides(p, s[|s| - 1]) then [s[|s| - 1]] else [])
  }

  predicate Ascending(s: seq<int>) {
    (forall i | 0 <= i < |s| :: s[i] >= 2) && (forall i, j | 0 <= i < j < |s| :: s[i] < s[j])
  }

  // What one process of the chain makes of its whole input.
  ghost function Sift(s: seq<int>): seq<int>
    requires Ascending(s)
  {
    if s == [] then [] else Drop(s[0], s[1..])
  }

  lemma AppendAscending(d: seq<int>, x: int)
    requires Ascending(d) && x >= 2 && forall y | y in d :: y < x
    ensures Ascending(d + [x])
  {
    assert forall i | 0 <= i < |d| :: d[i] in d;
  }

  lemma {:induction false} DropExact(p: int, s: seq<int>)
    requires Ascending(s)
    ensures Ascending(Drop(p, s)) && |Drop(p, s)| <= |s|
    ensures forall x :: x in Drop(p, s) <==> x in s && !Divides(p, x)
  {
    hide Divides;
    if s != [] {
      var t, x := s[..|s| - 1], s[|s| - 1];
      DropExact(p, t);
      assert s == t + [x];
      assert forall y | y in t :: y < x;
      if !Divides(p, x) {
        AppendAscending(Drop(p, t), x);
      }
    }
  }

  lemma {:induction false} DropPrefix(p: int, s: seq<int>, k: nat)
    requires k <= |s|
    ensures Drop(p, s[..k]) <= Drop(p, s)
  {
    hide Divides;
    if k < |s| {
      DropPrefix(p, s[..|s| - 1], k);
      assert s[..|s| - 1][..k] == s[..k];
    } else {
      assert s[..k] == s;
    }
  }

  lemma SiftExact(s: seq<int>)
    requires Ascending(s)
    ensures Ascending(Sift(s)) && (s != [] ==> |Sift(s)| < |s|)
    ensures forall x :: x in Sift(s) <==> x in s && !Divides(s[0], x)
  {
    hide Divides;
    if s != [] {
      DropExact(s[0], s[1..]);
      DividesLe(s[0], s[0]);
      assert s == [s[0]] + s[1..];
    }
  }

  lemma SiftPrefix(s: seq<int>, t: seq<int>)
    requires Ascending(t) && s <= t && s != []
    ensures Ascending(s) && Sift(s) <= Sift(t)
  {
    hide Divides;
    assert t[1..][..|s| - 1] == s[1..];
    DropPrefix(t[0], t[1..], |s| - 1);
  }

  /** The input of the k-th process of the chain, were it read to the end. */
  ghost function Stage(n: int, k: nat): (s: seq<int>)
    ensures Ascending(s)
  {
    if k == 0 then Range(2, n + 1)
    else
      SiftExact(Stage(n, k - 1));
      Sift(Stage(n, k - 1))
  }

  // The first numbers of the first m stages.
  ghost function Heads(n: int, m: nat): (h: seq<int>)
    requires forall k: nat | k < m :: Stage(n, k) != []
    ensures |h| == m && forall k | 0 <= k < m :: h[k] == Stage(n, k)[0]
  {
    if m == 0 then [] else Heads(n, m - 1) + [Stage(n, m - 1)[0]]
  }

  lemma {:induction false} StageExact(n: int, k: nat, x: int)
    requires forall j: nat | j < k :: Stage(n, j) != []
    ensures x in Stage(n, k) <==> 2 <= x <= n && forall j: nat | j < k :: !Divides(Stage(n, j)[0], x)
  {
    hide Divides;
    if k == 0 {
      if 2 <= x <= n {
        assert Stage(n, 0)[x - 2] == x;
      }
    } else {
      StageExact(n, k - 1, x);
      SiftExact(Stage(n, k - 1));
    }
  }

  lemma {:induction false} StageShrinks(n: int, k: nat)
    requires forall j: nat | j < k :: Stage(n, j) != []
    ensures |Stage(n, k)| + k <= |Stage(n, 0)|
  {
    if k > 0 {
      StageShrinks(n, k - 1);
      SiftExact(Stage(n, k - 1));
    }
  }

  lemma OnlyZero(a: int, c: int, r: int)
    requires 0 <= r < c && a * c == r
    ensures r == 0
  {
    assert a >= 1 ==> a * c >= 1 * c;
    assert a <= -1 ==> a * c <= -1 * c;
  }

  lemma MultipleMod(q: int, c: int)
    requires c > 0
    ensures (q * c) % c == 0
  {
    var m := q * c;
    assert m == m / c * c + m % c;
    assert (q - m / c) * c == m % c;
    OnlyZero(q - m / c, c, m % c);
  }

  lemma DividesTrans(c: int, b: int, a: int)
    requires Divides(c, b) && Divides(b, a)
    ensures Divides(c, a)
  {
    var x, y := b / c, a / b;
    assert b == x * c && a == y * b;
    assert a == (y * x) * c;
    MultipleMod(y * x, c);
  }

  lemma DividesLe(d: int, m: int)
    requires m > 0
    ensures Divides(m, m)
    ensures Divides(d, m) ==> d <= m
  {
    if d > m {
      assert m % d == m;
    }
    assert m == 1 * m;
    MultipleMod(1, m);
  }

  lemma HeadIsPrime(n: int, k: nat)
    requires forall j: nat | j <= k :: Stage(n, j) != []
    ensures IsPrime(Stage(n, k)[0]) && Stage(n, k)[0] <= n
  {
    hide Divides;
    var s := Stage(n, k);
    var h := s[0];
    StageExact(n, k, h);
    assert forall j: nat | j < k :: !Divides(Stage(n, j)[0], h);
    forall d | 2 <= d < h
      ensures !Divides(d, h)
    {
      if Divides(d, h) {
        NotInStage(n, k, d);
        var j: nat :| j < k && Divides(Stage(n, j)[0], d);
        DividesTrans(Stage(n, j)[0], d, h);
      }
    }
  }

  lemma NotInStage(n: int, k: nat, d: int)
    requires forall j: nat | j <= k :: Stage(n, j) != []
    requires 2 <= d < Stage(n, k)[0]
    ensures exists j: nat :: j < k && Divides(Stage(n, j)[0], d)
  {
    hide Divides;
    StageExact(n, k, d);
    StageExact(n, k, Stage(n, k)[0]);
    assert d !in Stage(n, k);
  }

  lemma HeadsAscend(n: int, i: nat, j: nat)
    requires i < j && forall k: nat | k <= j :: Stage(n, k) != []
    ensures Stage(n, i)[0] < Stage(n, j)[0]
  {
    hide Divides;
    var x := Stage(n, j)[0];
    StageExact(n, j, x);
    StageExact(n, i, x);
    assert x in Stage(n, i) && !Divides(Stage(n, i)[0], x);
    DividesLe(x, x);
  }

  lemma SomeHeadDivides(n: int, m: nat, q: int) returns (j: nat)
    requires (forall k: nat | k < m :: Stage(n, k) != []) && Stage(n, m) == [] && 2 <= q <= n
    ensures j < m && Divides(Stage(n, j)[0], q)
  {
    hide Divides;
    StageExact(n, m, q);
    j :| 0 <= j < m && Divides(Stage(n, j)[0], q);
  }

  /** A chain that ends has printed every prime. */
  lemma PrimeIsHead(n: int, m: nat, q: int)
    requires (forall j: nat | j < m :: Stage(n, j) != []) && Stage(n, m) == []
    requires IsPrime(q) && q <= n
    ensures q in Heads(n, m)
  {
    hide Divides;
    hide Stage;
    var j := SomeHeadDivides(n, m, q);
    var h := Stage(n, j)[0];
    DividesLe(h, q);
    assert h >= 2 && !(h < q);
    assert Heads(n, m)[j] == h;
  }

  lemma {:induction false} PrimesExact(n: int)
    ensures Ascending(PrimesUpTo(n)) && forall x :: x in PrimesUpTo(n) <==> IsPrime(x) && x <= n
    decreases if n < 2 then 0 else n
  {
    hide Divides;
    if n >= 2 {
      PrimesExact(n - 1);
      var a := PrimesUpTo(n - 1);
      assert forall i | 0 <= i < |a| :: a[i] in a;
    }
  }

  ghost predicate SameMembers(a: seq<int>, b: seq<int>) { forall x :: x in a <==> x in b }

  lemma {:induction false} SameAscending(a: seq<int>, b: seq<int>)
    requires Ascending(a) && Ascending(b) && SameMembers(a, b)
    ensures a == b
  {
    assert b != [] ==> b[0] in a;
    if a != [] {
      SameLast(a, b);
      hide Ascending;
      hide SameMembers;
      SameAscending(a[..|a| - 1], b[..|b| - 1]);
      assert a == a[..|a| - 1] + [a[|a| - 1]] && b == b[..|b| - 1] + [b[|b| - 1]];
    }
  }

  // The largest members are the same, and so are the rest.
  lemma SameLast(a: seq<int>, b: seq<int>)
    requires Ascending(a) && Ascending(b) && SameMembers(a, b) && a != []
    ensures b != [] && a[|a| - 1] == b[|b| - 1]
    ensures Ascending(a[..|a| - 1]) && Ascending(b[..|b| - 1]) && SameMembers(a[..|a| - 1], b[..|b| - 1])
  {
    assert a[|a| - 1] in b;
    assert b[|b| - 1] in a;
    var m, k, a', b' := a[|a| - 1], b[|b| - 1], a[..|a| - 1], b[..|b| - 1];
    WithoutLast(a);
    WithoutLast(b);
    hide Ascending;
    forall x
      ensures x in a' <==> x in b'
    {
      assert x in a' <==> x in a && x != m;
      assert x in b' <==> x in b && x != k;
    }
  }

  lemma WithoutLast(a: seq<int>)
    requires Ascending(a) && a != []
    ensures Ascending(a[..|a| - 1]) && forall x | x in a :: x <= a[|a| - 1]
    ensures forall x :: x in a[..|a| - 1] <==> x in a && x != a[|a| - 1]
  {
    var a' := a[..|a| - 1];
    assert a == a' + [a[|a| - 1]];
    assert forall x | x in a' :: x < a[|a| - 1];
  }

  /** The first numbers of a chain that ends are the primes up to n. */
  lemma HeadsArePrimes(n: int, m: nat)
    requires (forall j: nat | j < m :: Stage(n, j) != []) && Stage(n, m) == []
    ensures Heads(n, m) == PrimesUpTo(n)
  {
    hide Divides;
    var h := Heads(n, m);
    forall i, j | 0 <= i < j < |h|
      ensures h[i] < h[j]
    {
      HeadsAscend(n, i, j);
    }
    PrimesExact(n);
    forall i | 0 <= i < |h|
      ensures h[i] >= 2 && h[i] in PrimesUpTo(n)
    {
      HeadIsPrime(n, i);
    }
    forall x | x in PrimesUpTo(n)
      ensures x in h
    {
      PrimeIsHead(n, m, x);
    }
    SameAscending(h, PrimesUpTo(n));
  }
}
