/** Interleave-1 sharding of positions over N ranks: owner(p) = p % N, local(p) = p / N. */
module Ownership {
  import opened Wrappers

  /** Owned positions below c: one per full round, and one more when c's last round reaches r. */
  function Own(c: nat, r: nat, N: nat): nat
    requires N > 0
  {
    c / N + (if c % N > r then 1 else 0)
  }

  /** The same count as the reassembly index is given it. */
  function OwnClamped(c: nat, r: nat, N: nat): int
    requires N > 0
  {
    if c > r then (c - r + N - 1) / N else 0
  }

  /** The localisation of sequence lengths: full rounds plus the clamped remainder. */
  function Localise(c: nat, r: nat, N: nat): int
    requires N > 0
  {
    c / N + Min(Max(c % N - r, 0), 1)
  }

  /** The global position of rank r's local row lp. */
  function GlobalOf(lp: nat, r: nat, N: nat): nat {
    lp * N + r
  }

  lemma Multiples(a: int, b: int, N: nat)
    ensures a <= b ==> a * N <= b * N
    ensures a * N + N == (a + 1) * N
  {}

  /** Local row lp of rank r is position lp·N + r, and no other. */
  lemma Localised(lp: nat, r: nat, N: nat)
    requires r < N
    ensures GlobalOf(lp, r, N) / N == lp && GlobalOf(lp, r, N) % N == r
  {
    var p := lp * N + r;
    var q := p / N;
    assert p == q * N + p % N;
    Multiples(q + 1, lp, N);
    Multiples(lp + 1, q, N);
    Multiples(q, q, N);
    Multiples(lp, lp, N);
  }

  lemma Globalised(p: nat, N: nat)
    requires N > 0
    ensures GlobalOf(p / N, p % N, N) == p && p % N < N
  {}

  /** The owned rows are exactly those whose global position lies below c. */
  lemma OwnIff(c: nat, r: nat, N: nat, lp: nat)
    requires r < N
    ensures lp < Own(c, r, N) <==> GlobalOf(lp, r, N) < c
  {
    var q := c / N;
    Globalised(c, N);
    Multiples(lp + 1, q, N);
    Multiples(q + 1, lp, N);
    Multiples(lp, lp, N);
    Multiples(q, q, N);
  }

  lemma CeilDivide(a: nat, N: nat, q: nat)
    requires N > 0 && q * N < a + N <= (q + 1) * N
    ensures (a + N - 1) / N == q
  {
    var t := a + N - 1;
    Multiples(q, q, N);
    Localised(q, t - q * N, N);
  }

  lemma CountsAgree(c: nat, r: nat, N: nat)
    requires r < N
    ensures Own(c, r, N) == OwnClamped(c, r, N) == Localise(c, r, N)
  {
    if c > r {
      var q := Own(c, r, N);
      OwnIff(c, r, N, q);
      if q > 0 { OwnIff(c, r, N, q - 1); }
      Multiples(q - 1, q, N);
      CeilDivide(c - r, N, q);
    } else {
      OwnIff(c, r, N, 0);
    }
  }

  /** The positions below c that rank r owns. */
  ghost function Owned(c: nat, r: nat, N: nat): (s: set<nat>)
    requires r < N
    ensures forall p: nat :: p in s <==> p < c && p % N == r
  {
    if c == 0 then {}
    else if (c - 1) % N == r then Owned(c - 1, r, N) + {c - 1}
    else Owned(c - 1, r, N)
  }

  /** The formula counts them. */
  lemma {:induction false} OwnCounts(c: nat, r: nat, N: nat)
    requires r < N
    ensures |Owned(c, r, N)| == Own(c, r, N)
  {
    if c > 0 {
      OwnCounts(c - 1, r, N);
      OwnNext(c - 1, r, N);
    } else {
      OwnIff(0, r, N, 0);
    }
  }

  lemma NextGlobal(lp: nat, r: nat, N: nat)
    ensures GlobalOf(lp, r, N) + 1 == GlobalOf(lp, r + 1, N)
    ensures r + 1 == N ==> GlobalOf(lp, r + 1, N) == GlobalOf(lp + 1, 0, N)
  {
    Multiples(lp, lp, N);
  }

  lemma OwnNext(c: nat, r: nat, N: nat)
    requires r < N
    ensures Own(c + 1, r, N) == Own(c, r, N) + (if c % N == r then 1 else 0)
  {
    hide GlobalOf;
    var q, m := c / N, c % N;
    Globalised(c, N);
    NextGlobal(q, m, N);
    if m + 1 < N {
      Localised(q, m + 1, N);
    } else {
      Localised(q + 1, 0, N);
    }
  }

  lemma {:induction false} RowIsOwned(c: nat, r: nat, N: nat, lp: nat)
    requires r < N && lp < Own(c, r, N)
    ensures GlobalOf(lp, r, N) in Owned(c, r, N)
  {
    hide Own, GlobalOf;
    OwnIff(c, r, N, lp);
    Localised(lp, r, N);
  }

  lemma OwnedIsRow(c: nat, r: nat, N: nat, p: nat) returns (lp: nat)
    requires r < N && p in Owned(c, r, N)
    ensures lp < Own(c, r, N) && GlobalOf(lp, r, N) == p
  {
    hide Own, GlobalOf;
    lp := p / N;
    Globalised(p, N);
    OwnIff(c, r, N, lp);
  }

  /** Mapping the counted local rows to global positions gives exactly the owned positions below c. */
  lemma {:induction false} OwnedIsImage(c: nat, r: nat, N: nat)
    requires r < N
    ensures (set lp | 0 <= lp < Own(c, r, N) :: GlobalOf(lp, r, N)) == Owned(c, r, N)
  {
    hide Own, GlobalOf, Owned;
    var image := set lp | 0 <= lp < Own(c, r, N) :: GlobalOf(lp, r, N);
    forall p | p in image
      ensures p in Owned(c, r, N)
    {
      var lp :| 0 <= lp < Own(c, r, N) && p == GlobalOf(lp, r, N);
      RowIsOwned(c, r, N, lp);
    }
    forall p | p in Owned(c, r, N)
      ensures p in image
    {
      var lp := OwnedIsRow(c, r, N, p);
    }
  }

  function OwnSum(c: nat, N: nat, ranks: nat): nat
    requires N > 0
  {
    if ranks == 0 then 0 else OwnSum(c, N, ranks - 1) + Own(c, ranks - 1, N)
  }

  lemma {:induction false} OwnSumNext(c: nat, N: nat, ranks: nat)
    requires 0 < N && ranks <= N
    ensures OwnSum(c + 1, N, ranks) == OwnSum(c, N, ranks) + (if c % N < ranks then 1 else 0)
  {
    if ranks > 0 {
      OwnSumNext(c, N, ranks - 1);
      OwnNext(c, ranks - 1, N);
    }
  }

  /** Over all ranks the counts add up to c. */
  lemma {:induction false} OwnSumsToAll(c: nat, N: nat)
    requires N > 0
    ensures OwnSum(c, N, N) == c
  {
    if c > 0 {
      OwnSumsToAll(c - 1, N);
      OwnSumNext(c - 1, N, N);
    } else {
      OwnSumZero(N, N);
    }
  }

  lemma {:induction false} OwnSumZero(N: nat, ranks: nat)
    requires 0 < N
    ensures OwnSum(0, N, ranks) == 0
  {
    if ranks > 0 { OwnSumZero(N, ranks - 1); }
  }
}
