/** Nucleus sampling: candidates are cropped before they are sorted, and the crop must not change
    what is sampled. Probabilities are real numbers. */
module TopP {
  datatype ProbIndex = ProbIndex(prob: real, index: nat)

  function Sum(s: seq<ProbIndex>): real {
    if s == [] then 0.0 else Sum(s[..|s| - 1]) + s[|s| - 1].prob
  }

  /** The entries of a distribution, in index order. */
  function Entries(p: seq<real>): (s: seq<ProbIndex>)
    ensures |s| == |p|
  {
    seq(|p|, i requires 0 <= i < |p| => ProbIndex(p[i], i))
  }

  predicate Distribution(p: seq<real>) {
    (forall i | 0 <= i < |p| :: 0.0 <= p[i]) && Sum(Entries(p)) == 1.0
  }

  /** No value below this can be in the nucleus, as the code has it. */
  function Cutoff(topp: real, n: nat): real
    requires 2 <= n
  {
    (1.0 - topp) / (n - 1) as real
  }

  function Crop(s: seq<ProbIndex>, cutoff: real): (c: seq<ProbIndex>)
    ensures |c| <= |s|
  {
    if s == [] then []
    else Crop(s[..|s| - 1], cutoff) + (if s[|s| - 1].prob >= cutoff then [s[|s| - 1]] else [])
  }

  predicate Descending(s: seq<ProbIndex>) {
    forall i, j | 0 <= i < j < |s| :: s[i].prob >= s[j].prob
  }

  /** What `qsort` promises: a descending arrangement, with equal values in any order. */
  ghost predicate SortOf(sorted: seq<ProbIndex>, s: seq<ProbIndex>) {
    Descending(sorted) && multiset(sorted) == multiset(s)
  }

  // ---------------------------------------------------------------- arrangements

  function Without(s: seq<ProbIndex>, i: nat): seq<ProbIndex>
    requires i < |s|
  {
    s[..i] + s[i + 1..]
  }

  lemma SplitAt(s: seq<ProbIndex>, i: nat)
    requires i < |s|
    ensures multiset(s) == multiset(Without(s, i)) + multiset{s[i]}
  {
    assert s == s[..i] + [s[i]] + s[i + 1..];
  }

  predicate SameProbs(a: seq<ProbIndex>, b: seq<ProbIndex>) {
    |a| == |b| && forall i | 0 <= i < |a| :: a[i].prob == b[i].prob
  }

  lemma Cancel(x: multiset<ProbIndex>, y: multiset<ProbIndex>, e: ProbIndex)
    requires x + multiset{e} == y + multiset{e}
    ensures x == y
  {
    forall d ensures x[d] == y[d] {
      assert (x + multiset{e})[d] == (y + multiset{e})[d];
    }
  }

  lemma RemoveBoth(a: seq<ProbIndex>, b: seq<ProbIndex>, j: nat)
    requires multiset(a) == multiset(b) && a != [] && j < |b| && b[j] == a[0]
    ensures multiset(a[1..]) == multiset(Without(b, j))
  {
    SplitAt(a, 0);
    SplitAt(b, j);
    assert Without(a, 0) == a[1..];
    Cancel(multiset(a[1..]), multiset(Without(b, j)), a[0]);
  }

  lemma HeadIsMost(a: seq<ProbIndex>, e: ProbIndex)
    requires Descending(a) && e in multiset(a)
    ensures a != [] && e.prob <= a[0].prob
  {
    var i :| 0 <= i < |a| && a[i] == e;
  }

  lemma DropHead(b: seq<ProbIndex>, j: nat)
    requires Descending(b) && j < |b| && b[j].prob == b[0].prob
    ensures Descending(Without(b, j)) && SameProbs(Without(b, j), b[1..])
  {
    assert forall i | 0 <= i <= j :: b[i].prob == b[0].prob;
  }

  /** Taking the head of one arrangement out of both leaves two arrangements. */
  lemma HeadsOut(a: seq<ProbIndex>, b: seq<ProbIndex>) returns (c: seq<ProbIndex>)
    requires Descending(a) && SortOf(b, a) && a != []
    ensures b != [] && a[0].prob == b[0].prob && Descending(a[1..]) && SortOf(c, a[1..]) && SameProbs(c, b[1..])
  {
    SameLength(a, b);
    assert a[0] in multiset(b) && b[0] in multiset(a);
    HeadIsMost(a, b[0]);
    HeadIsMost(b, a[0]);
    var j :| 0 <= j < |b| && b[j] == a[0];
    c := Without(b, j);
    RemoveBoth(a, b, j);
    DropHead(b, j);
  }

  /** Two descending arrangements of the same entries agree on the probabilities. */
  lemma {:induction false} SortsAgree(a: seq<ProbIndex>, b: seq<ProbIndex>)
    requires Descending(a) && SortOf(b, a)
    ensures SameProbs(a, b)
    decreases |a|
  {
    if a == [] {
      SameLength(a, b);
    } else {
      var c := HeadsOut(a, b);
      SortsAgree(a[1..], c);
      SameTails(a, b, c);
    }
  }

  lemma SameTails(a: seq<ProbIndex>, b: seq<ProbIndex>, c: seq<ProbIndex>)
    requires a != [] && b != [] && a[0].prob == b[0].prob && SameProbs(a[1..], c) && SameProbs(c, b[1..])
    ensures SameProbs(a, b)
  {
    forall i | 0 <= i < |a| ensures a[i].prob == b[i].prob {
      if 0 < i {
        assert a[1..][i - 1].prob == c[i - 1].prob == b[1..][i - 1].prob;
      }
    }
  }

  lemma SameLength(a: seq<ProbIndex>, b: seq<ProbIndex>)
    requires multiset(a) == multiset(b)
    ensures |a| == |b|
  {
    assert |multiset(a)| == |a| && |multiset(b)| == |b|;
  }

  // ---------------------------------------------------------------- sums

  lemma {:induction false} SumWithout(s: seq<ProbIndex>, i: nat)
    requires i < |s|
    ensures Sum(s) == Sum(Without(s, i)) + s[i].prob
  {
    var n := |s| - 1;
    if i == n {
      assert Without(s, i) == s[..n];
    } else {
      SumWithout(s[..n], i);
      assert Without(s, i)[..n - 1] == Without(s[..n], i);
    }
  }

  /** A sum does not depend on the arrangement. */
  lemma {:induction false} SumArranged(a: seq<ProbIndex>, b: seq<ProbIndex>)
    requires multiset(a) == multiset(b)
    ensures Sum(a) == Sum(b)
    decreases |a|
  {
    SameLength(a, b);
    if a != [] {
      assert a[0] in multiset(b);
      var j :| 0 <= j < |b| && b[j] == a[0];
      RemoveBoth(a, b, j);
      SumArranged(a[1..], Without(b, j));
      SumWithout(a, 0);
      assert Without(a, 0) == a[1..];
      SumWithout(b, j);
    }
  }

  lemma {:induction false} SumSplit(s: seq<ProbIndex>, k: nat)
    requires k <= |s|
    ensures Sum(s) == Sum(s[..k]) + Sum(s[k..])
    decreases |s|
  {
    if k == |s| {
      assert s[..k] == s;
    } else {
      var n := |s| - 1;
      SumSplit(s[..n], k);
      assert s[..n][..k] == s[..k] && s[k..][..n - k] == s[..n][k..];
    }
  }

  /** The sum of `n` copies of `c`. */
  function Copies(n: nat, c: real): real {
    if n == 0 then 0.0 else Copies(n - 1, c) + c
  }

  lemma {:induction false} CopiesIs(n: nat, c: real)
    ensures Copies(n, c) == n as real * c
  {
    if n != 0 {
      CopiesIs(n - 1, c);
    }
  }

  lemma {:induction false} CopiesMono(m: nat, n: nat, c: real)
    requires m <= n && 0.0 <= c
    ensures Copies(m, c) <= Copies(n, c)
    decreases n
  {
    if m < n {
      CopiesMono(m, n - 1, c);
    }
  }

  lemma {:induction false} SumBelow(s: seq<ProbIndex>, cutoff: real)
    requires forall e | e in s :: e.prob < cutoff
    ensures Sum(s) <= Copies(|s|, cutoff) && (s != [] ==> Sum(s) < Copies(|s|, cutoff))
  {
    if s != [] {
      var n := |s| - 1;
      assert forall e | e in s[..n] :: e in s;
      SumBelow(s[..n], cutoff);
      assert s[n] in s;
    }
  }

  lemma {:induction false} SumSame(a: seq<ProbIndex>, b: seq<ProbIndex>, n: nat)
    requires n <= |a| && n <= |b| && forall i | 0 <= i < n :: a[i].prob == b[i].prob
    ensures Sum(a[..n]) == Sum(b[..n])
  {
    if n != 0 {
      SumSame(a, b, n - 1);
      assert a[..n][..n - 1] == a[..n - 1] && b[..n][..n - 1] == b[..n - 1];
    }
  }

  // ---------------------------------------------------------------- the crop

  lemma {:induction false} CropCounts(s: seq<ProbIndex>, cutoff: real, e: ProbIndex)
    ensures multiset(Crop(s, cutoff))[e] == if e.prob >= cutoff then multiset(s)[e] else 0
  {
    if s != [] {
      var n := |s| - 1;
      CropCounts(s[..n], cutoff, e);
      assert s == s[..n] + [s[n]];
      var last := if s[n].prob >= cutoff then [s[n]] else [];
      assert multiset(Crop(s, cutoff)) == multiset(Crop(s[..n], cutoff)) + multiset(last);
    }
  }

  lemma CropArranged(a: seq<ProbIndex>, b: seq<ProbIndex>, cutoff: real)
    requires multiset(a) == multiset(b)
    ensures multiset(Crop(a, cutoff)) == multiset(Crop(b, cutoff))
  {
    forall e ensures multiset(Crop(a, cutoff))[e] == multiset(Crop(b, cutoff))[e] {
      CropCounts(a, cutoff, e);
      CropCounts(b, cutoff, e);
    }
  }

  lemma CropNext(f: seq<ProbIndex>, m: nat, cutoff: real)
    requires m < |f|
    ensures Crop(f[..m + 1], cutoff) == Crop(f[..m], cutoff) + (if f[m].prob >= cutoff then [f[m]] else [])
  {
    assert f[..m + 1][..m] == f[..m];
  }

  lemma {:induction false} CropKeepsAll(s: seq<ProbIndex>, cutoff: real)
    requires forall i | 0 <= i < |s| :: s[i].prob >= cutoff
    ensures Crop(s, cutoff) == s
  {
    if s != [] {
      CropKeepsAll(s[..|s| - 1], cutoff);
      assert s == s[..|s| - 1] + [s[|s| - 1]];
    }
  }

  /** Of a descending sequence the crop keeps a front. */
  lemma {:induction false} CropOfFront(f: seq<ProbIndex>, m: nat, cutoff: real) returns (k: nat)
    requires Descending(f) && m <= |f|
    ensures k <= m && Crop(f[..m], cutoff) == f[..k]
    ensures forall i | 0 <= i < m :: f[i].prob < cutoff <==> k <= i
  {
    if m == 0 {
      k := 0;
    } else if f[m - 1].prob >= cutoff {
      CropKeepsAll(f[..m], cutoff);
      k := m;
    } else {
      k := CropOfFront(f, m - 1, cutoff);
      CropNext(f, m - 1, cutoff);
    }
  }

  /** Cropping and sorting gives, probability for probability, a front of sorting everything. */
  lemma CroppedIsFront(all: seq<ProbIndex>, cutoff: real, s: seq<ProbIndex>, f: seq<ProbIndex>)
    requires SortOf(s, Crop(all, cutoff)) && SortOf(f, all)
    ensures |s| <= |f| && SameProbs(f[..|s|], s)
    ensures forall i | |s| <= i < |f| :: f[i].prob < cutoff
  {
    CropArranged(f, all, cutoff);
    var k := CropOfFront(f, |f|, cutoff);
    assert f[..|f|] == f;
    SameLength(s, f[..k]);
    SortsAgree(f[..k], s);
  }

  /** With topp at least 1 / n the cutoff is at most the mean. */
  lemma CutoffBelowMean(topp: real, n: nat)
    requires 2 <= n && 1.0 / n as real <= topp < 1.0
    ensures 0.0 <= Cutoff(topp, n) && Copies(n - 1, Cutoff(topp, n)) == 1.0 - topp
    ensures Copies(n, Cutoff(topp, n)) <= 1.0
  {
    var c, m, mean := Cutoff(topp, n), (n - 1) as real, 1.0 / n as real;
    assert m * c == 1.0 - topp && (m + 1.0) * mean == 1.0;
    assert m * c <= m * mean;
    CopiesIs(n - 1, c);
    CopiesIs(n, c);
  }

  lemma CutoffFits(topp: real, n: nat, dropped: nat, sum: real)
    requires 2 <= n && 1.0 / n as real <= topp < 1.0 && dropped <= n
    requires dropped == 0 ==> sum == 0.0
    requires dropped == n ==> sum == 1.0
    requires 0 < dropped ==> sum < Copies(dropped, Cutoff(topp, n))
    ensures 1.0 - sum > topp
  {
    CutoffBelowMean(topp, n);
    if 0 < dropped < n {
      CopiesMono(dropped, n - 1, Cutoff(topp, n));
    }
  }

  /** The total of what the crop drops. */
  lemma DroppedIsSmall(f: seq<ProbIndex>, k: nat, cutoff: real)
    requires k <= |f| && forall i | k <= i < |f| :: f[i].prob < cutoff
    ensures k < |f| ==> Sum(f[k..]) < Copies(|f| - k, cutoff)
  {
    var rest := f[k..];
    forall e | e in rest ensures e.prob < cutoff {
      var i :| 0 <= i < |rest| && rest[i] == e;
      assert f[k + i] == e;
    }
    SumBelow(rest, cutoff);
  }

  lemma SumOfSame(a: seq<ProbIndex>, b: seq<ProbIndex>)
    requires SameProbs(a, b)
    ensures Sum(a) == Sum(b)
  {
    SumSame(a, b, |a|);
    assert a[..|a|] == a && b[..|a|] == b;
  }

  /** A front behind which everything is below the cutoff holds more than `topp`. */
  lemma FrontHoldsEnough(f: seq<ProbIndex>, k: nat, topp: real)
    requires 2 <= |f| && Sum(f) == 1.0 && 1.0 / |f| as real <= topp < 1.0
    requires k <= |f| && forall i | k <= i < |f| :: f[i].prob < Cutoff(topp, |f|)
    ensures Sum(f[..k]) > topp
  {
    SumSplit(f, k);
    DroppedIsSmall(f, k, Cutoff(topp, |f|));
    assert k == 0 ==> f[k..] == f;
    CutoffFits(topp, |f|, |f| - k, Sum(f[k..]));
  }

  /** What survives the crop still holds more than `topp`. */
  lemma CropKeepsEnough(p: seq<real>, topp: real, s: seq<ProbIndex>, f: seq<ProbIndex>)
    requires 2 <= |p| && Distribution(p) && 1.0 / |p| as real <= topp < 1.0
    requires SortOf(s, Crop(Entries(p), Cutoff(topp, |p|))) && SortOf(f, Entries(p))
    ensures |s| <= |f| && SameProbs(f[..|s|], s) && Sum(s) > topp
  {
    CroppedIsFront(Entries(p), Cutoff(topp, |p|), s, f);
    SameLength(f, Entries(p));
    SumArranged(f, Entries(p));
    FrontHoldsEnough(f, |s|, topp);
    SumOfSame(f[..|s|], s);
  }

  // ---------------------------------------------------------------- truncation and sampling

  datatype Nucleus = Nucleus(last: int, total: real)

  /** The truncation loop from candidate `i` on, with `total` so far. */
  function Cut(s: seq<ProbIndex>, topp: real, i: nat, total: real): (n: Nucleus)
    requires i <= |s|
    ensures i - 1 <= n.last < |s|
    decreases |s| - i
  {
    if i == |s| then Nucleus(|s| - 1, total)
    else if total + s[i].prob > topp then Nucleus(i, total + s[i].prob)
    else Cut(s, topp, i + 1, total + s[i].prob)
  }

  lemma SumNext(s: seq<ProbIndex>, i: nat)
    requires i < |s|
    ensures Sum(s[..i + 1]) == Sum(s[..i]) + s[i].prob
  {
    assert s[..i + 1][..i] == s[..i];
  }

  /** The nucleus is the shortest front that holds more than `topp`. */
  lemma {:induction false} CutIsShortest(s: seq<ProbIndex>, topp: real, i: nat, total: real)
    requires i <= |s| && total == Sum(s[..i]) <= topp < Sum(s)
    ensures var n := Cut(s, topp, i, total);
            i <= n.last && n.total == Sum(s[..n.last + 1]) > topp && Sum(s[..n.last]) <= topp
    decreases |s| - i
  {
    assert s[..|s|] == s;
    if i < |s| {
      SumNext(s, i);
      if total + s[i].prob <= topp {
        CutIsShortest(s, topp, i + 1, total + s[i].prob);
      }
    }
  }

  /** Candidates behind a front that holds enough do not matter. */
  lemma {:induction false} CutOfFront(s: seq<ProbIndex>, f: seq<ProbIndex>, topp: real, i: nat, total: real)
    requires |s| <= |f| && SameProbs(f[..|s|], s) && i <= |s|
    requires total == Sum(s[..i]) <= topp < Sum(s)
    ensures Cut(s, topp, i, total) == Cut(f, topp, i, total)
    decreases |s| - i
  {
    assert s[..|s|] == s;
    if i < |s| {
      SumNext(s, i);
      assert f[..|s|][i].prob == s[i].prob;
      if total + s[i].prob <= topp {
        CutOfFront(s, f, topp, i + 1, total + s[i].prob);
      }
    }
  }

  /** The sampling loop over candidates 0 to `last`. */
  function Pick(s: seq<ProbIndex>, last: nat, r: real, i: nat, cdf: real): (k: nat)
    requires last < |s| && i <= last + 1
    ensures k <= last
    decreases last + 1 - i
  {
    if i == last + 1 then last
    else if r < cdf + s[i].prob then i
    else Pick(s, last, r, i + 1, cdf + s[i].prob)
  }

  /** The sample inverts the distribution function of the nucleus: the case for rounding errors is
      never taken. */
  lemma {:induction false} PickInverts(s: seq<ProbIndex>, last: nat, r: real, i: nat, cdf: real)
    requires last < |s| && i <= last + 1 && cdf == Sum(s[..i]) <= r < Sum(s[..last + 1])
    ensures var k := Pick(s, last, r, i, cdf); Sum(s[..k]) <= r < Sum(s[..k + 1])
    decreases last + 1 - i
  {
    if i <= last {
      SumNext(s, i);
      if cdf + s[i].prob <= r {
        PickInverts(s, last, r, i + 1, cdf + s[i].prob);
      }
    }
  }

  lemma {:induction false} PickSame(s: seq<ProbIndex>, f: seq<ProbIndex>, last: nat, r: real, i: nat, cdf: real)
    requires last < |s| <= |f| && SameProbs(f[..|s|], s) && i <= last + 1
    ensures Pick(s, last, r, i, cdf) == Pick(f, last, r, i, cdf)
    decreases last + 1 - i
  {
    if i <= last {
      assert f[..|s|][i].prob == s[i].prob;
      PickSame(s, f, last, r, i + 1, cdf + s[i].prob);
    }
  }

  /** The candidate sampled from a sorted list. */
  function Sampled(s: seq<ProbIndex>, topp: real, coin: real): nat
    requires s != [] && 0 <= Cut(s, topp, 0, 0.0).last
  {
    Place(s, Cut(s, topp, 0, 0.0), coin)
  }

  function Place(s: seq<ProbIndex>, n: Nucleus, coin: real): (k: nat)
    requires 0 <= n.last < |s|
    ensures k <= n.last
  {
    Pick(s, n.last, Threshold(n, coin), 0, 0.0)
  }

  function Threshold(n: Nucleus, coin: real): real {
    coin * n.total
  }

  lemma FrontHasNucleus(s: seq<ProbIndex>, f: seq<ProbIndex>, topp: real)
    requires |s| <= |f| && SameProbs(f[..|s|], s) && 0.0 <= topp < Sum(s)
    ensures s != [] && Cut(s, topp, 0, 0.0) == Cut(f, topp, 0, 0.0) && 0 <= Cut(s, topp, 0, 0.0).last
  {
    assert s[..0] == [];
    CutOfFront(s, f, topp, 0, 0.0);
    CutIsShortest(s, topp, 0, 0.0);
  }

  lemma FrontHasPlace(s: seq<ProbIndex>, f: seq<ProbIndex>, n: Nucleus, coin: real)
    requires |s| <= |f| && SameProbs(f[..|s|], s) && 0 <= n.last < |s|
    ensures Place(s, n, coin) == Place(f, n, coin) && s[Place(s, n, coin)].prob == f[Place(f, n, coin)].prob
  {
    PickSame(s, f, n.last, Threshold(n, coin), 0, 0.0);
    var k := Place(s, n, coin);
    assert f[..|s|][k].prob == s[k].prob;
  }

  /** Dropping the small values first changes nothing: the nucleus, its total and the place of the
      sample are those of the full sorted distribution, and the candidate drawn has the probability
      found there. */
  lemma CropIsSound(p: seq<real>, topp: real, coin: real, s: seq<ProbIndex>, f: seq<ProbIndex>)
    requires 2 <= |p| && Distribution(p) && 1.0 / |p| as real <= topp < 1.0
    requires SortOf(s, Crop(Entries(p), Cutoff(topp, |p|))) && SortOf(f, Entries(p))
    ensures s != [] && f != [] && Cut(s, topp, 0, 0.0) == Cut(f, topp, 0, 0.0) && 0 <= Cut(s, topp, 0, 0.0).last
    ensures Sampled(s, topp, coin) == Sampled(f, topp, coin) <= Cut(s, topp, 0, 0.0).last
    ensures s[Sampled(s, topp, coin)].prob == f[Sampled(f, topp, coin)].prob
  {
    CropKeepsEnough(p, topp, s, f);
    MeanIsPositive(|p|);
    FrontHasNucleus(s, f, topp);
    FrontHasPlace(s, f, Cut(s, topp, 0, 0.0), coin);
  }

  lemma MeanIsPositive(n: nat)
    requires 0 < n
    ensures 0.0 < 1.0 / n as real
  {
  }

  /** With a coin in [0, 1) the sample is the candidate at which the distribution function of the
      nucleus passes the coin. */
  lemma SampleInverts(s: seq<ProbIndex>, topp: real, coin: real)
    requires 0.0 <= topp < Sum(s) && 0.0 <= coin < 1.0
    ensures var n := Cut(s, topp, 0, 0.0);
            && s != [] && 0 <= n.last
            && Sum(s[..Place(s, n, coin)]) <= Threshold(n, coin) < Sum(s[..Place(s, n, coin) + 1])
  {
    assert s[..0] == [];
    CutIsShortest(s, topp, 0, 0.0);
    var n := Cut(s, topp, 0, 0.0);
    ThresholdFits(n, coin);
    PickInverts(s, n.last, Threshold(n, coin), 0, 0.0);
  }

  lemma ThresholdFits(n: Nucleus, coin: real)
    requires 0.0 < n.total && 0.0 <= coin < 1.0
    ensures 0.0 <= Threshold(n, coin) < n.total
  {
    var t := n.total;
    Positive(1.0 - coin, t);
    assert (1.0 - coin) * t == t - coin * t;
  }

  lemma Positive(a: real, b: real)
    requires 0.0 < a && 0.0 < b
    ensures 0.0 < a * b
  {
  }

  // ---------------------------------------------------------------- when the crop is safe

  lemma EmptyCrop(s: seq<ProbIndex>, cutoff: real)
    ensures Crop(s, cutoff) == [] <==> forall e | e in s :: e.prob < cutoff
  {
    if Crop(s, cutoff) == [] {
      forall e | e in s ensures e.prob < cutoff {
        CropCounts(s, cutoff, e);
        assert e in multiset(s);
      }
    } else {
      var e := Crop(s, cutoff)[0];
      assert e in multiset(Crop(s, cutoff));
      CropCounts(s, cutoff, e);
      assert e in multiset(s);
    }
  }

  lemma {:induction false} SumConstant(s: seq<ProbIndex>, c: real)
    requires forall i | 0 <= i < |s| :: s[i].prob == c
    ensures Sum(s) == Copies(|s|, c)
  {
    if s != [] {
      SumConstant(s[..|s| - 1], c);
    }
  }

  function Uniform(n: nat): (p: seq<real>)
    requires 0 < n
    ensures |p| == n
  {
    seq(n, _ => 1.0 / n as real)
  }

  lemma UniformIsDistribution(n: nat)
    requires 0 < n
    ensures Distribution(Uniform(n))
  {
    SumConstant(Entries(Uniform(n)), 1.0 / n as real);
    CopiesIs(n, 1.0 / n as real);
    MeanIsPositive(n);
  }

  /** Below 1 / n the cutoff is above the mean. */
  lemma CutoffAboveMean(topp: real, n: nat)
    requires 2 <= n && topp < 1.0 / n as real
    ensures 1.0 / n as real < Cutoff(topp, n)
  {
    var c, m, mean := Cutoff(topp, n), (n - 1) as real, 1.0 / n as real;
    assert m * c == 1.0 - topp && m * mean == 1.0 - mean;
    if c <= mean {
    }
  }

  predicate CropEmpties(p: seq<real>, topp: real)
    requires 2 <= |p|
  {
    Crop(Entries(p), Cutoff(topp, |p|)) == []
  }

  /** For every topp below one, some distribution loses all its candidates, and the sampler then
      reads in front of its buffer, exactly when topp is below 1 / n. */
  lemma CropIsSafeIff(n: nat, topp: real)
    requires 2 <= n && topp < 1.0
    ensures (forall p: seq<real> | |p| == n && Distribution(p) :: !CropEmpties(p, topp)) <==> 1.0 / n as real <= topp
  {
    if 1.0 / n as real <= topp {
      forall p: seq<real> | |p| == n && Distribution(p) ensures !CropEmpties(p, topp) {
        NothingEmpties(p, topp);
      }
    } else {
      UniformIsDistribution(n);
      CutoffAboveMean(topp, n);
      EmptyCrop(Entries(Uniform(n)), Cutoff(topp, n));
      assert CropEmpties(Uniform(n), topp);
    }
  }

  lemma NothingEmpties(p: seq<real>, topp: real)
    requires 2 <= |p| && Distribution(p) && 1.0 / |p| as real <= topp < 1.0
    ensures !CropEmpties(p, topp)
  {
    CutoffBelowMean(topp, |p|);
    EmptyCrop(Entries(p), Cutoff(topp, |p|));
    if CropEmpties(p, topp) {
      SumBelow(Entries(p), Cutoff(topp, |p|));
    }
  }

  // ---------------------------------------------------------------- the sampler

  /** `qsort` as a parameter. */
  ghost predicate Sorts(sort: seq<ProbIndex> -> seq<ProbIndex>) {
    forall s :: SortOf(sort(s), s)
  }

  /** The sample from the nucleus of this arrangement of the distribution. */
  ghost predicate DrawnFrom(f: seq<ProbIndex>, p: seq<real>, topp: real, coin: real, token: nat) {
    && SortOf(f, Entries(p)) && f != [] && 0 <= Cut(f, topp, 0, 0.0).last
    && token == f[Sampled(f, topp, coin)].index
  }

  /** Entry `k` of a descending arrangement is drawn by the coin from its nucleus, entries 0 to `m`: the
      shortest front with a sum above `topp`. The coin is spread over the sum of the nucleus. */
  ghost predicate DrawnBy(f: seq<ProbIndex>, m: nat, k: nat, p: seq<real>, topp: real, coin: real, token: nat) {
    && Descending(f) && multiset(f) == multiset(Entries(p)) && k <= m < |f|
    && Sum(f[..m]) <= topp < Sum(f[..m + 1])
    && Sum(f[..k]) <= coin * Sum(f[..m + 1]) < Sum(f[..k + 1])
    && token == f[k].index
  }

  lemma TotalIs(n: Nucleus, coin: real, total: real)
    requires n.total == total
    ensures Threshold(n, coin) == coin * total
  {
  }

  lemma PlaceInverts(f: seq<ProbIndex>, last: nat, r: real) returns (k: nat)
    requires last < |f| && 0.0 <= r < Sum(f[..last + 1])
    ensures k == Pick(f, last, r, 0, 0.0) && Sum(f[..k]) <= r < Sum(f[..k + 1])
  {
    assert f[..0] == [];
    PickInverts(f, last, r, 0, 0.0);
    k := Pick(f, last, r, 0, 0.0);
  }

  lemma CutAndPlace(f: seq<ProbIndex>, topp: real, coin: real) returns (m: nat, k: nat, r: real)
    requires 0.0 <= topp < Sum(f) && 0.0 <= coin < 1.0
    ensures m < |f| && Sum(f[..m]) <= topp < Sum(f[..m + 1])
    ensures k <= m && Sum(f[..k]) <= r < Sum(f[..k + 1]) && r == coin * Sum(f[..m + 1])
    ensures 0 <= Cut(f, topp, 0, 0.0).last && k == Sampled(f, topp, coin)
  {
    assert f[..0] == [];
    CutIsShortest(f, topp, 0, 0.0);
    var n := Cut(f, topp, 0, 0.0);
    ThresholdFits(n, coin);
    m, r := n.last, Threshold(n, coin);
    k := PlaceInverts(f, m, r);
    TotalIs(n, coin, Sum(f[..m + 1]));
  }

  lemma DrawnIsInverted(f: seq<ProbIndex>, p: seq<real>, topp: real, coin: real, token: nat) returns (m: nat, k: nat)
    requires DrawnFrom(f, p, topp, coin, token) && Sum(Entries(p)) == 1.0 && 0.0 <= topp < 1.0 && 0.0 <= coin < 1.0
    ensures DrawnBy(f, m, k, p, topp, coin, token)
  {
    SumArranged(f, Entries(p));
    var r;
    m, k, r := CutAndPlace(f, topp, coin);
  }

  /** Sorted candidates, followed by the dropped values in any descending order, are a descending
      arrangement of everything. */
  lemma ExtendedSort(all: seq<ProbIndex>, cutoff: real, s: seq<ProbIndex>, g: seq<ProbIndex>)
    returns (f: seq<ProbIndex>)
    requires SortOf(s, Crop(all, cutoff)) && SortOf(g, all)
    ensures SortOf(f, all) && s <= f
  {
    CropArranged(g, all, cutoff);
    var k := CropOfFront(g, |g|, cutoff);
    assert g[..|g|] == g && g == g[..k] + g[k..];
    SameLength(s, g[..k]);
    SortsAgree(g[..k], s);
    f := s + g[k..];
    BothDescend(s, g, k);
  }

  lemma BothDescend(s: seq<ProbIndex>, g: seq<ProbIndex>, k: nat)
    requires Descending(s) && Descending(g) && k == |s| <= |g| && SameProbs(g[..k], s)
    ensures Descending(s + g[k..])
  {
    var f := s + g[k..];
    forall i | 0 <= i < |f| ensures f[i].prob == g[i].prob {
      if i < k {
        assert g[..k][i].prob == s[i].prob;
      }
    }
  }

  class Sampler {
    const probindex: array<ProbIndex>

    constructor (n: nat)
      ensures fresh(probindex) && probindex.Length == n
    {
      probindex := new ProbIndex[n](_ => ProbIndex(0.0, 0));
    }

    /** Fills the buffer with the candidates. */
    method CropInto(p: seq<real>, topp: real) returns (n0: nat)
      requires 2 <= |p| <= probindex.Length
      modifies probindex
      ensures n0 <= |p| && probindex[..n0] == Crop(Entries(p), Cutoff(topp, |p|))
    {
      var cutoff := (1.0 - topp) / (|p| - 1) as real;
      n0 := 0;
      for i := 0 to |p|
        invariant n0 <= i && probindex[..n0] == Crop(Entries(p)[..i], cutoff)
      {
        assert Entries(p)[..i + 1][..i] == Entries(p)[..i];
        if p[i] >= cutoff {
          probindex[n0] := ProbIndex(p[i], i);
          n0 := n0 + 1;
        }
      }
      assert Entries(p)[..|p|] == Entries(p);
    }

    method SortFront(n0: nat, sort: seq<ProbIndex> -> seq<ProbIndex>)
      requires n0 <= probindex.Length && Sorts(sort)
      modifies probindex
      ensures probindex[..n0] == sort(old(probindex[..n0]))
    {
      var sorted := sort(probindex[..n0]);
      SameLength(sorted, probindex[..n0]);
      for i := 0 to n0
        invariant forall j | 0 <= j < i :: probindex[j] == sorted[j]
      {
        probindex[i] := sorted[i];
      }
    }

    method Truncate(n0: nat, topp: real) returns (lastIdx: int, cumulative: real)
      requires n0 <= probindex.Length
      ensures Nucleus(lastIdx, cumulative) == Cut(probindex[..n0], topp, 0, 0.0)
    {
      cumulative := 0.0;
      lastIdx := n0 - 1;
      ghost var s := probindex[..n0];
      for i := 0 to n0
        invariant lastIdx == n0 - 1 && Cut(s, topp, i, cumulative) == Cut(s, topp, 0, 0.0)
      {
        cumulative := cumulative + probindex[i].prob;
        if cumulative > topp {
          return i, cumulative;
        }
      }
    }

    method Draw(n0: nat, lastIdx: nat, r: real) returns (k: nat)
      requires lastIdx < n0 <= probindex.Length
      ensures k == Pick(probindex[..n0], lastIdx, r, 0, 0.0)
    {
      var cdf := 0.0;
      ghost var s := probindex[..n0];
      for i := 0 to lastIdx + 1
        invariant Pick(s, lastIdx, r, i, cdf) == Pick(s, lastIdx, r, 0, 0.0)
      {
        cdf := cdf + probindex[i].prob;
        if r < cdf {
          return i;
        }
      }
      return lastIdx;
    }

    /** The token drawn is the sample from the nucleus of the full distribution, in a descending arrangement
        that starts with the candidates. */
    method Sample(p: seq<real>, topp: real, coin: real, sort: seq<ProbIndex> -> seq<ProbIndex>) returns (token: nat)
      requires 2 <= |p| <= probindex.Length && Distribution(p) && 1.0 / |p| as real <= topp < 1.0 && Sorts(sort)
      modifies probindex
      ensures var s := sort(Crop(Entries(p), Cutoff(topp, |p|)));
              && s != [] && 0 <= Cut(s, topp, 0, 0.0).last
              && token == s[Sampled(s, topp, coin)].index
              && token < |p| && p[token] == s[Sampled(s, topp, coin)].prob
              && exists f :: s <= f && DrawnFrom(f, p, topp, coin, token)
      ensures 0.0 <= coin < 1.0 ==> exists f, m: nat, k: nat :: DrawnBy(f, m, k, p, topp, coin, token)
    {
      var n0 := CropInto(p, topp);
      SortFront(n0, sort);
      ghost var s := probindex[..n0];
      CropIsSound(p, topp, coin, s, sort(Entries(p)));
      var lastIdx, cumulative := Truncate(n0, topp);
      var k := Draw(n0, lastIdx, Threshold(Nucleus(lastIdx, cumulative), coin));
      token := probindex[k].index;
      CandidateIsEntry(p, Cutoff(topp, |p|), s, k);
      ghost var f := ExtendedSort(Entries(p), Cutoff(topp, |p|), s, sort(Entries(p)));
      CropIsSound(p, topp, coin, s, f);
      assert s <= f && DrawnFrom(f, p, topp, coin, token);
      if 0.0 <= coin < 1.0 {
        MeanIsPositive(|p|);
        ghost var m, at := DrawnIsInverted(f, p, topp, coin, token);
        assert DrawnBy(f, m, at, p, topp, coin, token);
      }
    }
  }

  lemma CandidateIsEntry(p: seq<real>, cutoff: real, s: seq<ProbIndex>, k: nat)
    requires SortOf(s, Crop(Entries(p), cutoff)) && k < |s|
    ensures s[k].index < |p| && p[s[k].index] == s[k].prob >= cutoff
  {
    assert s[k] in multiset(s);
    CropCounts(Entries(p), cutoff, s[k]);
    assert s[k] in multiset(Entries(p));
  }
}
