/** Group-wise quantisation to eight bits and the integer matrix product on quantised tensors, over
    the reals. */
module QuantMatmul {
  import opened Products
  import opened Reals

  const Q_MAX := 127.0

  // ---------------------------------------------------------------- one group

  function GroupMax(row: seq<real>): (m: real)
    ensures 0.0 <= m
  {
    if row == [] then 0.0
    else
      var m, v := GroupMax(row[..|row| - 1]), Abs(row[|row| - 1]);
      if v > m then v else m
  }

  lemma {:induction false} MaxIsMost(row: seq<real>)
    ensures forall i | 0 <= i < |row| :: Abs(row[i]) <= GroupMax(row)
  {
    if row != [] {
      MaxIsMost(row[..|row| - 1]);
    }
  }

  function Scale(row: seq<real>): real {
    GroupMax(row) / Q_MAX
  }

  /** `round`: to the nearest integer, halves away from zero. */
  function RoundAway(v: real): int {
    if v < 0.0 then -((-v + 0.5).Floor) else (v + 0.5).Floor
  }

  /** Rounding is to the nearest integer, and halves go away from zero, on both sides alike. */
  lemma RoundAwayIs(v: real)
    ensures 0.0 <= v ==> RoundAway(v) as real - 0.5 <= v < RoundAway(v) as real + 0.5
    ensures RoundAway(-v) == -RoundAway(v)
  {
  }

  /** The stored value of `v` in a group that is not all zero. */
  function Quant(v: real, scale: real): int
    requires scale != 0.0
  {
    RoundAway(v / scale)
  }

  function QuantRow(row: seq<real>): (q: seq<int>)
    requires GroupMax(row) != 0.0
    ensures |q| == |row|
  {
    seq(|row|, i requires 0 <= i < |row| && GroupMax(row) != 0.0 => Quant(row[i], Scale(row)))
  }

  // ---------------------------------------------------------------- products, one at a time

  lemma MulAdd(a: real, b: real, c: real)
    ensures Mul(a + b, c) == Mul(a, c) + Mul(b, c) && Mul(a - b, c) == Mul(a, c) - Mul(b, c)
    ensures Mul(c, a + b) == Mul(c, a) + Mul(c, b)
  {
  }

  lemma MulAbs(a: real, b: real, e: real)
    requires Abs(a) <= e
    ensures Abs(Mul(a, b)) <= Mul(e, Abs(b))
  {
    var m := Abs(b);
    MulAdd(e, a, m);
  }

  // ---------------------------------------------------------------- the error of one value

  lemma RatioFits(v: real, most: real)
    requires 0.0 < most && Abs(v) <= most
    ensures -Q_MAX <= v / (most / Q_MAX) <= Q_MAX
    ensures Mul(v / (most / Q_MAX), most / Q_MAX) == v
  {
    var s := most / Q_MAX;
    var r := v / s;
    assert r * s == v && Q_MAX * s == most;
    MulAdd(r, Q_MAX, s);
    MulAdd(-Q_MAX, r, s);
    if r > Q_MAX {
    }
    if r < -Q_MAX {
    }
  }

  /** Every value fits in eight bits and comes back with an error of at most groupmax / 254. */
  lemma QuantError(row: seq<real>, i: nat)
    requires i < |row| && GroupMax(row) != 0.0
    ensures -127 <= QuantRow(row)[i] <= 127
    ensures Abs(Mul(QuantRow(row)[i] as real, Scale(row)) - row[i]) <= GroupMax(row) / 254.0
  {
    MaxIsMost(row);
    ValueError(row[i], GroupMax(row));
  }

  lemma ValueError(v: real, most: real)
    requires 0.0 < most && Abs(v) <= most
    ensures -127 <= Quant(v, most / Q_MAX) <= 127
    ensures Abs(Mul(Quant(v, most / Q_MAX) as real, most / Q_MAX) - v) <= most / 254.0
  {
    var s := most / Q_MAX;
    var r := v / s;
    RatioFits(v, most);
    var d := RoundAway(r) as real - r;
    MulAbs(d, s, 0.5);
    MulAdd(RoundAway(r) as real, r, s);
  }

  lemma {:induction false} MaxIsReached(row: seq<real>) returns (i: nat)
    requires GroupMax(row) != 0.0
    ensures i < |row| && Abs(row[i]) == GroupMax(row)
  {
    i := |row| - 1;
    if Abs(row[i]) != GroupMax(row) {
      i := MaxIsReached(row[..i]);
    }
  }

  lemma RatioIs(v: real, most: real)
    requires 0.0 < most && Abs(v) == most
    ensures v / (most / Q_MAX) == if v < 0.0 then -127.0 else 127.0
  {
    var s := most / Q_MAX;
    assert s * Q_MAX == most;
    if v < 0.0 {
      assert s * -Q_MAX == v;
    }
  }

  /** The values of the greatest magnitude become 127 or -127. */
  lemma LargestIs127(row: seq<real>, i: nat)
    requires i < |row| && row[i] != 0.0 && forall j | 0 <= j < |row| :: Abs(row[j]) <= Abs(row[i])
    ensures GroupMax(row) == Abs(row[i]) && QuantRow(row)[i] == if row[i] < 0.0 then -127 else 127
  {
    MaxIsMost(row);
    var k := MaxIsReached(row);
    RatioIs(row[i], GroupMax(row));
  }

  // ---------------------------------------------------------------- dot products

  function Dot(a: seq<real>, b: seq<real>, n: nat): real
    requires n <= |a| && n <= |b|
  {
    if n == 0 then 0.0 else Dot(a, b, n - 1) + Mul(a[n - 1], b[n - 1])
  }

  function AbsSum(b: seq<real>, n: nat): (s: real)
    requires n <= |b|
    ensures 0.0 <= s
  {
    if n == 0 then 0.0 else AbsSum(b, n - 1) + Abs(b[n - 1])
  }

  function IntDot(a: seq<int>, b: seq<int>, n: nat): int
    requires n <= |a| && n <= |b|
  {
    if n == 0 then 0 else IntDot(a, b, n - 1) + a[n - 1] * b[n - 1]
  }

  function Dequant(q: seq<int>, s: real): (x: seq<real>)
    ensures |x| == |q|
  {
    seq(|q|, i requires 0 <= i < |q| => Mul(q[i] as real, s))
  }

  /** An integer sum under the weight scale and the input scale, in the code's order. */
  function Scaled(d: int, t: real, s: real): real {
    Mul(Mul(d as real, t), s)
  }

  /** An integer dot product under both scales is the dot product of what the groups stand for. */
  lemma {:induction false} ScaledIntDot(a: seq<int>, b: seq<int>, s: real, t: real, n: nat)
    requires n <= |a| && n <= |b|
    ensures Scaled(IntDot(a, b, n), t, s) == Dot(Dequant(a, s), Dequant(b, t), n)
  {
    if n != 0 {
      ScaledIntDot(a, b, s, t, n - 1);
    }
  }

  predicate Bytes(q: seq<int>) {
    forall i | 0 <= i < |q| :: -128 <= q[i] < 128
  }

  lemma {:induction false} Multiple(a: nat, b: int)
    requires -128 <= b <= 128
    ensures -128 * a <= a * b <= 128 * a
  {
    if a != 0 {
      Multiple(a - 1, b);
      assert a * b == (a - 1) * b + b;
    }
  }

  lemma Negated(a: int, b: int)
    ensures (-a) * b == -(a * b)
  {
  }

  lemma ByteProduct(a: int, b: int)
    requires -128 <= a < 128 && -128 <= b < 128
    ensures -16384 <= a * b <= 16384
  {
    if 0 <= a {
      Multiple(a, b);
    } else {
      Multiple(-a, b);
      Negated(a, b);
    }
  }

  /** The 32-bit accumulator does not overflow for groups of fewer than 2^17 values. */
  lemma {:induction false} AccumulatorFits(a: seq<int>, b: seq<int>, n: nat)
    requires Bytes(a) && Bytes(b) && n <= |a| && n <= |b|
    ensures -16384 * n <= IntDot(a, b, n) <= 16384 * n
    ensures n < 0x2_0000 ==> -0x8000_0000 <= IntDot(a, b, n) < 0x8000_0000
  {
    if n != 0 {
      AccumulatorFits(a, b, n - 1);
      ByteProduct(a[n - 1], b[n - 1]);
    }
  }

  /** A vector that is off by at most `e` everywhere gives a product that is off by at most `e` times
      the sum of the other vector's magnitudes. */
  lemma {:induction false} DotError(a: seq<real>, x: seq<real>, b: seq<real>, e: real, n: nat)
    requires n <= |a| && n <= |x| && n <= |b|
    requires forall i | 0 <= i < n :: Abs(a[i] - x[i]) <= e
    ensures Abs(Dot(a, b, n) - Dot(x, b, n)) <= Mul(e, AbsSum(b, n))
  {
    if n != 0 {
      DotError(a, x, b, e, n - 1);
      MulAdd(a[n - 1], x[n - 1], b[n - 1]);
      MulAbs(a[n - 1] - x[n - 1], b[n - 1], e);
      MulAdd(AbsSum(b, n - 1), Abs(b[n - 1]), e);
    }
  }

  // ---------------------------------------------------------------- tensors

  /** Quantised values, and one scale for every group of them. */
  datatype Tensor = Tensor(q: seq<int>, s: seq<real>)

  predicate Grouped(t: Tensor, size: nat) {
    |t.q| == Times(|t.s|, size)
  }

  function GroupAt<T>(x: seq<T>, size: nat, g: nat): (row: seq<T>)
    requires Times(g + 1, size) <= |x|
    ensures |row| == size
  {
    x[Times(g, size)..Times(g, size) + size]
  }

  lemma GroupFits(size: nat, g: nat, groups: nat)
    requires g < groups
    ensures Times(g + 1, size) <= Times(groups, size) && Times(g, size) + size == Times(g + 1, size)
  {
    TimesMono(g + 1, groups, size);
  }

  /** What group `g` of a tensor stands for. */
  function GroupValue(t: Tensor, size: nat, g: nat): (x: seq<real>)
    requires Grouped(t, size) && g < |t.s|
    ensures |x| == size
  {
    GroupFits(size, g, |t.s|);
    Dequant(GroupAt(t.q, size, g), t.s[g])
  }

  /** What `groups` groups from `first` on stand for, one behind the other. */
  function Value(t: Tensor, size: nat, first: nat, groups: nat): (x: seq<real>)
    requires Grouped(t, size) && first + groups <= |t.s|
    ensures |x| == Times(groups, size)
  {
    if groups == 0 then [] else Value(t, size, first, groups - 1) + GroupValue(t, size, first + groups - 1)
  }

  lemma {:induction false} DotFront(a: seq<real>, b: seq<real>, c: seq<real>, d: seq<real>, n: nat)
    requires n <= |a| && n <= |b|
    ensures Dot(a + c, b + d, n) == Dot(a, b, n)
  {
    if n != 0 {
      DotFront(a, b, c, d, n - 1);
    }
  }

  lemma {:induction false} DotAppend(a: seq<real>, b: seq<real>, c: seq<real>, d: seq<real>, n: nat)
    requires |a| == |b| && n <= |c| && n <= |d|
    ensures Dot(a + c, b + d, |a| + n) == Dot(a, b, |a|) + Dot(c, d, n)
  {
    if n == 0 {
      DotFront(a, b, c, d, |a|);
    } else {
      DotAppend(a, b, c, d, n - 1);
    }
  }

  /** The contribution of one group of the input and group `h` of the weights. */
  function Term(x: Tensor, w: Tensor, size: nat, g: nat, h: nat): real
    requires Grouped(x, size) && Grouped(w, size) && g < |x.s| && h < |w.s|
  {
    GroupFits(size, g, |x.s|);
    GroupFits(size, h, |w.s|);
    Scaled(IntDot(GroupAt(x.q, size, g), GroupAt(w.q, size, h), size), w.s[h], x.s[g])
  }

  lemma TermIsDot(x: Tensor, w: Tensor, size: nat, g: nat, h: nat)
    requires Grouped(x, size) && Grouped(w, size) && g < |x.s| && h < |w.s|
    ensures Term(x, w, size, g, h) == Dot(GroupValue(x, size, g), GroupValue(w, size, h), size)
  {
    GroupFits(size, g, |x.s|);
    GroupFits(size, h, |w.s|);
    ScaledIntDot(GroupAt(x.q, size, g), GroupAt(w.q, size, h), x.s[g], w.s[h], size);
  }

  /** Row `i` of the product after `groups` groups, as the code sums it. */
  function RowOut(x: Tensor, w: Tensor, size: nat, first: nat, groups: nat): real
    requires Grouped(x, size) && Grouped(w, size) && groups <= |x.s| && first + groups <= |w.s|
  {
    if groups == 0 then 0.0
    else RowOut(x, w, size, first, groups - 1) + Term(x, w, size, groups - 1, first + groups - 1)
  }

  /** The integer product is the plain dot product of the two dequantised tensors. */
  lemma {:induction false} MatmulIsDot(x: Tensor, w: Tensor, size: nat, first: nat, groups: nat)
    requires Grouped(x, size) && Grouped(w, size) && groups <= |x.s| && first + groups <= |w.s|
    ensures RowOut(x, w, size, first, groups)
         == Dot(Value(x, size, 0, groups), Value(w, size, first, groups), Times(groups, size))
  {
    if groups != 0 {
      var g := groups - 1;
      MatmulIsDot(x, w, size, first, g);
      TermIsDot(x, w, size, g, first + g);
      DotAppend(Value(x, size, 0, g), Value(w, size, first, g), GroupValue(x, size, g),
                GroupValue(w, size, first + g), size);
    }
  }

  // ---------------------------------------------------------------- the error of a product

  /** `t` is `x` quantised, and no group of `x` is all zero. */
  ghost predicate QuantOf(t: Tensor, x: seq<real>, size: nat) {
    && Grouped(t, size) && |x| == |t.q|
    && forall g: nat | g < |t.s| :: QuantGroup(t, x, size, g)
  }

  ghost predicate QuantGroup(t: Tensor, x: seq<real>, size: nat, g: nat)
    requires |x| == |t.q| && g < |t.s|
  {
    && Times(g + 1, size) <= |x|
    && GroupMax(GroupAt(x, size, g)) != 0.0
    && t.s[g] == Scale(GroupAt(x, size, g)) && GroupAt(t.q, size, g) == QuantRow(GroupAt(x, size, g))
  }

  /** The sum over the groups of groupmax / 254 times the magnitudes of the weights. */
  function ErrorBound(x: seq<real>, w: Tensor, size: nat, first: nat, groups: nat): real
    requires Grouped(w, size) && first + groups <= |w.s| && Times(groups, size) <= |x|
  {
    if groups == 0 then 0.0
    else
      var g := groups - 1;
      GroupFits(size, g, groups);
      ErrorBound(x, w, size, first, g)
      + Mul(GroupMax(GroupAt(x, size, g)) / 254.0, AbsSum(GroupValue(w, size, first + g), size))
  }

  lemma GroupError(t: Tensor, x: seq<real>, b: seq<real>, size: nat, g: nat)
    requires Grouped(t, size) && |x| == |t.q| && g < |t.s| && QuantGroup(t, x, size, g) && |b| == size
    requires Times(g + 1, size) <= |x|
    ensures var row := GroupAt(x, size, g);
            Abs(Dot(GroupValue(t, size, g), b, size) - Dot(row, b, size)) <= Mul(GroupMax(row) / 254.0, AbsSum(b, size))
  {
    GroupFits(size, g, |t.s|);
    var row, values := GroupAt(x, size, g), GroupValue(t, size, g);
    forall i | 0 <= i < size ensures Abs(values[i] - row[i]) <= GroupMax(row) / 254.0 {
      QuantError(row, i);
    }
    DotError(values, row, b, GroupMax(row) / 254.0, size);
  }

  lemma AddError(d: real, p: real, e: real, a: real, b: real, f: real)
    requires Abs(d - p) <= e && Abs(a - b) <= f
    ensures Abs((d + a) - (p + b)) <= e + f
  {
  }

  /** The first groups of a plain vector, one behind the other. */
  function Front(x: seq<real>, size: nat, groups: nat): (y: seq<real>)
    requires Times(groups, size) <= |x|
    ensures |y| == Times(groups, size)
  {
    if groups == 0 then []
    else
      GroupFits(size, groups - 1, groups);
      Front(x, size, groups - 1) + GroupAt(x, size, groups - 1)
  }

  lemma {:induction false} FrontIs(x: seq<real>, size: nat, groups: nat)
    requires Times(groups, size) <= |x|
    ensures Front(x, size, groups) == x[..Times(groups, size)]
  {
    if groups != 0 {
      FrontIs(x, size, groups - 1);
    }
  }

  lemma {:induction false} ValueErrors(t: Tensor, x: seq<real>, w: Tensor, size: nat, first: nat, groups: nat)
    requires QuantOf(t, x, size) && Grouped(w, size) && groups <= |t.s| && first + groups <= |w.s|
    requires Times(groups, size) <= |x|
    ensures Abs(Dot(Value(t, size, 0, groups), Value(w, size, first, groups), Times(groups, size))
              - Dot(Front(x, size, groups), Value(w, size, first, groups), Times(groups, size)))
         <= ErrorBound(x, w, size, first, groups)
  {
    if groups != 0 {
      var g := groups - 1;
      GroupFits(size, g, groups);
      ValueErrors(t, x, w, size, first, g);
      ErrorsStep(t, x, w, size, first, g);
    }
  }

  lemma ErrorsStep(t: Tensor, x: seq<real>, w: Tensor, size: nat, first: nat, g: nat)
    requires QuantOf(t, x, size) && Grouped(w, size) && g < |t.s| && first + g < |w.s|
    requires Times(g + 1, size) <= |x| && Times(g, size) <= |x|
    requires Abs(Dot(Value(t, size, 0, g), Value(w, size, first, g), Times(g, size))
               - Dot(Front(x, size, g), Value(w, size, first, g), Times(g, size))) <= ErrorBound(x, w, size, first, g)
    ensures Abs(Dot(Value(t, size, 0, g + 1), Value(w, size, first, g + 1), Times(g + 1, size))
              - Dot(Front(x, size, g + 1), Value(w, size, first, g + 1), Times(g + 1, size)))
         <= ErrorBound(x, w, size, first, g + 1)
  {
    var n, row := Times(g, size), GroupAt(x, size, g);
    var b, front := GroupValue(w, size, first + g), Value(w, size, first, g);
    assert QuantGroup(t, x, size, g);
    GroupError(t, x, b, size, g);
    DotAppend(Value(t, size, 0, g), front, GroupValue(t, size, g), b, size);
    DotAppend(Front(x, size, g), front, row, b, size);
    AddError(Dot(Value(t, size, 0, g), front, n), Dot(Front(x, size, g), front, n), ErrorBound(x, w, size, first, g),
      Dot(GroupValue(t, size, g), b, size), Dot(row, b, size), Mul(GroupMax(row) / 254.0, AbsSum(b, size)));
  }

  /** The product with the quantised input is within the bound of the product with the input itself. */
  lemma MatmulError(t: Tensor, x: seq<real>, w: Tensor, size: nat, first: nat)
    requires QuantOf(t, x, size) && Grouped(w, size) && first + |t.s| <= |w.s|
    ensures Abs(RowOut(t, w, size, first, |t.s|) - Dot(x, Value(w, size, first, |t.s|), |x|))
         <= ErrorBound(x, w, size, first, |t.s|)
  {
    MatmulIsDot(t, w, size, first, |t.s|);
    ValueErrors(t, x, w, size, first, |t.s|);
    FrontIs(x, size, |t.s|);
    assert x[..|x|] == x;
  }

  // ---------------------------------------------------------------- the loops

  lemma MaxGrows(row: seq<real>, i: nat)
    requires i < |row|
    ensures GroupMax(row[..i + 1]) == if Abs(row[i]) > GroupMax(row[..i]) then Abs(row[i]) else GroupMax(row[..i])
  {
    assert row[..i + 1][..i] == row[..i];
  }

  method LargestIn(row: seq<real>) returns (wmax: real)
    ensures wmax == GroupMax(row)
  {
    wmax := 0.0;
    for i := 0 to |row|
      invariant wmax == GroupMax(row[..i])
    {
      MaxGrows(row, i);
      var val := Abs(row[i]);
      if val > wmax {
        wmax := val;
      }
    }
    assert row[..|row|] == row;
  }

  /** One group, written at `at`. */
  method QuantizeGroup(row: seq<real>, q: array<int>, at: nat) returns (scale: real)
    requires GroupMax(row) != 0.0 && at + |row| <= q.Length
    modifies q
    ensures scale == Scale(row) && q[at..at + |row|] == QuantRow(row)
    ensures q[..at] == old(q[..at])
  {
    var wmax := LargestIn(row);
    scale := wmax / Q_MAX;
    for i := 0 to |row|
      invariant forall j | 0 <= j < at :: q[j] == old(q[j])
      invariant q[at..at + i] == QuantRow(row)[..i]
    {
      q[at + i] := Quant(row[i], scale);
    }
  }

  /** A group that is done stays so when later ones are written. */
  lemma GroupStays(t: Tensor, u: Tensor, x: seq<real>, size: nat, g: nat, group: nat)
    requires |t.q| == |u.q| == |x| && |t.s| == |u.s| && g < group <= |t.s| && Times(group, size) <= |x|
    requires u.q[..Times(group, size)] == t.q[..Times(group, size)] && u.s[..group] == t.s[..group]
    requires QuantGroup(t, x, size, g)
    ensures QuantGroup(u, x, size, g)
  {
    GroupFits(size, g, group);
    var at, n := Times(g, size), Times(group, size);
    assert u.q[at..at + size] == u.q[..n][at..at + size] == t.q[..n][at..at + size] == t.q[at..at + size];
    assert u.s[g] == u.s[..group][g] == t.s[g];
  }

  ghost predicate NonZero(x: seq<real>, size: nat, g: nat) {
    Times(g + 1, size) <= |x| && GroupMax(GroupAt(x, size, g)) != 0.0
  }

  /** Quantises every group of `x`; no group may be all zero, as a zero scale divides by zero. */
  method Quantize(x: seq<real>, size: nat, groups: nat, q: array<int>, s: array<real>)
    requires |x| == Times(groups, size) == q.Length && s.Length == groups && (q as object) != s
    requires forall g: nat | g < groups :: NonZero(x, size, g)
    modifies q, s
    ensures QuantOf(Tensor(q[..], s[..]), x, size)
  {
    for group := 0 to groups
      invariant forall g: nat | g < group :: QuantGroup(Tensor(q[..], s[..]), x, size, g)
    {
      QuantizeNext(x, size, group, q, s);
    }
  }

  method QuantizeNext(x: seq<real>, size: nat, group: nat, q: array<int>, s: array<real>)
    requires |x| == Times(s.Length, size) == q.Length && group < s.Length && (q as object) != s
    requires NonZero(x, size, group)
    requires forall g: nat | g < group :: QuantGroup(Tensor(q[..], s[..]), x, size, g)
    modifies q, s
    ensures forall g: nat | g < group + 1 :: QuantGroup(Tensor(q[..], s[..]), x, size, g)
  {
    GroupFits(size, group, s.Length);
    ghost var before := Tensor(q[..], s[..]);
    var at := Times(group, size);
    var scale := QuantizeGroup(x[at..at + size], q, at);
    s[group] := scale;
    ghost var after := Tensor(q[..], s[..]);
    assert after.q[..at] == before.q[..at] && after.s[..group] == before.s[..group];
    assert GroupAt(after.q, size, group) == QuantRow(GroupAt(x, size, group));
    forall g: nat | g < group ensures QuantGroup(after, x, size, g) {
      GroupStays(before, after, x, size, g, group);
    }
  }

  /** The scale of value `i` is the one of its group. */
  method Dequantize(t: Tensor, size: nat, x: array<real>)
    requires 0 < size && Grouped(t, size) && x.Length == |t.q|
    modifies x
    ensures x[..] == Value(t, size, 0, |t.s|)
  {
    for i := 0 to x.Length
      invariant forall j | 0 <= j < i :: x[j] == Value(t, size, 0, |t.s|)[j]
    {
      ValueAt(t, size, i, |t.s|);
      x[i] := Mul(t.q[i] as real, t.s[i / size]);
    }
  }

  /** Value `i` of a dequantised tensor. */
  lemma {:induction false} ValueAt(t: Tensor, size: nat, i: nat, groups: nat)
    requires 0 < size && Grouped(t, size) && groups <= |t.s| && i < Times(groups, size)
    ensures i < |t.q| && i / size < |t.s|
    ensures Value(t, size, 0, groups)[i] == Mul(t.q[i] as real, t.s[i / size])
  {
    var g := groups - 1;
    GroupFits(size, g, |t.s|);
    if i < Times(g, size) {
      ValueAt(t, size, i, g);
    } else {
      GroupOf(g, i - Times(g, size), size);
    }
  }

  method DotLoop(a: seq<int>, b: seq<int>) returns (ival: int)
    requires |a| == |b|
    ensures ival == IntDot(a, b, |a|)
  {
    ival := 0;
    for k := 0 to |a|
      invariant ival == IntDot(a, b, k)
    {
      ival := ival + a[k] * b[k];
    }
  }

  /** One group, found at values `j` and `start` + `j` of the two tensors. */
  method GroupTerm(x: Tensor, w: Tensor, size: nat, start: nat, j: nat, ghost g: nat, ghost h: nat) returns (term: real)
    requires 0 < size && Grouped(x, size) && Grouped(w, size) && g < |x.s| && h < |w.s|
    requires j == Times(g, size) && start + j == Times(h, size)
    ensures term == Term(x, w, size, g, h)
  {
    GroupFits(size, g, |x.s|);
    GroupFits(size, h, |w.s|);
    GroupOf(h, 0, size);
    GroupOf(g, 0, size);
    var ival := DotLoop(x.q[j..j + size], w.q[start + j..start + j + size]);
    term := Scaled(ival, w.s[(start + j) / size], x.s[j / size]);
  }

  /** One row of the weights, which starts at value `start` and group `first`. */
  method RowLoop(x: Tensor, w: Tensor, size: nat, start: nat, ghost first: nat) returns (val: real)
    requires 0 < size && Grouped(x, size) && Grouped(w, size)
    requires first + |x.s| <= |w.s| && start == Times(first, size)
    ensures val == RowOut(x, w, size, first, |x.s|)
  {
    val := 0.0;
    var n, j: nat := |x.q|, 0;
    ghost var g: nat := 0;
    while j <= n - size
      invariant g <= |x.s| && j == Times(g, size) && val == RowOut(x, w, size, first, g)
    {
      TimesAdd(first, g, size);
      var term := GroupTerm(x, w, size, start, j, g, first + g);
      val := val + term;
      j, g := j + size, g + 1;
    }
    if g < |x.s| {
      GroupFits(size, g, |x.s|);
    }
  }

  /** Entry `i` of the product of a `d`-row matrix. */
  function OutAt(x: Tensor, w: Tensor, size: nat, d: nat, i: nat): real
    requires Grouped(x, size) && Grouped(w, size) && |w.s| == Times(d, |x.s|) && i < d
  {
    GroupFits(|x.s|, i, d);
    RowOut(x, w, size, Times(i, |x.s|), |x.s|)
  }

  lemma ScaleIndex(t: Tensor, size: nat, k: nat)
    requires 0 < size && Grouped(t, size) && k < |t.q|
    ensures k / size < |t.s|
  {
    ValueAt(t, size, k, |t.s|);
  }

  /** The first `n` products of input values with weight values from `start` on, every value under the
      scale of its group. */
  function EntryTo(x: Tensor, w: Tensor, size: nat, start: nat, n: nat): real
    requires 0 < size && Grouped(x, size) && Grouped(w, size) && n <= |x.q| && start + n <= |w.q|
  {
    if n == 0 then 0.0
    else
      var j, k := n - 1, start + n - 1;
      ScaleIndex(x, size, j);
      ScaleIndex(w, size, k);
      EntryTo(x, w, size, start, j) + Mul(Mul(x.q[j] as real, x.s[j / size]), Mul(w.q[k] as real, w.s[k / size]))
  }

  lemma {:induction false} ValueFrom(t: Tensor, size: nat, first: nat, groups: nat, j: nat)
    requires 0 < size && Grouped(t, size) && first + groups <= |t.s| && j < Times(groups, size)
    ensures var k := Times(first, size) + j;
            k < |t.q| && k / size < |t.s| && Value(t, size, first, groups)[j] == Mul(t.q[k] as real, t.s[k / size])
  {
    var g := groups - 1;
    GroupFits(size, first + g, |t.s|);
    TimesAdd(first, g, size);
    if j < Times(g, size) {
      ValueFrom(t, size, first, g, j);
    } else {
      GroupOf(first + g, j - Times(g, size), size);
    }
  }

  lemma {:induction false} DotIsEntry(x: Tensor, w: Tensor, size: nat, first: nat, groups: nat, n: nat)
    requires 0 < size && Grouped(x, size) && Grouped(w, size) && groups <= |x.s| && first + groups <= |w.s|
    requires n <= Times(groups, size) && n <= |x.q| && Times(first, size) + n <= |w.q|
    ensures Dot(Value(x, size, 0, groups), Value(w, size, first, groups), n)
         == EntryTo(x, w, size, Times(first, size), n)
  {
    if n != 0 {
      DotIsEntry(x, w, size, first, groups, n - 1);
      ValueFrom(x, size, 0, groups, n - 1);
      ValueFrom(w, size, first, groups, n - 1);
    }
  }

  /** Entry `i` of the product is the sum, over the row of the weights that starts at i times the input
      length, of the products of the dequantised values. */
  lemma MatmulEntry(x: Tensor, w: Tensor, size: nat, d: nat, i: nat)
    requires 0 < size && Grouped(x, size) && Grouped(w, size) && |w.s| == Times(d, |x.s|) && i < d
    ensures i * |x.q| + |x.q| <= |w.q|
    ensures OutAt(x, w, size, d, i) == EntryTo(x, w, size, i * |x.q|, |x.q|)
  {
    var groups, first := |x.s|, Times(i, |x.s|);
    RowFits(x, w, size, d, i);
    MatmulIsDot(x, w, size, first, groups);
    DotIsEntry(x, w, size, first, groups, |x.q|);
  }

  lemma RowFits(x: Tensor, w: Tensor, size: nat, d: nat, i: nat)
    requires Grouped(x, size) && Grouped(w, size) && |w.s| == Times(d, |x.s|) && i < d
    ensures Times(i, |x.s|) + |x.s| <= |w.s|
    ensures i * |x.q| == Times(Times(i, |x.s|), size) && i * |x.q| + |x.q| <= |w.q|
  {
    GroupFits(|x.s|, i, d);
    TimesAssoc(i, |x.s|, size);
    TimesAssoc(d, |x.s|, size);
    TimesIs(i, |x.q|);
    GroupFits(|x.q|, i, d);
  }

  /** `d` rows of as many values as the input has. */
  method Matmul(x: Tensor, w: Tensor, size: nat, d: nat, out: array<real>)
    requires 0 < size && Grouped(x, size) && Grouped(w, size) && |w.s| == Times(d, |x.s|) && out.Length == d
    modifies out
    ensures forall i | 0 <= i < d :: out[i] == OutAt(x, w, size, d, i)
  {
    var n := |x.q|;
    for i := 0 to d
      invariant forall r | 0 <= r < i :: out[r] == OutAt(x, w, size, d, r)
    {
      GroupFits(|x.s|, i, d);
      TimesAssoc(i, |x.s|, size);
      TimesIs(i, n);
      out[i] := RowLoop(x, w, size, i * n, Times(i, |x.s|));
    }
  }
}
