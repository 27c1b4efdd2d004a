/** The packet-backed model head: what MLOAD reads from the rows in the bank, and what MINFER answers. */
module ModelLaws {
  import opened Options
  import opened Packets
  import opened PacketText
  import opened PacketLines
  import opened Kernel
  import opened CommandLaws

  // ---------------------------------------------------------------- loading the rows

  /** The id of a model row. */
  ghost function IdOfRow(r: nat): string
    requires r < 8
  {
    "model:w:" + ["01234567"[r]]
  }

  lemma RowIdIs(r: nat)
    requires r < 8
    ensures RowId(r) == IdOfRow(r)
  {
    var digits := "01234567";
    assert digits[r] == '0' + r as char;
  }

  /** Row `r` is in the bank and its body is nine numbers. */
  ghost predicate HasRow(b: Bank, r: nat)
    requires r < 8
  {
    IdOfRow(r) in MapOf(b) && Row(MapOf(b)[IdOfRow(r)].body).Some?
  }

  lemma RowOfIs(b: Bank, r: nat)
    requires DistinctIds(b) && r < 8
    ensures RowOf(b, r) == if HasRow(b, r) then Row(MapOf(b)[IdOfRow(r)].body) else None
  {
    RowIdIs(r);
    MapHas(b, RowId(r));
  }

  lemma {:induction false} GatheredHas(rows: nat -> Option<seq<real>>, n: nat)
    requires forall k: nat | k < n && rows(k).Some? :: |rows(k).value| == 9
    ensures Gathered(rows, n).Some? <==> forall k: nat | k < n :: rows(k).Some?
    ensures Gathered(rows, n).Some? ==> |Gathered(rows, n).value| == 9 * n
  {
    if n != 0 {
      GatheredHas(rows, n - 1);
    }
  }

  lemma {:induction false} GatheredAt(rows: nat -> Option<seq<real>>, n: nat, k: nat, i: nat)
    requires forall k: nat | k < n && rows(k).Some? :: |rows(k).value| == 9
    requires k < n && i < 9 && Gathered(rows, n).Some?
    ensures |Gathered(rows, n).value| == 9 * n && rows(k).Some?
    ensures Gathered(rows, n).value[9 * k + i] == rows(k).value[i]
  {
    GatheredHas(rows, n);
    GatheredHas(rows, n - 1);
    if k < n - 1 {
      GatheredAt(rows, n - 1, k, i);
    }
  }

  /** The weights are the rows, one after another. */
  ghost predicate HoldsRows(b: Bank, w: seq<real>) {
    |w| == 72 && forall r: nat, i: nat {:trigger w[9 * r + i]} | r < 8 && i < 9 ::
      HasRow(b, r) && w[9 * r + i] == Row(MapOf(b)[IdOfRow(r)].body).value[i]
  }

  lemma LoadedRows(b: Bank)
    requires DistinctIds(b)
    ensures RowsTo(b, 8).Some? <==> forall r: nat | r < 8 :: HasRow(b, r)
    ensures RowsTo(b, 8).Some? ==> HoldsRows(b, RowsTo(b, 8).value)
  {
    var rows := RowsIn(b);
    forall r: nat | r < 8 ensures rows(r).Some? <==> HasRow(b, r) {
      RowOfIs(b, r);
    }
    GatheredHas(rows, 8);
    if RowsTo(b, 8).Some? {
      forall r: nat, i: nat | r < 8 && i < 9
        ensures HasRow(b, r) && RowsTo(b, 8).value[9 * r + i] == Row(MapOf(b)[IdOfRow(r)].body).value[i]
      {
        RowOfIs(b, r);
        GatheredAt(rows, 8, r, i);
      }
    }
  }

  /** MLOAD makes the model ready exactly when all eight rows are there and decode, and then holds them;
      otherwise it clears it. Nothing else changes. */
  lemma MLoadLoads(s: State, ok: bool)
    requires DistinctIds(s.bank)
    ensures var t := Apply(s, MLoad, ok);
            && t.bank == s.bank && SameCounters(s, t) && t.flash == s.flash
            && (t.ready <==> forall r: nat | r < 8 :: HasRow(s.bank, r))
            && if t.ready then HoldsRows(s.bank, t.weights) else Silent(t)
  {
    LoadedRows(s.bank);
  }

  /** The model is the one of the rows in the bank, or there is none. */
  ghost predicate Follows(t: State) {
    && (t.ready <==> forall r: nat | r < 8 :: HasRow(t.bank, r))
    && if t.ready then HoldsRows(t.bank, t.weights) else Silent(t)
  }

  lemma LoadFollows(s: State)
    requires DistinctIds(s.bank)
    ensures Follows(LoadModel(s))
  {
    LoadedRows(s.bank);
  }

  /** LOAD brings back the saved bank and its generation, and the model of its rows; without a flash, or
      with nothing saved, it changes nothing. */
  lemma LoadRestores(s: State, ok: bool)
    requires ok && s.flash.Some? ==> DistinctIds(s.flash.value.bank)
    ensures var t := Apply(s, Load, ok);
            if ok && s.flash.Some? then
              && t.bank == s.flash.value.bank && t.nextGen == s.flash.value.nextGen
              && t.recvCount == s.recvCount && t.flash == s.flash && Follows(t)
            else t == s
  {
    if ok && s.flash.Some? {
      LoadFollows(s.(bank := s.flash.value.bank, nextGen := s.flash.value.nextGen));
    }
  }

  lemma SeededIds(b: Bank, g: string, h: string)
    requires Seeded(b, g, h)
    ensures |b[0].id| == 11 && b[0].id[0] == 'c' && b[0].id[5] == 'k'
    ensures |b[1].id| == 8 && b[1].id[0] == 'c' && b[1].id[5] == 'u'
  {
  }

  lemma NoRowAmong(b: Bank, id: string)
    requires |b[0].id| == 11 && b[0].id[0] == 'c' && b[0].id[5] == 'k'
    requires |b[1].id| == 8 && b[1].id[0] == 'c' && b[1].id[5] == 'u'
    requires (forall i | 2 <= i < 32 :: !b[i].used) && id != "" && id[0] == 'm'
    ensures DistinctIds(b) && id !in MapOf(b)
  {
    MapHas(b, id);
  }

  lemma FreshModel(t: State, g: string, h: string)
    requires Seeded(t.bank, g, h)
    ensures LoadModel(t) == ClearModel(t)
  {
    var id := IdOfRow(0);
    SeededIds(t.bank, g, h);
    assert id[0] == 'm';
    NoRowAmong(t.bank, id);
    LoadedRows(t.bank);
  }

  lemma SeedHasNoModel(s: State, t: State)
    requires t == Seed(s)
    ensures LoadModel(t) == ClearModel(t)
  {
    SeedIs(s, t);
    FreshModel(t, t.bank[0].hash, t.bank[1].hash);
  }

  /** After a reset with a saved bank: that bank, and the model of its rows. */
  lemma ResetRestores(flash: Option<Saved>)
    requires flash.Some? && DistinctIds(flash.value.bank)
    ensures var t := Boot(flash, true);
            && t.bank == flash.value.bank && t.nextGen == flash.value.nextGen
            && t.recvCount == 0 && t.flash == flash && Follows(t)
  {
    LoadFollows(Zeroed(flash).(bank := flash.value.bank, nextGen := flash.value.nextGen));
  }

  /** After a reset with nothing saved, or without a flash: what CLEAR leaves. */
  lemma ResetSeeds(flash: Option<Saved>, ok: bool)
    requires !(ok && flash.Some?)
    ensures Boot(flash, ok) == Apply(Zeroed(flash), Clear, ok)
  {
    SeedHasNoModel(Zeroed(flash), Seed(Zeroed(flash)));
  }

  // ---------------------------------------------------------------- the answers

  lemma {:induction false} AnswersInOrder(w: seq<real>, x: seq<real>, n: nat, r: nat)
    requires |w| == 72 && |x| == 9 && r < n <= 8
    ensures Infer(w, x, n)[r] == Product(w, 9 * r, x, 9)
  {
    if r < n - 1 {
      AnswersInOrder(w, x, n - 1, r);
    }
  }

  lemma ThreeMore(w: seq<real>, at: nat, x: seq<real>, n: nat)
    requires at + n + 3 <= |w| && n + 3 <= |x|
    ensures Product(w, at, x, n + 3)
         == Product(w, at, x, n) + w[at + n] * x[n] + w[at + n + 1] * x[n + 1] + w[at + n + 2] * x[n + 2]
  {
    assert Product(w, at, x, n + 1) == Product(w, at, x, n) + w[at + n] * x[n];
  }

  /** Answer `r` is the product of row `r` with the input. */
  lemma AnswerIs(w: seq<real>, x: seq<real>, r: nat)
    requires |w| == 72 && |x| == 9 && r < 8
    ensures Infer(w, x, 8)[r]
         == w[9 * r] * x[0] + w[9 * r + 1] * x[1] + w[9 * r + 2] * x[2]
          + w[9 * r + 3] * x[3] + w[9 * r + 4] * x[4] + w[9 * r + 5] * x[5]
          + w[9 * r + 6] * x[6] + w[9 * r + 7] * x[7] + w[9 * r + 8] * x[8]
  {
    AnswersInOrder(w, x, 8, r);
    ThreeMore(w, 9 * r, x, 0);
    ThreeMore(w, 9 * r, x, 3);
    ThreeMore(w, 9 * r, x, 6);
  }

  ghost predicate IsUnit(x: seq<real>, i: nat) {
    |x| == 9 && forall j | 0 <= j < 9 :: x[j] == if j == i then 1.0 else 0.0
  }

  lemma {:induction false} UnitProduct(w: seq<real>, at: nat, x: seq<real>, n: nat, i: nat)
    requires at + n <= |w| && n <= 9 && IsUnit(x, i)
    ensures Product(w, at, x, n) == if i < n then w[at + i] else 0.0
  {
    if n != 0 {
      UnitProduct(w, at, x, n - 1, i);
    }
  }

  /** The unit vector of axis `i` reads column `i` of the weights. */
  lemma UnitAnswers(w: seq<real>, x: seq<real>, i: nat, r: nat)
    requires |w| == 72 && i < 9 && IsUnit(x, i) && r < 8
    ensures Infer(w, x, 8)[r] == w[9 * r + i]
  {
    AnswersInOrder(w, x, 8, r);
    UnitProduct(w, 9 * r, x, 9, i);
  }

  lemma Linear(w: real, c: real, a: real, b: real)
    ensures w * (c * a + b) == c * (w * a) + w * b
  {
  }

  /** The first `n` entries of `z` are those of `c` times `x`, plus `y`. */
  ghost predicate Combines(c: real, x: seq<real>, y: seq<real>, z: seq<real>, n: nat) {
    |x| == |y| == |z| == 9 && n <= 9 && (n == 0 || (Combines(c, x, y, z, n - 1) && z[n - 1] == c * x[n - 1] + y[n - 1]))
  }

  lemma {:induction false} LinearProduct(w: seq<real>, at: nat, c: real, x: seq<real>, y: seq<real>, z: seq<real>,
                                         n: nat)
    requires at + n <= |w| && Combines(c, x, y, z, n)
    ensures Product(w, at, z, n) == c * Product(w, at, x, n) + Product(w, at, y, n)
  {
    if n != 0 {
      LinearProduct(w, at, c, x, y, z, n - 1);
      Linear(w[at + n - 1], c, x[n - 1], y[n - 1]);
    }
  }

  /** The answers are linear in the input. */
  lemma AnswersAreLinear(w: seq<real>, c: real, x: seq<real>, y: seq<real>, z: seq<real>, r: nat)
    requires |w| == 72 && Combines(c, x, y, z, 9) && r < 8
    ensures Infer(w, z, 8)[r] == c * Infer(w, x, 8)[r] + Infer(w, y, 8)[r]
  {
    AnswersInOrder(w, x, 8, r);
    AnswersInOrder(w, y, 8, r);
    AnswersInOrder(w, z, 8, r);
    LinearProduct(w, 9 * r, c, x, y, z, 9);
  }

  /** From the text to the answer: when row `r` of the bank prints the numbers `q`, and MLOAD has made the
      model ready, axis `i` is answered with q[i] over 1024 in place `r`. */
  lemma TextToAnswer(s: State, ok: bool, r: nat, q: seq<int>, x: seq<real>, i: nat)
    requires DistinctIds(s.bank) && r < 8 && i < 9 && IsUnit(x, i) && Apply(s, MLoad, ok).ready
    requires IdOfRow(r) in MapOf(s.bank) && |q| == 9 && MapOf(s.bank)[IdOfRow(r)].body == Listed(q)
    ensures -8192 <= q[i] <= 8192
    ensures |Apply(s, MLoad, ok).weights| == 72
    ensures Infer(Apply(s, MLoad, ok).weights, x, 8)[r] == q[i] as real / 1024.0
  {
    var w := Apply(s, MLoad, ok).weights;
    MLoadLoads(s, ok);
    RowRoundTrip(q);
    UnitAnswers(w, x, i, r);
    assert w[9 * r + i] == Row(Listed(q)).value[i];
  }
}
