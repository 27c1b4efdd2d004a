/** One transformer layer of the ParetoQ model on the board, in its regular and its fast form. The
    arithmetic is over the reals, between values that are stored as bfloat16 words; the smooth functions
    are parameters. */
module ParetoLayer {
  import opened Bfloat
  import opened Options
  import opened Packers
  import opened ParetoMatvec

  const HIDDEN := 576
  const INTERMEDIATE := 1536
  const HEADS := 9
  const HEAD_DIM := 64
  const KV_WIDTH := 192
  const QUERIES_PER_KV := 3
  const ATTENTION_SCALE := 0.125

  type Vec = seq<real>

  datatype Math = Math(
    toWord: real -> Word16,
    fromWord: nat -> real,
    norm: (Vec, seq<Word16>) -> Vec,
    rotateQuery: (Vec, nat) -> Vec,
    rotateKey: (Vec, nat) -> Vec,
    softmax: Vec -> Vec,
    silu: real -> real)
  {
    /** Every function fills its buffer. */
    ghost predicate Valid() {
      && (forall x, g :: |norm(x, g)| == |x|)
      && (forall q, p :: |rotateQuery(q, p)| == |q|)
      && (forall k, p :: |rotateKey(k, p)| == |k|)
      && (forall s :: |softmax(s)| == |s|)
    }

    /** The two conversions are the ones of the runtime, on the patterns of 32-bit floats. */
    ghost predicate Bitwise(f: Float32) {
      && f.Valid()
      && (forall v :: toWord(v) == f.ToWord(v) as nat)
      && (forall w: Word16 :: fromWord(w) == f.FromWord(w as bv16))
    }

    /** Storing a value twice changes no more than storing it once (see `RoundingIsStable`). */
    ghost predicate Rounds() {
      forall v :: Round(Round(v)) == Round(v)
    }

    function Round(v: real): real {
      fromWord(toWord(v))
    }

    function Rounded(x: Vec): (y: Vec)
      ensures |y| == |x|
    {
      seq(|x|, i requires 0 <= i < |x| => Round(x[i]))
    }
  }

  datatype LayerWeights = LayerWeights(
    query: Location,
    key: Location,
    value: Location,
    output: Location,
    gate: Location,
    up: Location,
    down: Location,
    inputNorm: seq<Word16>,
    postNorm: seq<Word16>)

  predicate Shape(image: Image, m: Location, rows: nat, columns: nat) {
    Mapped(image, m) && m.rows == rows && m.columns == columns
  }

  predicate Fitted(image: Image, w: LayerWeights) {
    && Shape(image, w.query, HIDDEN, HIDDEN) && Shape(image, w.key, KV_WIDTH, HIDDEN)
    && Shape(image, w.value, KV_WIDTH, HIDDEN) && Shape(image, w.output, HIDDEN, HIDDEN)
    && Shape(image, w.gate, INTERMEDIATE, HIDDEN) && Shape(image, w.up, INTERMEDIATE, HIDDEN)
    && Shape(image, w.down, HIDDEN, INTERMEDIATE)
  }

  // ---------------------------------------------------------------- attention over a history

  function Dot(q: Vec, qAt: nat, k: Vec, kAt: nat, n: nat): real
    requires qAt + n <= |q| && kAt + n <= |k|
  {
    if n == 0 then 0.0 else Dot(q, qAt, k, kAt, n - 1) + q[qAt + n - 1] * k[kAt + n - 1]
  }

  /** The keys or values of all positions so far, exactly. */
  type History = seq<Vec>

  predicate Wide(rows: History) {
    forall t | 0 <= t < |rows| :: |rows[t]| == KV_WIDTH
  }

  function KvAt(h: nat): (at: nat)
    requires h < HEADS
    ensures at + HEAD_DIM <= KV_WIDTH
  {
    h / QUERIES_PER_KV * HEAD_DIM
  }

  function Scores(query: Vec, keys: History, h: nat): (s: Vec)
    requires |query| == HIDDEN && Wide(keys) && h < HEADS
    ensures |s| == |keys|
  {
    seq(|keys|, t requires 0 <= t < |keys| && |query| == HIDDEN && Wide(keys) && h < HEADS =>
      Dot(query, h * HEAD_DIM, keys[t], KvAt(h), HEAD_DIM) * ATTENTION_SCALE)
  }

  /** Component `i` of a head's output after `n` positions. */
  function Blend(probs: Vec, values: History, at: nat, n: nat): real
    requires Wide(values) && at < KV_WIDTH && n <= |probs| && n <= |values|
  {
    if n == 0 then 0.0 else Blend(probs, values, at, n - 1) + probs[n - 1] * values[n - 1][at]
  }

  function HeadOutput(m: Math, query: Vec, keys: History, values: History, h: nat): (out: Vec)
    requires m.Valid() && |query| == HIDDEN && Wide(keys) && Wide(values) && |keys| == |values| && h < HEADS
    ensures |out| == HEAD_DIM
  {
    var probs := m.softmax(Scores(query, keys, h));
    seq(HEAD_DIM, i requires 0 <= i < HEAD_DIM && Wide(values) && |probs| == |values| && h < HEADS =>
      Blend(probs, values, KvAt(h) + i, |values|))
  }

  function HeadOutputs(m: Math, query: Vec, keys: History, values: History, heads: nat): (out: Vec)
    requires m.Valid() && |query| == HIDDEN && Wide(keys) && Wide(values) && |keys| == |values| && heads <= HEADS
    ensures |out| == HEAD_DIM * heads
  {
    if heads == 0 then []
    else HeadOutputs(m, query, keys, values, heads - 1) + HeadOutput(m, query, keys, values, heads - 1)
  }

  /** Attention of the newest position over the exact history. */
  function Attention(m: Math, query: Vec, keys: History, values: History): (out: Vec)
    requires m.Valid() && |query| == HIDDEN && Wide(keys) && Wide(values) && |keys| == |values|
    ensures |out| == HIDDEN
  {
    m.Rounded(HeadOutputs(m, query, keys, values, HEADS))
  }

  /** The inner product of two vectors. */
  function Inner(a: Vec, b: Vec): real
    requires |a| == |b|
  {
    if a == [] then 0.0 else a[0] * b[0] + Inner(a[1..], b[1..])
  }

  function Column(rows: History, c: nat): (column: Vec)
    requires Wide(rows) && c < 192
    ensures |column| == |rows|
  {
    seq(|rows|, t requires 0 <= t < |rows| && Wide(rows) && c < 192 => rows[t][c])
  }

  /** The scores of 64 query entries from `a` on against 64 key entries from `b` on. */
  function Logits(query: Vec, a: nat, keys: History, b: nat): (s: Vec)
    requires a + 64 <= |query| && b + 64 <= 192 && Wide(keys)
    ensures |s| == |keys|
  {
    seq(|keys|, t requires 0 <= t < |keys| && a + 64 <= |query| && b + 64 <= 192 && Wide(keys) =>
      Inner(query[a..a + 64], keys[t][b..b + 64]) / 8.0)
  }

  lemma {:induction false} InnerGrows(a: Vec, b: Vec, x: real, y: real)
    requires |a| == |b|
    ensures Inner(a + [x], b + [y]) == Inner(a, b) + x * y
  {
    if a == [] {
      assert ([x])[1..] == [] && Inner([], []) == 0.0;
    } else {
      InnerGrows(a[1..], b[1..], x, y);
      assert (a + [x])[1..] == a[1..] + [x] && (b + [y])[1..] == b[1..] + [y];
    }
  }

  lemma DotNext(q: Vec, qAt: nat, k: Vec, kAt: nat, n: nat, x: real, y: real)
    requires qAt + n < |q| && kAt + n < |k| && x == q[qAt + n] && y == k[kAt + n]
    ensures Dot(q, qAt, k, kAt, n + 1) == Dot(q, qAt, k, kAt, n) + x * y
  {
  }

  lemma SlicesNext(a: Vec, b: Vec, i: nat, j: nat, n: nat, x: real, y: real)
    requires i + n < |a| && j + n < |b| && x == a[i + n] && y == b[j + n]
    ensures Inner(a[i..i + n + 1], b[j..j + n + 1]) == Inner(a[i..i + n], b[j..j + n]) + x * y
  {
    InnerGrows(a[i..i + n], b[j..j + n], x, y);
    assert a[i..i + n + 1] == a[i..i + n] + [x] && b[j..j + n + 1] == b[j..j + n] + [y];
  }

  lemma {:induction false} DotIsInner(q: Vec, qAt: nat, k: Vec, kAt: nat, n: nat)
    requires qAt + n <= |q| && kAt + n <= |k|
    ensures Dot(q, qAt, k, kAt, n) == Inner(q[qAt..qAt + n], k[kAt..kAt + n])
  {
    if n != 0 {
      var x, y := q[qAt + n - 1], k[kAt + n - 1];
      DotIsInner(q, qAt, k, kAt, n - 1);
      DotNext(q, qAt, k, kAt, n - 1, x, y);
      SlicesNext(q, k, qAt, kAt, n - 1, x, y);
    }
  }

  lemma BlendNext(probs: Vec, values: History, c: nat, n: nat, x: real, y: real)
    requires Wide(values) && c < 192 && n < |probs| && n < |values| && x == probs[n] && y == values[n][c]
    ensures Blend(probs, values, c, n + 1) == Blend(probs, values, c, n) + x * y
  {
  }

  lemma {:induction false} BlendIsInner(probs: Vec, values: History, c: nat, n: nat)
    requires Wide(values) && c < 192 && n <= |probs| && n <= |values|
    ensures Blend(probs, values, c, n) == Inner(probs[..n], Column(values, c)[..n])
  {
    if n != 0 {
      var column := Column(values, c);
      var x, y := probs[n - 1], column[n - 1];
      BlendIsInner(probs, values, c, n - 1);
      BlendNext(probs, values, c, n - 1, x, y);
      SlicesNext(probs, column, 0, 0, n - 1, x, y);
    }
  }

  lemma LogitsAgree(query: Vec, keys: History, h: nat, a: nat, b: nat)
    requires |query| == 576 && Wide(keys) && h < 9 && a == h * 64 && b == h / 3 * 64
    ensures Scores(query, keys, h) == Logits(query, a, keys, b)
  {
    forall t | 0 <= t < |keys| ensures Scores(query, keys, h)[t] == Logits(query, a, keys, b)[t] {
      DotIsInner(query, a, keys[t], b, 64);
    }
  }

  lemma {:induction false} HeadsInOrder(m: Math, query: Vec, keys: History, values: History, heads: nat, h: nat, i: nat)
    requires m.Valid() && |query| == HIDDEN && Wide(keys) && Wide(values) && |keys| == |values|
    requires h < heads <= HEADS && i < HEAD_DIM
    ensures HeadOutputs(m, query, keys, values, heads)[HEAD_DIM * h + i] == HeadOutput(m, query, keys, values, h)[i]
  {
    if h < heads - 1 {
      HeadsInOrder(m, query, keys, values, heads - 1, h, i);
    }
  }

  /** Entry `j` of attention: query entries 64 j/64 to 64 j/64 + 63 against key columns 64 j/192 to
      64 j/192 + 63 give the probabilities, which blend one column of the values. Three query heads in a
      row share a key/value head. */
  lemma AttentionEntry(m: Math, query: Vec, keys: History, values: History, j: nat)
    requires m.Valid() && |query| == 576 && Wide(keys) && Wide(values) && |keys| == |values| && j < 576
    ensures var probs := m.softmax(Logits(query, j / 64 * 64, keys, j / 192 * 64));
            Attention(m, query, keys, values)[j]
            == m.fromWord(m.toWord(Inner(probs, Column(values, j / 192 * 64 + j % 64))))
  {
    var h, i := j / 64, j % 64;
    var c := j / 192 * 64 + i;
    LogitsAgree(query, keys, h, j / 64 * 64, j / 192 * 64);
    var probs := m.softmax(Scores(query, keys, h));
    HeadsInOrder(m, query, keys, values, HEADS, h, i);
    assert j == HEAD_DIM * h + i && KvAt(h) + i == c;
    assert HeadOutput(m, query, keys, values, h)[i] == Blend(probs, values, c, |values|);
    BlendIsInner(probs, values, c, |values|);
    assert probs[..|values|] == probs && Column(values, c)[..|values|] == Column(values, c);
  }

  // ---------------------------------------------------------------- the layer

  function Project(m: Math, image: Image, loc: Location, x: Vec): (y: Vec)
    requires Mapped(image, loc) && |x| == loc.columns
    ensures |y| == loc.rows
  {
    m.Rounded(Out(m.fromWord, image, loc, x))
  }

  function Add(m: Math, x: Vec, y: Vec): (z: Vec)
    requires |x| == |y|
    ensures |z| == |x|
  {
    seq(|x|, i requires 0 <= i < |x| && |x| == |y| => m.Round(x[i] + y[i]))
  }

  function GateProduct(m: Math, gate: real, up: real): real {
    m.silu(gate) * up
  }

  function GatedValue(m: Math, gate: real, up: real): real {
    m.Round(GateProduct(m, gate, up))
  }

  /** The gate goes through the activation, the other factor does not. */
  lemma GatedValueIs(m: Math, gate: real, up: real, v: real)
    requires v == m.silu(gate) * up
    ensures GatedValue(m, gate, up) == m.fromWord(m.toWord(v))
  {
    assert GateProduct(m, gate, up) == v;
  }

  function Gated(m: Math, gate: Vec, up: Vec): (z: Vec)
    requires |gate| == |up|
    ensures |z| == |gate|
  {
    seq(|gate|, i requires 0 <= i < |gate| && |gate| == |up| => GatedValue(m, gate[i], up[i]))
  }

  datatype Inputs = Inputs(query: Vec, key: Vec, value: Vec)

  /** The rounded query, key and value of a position. */
  function InputsOf(m: Math, image: Image, w: LayerWeights, hidden: Vec, position: nat): (n: Inputs)
    requires m.Valid() && Fitted(image, w) && |hidden| == HIDDEN
    ensures |n.query| == HIDDEN && |n.key| == KV_WIDTH && |n.value| == KV_WIDTH
  {
    var x := m.Rounded(m.norm(hidden, w.inputNorm));
    Inputs(
      m.Rounded(m.rotateQuery(Project(m, image, w.query, x), position)),
      m.Rounded(m.rotateKey(Project(m, image, w.key, x), position)),
      Project(m, image, w.value, x))
  }

  function FeedForward(m: Math, image: Image, w: LayerWeights, hidden: Vec): (out: Vec)
    requires m.Valid() && Fitted(image, w) && |hidden| == HIDDEN
    ensures |out| == HIDDEN
  {
    var x := m.Rounded(m.norm(hidden, w.postNorm));
    Add(m, hidden, Project(m, image, w.down, Gated(m, Project(m, image, w.gate, x), Project(m, image, w.up, x))))
  }

  /** The hidden vector behind attention and its residual. */
  function Attended(m: Math, image: Image, w: LayerWeights, hidden: Vec, position: nat, keys: History,
                    values: History): (out: Vec)
    requires m.Valid() && Fitted(image, w) && |hidden| == HIDDEN
    requires Wide(keys) && Wide(values) && |keys| == |values|
    ensures |out| == HIDDEN
  {
    var n := InputsOf(m, image, w, hidden, position);
    var attention := Attention(m, n.query, keys + [n.key], values + [n.value]);
    Add(m, hidden, Project(m, image, w.output, attention))
  }

  /** The hidden vector behind the layer, from the exact keys and values of positions 0 to
      `position`. */
  function LayerOut(m: Math, image: Image, w: LayerWeights, hidden: Vec, position: nat, keys: History,
                    values: History): (out: Vec)
    requires m.Valid() && Fitted(image, w) && |hidden| == HIDDEN
    requires Wide(keys) && Wide(values) && |keys| == |values|
    ensures |out| == HIDDEN
  {
    FeedForward(m, image, w, Attended(m, image, w, hidden, position, keys, values))
  }

  // ---------------------------------------------------------------- the bfloat16 cache

  /** Rows 0 to |rows| - 1 of a cache read back as the history. */
  ghost predicate Caches(m: Math, cache: seq<Word16>, rows: History) {
    && Wide(rows) && KV_WIDTH * |rows| <= |cache|
    && forall t, i | 0 <= t < |rows| && 0 <= i < KV_WIDTH :: m.fromWord(cache[KV_WIDTH * t + i]) == rows[t][i]
  }

  /** A vector whose entries are bfloat16 values already. */
  ghost predicate IsRounded(m: Math, x: Vec) {
    forall i | 0 <= i < |x| :: m.Round(x[i]) == x[i]
  }

  /** The bfloat16 conversions lose nothing the second time. */
  lemma RoundingIsStable(m: Math, f: Float32)
    requires m.Bitwise(f)
    ensures m.Rounds()
  {
    forall v ensures m.Round(m.Round(v)) == m.Round(v) {
      WordComesBack(m, f, v);
      WordComesBack(m, f, m.Round(v));
      RoundTwice(f, v);
    }
  }

  lemma WordComesBack(m: Math, f: Float32, v: real)
    requires m.Bitwise(f)
    ensures m.Round(v) == f.FromWord(f.ToWord(v))
  {
    var w: Word16 := m.toWord(v);
    assert w == f.ToWord(v) as nat;
    assert w as bv16 == f.ToWord(v);
  }

  lemma RoundedIsRounded(m: Math, x: Vec)
    requires m.Rounds()
    ensures IsRounded(m, m.Rounded(x))
  {
  }

  method RoundInPlace(m: Math, values: array<real>)
    modifies values
    ensures values[..] == m.Rounded(old(values[..]))
  {
    for i := 0 to values.Length
      invariant forall j | 0 <= j < i :: values[j] == m.Round(old(values[j]))
      invariant forall j | i <= j < values.Length :: values[j] == old(values[j])
    {
      values[i] := m.fromWord(m.toWord(values[i]));
    }
    assert values[..] == m.Rounded(old(values[..]));
  }

  /** A cache with one position's row written. */
  function WithRow(m: Math, cache: seq<Word16>, position: nat, row: Vec): (next: seq<Word16>)
    requires |row| == KV_WIDTH && KV_WIDTH * (position + 1) <= |cache|
    ensures |next| == |cache|
  {
    seq(|cache|, i requires 0 <= i < |cache| && |row| == KV_WIDTH => Cell(m, cache, position, row, i))
  }

  function Cell(m: Math, cache: seq<Word16>, position: nat, row: Vec, i: nat): Word16
    requires |row| == KV_WIDTH && i < |cache|
  {
    if KV_WIDTH * position <= i < KV_WIDTH * (position + 1) then m.toWord(row[i - KV_WIDTH * position]) else cache[i]
  }

  method StoreRow(m: Math, src: Vec, cache: array<Word16>, position: nat)
    requires |src| == KV_WIDTH && KV_WIDTH * (position + 1) <= cache.Length
    modifies cache
    ensures cache[..] == WithRow(m, old(cache[..]), position, src)
  {
    var at := KV_WIDTH * position;
    for i := 0 to KV_WIDTH
      invariant forall j | at <= j < at + i :: cache[j] == m.toWord(src[j - at])
      invariant forall j | 0 <= j < cache.Length && !(at <= j < at + i) :: cache[j] == old(cache[j])
    {
      cache[at + i] := m.toWord(src[i]);
    }
    assert cache[..] == WithRow(m, old(cache[..]), position, src);
  }

  /** The cache is lossless, because what is stored was rounded before. */
  lemma StoredIsExact(m: Math, cache: seq<Word16>, rows: History, row: Vec)
    requires Caches(m, cache, rows) && |row| == KV_WIDTH && IsRounded(m, row)
    requires KV_WIDTH * (|rows| + 1) <= |cache|
    ensures Caches(m, WithRow(m, cache, |rows|, row), rows + [row])
  {
    var more, after := rows + [row], WithRow(m, cache, |rows|, row);
    forall t, i | 0 <= t < |more| && 0 <= i < KV_WIDTH ensures m.fromWord(after[KV_WIDTH * t + i]) == more[t][i] {
      if t < |rows| {
        assert after[KV_WIDTH * t + i] == cache[KV_WIDTH * t + i];
      } else {
        assert after[KV_WIDTH * t + i] == m.toWord(row[i]);
        assert m.Round(row[i]) == row[i];
      }
    }
  }

  method HeadScores(m: Math, query: Vec, cache: array<Word16>, ghost keys: History, h: nat, count: nat)
    returns (scores: Vec)
    requires |query| == HIDDEN && h < HEADS && count == |keys| && Caches(m, cache[..], keys)
    ensures scores == Scores(query, keys, h)
  {
    scores := [];
    for token := 0 to count
      invariant |scores| == token
      invariant forall t | 0 <= t < token ::
                  scores[t] == Dot(query, h * HEAD_DIM, keys[t], KvAt(h), HEAD_DIM) * ATTENTION_SCALE
    {
      var dot := 0.0;
      for i := 0 to HEAD_DIM
        invariant dot == Dot(query, h * HEAD_DIM, keys[token], KvAt(h), i)
      {
        assert m.fromWord(cache[..][KV_WIDTH * token + (KvAt(h) + i)]) == keys[token][KvAt(h) + i];
        dot := dot + query[h * HEAD_DIM + i] * m.fromWord(cache[KV_WIDTH * token + KvAt(h) + i]);
      }
      scores := scores + [dot * ATTENTION_SCALE];
    }
  }

  /** Adds one position's value row, weighted, to a head's output. */
  method AddValue(m: Math, probs: Vec, cache: array<Word16>, ghost values: History, token: nat, kvAt: nat,
                  output: array<real>, at: nat)
    requires token < |probs| && token < |values| && Caches(m, cache[..], values)
    requires kvAt + HEAD_DIM <= KV_WIDTH && at + HEAD_DIM <= output.Length && (output as object) != cache
    requires forall j | at <= j < at + HEAD_DIM :: output[j] == Blend(probs, values, kvAt + (j - at), token)
    modifies output
    ensures forall j | at <= j < at + HEAD_DIM :: output[j] == Blend(probs, values, kvAt + (j - at), token + 1)
    ensures forall j | 0 <= j < output.Length && !(at <= j < at + HEAD_DIM) :: output[j] == old(output[j])
  {
    for i := 0 to HEAD_DIM
      invariant forall j | at <= j < at + i :: output[j] == Blend(probs, values, kvAt + (j - at), token + 1)
      invariant forall j | at + i <= j < at + HEAD_DIM :: output[j] == Blend(probs, values, kvAt + (j - at), token)
      invariant forall j | 0 <= j < output.Length && !(at <= j < at + HEAD_DIM) :: output[j] == old(output[j])
    {
      assert m.fromWord(cache[..][KV_WIDTH * token + (kvAt + i)]) == values[token][kvAt + i];
      output[at + i] := output[at + i] + probs[token] * m.fromWord(cache[KV_WIDTH * token + kvAt + i]);
    }
  }

  /** Blends the cached values into the zeros at `at`. */
  method BlendHead(m: Math, probs: Vec, cache: array<Word16>, ghost values: History, count: nat, kvAt: nat,
                   output: array<real>, at: nat)
    requires count == |probs| == |values| && Caches(m, cache[..], values)
    requires kvAt + HEAD_DIM <= KV_WIDTH && at + HEAD_DIM <= output.Length && (output as object) != cache
    requires forall j | at <= j < at + HEAD_DIM :: output[j] == 0.0
    modifies output
    ensures forall j | at <= j < at + HEAD_DIM :: output[j] == Blend(probs, values, kvAt + (j - at), count)
    ensures forall j | 0 <= j < output.Length && !(at <= j < at + HEAD_DIM) :: output[j] == old(output[j])
  {
    for token := 0 to count
      invariant forall j | at <= j < at + HEAD_DIM :: output[j] == Blend(probs, values, kvAt + (j - at), token)
      invariant forall j | 0 <= j < output.Length && !(at <= j < at + HEAD_DIM) :: output[j] == old(output[j])
    {
      AddValue(m, probs, cache, values, token, kvAt, output, at);
    }
  }

  /** One query head: scores against the cached keys, then the blend of the cached values. */
  method AttendHead(m: Math, query: Vec, keyCache: array<Word16>, valueCache: array<Word16>,
                    ghost keys: History, ghost values: History, count: nat, h: nat, output: array<real>)
    requires m.Valid() && |query| == HIDDEN && h < HEADS && count == |keys| == |values|
    requires Caches(m, keyCache[..], keys) && Caches(m, valueCache[..], values)
    requires output.Length == HIDDEN && (output as object) != keyCache && (output as object) != valueCache
    requires forall j | h * HEAD_DIM <= j < HIDDEN :: output[j] == 0.0
    modifies output
    ensures output[..(h + 1) * HEAD_DIM] == old(output[..h * HEAD_DIM]) + HeadOutput(m, query, keys, values, h)
    ensures forall j | (h + 1) * HEAD_DIM <= j < HIDDEN :: output[j] == 0.0
  {
    var scores := HeadScores(m, query, keyCache, keys, h, count);
    var probs, at := m.softmax(scores), h * HEAD_DIM;
    BlendHead(m, probs, valueCache, values, count, KvAt(h), output, at);
    BlendedIsHead(m, query, keys, values, h, probs, output[at..at + HEAD_DIM]);
    assert output[..at] == old(output[..at]);
    Joined(output[..], at, at + HEAD_DIM);
  }

  lemma BlendedIsHead(m: Math, query: Vec, keys: History, values: History, h: nat, probs: Vec, out: Vec)
    requires m.Valid() && |query| == HIDDEN && h < HEADS && |keys| == |values| && Wide(keys) && Wide(values)
    requires probs == m.softmax(Scores(query, keys, h)) && |out| == HEAD_DIM
    requires forall j | 0 <= j < HEAD_DIM :: out[j] == Blend(probs, values, KvAt(h) + j, |values|)
    ensures out == HeadOutput(m, query, keys, values, h)
  {
  }

  lemma Joined(x: Vec, a: nat, b: nat)
    requires a <= b <= |x|
    ensures x[..b] == x[..a] + x[a..b]
  {
  }

  lemma NextHead(m: Math, query: Vec, keys: History, values: History, h: nat, before: Vec)
    requires m.Valid() && |query| == HIDDEN && Wide(keys) && Wide(values) && |keys| == |values| && h < HEADS
    requires before == HeadOutputs(m, query, keys, values, h)
    ensures before + HeadOutput(m, query, keys, values, h) == HeadOutputs(m, query, keys, values, h + 1)
  {
  }

  /** All heads over the caches, one after another. */
  method AttendHeads(m: Math, query: Vec, keyCache: array<Word16>, valueCache: array<Word16>,
                     ghost keys: History, ghost values: History, count: nat) returns (output: array<real>)
    requires m.Valid() && |query| == HIDDEN && count == |keys| == |values|
    requires Caches(m, keyCache[..], keys) && Caches(m, valueCache[..], values)
    ensures fresh(output) && output.Length == HIDDEN && output[..HIDDEN] == HeadOutputs(m, query, keys, values, HEADS)
  {
    output := new real[HIDDEN](_ => 0.0);
    for h := 0 to HEADS
      invariant output[..h * HEAD_DIM] == HeadOutputs(m, query, keys, values, h)
      invariant forall j | h * HEAD_DIM <= j < HIDDEN :: output[j] == 0.0
    {
      NextHead(m, query, keys, values, h, output[..h * HEAD_DIM]);
      AttendHead(m, query, keyCache, valueCache, keys, values, count, h, output);
    }
  }

  /** All heads over the caches, rounded at the end. */
  method AttendAll(m: Math, query: Vec, keyCache: array<Word16>, valueCache: array<Word16>,
                   ghost keys: History, ghost values: History, count: nat) returns (attention: Vec)
    requires m.Valid() && |query| == HIDDEN && count == |keys| == |values|
    requires Caches(m, keyCache[..], keys) && Caches(m, valueCache[..], values)
    ensures attention == Attention(m, query, keys, values)
  {
    var output := AttendHeads(m, query, keyCache, valueCache, keys, values, count);
    assert output[..] == output[..HIDDEN];
    RoundInPlace(m, output);
    attention := output[..];
  }

  /** Attention through the bfloat16 caches is attention over the exact history, provided that what
      is stored was rounded before. */
  method GroupedQueryAttention(m: Math, query: Vec, key: Vec, value: Vec, keyCache: array<Word16>,
                               valueCache: array<Word16>,
                               position: nat, context: nat, ghost keys: History, ghost values: History)
    returns (ok: bool, attention: Vec)
    requires m.Valid() && |query| == HIDDEN && |key| == KV_WIDTH && |value| == KV_WIDTH
    requires IsRounded(m, key) && IsRounded(m, value) && keyCache != valueCache
    requires KV_WIDTH * context <= keyCache.Length && KV_WIDTH * context <= valueCache.Length
    requires |keys| == |values| == position && Caches(m, keyCache[..], keys) && Caches(m, valueCache[..], values)
    modifies keyCache, valueCache
    ensures ok == (position < context)
    ensures ok ==> Caches(m, keyCache[..], keys + [key]) && Caches(m, valueCache[..], values + [value])
    ensures ok ==> attention == Attention(m, query, keys + [key], values + [value])
    ensures keyCache[..] == if ok then WithRow(m, old(keyCache[..]), position, key) else old(keyCache[..])
    ensures valueCache[..] == if ok then WithRow(m, old(valueCache[..]), position, value) else old(valueCache[..])
  {
    if position >= context {
      return false, [];
    }
    Store(m, key, keyCache, position, keys);
    Store(m, value, valueCache, position, values);
    attention := AttendAll(m, query, keyCache, valueCache, keys + [key], values + [value], position + 1);
    ok := true;
  }

  method Store(m: Math, row: Vec, cache: array<Word16>, position: nat, ghost rows: History)
    requires |row| == KV_WIDTH && IsRounded(m, row) && KV_WIDTH * (position + 1) <= cache.Length
    requires position == |rows| && Caches(m, cache[..], rows)
    modifies cache
    ensures Caches(m, cache[..], rows + [row]) && cache[..] == WithRow(m, old(cache[..]), position, row)
  {
    StoredIsExact(m, cache[..], rows, row);
    StoreRow(m, row, cache, position);
  }

  // ---------------------------------------------------------------- projections

  method ProjectRegular(m: Math, image: Image, loc: Location, x: Vec) returns (y: Vec)
    requires Mapped(image, loc) && |x| == loc.columns
    ensures y == Project(m, image, loc, x)
  {
    var output := new real[loc.rows](_ => 0.0);
    MatvecRegular(m.fromWord, image, loc, x, output);
    assert output[..] == output[..loc.rows];
    RoundInPlace(m, output);
    y := output[..];
  }

  method ProjectFast(m: Math, image: Image, loc: Location, x: Vec, table: array<real>) returns (y: Vec)
    requires Mapped(image, loc) && |x| == loc.columns && IsTable(x, table[..])
    ensures y == Project(m, image, loc, x)
  {
    var output := new real[loc.rows](_ => 0.0);
    MatvecFast(m.fromWord, image, loc, x, table, output);
    assert output[..] == output[..loc.rows];
    RoundInPlace(m, output);
    y := output[..];
  }

  /** A parallel executor: None when it gives up. */
  type Executor = (Location, Vec) -> Option<Vec>

  /** The contract of an executor: what it returns is the product. */
  ghost predicate Meets(m: Math, image: Image, run: Executor) {
    forall loc, x | Mapped(image, loc) && |x| == loc.columns && run(loc, x).Some? ::
      run(loc, x).value == Out(m.fromWord, image, loc, x)
  }

  method ProjectParallel(m: Math, image: Image, loc: Location, x: Vec, run: Executor) returns (ok: bool, y: Vec)
    requires Mapped(image, loc) && |x| == loc.columns && Meets(m, image, run)
    ensures ok == run(loc, x).Some?
    ensures ok ==> y == Project(m, image, loc, x)
  {
    var result := run(loc, x);
    if result.None? {
      return false, [];
    }
    var output := new real[loc.rows](i requires 0 <= i < |result.value| => result.value[i]);
    assert output[..] == result.value;
    RoundInPlace(m, output);
    return true, output[..];
  }

  /** One projection, by the executor when there is one and from the table otherwise. */
  method ProjectWith(m: Math, image: Image, loc: Location, x: Vec, executor: Option<Executor>, table: array<real>)
    returns (ok: bool, y: Vec)
    requires Mapped(image, loc) && |x| == loc.columns
    requires if executor.Some? then Meets(m, image, executor.value) else IsTable(x, table[..])
    ensures ok <==> executor.Some? ==> executor.value(loc, x).Some?
    ensures ok ==> y == Project(m, image, loc, x)
  {
    if executor.Some? {
      ok, y := ProjectParallel(m, image, loc, x, executor.value);
    } else {
      y := ProjectFast(m, image, loc, x, table);
      ok := true;
    }
  }

  method ProjectEach(m: Math, image: Image, locs: seq<Location>, x: Vec, executor: Option<Executor>, table: array<real>)
    returns (ok: bool, ys: seq<Vec>)
    requires forall i | 0 <= i < |locs| :: Mapped(image, locs[i]) && |x| == locs[i].columns
    requires if executor.Some? then Meets(m, image, executor.value) else IsTable(x, table[..])
    ensures ok <==> executor.Some? ==> forall i | 0 <= i < |locs| :: executor.value(locs[i], x).Some?
    ensures ok ==> |ys| == |locs| && forall i | 0 <= i < |locs| :: ys[i] == Project(m, image, locs[i], x)
  {
    ys := [];
    ghost var goal := seq(|locs|, i requires 0 <= i < |locs| && Mapped(image, locs[i]) && |x| == locs[i].columns =>
      Project(m, image, locs[i], x));
    for i := 0 to |locs|
      invariant ys == goal[..i]
      invariant executor.Some? ==> forall j | 0 <= j < i :: executor.value(locs[j], x).Some?
    {
      var y;
      ok, y := ProjectWith(m, image, locs[i], x, executor, table);
      if !ok {
        return;
      }
      assert y == goal[i];
      ys := ys + [y];
    }
    ok := true;
  }

  /** What the fast layer does for every group of matrices with one input: the executor when there
      is one, and the lookup table otherwise. */
  method ProjectAll(m: Math, image: Image, locs: seq<Location>, x: Vec, executor: Option<Executor>, lut: array2<nat>,
                    table: array<real>)
    returns (ok: bool, ys: seq<Vec>)
    requires forall i | 0 <= i < |locs| :: Mapped(image, locs[i]) && |x| == locs[i].columns
    requires lut.Length0 == CODES && lut.Length1 == LANES && 512 * Groups(|x|) <= table.Length
    requires forall code, lane | 0 <= code < CODES && 0 <= lane < LANES :: lut[code, lane] == Lane(code, lane)
    requires executor.Some? ==> Meets(m, image, executor.value)
    modifies table
    ensures ok <==> executor.Some? ==> forall i | 0 <= i < |locs| :: executor.value(locs[i], x).Some?
    ensures ok ==> |ys| == |locs| && forall i | 0 <= i < |locs| :: ys[i] == Project(m, image, locs[i], x)
  {
    if executor.None? {
      BuildDotLookup(x, lut, table);
    }
    ok, ys := ProjectEach(m, image, locs, x, executor, table);
  }

  // ---------------------------------------------------------------- the two layers

  method AddInPlace(m: Math, hidden: array<real>, projection: Vec)
    requires hidden.Length == |projection|
    modifies hidden
    ensures hidden[..] == Add(m, old(hidden[..]), projection)
  {
    for i := 0 to hidden.Length
      invariant forall j | 0 <= j < i :: hidden[j] == m.Round(old(hidden[j]) + projection[j])
      invariant forall j | i <= j < hidden.Length :: hidden[j] == old(hidden[j])
    {
      hidden[i] := m.fromWord(m.toWord(hidden[i] + projection[i]));
    }
    assert hidden[..] == Add(m, old(hidden[..]), projection);
  }

  method Gate(m: Math, gate: Vec, up: Vec) returns (z: Vec)
    requires |gate| == |up|
    ensures z == Gated(m, gate, up)
  {
    var buffer := new real[|gate|](i requires 0 <= i < |gate| => gate[i]);
    for i := 0 to |gate|
      invariant forall j | 0 <= j < i :: buffer[j] == GatedValue(m, gate[j], up[j])
      invariant forall j | i <= j < |gate| :: buffer[j] == gate[j]
    {
      buffer[i] := GatedValue(m, buffer[i], up[i]);
    }
    z := buffer[..];
    assert z == Gated(m, gate, up);
  }

  /** The rounded normalised input of a group of projections. */
  function Normed(m: Math, hidden: Vec, g: seq<Word16>): (x: Vec)
    requires m.Valid()
    ensures |x| == |hidden|
  {
    m.Rounded(m.norm(hidden, g))
  }

  /** The state of one layer: the caller's hidden vector and the two caches. */
  class Layer {
    const math: Math
    const image: Image
    const weights: LayerWeights
    const context: nat
    const keyCache: array<Word16>
    const valueCache: array<Word16>
    const hidden: array<real>

    ghost predicate Valid() {
      && math.Valid() && math.Rounds() && Fitted(image, weights) && hidden.Length == HIDDEN && keyCache != valueCache
      && KV_WIDTH * context <= keyCache.Length && KV_WIDTH * context <= valueCache.Length
      && (hidden as object) != keyCache && (hidden as object) != valueCache
    }

    constructor (math: Math, image: Image, weights: LayerWeights, context: nat,
                 keyCache: array<Word16>, valueCache: array<Word16>, hidden: array<real>, ghost float: Float32)
      requires math.Valid() && math.Bitwise(float) && Fitted(image, weights) && hidden.Length == HIDDEN
      requires keyCache != valueCache
      requires KV_WIDTH * context <= keyCache.Length && KV_WIDTH * context <= valueCache.Length
      requires (hidden as object) != keyCache && (hidden as object) != valueCache
      ensures Valid()
    {
      this.math, this.image, this.weights, this.context := math, image, weights, context;
      this.keyCache, this.valueCache, this.hidden := keyCache, valueCache, hidden;
      RoundingIsStable(math, float);
    }

    /** Both caches read back as these exact rows. */
    ghost predicate Remembers(keys: History, values: History)
      requires Valid()
      reads keyCache, valueCache
    {
      |keys| == |values| && Caches(math, keyCache[..], keys) && Caches(math, valueCache[..], values)
    }

    /** Attention and its residual, from the projected inputs on. */
    method Attend(q: Vec, k: Vec, v: Vec, position: nat, ghost keys: History, ghost values: History)
      returns (ok: bool, attention: Vec)
      requires Valid() && Remembers(keys, values) && position == |keys|
      requires |q| == HIDDEN && |k| == KV_WIDTH && |v| == KV_WIDTH && IsRounded(math, v)
      modifies keyCache, valueCache
      ensures ok == (position < context)
      ensures var query, key := math.Rounded(math.rotateQuery(q, position)), math.Rounded(math.rotateKey(k, position));
              && keyCache[..] == (if ok then WithRow(math, old(keyCache[..]), position, key) else old(keyCache[..]))
              && valueCache[..] == (if ok then WithRow(math, old(valueCache[..]), position, v) else old(valueCache[..]))
              && (ok ==> Remembers(keys + [key], values + [v])
                         && attention == Attention(math, query, keys + [key], values + [v]))
    {
      var query, key := math.Rounded(math.rotateQuery(q, position)), math.Rounded(math.rotateKey(k, position));
      RoundedIsRounded(math, math.rotateKey(k, position));
      ok, attention := GroupedQueryAttention(math, query, key, v, keyCache, valueCache, position, context, keys,
                                             values);
    }

    /** Everything behind the attention: the residuals and the feed-forward part, regular form. */
    method FinishRegular(attention: Vec)
      requires Valid() && |attention| == HIDDEN
      modifies hidden
      ensures hidden[..] == FeedForward(math, image, weights,
                              Add(math, old(hidden[..]), Project(math, image, weights.output, attention)))
    {
      var projection := ProjectRegular(math, image, weights.output, attention);
      AddInPlace(math, hidden, projection);
      var x := Normed(math, hidden[..], weights.postNorm);
      var gate := ProjectRegular(math, image, weights.gate, x);
      var up := ProjectRegular(math, image, weights.up, x);
      gate := Gate(math, gate, up);
      projection := ProjectRegular(math, image, weights.down, gate);
      AddInPlace(math, hidden, projection);
    }

    /** One position through the regular layer. */
    method RunRegular(position: nat, ghost keys: History, ghost values: History) returns (ok: bool)
      requires Valid() && Remembers(keys, values) && position == |keys|
      modifies hidden, keyCache, valueCache
      ensures ok == (position < context)
      ensures Stepped(ok, old(hidden[..]), old(keyCache[..]), old(valueCache[..]), position, keys, values)
    {
      var x := Normed(math, hidden[..], weights.inputNorm);
      var q := ProjectRegular(math, image, weights.query, x);
      var k := ProjectRegular(math, image, weights.key, x);
      var v := ProjectRegular(math, image, weights.value, x);
      RoundedIsRounded(math, Out(math.fromWord, image, weights.value, x));
      var attention;
      ok, attention := Attend(q, k, v, position, keys, values);
      if ok {
        FinishRegular(attention);
      }
    }

    /** What a position does to the hidden vector and the caches, in terms of the exact history. */
    ghost predicate Stepped(ok: bool, x: Vec, keyBefore: seq<Word16>, valueBefore: seq<Word16>, position: nat,
                            keys: History, values: History)
      requires Valid() && |x| == HIDDEN && |keys| == |values| == position && Wide(keys) && Wide(values)
      requires |keyBefore| == keyCache.Length && |valueBefore| == valueCache.Length
      reads hidden, keyCache, valueCache
    {
      if !ok then hidden[..] == x && keyCache[..] == keyBefore && valueCache[..] == valueBefore
      else
        var n := InputsOf(math, image, weights, x, position);
        && hidden[..] == LayerOut(math, image, weights, x, position, keys, values)
        && KV_WIDTH * (position + 1) <= |keyBefore| && KV_WIDTH * (position + 1) <= |valueBefore|
        && keyCache[..] == WithRow(math, keyBefore, position, n.key)
        && valueCache[..] == WithRow(math, valueBefore, position, n.value)
        && Remembers(keys + [n.key], values + [n.value])
    }

    /** Where a position stops when the executor gives up: before anything is written, or with the row
        in both caches and at most the attention residual in the hidden vector. */
    ghost predicate Halted(x: Vec, keyBefore: seq<Word16>, valueBefore: seq<Word16>, position: nat, keys: History,
                           values: History)
      requires Valid() && |x| == HIDDEN && |keys| == |values| == position && Wide(keys) && Wide(values)
      requires |keyBefore| == keyCache.Length && |valueBefore| == valueCache.Length
      reads hidden, keyCache, valueCache
    {
      var n := InputsOf(math, image, weights, x, position);
      || (hidden[..] == x && keyCache[..] == keyBefore && valueCache[..] == valueBefore)
      || (&& position < context
          && KV_WIDTH * (position + 1) <= |keyBefore| && KV_WIDTH * (position + 1) <= |valueBefore|
          && keyCache[..] == WithRow(math, keyBefore, position, n.key)
          && valueCache[..] == WithRow(math, valueBefore, position, n.value)
          && (hidden[..] == x || hidden[..] == Attended(math, image, weights, x, position, keys, values)))
    }

    /** The executor, when there is one, never gives up. */
    ghost predicate Dependable(executor: Option<Executor>) {
      executor.Some? ==> forall loc, x :: executor.value(loc, x).Some?
    }

    ghost predicate Lookup(lut: array2<nat>, table: array<real>, executor: Option<Executor>)
      requires Valid()
      reads lut
    {
      && lut.Length0 == CODES && lut.Length1 == LANES && 512 * Groups(INTERMEDIATE) <= table.Length
      && (forall code, lane | 0 <= code < CODES && 0 <= lane < LANES :: lut[code, lane] == Lane(code, lane))
      && (executor.Some? ==> Meets(math, image, executor.value))
      && table != hidden && (table as object) != keyCache && (table as object) != valueCache
      && (lut as object) != hidden && (lut as object) != keyCache && (lut as object) != valueCache
      && (lut as object) != table
    }

    method ProjectGates(x: Vec, executor: Option<Executor>, lut: array2<nat>, table: array<real>)
      returns (ok: bool, gate: Vec, up: Vec)
      requires Valid() && |x| == HIDDEN && Lookup(lut, table, executor)
      modifies table
      ensures Dependable(executor) ==> ok
      ensures ok ==> gate == Project(math, image, weights.gate, x) && up == Project(math, image, weights.up, x)
    {
      var ys;
      ok, ys := ProjectAll(math, image, [weights.gate, weights.up], x, executor, lut, table);
      gate, up := if ok then ys[0] else [], if ok then ys[1] else [];
    }

    method ProjectOne(loc: Location, x: Vec, executor: Option<Executor>, lut: array2<nat>, table: array<real>)
      returns (ok: bool, y: Vec)
      requires Valid() && Mapped(image, loc) && |x| == loc.columns && |x| <= INTERMEDIATE
      requires Lookup(lut, table, executor)
      modifies table
      ensures Dependable(executor) ==> ok
      ensures ok ==> y == Project(math, image, loc, x)
    {
      var ys;
      ok, ys := ProjectAll(math, image, [loc], x, executor, lut, table);
      y := if ok then ys[0] else [];
    }

    method ProjectInputs(x: Vec, executor: Option<Executor>, lut: array2<nat>, table: array<real>)
      returns (ok: bool, q: Vec, k: Vec, v: Vec)
      requires Valid() && |x| == HIDDEN && Lookup(lut, table, executor)
      modifies table
      ensures Dependable(executor) ==> ok
      ensures ok ==> q == Project(math, image, weights.query, x) && k == Project(math, image, weights.key, x)
      ensures ok ==> v == Project(math, image, weights.value, x)
    {
      var ys;
      ok, ys := ProjectAll(math, image, [weights.query, weights.key, weights.value], x, executor, lut, table);
      q, k, v := if ok then ys[0] else [], if ok then ys[1] else [], if ok then ys[2] else [];
    }

    method FeedForwardFast(executor: Option<Executor>, lut: array2<nat>, table: array<real>) returns (ok: bool)
      requires Valid() && Lookup(lut, table, executor)
      modifies hidden, table
      ensures Dependable(executor) ==> ok
      ensures hidden[..] == if ok then FeedForward(math, image, weights, old(hidden[..])) else old(hidden[..])
    {
      var x := Normed(math, hidden[..], weights.postNorm);
      var gate, up, projection;
      ok, gate, up := ProjectGates(x, executor, lut, table);
      if !ok {
        return;
      }
      gate := Gate(math, gate, up);
      ok, projection := ProjectOne(weights.down, gate, executor, lut, table);
      if !ok {
        return;
      }
      AddInPlace(math, hidden, projection);
    }

    method FinishFast(attention: Vec, executor: Option<Executor>, lut: array2<nat>, table: array<real>)
      returns (ok: bool)
      requires Valid() && |attention| == HIDDEN && Lookup(lut, table, executor)
      modifies hidden, table
      ensures Dependable(executor) ==> ok
      ensures ok ==> hidden[..] == FeedForward(math, image, weights,
                                     Add(math, old(hidden[..]), Project(math, image, weights.output, attention)))
      ensures var attended := Add(math, old(hidden[..]), Project(math, image, weights.output, attention));
              !ok ==> hidden[..] == old(hidden[..]) || hidden[..] == attended
    {
      var projection;
      ok, projection := ProjectOne(weights.output, attention, executor, lut, table);
      if !ok {
        return;
      }
      AddInPlace(math, hidden, projection);
      ok := FeedForwardFast(executor, lut, table);
    }

    /** One position through the fast layer: with an executor that meets the product's contract, or
        with none, it leaves what the regular layer leaves. */
    method RunFast(position: nat, executor: Option<Executor>, lut: array2<nat>, table: array<real>,
                   ghost keys: History, ghost values: History) returns (ok: bool)
      requires Valid() && Remembers(keys, values) && position == |keys| && Lookup(lut, table, executor)
      modifies hidden, keyCache, valueCache, table
      ensures ok ==> position < context
      ensures Dependable(executor) ==> ok == (position < context)
      ensures ok || Dependable(executor) ==>
                Stepped(ok, old(hidden[..]), old(keyCache[..]), old(valueCache[..]), position, keys, values)
      ensures !ok ==> Halted(old(hidden[..]), old(keyCache[..]), old(valueCache[..]), position, keys, values)
    {
      var x := Normed(math, hidden[..], weights.inputNorm);
      var q, k, v, attention;
      ok, q, k, v := ProjectInputs(x, executor, lut, table);
      if !ok {
        return;
      }
      RoundedIsRounded(math, Out(math.fromWord, image, weights.value, x));
      ok, attention := Attend(q, k, v, position, keys, values);
      if ok {
        ok := FinishFast(attention, executor, lut, table);
      }
    }
  }
}
