/** The Quark decoder step with its flat KV cache, and the cache-free network it computes.

    Floating point is kept abstract: a `Float` is an unexamined value and every operation
    on it is a field of `Model`, so what is proved below holds bit for bit for the
    float32 arithmetic of the board. The dense blocks of a layer (norm, projections,
    rotary encoding, feed-forward) are fields too; cache addressing and attention are
    written out. */
module Network {
  import opened Options
  import opened Products

  type Float(==, 0, !new)

  /** The shape of a checkpoint. The header stores `dim`, `n_heads` and `n_kv_heads`; the
      three factors they are built from are kept here (see `HeaderShape`). */
  datatype Config = Config(headSize: nat, kvHeads: nat, kvMul: nat, layers: nat, seqLen: nat, vocab: nat)
  {
    ghost predicate Valid() {
      0 < kvMul && 0 < vocab
    }

    function Heads(): nat { Times(kvHeads, kvMul) }

    function Dim(): nat { Times(Heads(), headSize) }

    function KvDim(): nat { Times(kvHeads, headSize) }

    /** Where row `t` of layer `l` starts in either cache. */
    function Offset(l: nat, t: nat): nat { Times(Times(l, seqLen) + t, KvDim()) }

    function CacheSize(): nat { Times(Times(layers, seqLen), KvDim()) }
  }

  datatype Model = Model(
    config: Config,
    zero: Float,
    add: (Float, Float) -> Float,
    mul: (Float, Float) -> Float,
    div: (Float, Float) -> Float,
    gt: (Float, Float) -> bool,
    softmax: seq<Float> -> seq<Float>,
    rootHeadSize: Float,
    embed: nat -> seq<Float>,
    query: (nat, seq<Float>, nat) -> seq<Float>,
    key: (nat, seq<Float>, nat) -> seq<Float>,
    value: (nat, seq<Float>) -> seq<Float>,
    mix: (nat, seq<Float>, seq<Float>) -> seq<Float>,
    classify: seq<Float> -> seq<Float>)
  {
    /** Every block fills an output buffer of its own fixed size. */
    ghost predicate Valid() {
      && config.Valid()
      && (forall s :: |softmax(s)| == |s|)
      && (forall token :: |embed(token)| == config.Dim())
      && (forall l, x, pos :: |query(l, x, pos)| == config.Dim())
      && (forall l, x, pos :: |key(l, x, pos)| == config.KvDim())
      && (forall l, x :: |value(l, x)| == config.KvDim())
      && (forall l, x, a :: |mix(l, x, a)| == config.Dim())
      && (forall x :: |classify(x)| == config.vocab)
    }
  }

  // ---------------------------------------------------------------- addressing

  lemma WholeQuotient(n: nat, d: nat)
    requires 0 < d
    ensures d * (n / d) == n <==> n % d == 0
    ensures n % d == 0 && 0 < n ==> 0 < n / d
  {
  }

  /** The sizes used here are the ones of the header exactly when the heads divide the width and the
      key/value heads divide the heads, which the code takes for granted. */
  lemma HeaderShape(dim: nat, heads: nat, kvHeads: nat, c: Config)
    requires 0 < heads && 0 < kvHeads
    requires c.headSize == dim / heads && c.kvHeads == kvHeads && c.kvMul == heads / kvHeads
    ensures c.Heads() == heads && c.Dim() == dim <==> dim % heads == 0 && heads % kvHeads == 0
    ensures dim % heads == 0 && heads % kvHeads == 0 ==> c.KvDim() == dim * kvHeads / heads && 0 < c.kvMul
  {
    var s, mul := c.headSize, c.kvMul;
    TimesIs(kvHeads, mul);
    TimesIs(heads, s);
    TimesIs(kvHeads, s);
    WholeQuotient(heads, kvHeads);
    WholeQuotient(dim, heads);
    if dim % heads == 0 && heads % kvHeads == 0 {
      Commutes(heads, s, kvHeads);
      QuotientIs(kvHeads * s, 0, heads);
    }
  }

  lemma Commutes(a: nat, b: nat, k: nat)
    ensures a * b * k == k * b * a
  {
  }

  /** Rows and caches are where the code's own formulas put them. */
  lemma OffsetIs(c: Config, l: nat, t: nat)
    ensures c.Offset(l, t) == l * c.seqLen * c.KvDim() + t * c.KvDim()
    ensures c.CacheSize() == c.layers * c.seqLen * c.KvDim()
  {
    var w := c.KvDim();
    TimesIs(l, c.seqLen);
    TimesIs(c.layers, c.seqLen);
    TimesIs(l * c.seqLen + t, w);
    TimesIs(c.layers * c.seqLen, w);
    assert (l * c.seqLen + t) * w == l * c.seqLen * w + t * w;
  }

  /** Where the key/value group of query head `h` starts inside a cache row. */
  function Group(c: Config, h: nat): (g: nat)
    requires c.Valid() && h < c.Heads()
    ensures g + c.headSize <= c.KvDim()
  {
    GroupBound(c, h);
    TimesMono(h / c.kvMul + 1, c.kvHeads, c.headSize);
    Times(h / c.kvMul, c.headSize)
  }

  lemma GroupBound(c: Config, h: nat)
    requires c.Valid() && h < c.Heads()
    ensures h / c.kvMul < c.kvHeads
  {
    TimesIs(c.kvHeads, c.kvMul);
    if h / c.kvMul >= c.kvHeads {
      assert false;
    }
  }

  /** Rows are laid out in order: layer by layer, position by position. */
  lemma RowsInOrder(c: Config, l: nat, t: nat, l': nat, t': nat)
    requires t < c.seqLen && (l < l' || (l == l' && t < t'))
    ensures c.Offset(l, t) + c.KvDim() <= c.Offset(l', t')
  {
    if l < l' {
      TimesMono(l + 1, l', c.seqLen);
    }
    TimesMono(Times(l, c.seqLen) + t + 1, Times(l', c.seqLen) + t', c.KvDim());
  }

  lemma RowFits(c: Config, l: nat, t: nat)
    requires l < c.layers && t < c.seqLen
    ensures c.Offset(l, t) + c.KvDim() <= c.CacheSize()
  {
    RowsInOrder(c, l, t, c.layers, 0);
  }

  function Row(c: Config, cache: seq<Float>, l: nat, t: nat): (row: seq<Float>)
    requires |cache| == c.CacheSize() && l < c.layers && t < c.seqLen
    ensures |row| == c.KvDim()
  {
    RowFits(c, l, t);
    cache[c.Offset(l, t)..c.Offset(l, t) + c.KvDim()]
  }

  function PutRow(c: Config, cache: seq<Float>, l: nat, t: nat, row: seq<Float>): (cache': seq<Float>)
    requires |cache| == c.CacheSize() && l < c.layers && t < c.seqLen && |row| == c.KvDim()
    ensures |cache'| == |cache|
  {
    RowFits(c, l, t);
    cache[..c.Offset(l, t)] + row + cache[c.Offset(l, t) + c.KvDim()..]
  }

  lemma Spliced(s: seq<Float>, at: nat, row: seq<Float>, from: nat, width: nat)
    requires at + |row| <= |s| && from + width <= |s|
    ensures var t := s[..at] + row + s[at + |row|..];
            && |t| == |s|
            && (from + width <= at || at + |row| <= from ==> t[from..from + width] == s[from..from + width])
            && t[at..at + |row|] == row
  {
    var t := s[..at] + row + s[at + |row|..];
    assert forall i | 0 <= i < |s| :: t[i] == if at <= i < at + |row| then row[i - at] else s[i];
  }

  lemma RowOfPutRow(c: Config, cache: seq<Float>, l: nat, t: nat, row: seq<Float>, l': nat, t': nat)
    requires |cache| == c.CacheSize() && |row| == c.KvDim()
    requires l < c.layers && t < c.seqLen && l' < c.layers && t' < c.seqLen
    ensures Row(c, PutRow(c, cache, l, t, row), l', t')
         == if l' == l && t' == t then row else Row(c, cache, l', t')
  {
    RowFits(c, l, t);
    RowFits(c, l', t');
    Spliced(cache, c.Offset(l, t), row, c.Offset(l', t'), c.KvDim());
    if l < l' || (l == l' && t < t') {
      RowsInOrder(c, l, t, l', t');
    } else if l' < l || (l == l' && t' < t) {
      RowsInOrder(c, l', t', l, t);
    }
  }

  // ---------------------------------------------------------------- attention

  function Dot(m: Model, a: seq<Float>, b: seq<Float>, n: nat): Float
    requires n <= |a| && n <= |b|
  {
    if n == 0 then m.zero else m.add(Dot(m, a, b, n - 1), m.mul(a[n - 1], b[n - 1]))
  }

  /** The weighted sum of component `j` over the first `n` rows. */
  function Blend(m: Model, weights: seq<Float>, rows: seq<seq<Float>>, j: nat, n: nat): Float
    requires n <= |weights| && n <= |rows| && forall t | 0 <= t < |rows| :: j < |rows[t]|
  {
    if n == 0 then m.zero
    else m.add(Blend(m, weights, rows, j, n - 1), m.mul(weights[n - 1], rows[n - 1][j]))
  }

  /** The weighted sums of components `g` up to `g + width`. */
  function BlendSlice(m: Model, weights: seq<Float>, rows: seq<seq<Float>>, g: nat, width: nat,
                      n: nat): (out: seq<Float>)
    requires n <= |weights| && n <= |rows| && forall t | 0 <= t < |rows| :: g + width <= |rows[t]|
    ensures |out| == width
  {
    seq(width, i requires 0 <= i < width => Blend(m, weights, rows, g + i, n))
  }

  lemma BlendStart(m: Model, weights: seq<Float>, rows: seq<seq<Float>>, g: nat, out: seq<Float>)
    requires forall t | 0 <= t < |rows| :: g + |out| <= |rows[t]|
    requires forall i | 0 <= i < |out| :: out[i] == m.zero
    ensures out == BlendSlice(m, weights, rows, g, |out|, 0)
  {
    forall i | 0 <= i < |out|
      ensures out[i] == Blend(m, weights, rows, g + i, 0)
    {
    }
  }

  lemma BlendStep(m: Model, weights: seq<Float>, rows: seq<seq<Float>>, g: nat, before: seq<Float>, t: nat,
                  after: seq<Float>)
    requires t < |weights| && t < |rows| && |after| == |before|
    requires forall u | 0 <= u < |rows| :: g + |before| <= |rows[u]|
    requires before == BlendSlice(m, weights, rows, g, |before|, t)
    requires forall i | 0 <= i < |before| ::
               after[i] == m.add(before[i], m.mul(weights[t], rows[t][g..g + |before|][i]))
    ensures after == BlendSlice(m, weights, rows, g, |after|, t + 1)
  {
    forall i | 0 <= i < |after|
      ensures after[i] == Blend(m, weights, rows, g + i, t + 1)
    {
      assert before[i] == Blend(m, weights, rows, g + i, t);
    }
  }

  function HeadScores(m: Model, q: seq<Float>, keys: seq<seq<Float>>, g: nat): (scores: seq<Float>)
    requires forall t | 0 <= t < |keys| :: g + |q| <= |keys[t]|
    ensures |scores| == |keys|
  {
    seq(|keys|, t requires 0 <= t < |keys| =>
      m.div(Dot(m, q, keys[t][g..g + |q|], |q|), m.rootHeadSize))
  }

  function HeadOutput(m: Model, q: seq<Float>, keys: seq<seq<Float>>, values: seq<seq<Float>>, g: nat)
    : (out: seq<Float>)
    requires m.Valid() && |keys| == |values|
    requires forall t | 0 <= t < |keys| :: g + |q| <= |keys[t]|
    requires forall t | 0 <= t < |values| :: g + |q| <= |values[t]|
    ensures |out| == |q|
  {
    var weights := m.softmax(HeadScores(m, q, keys, g));
    BlendSlice(m, weights, values, g, |q|, |keys|)
  }

  /** The slice of the query vector that head `h` owns. */
  function QueryOf(c: Config, q: seq<Float>, h: nat): (slice: seq<Float>)
    requires |q| == c.Dim() && h < c.Heads()
    ensures |slice| == c.headSize
  {
    TimesMono(h + 1, c.Heads(), c.headSize);
    q[Times(h, c.headSize)..Times(h, c.headSize) + c.headSize]
  }

  ghost predicate Wide(rows: seq<seq<Float>>, width: nat) {
    forall i | 0 <= i < |rows| :: |rows[i]| == width
  }

  /** The outputs of the first `h` heads, one after another. */
  function HeadOutputs(m: Model, q: seq<Float>, keys: seq<seq<Float>>, values: seq<seq<Float>>, h: nat)
    : (out: seq<Float>)
    requires m.Valid() && |q| == m.config.Dim() && |keys| == |values| && h <= m.config.Heads()
    requires Wide(keys, m.config.KvDim()) && Wide(values, m.config.KvDim())
    ensures |out| == Times(h, m.config.headSize)
  {
    if h == 0 then []
    else
      HeadOutputs(m, q, keys, values, h - 1)
      + HeadOutput(m, QueryOf(m.config, q, h - 1), keys, values, Group(m.config, h - 1))
  }

  function Attention(m: Model, q: seq<Float>, keys: seq<seq<Float>>, values: seq<seq<Float>>): (out: seq<Float>)
    requires m.Valid() && |q| == m.config.Dim() && |keys| == |values|
    requires Wide(keys, m.config.KvDim()) && Wide(values, m.config.KvDim())
  {
    HeadOutputs(m, q, keys, values, m.config.Heads())
  }

  // ---------------------------------------------------------------- attention, entry by entry

  /** The first `n` products of query entries from `a` on with key entries from `b` on. */
  function DotAt(m: Model, q: seq<Float>, a: nat, key: seq<Float>, b: nat, n: nat): Float
    requires a + n <= |q| && b + n <= |key|
  {
    if n == 0 then m.zero else m.add(DotAt(m, q, a, key, b, n - 1), m.mul(q[a + n - 1], key[b + n - 1]))
  }

  /** Where the query head of entry `j` starts, where its key/value head starts, and its column. */
  ghost predicate HeadsOf(c: Config, j: nat, head: nat, group: nat, column: nat) {
    && 0 < c.headSize && 0 < c.kvMul
    && head == j / c.headSize * c.headSize
    && group == j / (c.kvMul * c.headSize) * c.headSize
    && column == group + j % c.headSize
  }

  lemma DotSlices(m: Model, q: seq<Float>, a: nat, key: seq<Float>, b: nat, width: nat, n: nat)
    requires a + width <= |q| && b + width <= |key| && n <= width
    ensures Dot(m, q[a..a + width], key[b..b + width], n) == DotAt(m, q, a, key, b, n)
  {
    if n != 0 {
      DotSlices(m, q, a, key, b, width, n - 1);
    }
  }

  lemma Nested(p: nat, r: nat, s: nat, a: nat, b: nat)
    ensures (p * b + r) * a + s == p * (b * a) + (r * a + s)
  {
    assert (p * b + r) * a == (p * b) * a + r * a;
    assert (p * b) * a == p * (b * a);
  }

  lemma InnerFits(r: nat, s: nat, a: nat, b: nat)
    requires r < b && s < a
    ensures r * a + s < b * a
  {
    assert b * a - r * a == (b - r) * a;
    assert (b - r - 1) * a >= 0;
    assert (b - r) * a == (b - r - 1) * a + a;
  }

  lemma Splits(n: nat, d: nat)
    requires 0 < d
    ensures n == n / d * d + n % d && n % d < d
  {
  }

  lemma QuotientOfQuotient(j: nat, a: nat, b: nat)
    requires 0 < a && 0 < b
    ensures 0 < b * a && j / a / b == j / (b * a)
  {
    var n, s := j / a, j % a;
    var p, r := n / b, n % b;
    Splits(j, a);
    Splits(n, b);
    Nested(p, r, s, a, b);
    InnerFits(r, s, a, b);
    QuotientIs(p, r * a + s, b * a);
  }

  lemma HeadsAreTimes(c: Config, j: nat, head: nat, group: nat, column: nat) returns (h: nat, i: nat)
    requires c.Valid() && HeadsOf(c, j, head, group, column) && j < c.Dim()
    ensures h < c.Heads() && i < c.headSize && head == Times(h, c.headSize) && group == Group(c, h)
    ensures column == group + i && j == head + i
  {
    h, i := j / c.headSize, j % c.headSize;
    TimesIs(h, c.headSize);
    Splits(j, c.headSize);
    if c.Heads() <= h {
      TimesMono(c.Heads(), h, c.headSize);
      assert false;
    }
    QuotientOfQuotient(j, c.headSize, c.kvMul);
    TimesIs(h / c.kvMul, c.headSize);
  }

  lemma {:induction false} HeadsInOrder(m: Model, q: seq<Float>, keys: seq<seq<Float>>, values: seq<seq<Float>>, n: nat,
                                        h: nat, i: nat)
    requires m.Valid() && |q| == m.config.Dim() && |keys| == |values| && h < n <= m.config.Heads()
    requires Wide(keys, m.config.KvDim()) && Wide(values, m.config.KvDim()) && i < m.config.headSize
    ensures Times(h, m.config.headSize) + i < Times(n, m.config.headSize)
    ensures HeadOutputs(m, q, keys, values, n)[Times(h, m.config.headSize) + i]
         == HeadOutput(m, QueryOf(m.config, q, h), keys, values, Group(m.config, h))[i]
  {
    TimesMono(h + 1, n, m.config.headSize);
    if h < n - 1 {
      HeadsInOrder(m, q, keys, values, n - 1, h, i);
    }
  }

  /** One score for each position. */
  function ScoresFrom(m: Model, q: seq<Float>, head: nat, keys: seq<seq<Float>>, group: nat,
                      width: nat): (scores: seq<Float>)
    requires head + width <= |q| && forall t | 0 <= t < |keys| :: group + width <= |keys[t]|
    ensures |scores| == |keys|
  {
    seq(|keys|, t requires 0 <= t < |keys| => m.div(DotAt(m, q, head, keys[t], group, width), m.rootHeadSize))
  }

  lemma ScoresAgree(m: Model, q: seq<Float>, keys: seq<seq<Float>>, a: nat, g: nat, width: nat)
    requires a + width <= |q| && forall t | 0 <= t < |keys| :: g + width <= |keys[t]|
    ensures HeadScores(m, q[a..a + width], keys, g) == ScoresFrom(m, q, a, keys, g, width)
  {
    forall t | 0 <= t < |keys|
      ensures HeadScores(m, q[a..a + width], keys, g)[t] == ScoresFrom(m, q, a, keys, g, width)[t]
    {
      DotSlices(m, q, a, keys[t], g, width, width);
    }
  }

  function ColumnOf(rows: seq<seq<Float>>, j: nat): (column: seq<Float>)
    requires forall t | 0 <= t < |rows| :: j < |rows[t]|
    ensures |column| == |rows|
  {
    seq(|rows|, t requires 0 <= t < |rows| && j < |rows[t]| => rows[t][j])
  }

  lemma {:induction false} BlendIsDot(m: Model, weights: seq<Float>, rows: seq<seq<Float>>, j: nat, n: nat)
    requires n <= |weights| && n <= |rows| && forall t | 0 <= t < |rows| :: j < |rows[t]|
    ensures Blend(m, weights, rows, j, n) == DotAt(m, weights, 0, ColumnOf(rows, j), 0, n)
  {
    if n != 0 {
      BlendIsDot(m, weights, rows, j, n - 1);
    }
  }

  lemma HeadEntry(m: Model, q: seq<Float>, a: nat, width: nat, keys: seq<seq<Float>>, values: seq<seq<Float>>, g: nat,
                  i: nat)
    requires m.Valid() && a + width <= |q| && |keys| == |values| && i < width
    requires forall t | 0 <= t < |keys| :: g + width <= |keys[t]|
    requires forall t | 0 <= t < |values| :: g + width <= |values[t]|
    ensures HeadOutput(m, q[a..a + width], keys, values, g)[i]
         == DotAt(m, m.softmax(ScoresFrom(m, q, a, keys, g, width)), 0, ColumnOf(values, g + i), 0, |keys|)
  {
    var weights := m.softmax(ScoresFrom(m, q, a, keys, g, width));
    ScoresAgree(m, q, keys, a, g, width);
    BlendIsDot(m, weights, values, g + i, |keys|);
  }

  lemma AttentionAt(m: Model, q: seq<Float>, keys: seq<seq<Float>>, values: seq<seq<Float>>, h: nat, i: nat, a: nat,
                    g: nat)
    requires m.Valid() && |q| == m.config.Dim() && |keys| == |values|
    requires Wide(keys, m.config.KvDim()) && Wide(values, m.config.KvDim())
    requires h < m.config.Heads() && i < m.config.headSize && a == Times(h, m.config.headSize)
    requires g == Group(m.config, h)
    ensures a + m.config.headSize <= |q| && a + i < |Attention(m, q, keys, values)|
    ensures Attention(m, q, keys, values)[a + i]
         == DotAt(m, m.softmax(ScoresFrom(m, q, a, keys, g, m.config.headSize)), 0, ColumnOf(values, g + i), 0, |keys|)
  {
    var c := m.config;
    TimesMono(h + 1, c.Heads(), c.headSize);
    HeadsInOrder(m, q, keys, values, c.Heads(), h, i);
    HeadEntry(m, q, a, c.headSize, keys, values, g, i);
  }

  /** Entry `j` of attention is the weighted sum of one column of the value rows. The weights are the
      softmax of the products of the entry's query head with the key entries of its key/value head, over
      the root of the head size; `kvMul` query heads in a row share a key/value head. */
  lemma AttentionEntry(m: Model, q: seq<Float>, keys: seq<seq<Float>>, values: seq<seq<Float>>, j: nat,
                       head: nat, group: nat, column: nat)
    requires m.Valid() && |q| == m.config.Dim() && |keys| == |values|
    requires Wide(keys, m.config.KvDim()) && Wide(values, m.config.KvDim())
    requires j < m.config.Dim() && HeadsOf(m.config, j, head, group, column)
    ensures head <= j < head + m.config.headSize <= |q|
    ensures group <= column < group + m.config.headSize <= m.config.KvDim()
    ensures |Attention(m, q, keys, values)| == m.config.Dim()
    ensures Attention(m, q, keys, values)[j]
         == DotAt(m, m.softmax(ScoresFrom(m, q, head, keys, group, m.config.headSize)), 0,
                  ColumnOf(values, column), 0, |keys|)
  {
    var c := m.config;
    var h, i := HeadsAreTimes(c, j, head, group, column);
    AttentionAt(m, q, keys, values, h, i, head, group);
  }

  // ---------------------------------------------------------------- one call on a cache

  datatype Caches = Caches(keys: seq<Float>, values: seq<Float>)
  {
    predicate Fit(c: Config) {
      |keys| == c.CacheSize() && |values| == c.CacheSize()
    }
  }

  datatype Outcome = Outcome(x: seq<Float>, caches: Caches)

  function Rows(c: Config, cache: seq<Float>, l: nat, n: nat): (rows: seq<seq<Float>>)
    requires |cache| == c.CacheSize() && l < c.layers && n <= c.seqLen
    ensures |rows| == n && Wide(rows, c.KvDim())
  {
    seq(n, t requires 0 <= t < n => Row(c, cache, l, t))
  }

  lemma SliceOfSlice(s: seq<Float>, at: nat, length: nat, g: nat, width: nat)
    requires at + length <= |s| && g + width <= length
    ensures s[at..at + length][g..g + width] == s[at + g..at + g + width]
  {
    var inner, direct := s[at..at + length][g..g + width], s[at + g..at + g + width];
    assert forall i | 0 <= i < width :: inner[i] == direct[i];
  }

  lemma RowSlice(c: Config, cache: seq<Float>, l: nat, n: nat, t: nat, g: nat, width: nat)
    requires |cache| == c.CacheSize() && l < c.layers && t < n <= c.seqLen && g + width <= c.KvDim()
    ensures c.Offset(l, t) + g + width <= |cache|
    ensures Rows(c, cache, l, n)[t][g..g + width] == cache[c.Offset(l, t) + g..c.Offset(l, t) + g + width]
  {
    RowFits(c, l, t);
    assert Rows(c, cache, l, n)[t] == Row(c, cache, l, t);
    SliceOfSlice(cache, c.Offset(l, t), c.KvDim(), g, width);
  }

  function Layer(m: Model, l: nat, x: seq<Float>, pos: nat, cs: Caches): (out: Outcome)
    requires m.Valid() && cs.Fit(m.config) && l < m.config.layers && pos < m.config.seqLen
    ensures out.caches.Fit(m.config)
  {
    var keys := PutRow(m.config, cs.keys, l, pos, m.key(l, x, pos));
    var values := PutRow(m.config, cs.values, l, pos, m.value(l, x));
    var a := Attention(m, m.query(l, x, pos), Rows(m.config, keys, l, pos + 1), Rows(m.config, values, l, pos + 1));
    Outcome(m.mix(l, x, a), Caches(keys, values))
  }

  /** Layers `lo` up to `hi`, in order. */
  function Layers(m: Model, lo: nat, hi: nat, x: seq<Float>, pos: nat, cs: Caches): (out: Outcome)
    requires m.Valid() && cs.Fit(m.config) && hi <= m.config.layers && pos < m.config.seqLen
    ensures out.caches.Fit(m.config)
    decreases hi - lo
  {
    if lo >= hi then Outcome(x, cs)
    else
      var out := Layer(m, lo, x, pos, cs);
      Layers(m, lo + 1, hi, out.x, pos, out.caches)
  }

  // ---------------------------------------------------------------- the cache-free network

  /** The activation that enters layer `l` at the last position of `toks`, recomputed from
      the tokens alone. */
  ghost function Activation(m: Model, l: nat, toks: seq<nat>): seq<Float>
    requires m.Valid() && toks != []
    decreases l, 0, 0
  {
    if l == 0 then m.embed(toks[|toks| - 1])
    else
      var x := Activation(m, l - 1, toks);
      m.mix(l - 1, x, Attention(m, m.query(l - 1, x, |toks| - 1), Keys(m, l - 1, toks), Values(m, l - 1, toks)))
  }

  ghost function Keys(m: Model, l: nat, toks: seq<nat>): (rows: seq<seq<Float>>)
    requires m.Valid()
    ensures |rows| == |toks| && Wide(rows, m.config.KvDim())
    decreases l, 1, |toks|
  {
    if toks == [] then []
    else
      var pos := |toks| - 1;
      Keys(m, l, toks[..pos]) + [m.key(l, Activation(m, l, toks), pos)]
  }

  ghost function Values(m: Model, l: nat, toks: seq<nat>): (rows: seq<seq<Float>>)
    requires m.Valid()
    ensures |rows| == |toks| && Wide(rows, m.config.KvDim())
    decreases l, 1, |toks|
  {
    if toks == [] then []
    else
      var pos := |toks| - 1;
      Values(m, l, toks[..pos]) + [m.value(l, Activation(m, l, toks))]
  }

  ghost function Logits(m: Model, toks: seq<nat>): (out: seq<Float>)
    requires m.Valid() && toks != []
    ensures |out| == m.config.vocab
  {
    m.classify(Activation(m, m.config.layers, toks))
  }

  /** Row `t` of the history is made from the activation at position `t`, whatever comes behind it. */
  lemma {:induction false} HistoryIs(m: Model, l: nat, toks: seq<nat>, t: nat)
    requires m.Valid() && t < |toks|
    ensures Keys(m, l, toks)[t] == m.key(l, Activation(m, l, toks[..t + 1]), t)
    ensures Values(m, l, toks)[t] == m.value(l, Activation(m, l, toks[..t + 1]))
  {
    var pos := |toks| - 1;
    LastOfHistory(m, l, toks);
    if t < pos {
      HistoryIs(m, l, toks[..pos], t);
      assert toks[..pos][..t + 1] == toks[..t + 1];
    } else {
      assert toks[..t + 1] == toks;
    }
  }

  lemma LastOfHistory(m: Model, l: nat, toks: seq<nat>)
    requires m.Valid() && toks != []
    ensures var pos := |toks| - 1;
            && Keys(m, l, toks) == Keys(m, l, toks[..pos]) + [m.key(l, Activation(m, l, toks), pos)]
            && Values(m, l, toks) == Values(m, l, toks[..pos]) + [m.value(l, Activation(m, l, toks))]
  {
  }

  /** A layer mixes into its activation a vector `a`, whose entry `j` is the weighted sum of one column of
      the values of every position so far, the last one included. */
  lemma ActivationIs(m: Model, l: nat, toks: seq<nat>, j: nat, head: nat, group: nat, column: nat)
    returns (a: seq<Float>, q: seq<Float>)
    requires m.Valid() && toks != [] && j < m.config.Dim() && HeadsOf(m.config, j, head, group, column)
    ensures Activation(m, 0, toks) == m.embed(toks[|toks| - 1])
    ensures q == m.query(l, Activation(m, l, toks), |toks| - 1) && head + m.config.headSize <= |q|
    ensures Activation(m, l + 1, toks) == m.mix(l, Activation(m, l, toks), a)
    ensures j < |a| && column < m.config.KvDim() && group + m.config.headSize <= m.config.KvDim()
    ensures a[j] == DotAt(m, m.softmax(ScoresFrom(m, q, head, Keys(m, l, toks), group, m.config.headSize)), 0,
                          ColumnOf(Values(m, l, toks), column), 0, |toks|)
  {
    q := m.query(l, Activation(m, l, toks), |toks| - 1);
    a := Attention(m, q, Keys(m, l, toks), Values(m, l, toks));
    AttentionEntry(m, q, Keys(m, l, toks), Values(m, l, toks), j, head, group, column);
  }

  /** The cache of layers `lo` up to `hi` holds the history of `toks`. What other layers,
      and later positions of these layers, hold is left open. */
  ghost predicate Holds(m: Model, cs: Caches, lo: nat, hi: nat, toks: seq<nat>)
    requires m.Valid() && cs.Fit(m.config) && hi <= m.config.layers && |toks| <= m.config.seqLen
  {
    forall l: nat, t: nat {:trigger Row(m.config, cs.keys, l, t)} {:trigger Row(m.config, cs.values, l, t)}
      | lo <= l < hi && t < |toks| ::
      && Row(m.config, cs.keys, l, t) == Keys(m, l, toks)[t]
      && Row(m.config, cs.values, l, t) == Values(m, l, toks)[t]
  }

  /** Nothing but row `pos` of layers `lo` up to `hi` differs. */
  ghost predicate Untouched(c: Config, before: Caches, after: Caches, lo: nat, hi: nat, pos: nat)
    requires before.Fit(c) && after.Fit(c)
  {
    forall l: nat, t: nat {:trigger Row(c, after.keys, l, t)} {:trigger Row(c, after.values, l, t)}
      | l < c.layers && t < c.seqLen && !(lo <= l < hi && t == pos) ::
      && Row(c, after.keys, l, t) == Row(c, before.keys, l, t)
      && Row(c, after.values, l, t) == Row(c, before.values, l, t)
  }

  /** What a call that ran layers `lo` up to `hi` at the last position of `toks` must leave. */
  ghost predicate Extends(m: Model, lo: nat, hi: nat, toks: seq<nat>, before: Caches, out: Outcome)
    requires m.Valid() && before.Fit(m.config) && hi <= m.config.layers && 0 < |toks| <= m.config.seqLen
  {
    && out.caches.Fit(m.config)
    && out.x == Activation(m, hi, toks)
    && Holds(m, out.caches, lo, hi, toks)
    && Untouched(m.config, before, out.caches, lo, hi, |toks| - 1)
  }

  /** One layer on a cache that holds the past computes the cache-free layer, writes its own
      row of position `pos` and nothing else. */
  lemma LayerCorrect(m: Model, l: nat, toks: seq<nat>, cs: Caches)
    requires m.Valid() && cs.Fit(m.config) && l < m.config.layers && 0 < |toks| <= m.config.seqLen
    requires Holds(m, cs, l, l + 1, toks[..|toks| - 1])
    ensures Extends(m, l, l + 1, toks, cs, Layer(m, l, Activation(m, l, toks), |toks| - 1, cs))
  {
    var pos, c := |toks| - 1, m.config;
    var x := Activation(m, l, toks);
    var out := Layer(m, l, x, pos, cs);
    forall l': nat, t: nat | l' < c.layers && t < c.seqLen
      ensures Row(c, out.caches.keys, l', t) == if l' == l && t == pos then m.key(l, x, pos) else Row(c, cs.keys, l', t)
      ensures Row(c, out.caches.values, l', t)
           == if l' == l && t == pos then m.value(l, x) else Row(c, cs.values, l', t)
    {
      RowOfPutRow(c, cs.keys, l, pos, m.key(l, x, pos), l', t);
      RowOfPutRow(c, cs.values, l, pos, m.value(l, x), l', t);
    }
    forall t: nat | t < |toks|
      ensures Row(c, out.caches.keys, l, t) == Keys(m, l, toks)[t]
      ensures Row(c, out.caches.values, l, t) == Values(m, l, toks)[t]
    {
    }
    assert Rows(c, out.caches.keys, l, pos + 1) == Keys(m, l, toks);
    assert Rows(c, out.caches.values, l, pos + 1) == Values(m, l, toks);
  }

  lemma LayersStep(m: Model, lo: nat, hi: nat, x: seq<Float>, pos: nat, cs: Caches, out: Outcome)
    requires m.Valid() && cs.Fit(m.config) && lo < hi <= m.config.layers && pos < m.config.seqLen
    requires out == Layer(m, lo, x, pos, cs)
    ensures Layers(m, lo, hi, x, pos, cs) == Layers(m, lo + 1, hi, out.x, pos, out.caches)
  {
  }

  /** The first layer of a run, which leaves the past of the others in place. */
  lemma FirstLayer(m: Model, lo: nat, hi: nat, toks: seq<nat>, cs: Caches, out: Outcome)
    requires m.Valid() && cs.Fit(m.config) && lo < hi <= m.config.layers && 0 < |toks| <= m.config.seqLen
    requires Holds(m, cs, lo, hi, toks[..|toks| - 1]) && out == Layer(m, lo, Activation(m, lo, toks), |toks| - 1, cs)
    ensures Extends(m, lo, lo + 1, toks, cs, out) && Holds(m, out.caches, lo + 1, hi, toks[..|toks| - 1])
  {
    var past := toks[..|toks| - 1];
    LayerCorrect(m, lo, toks, cs);
  }

  /** What the first layer did outlasts the others, which touch rows of their own. */
  lemma ThenOthers(m: Model, lo: nat, hi: nat, toks: seq<nat>, cs: Caches, out: Outcome, rest: Outcome)
    requires m.Valid() && cs.Fit(m.config) && lo < hi <= m.config.layers && 0 < |toks| <= m.config.seqLen
    requires Extends(m, lo, lo + 1, toks, cs, out) && Extends(m, lo + 1, hi, toks, out.caches, rest)
    ensures Extends(m, lo, hi, toks, cs, rest)
  {
  }

  lemma NoLayers(m: Model, l: nat, toks: seq<nat>, cs: Caches)
    requires m.Valid() && cs.Fit(m.config) && l <= m.config.layers && 0 < |toks| <= m.config.seqLen
    ensures Extends(m, l, l, toks, cs, Layers(m, l, l, Activation(m, l, toks), |toks| - 1, cs))
  {
  }

  /** A run of layers on a cache that holds the past computes the cache-free activations,
      brings its layers of the cache up to date and touches nothing else. */
  lemma {:induction false} LayersCorrect(m: Model, lo: nat, hi: nat, toks: seq<nat>, cs: Caches)
    requires m.Valid() && cs.Fit(m.config) && lo <= hi <= m.config.layers && 0 < |toks| <= m.config.seqLen
    requires Holds(m, cs, lo, hi, toks[..|toks| - 1])
    ensures Extends(m, lo, hi, toks, cs, Layers(m, lo, hi, Activation(m, lo, toks), |toks| - 1, cs))
    decreases hi - lo
  {
    if lo < hi {
      var out := Layer(m, lo, Activation(m, lo, toks), |toks| - 1, cs);
      FirstLayer(m, lo, hi, toks, cs, out);
      LayersCorrect(m, lo + 1, hi, toks, out.caches);
      var rest := Layers(m, lo + 1, hi, Activation(m, lo + 1, toks), |toks| - 1, out.caches);
      ThenOthers(m, lo, hi, toks, cs, out, rest);
    } else {
      NoLayers(m, lo, toks, cs);
    }
  }

  // ---------------------------------------------------------------- calls and whole feeds

  /** What one call of the decoder computes: layers `begin` up to `end`, each bound clamped to
      the layers there are, from a supplied activation or from the embedding of `token`. */
  function Partial(m: Model, token: nat, pos: nat, begin: int, end: int, supplied: Option<seq<Float>>, cs: Caches)
    : (out: Outcome)
    requires m.Valid() && cs.Fit(m.config) && pos < m.config.seqLen
    ensures out.caches.Fit(m.config)
  {
    var x := if supplied.Some? then supplied.value else m.embed(token);
    var lo := if begin < 0 then 0 else begin;
    var hi := if end > m.config.layers then m.config.layers else if end < 0 then 0 else end;
    Layers(m, lo, hi, x, pos, cs)
  }

  /** One unsplit decoder, fed position after position. */
  function FeedWhole(m: Model, toks: seq<nat>, cs: Caches): (out: Outcome)
    requires m.Valid() && cs.Fit(m.config) && |toks| <= m.config.seqLen
    ensures out.caches.Fit(m.config)
  {
    if toks == [] then Outcome([], cs)
    else
      var pos := |toks| - 1;
      var past := FeedWhole(m, toks[..pos], cs);
      Partial(m, toks[pos], pos, 0, m.config.layers, None, past.caches)
  }

  datatype SplitOutcome = SplitOutcome(x: seq<Float>, front: Caches, back: Caches)

  /** Two decoders with their own caches: the first runs layers below `cut`, hands its
      activation over, the second runs the rest. */
  function FeedSplit(m: Model, cut: nat, toks: seq<nat>, front: Caches, back: Caches): (out: SplitOutcome)
    requires m.Valid() && front.Fit(m.config) && back.Fit(m.config) && |toks| <= m.config.seqLen
    ensures out.front.Fit(m.config) && out.back.Fit(m.config)
  {
    if toks == [] then SplitOutcome([], front, back)
    else
      var pos := |toks| - 1;
      var past := FeedSplit(m, cut, toks[..pos], front, back);
      var half := Partial(m, toks[pos], pos, 0, cut, None, past.front);
      var rest := Partial(m, toks[pos], pos, cut, m.config.layers, Some(half.x), past.back);
      SplitOutcome(rest.x, half.caches, rest.caches)
  }

  /** Feeding a whole decoder computes the cache-free network, whatever its cache held before
      position 0. */
  lemma {:induction false} WholeComputesNetwork(m: Model, toks: seq<nat>, cs: Caches)
    requires m.Valid() && cs.Fit(m.config) && |toks| <= m.config.seqLen
    ensures var out := FeedWhole(m, toks, cs);
            && Holds(m, out.caches, 0, m.config.layers, toks)
            && (toks != [] ==> out.x == Activation(m, m.config.layers, toks))
  {
    if toks != [] {
      var past := toks[..|toks| - 1];
      WholeComputesNetwork(m, past, cs);
      LayersCorrect(m, 0, m.config.layers, toks, FeedWhole(m, past, cs).caches);
    }
  }

  /** Feeding two halves computes the same network, for every cut and every content of either
      cache before position 0: nothing has to be reset between runs. */
  lemma {:induction false} SplitComputesNetwork(m: Model, cut: nat, toks: seq<nat>, front: Caches, back: Caches)
    requires m.Valid() && front.Fit(m.config) && back.Fit(m.config) && |toks| <= m.config.seqLen
    requires cut <= m.config.layers
    ensures var out := FeedSplit(m, cut, toks, front, back);
            && Holds(m, out.front, 0, cut, toks)
            && Holds(m, out.back, cut, m.config.layers, toks)
            && (toks != [] ==> out.x == Activation(m, m.config.layers, toks))
  {
    if toks != [] {
      var past := toks[..|toks| - 1];
      SplitComputesNetwork(m, cut, past, front, back);
      var out := FeedSplit(m, cut, past, front, back);
      LayersCorrect(m, 0, cut, toks, out.front);
      LayersCorrect(m, cut, m.config.layers, toks, out.back);
    }
  }

  /** The split decoder gives the logits of the unsplit one. */
  lemma SplitEqualsWhole(m: Model, cut: nat, toks: seq<nat>, front: Caches, back: Caches, whole: Caches)
    requires m.Valid() && 0 < |toks| <= m.config.seqLen && cut <= m.config.layers
    requires front.Fit(m.config) && back.Fit(m.config) && whole.Fit(m.config)
    ensures m.classify(FeedSplit(m, cut, toks, front, back).x) == m.classify(FeedWhole(m, toks, whole).x)
         == Logits(m, toks)
  {
    SplitComputesNetwork(m, cut, toks, front, back);
    WholeComputesNetwork(m, toks, whole);
  }
}
