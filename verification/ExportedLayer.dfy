/** The layer on the board, in terms of the seven matrices that were exported for it. */
module ExportedLayer {
  import opened Packers
  import opened ParetoMatvec
  import opened ParetoLayer
  import Export = ParetoExport

  /** The matrices of a layer, row by row. */
  datatype Matrices = Matrices(
    query: seq<Vec>,
    key: seq<Vec>,
    value: seq<Vec>,
    output: seq<Vec>,
    gate: seq<Vec>,
    up: seq<Vec>,
    down: seq<Vec>)

  /** An accepted matrix of this shape, packed into the image where the location says. */
  ghost predicate Exported(f: Export.Format, image: Image, loc: Location, w: seq<Vec>, rows: nat, columns: nat) {
    && |w| == rows && Export.Shaped(w, columns) && Export.Accepted(f, w)
    && Export.Holds(image, loc, Export.PackMatrix(f, w).value, rows, columns)
  }

  ghost predicate LayerExported(f: Export.Format, image: Image, locs: LayerWeights, ms: Matrices) {
    && Exported(f, image, locs.query, ms.query, 576, 576) && Exported(f, image, locs.key, ms.key, 192, 576)
    && Exported(f, image, locs.value, ms.value, 192, 576) && Exported(f, image, locs.output, ms.output, 576, 576)
    && Exported(f, image, locs.gate, ms.gate, 1536, 576) && Exported(f, image, locs.up, ms.up, 1536, 576)
    && Exported(f, image, locs.down, ms.down, 576, 1536)
  }

  /** A matrix times a vector. */
  function MatVec(w: seq<Vec>, x: Vec): (y: Vec)
    requires Export.Shaped(w, |x|)
    ensures |y| == |w|
  {
    seq(|w|, r requires 0 <= r < |w| && Export.Shaped(w, |x|) => Inner(w[r], x))
  }

  lemma {:induction false} DotToIsInner(row: Vec, x: Vec, n: nat)
    requires n <= |row| && n <= |x|
    ensures Export.DotTo(row, x, n) == Inner(row[..n], x[..n])
  {
    if n != 0 {
      DotToIsInner(row, x, n - 1);
      InnerGrows(row[..n - 1], x[..n - 1], row[n - 1], x[n - 1]);
      assert row[..n] == row[..n - 1] + [row[n - 1]] && x[..n] == x[..n - 1] + [x[n - 1]];
    }
  }

  lemma ProductIs(w: seq<Vec>, x: Vec)
    requires Export.Shaped(w, |x|)
    ensures Export.Product(w, x) == MatVec(w, x)
  {
    forall r | 0 <= r < |w| ensures Export.Product(w, x)[r] == MatVec(w, x)[r] {
      DotToIsInner(w[r], x, |x|);
      assert w[r][..|x|] == w[r] && x[..|x|] == x;
    }
  }

  /** The board's projection through an exported matrix is the rounded product. */
  lemma ProjectionIs(m: Math, f: Export.Format, image: Image, loc: Location, w: seq<Vec>, rows: nat, columns: nat,
                     x: Vec)
    requires Exported(f, image, loc, w, rows, columns) && f.value == m.fromWord && |x| == columns
    requires 0 < rows && columns % 4 == 0
    ensures Shape(image, loc, rows, columns) && Project(m, image, loc, x) == m.Rounded(MatVec(w, x))
  {
    Export.ExportComputesProduct(f, w, image, loc, x);
    ProductIs(w, x);
  }

  lemma ExportedFits(m: Math, f: Export.Format, image: Image, locs: LayerWeights, ms: Matrices)
    requires LayerExported(f, image, locs, ms) && f.value == m.fromWord
    ensures Fitted(image, locs)
  {
    var x, z := seq(576, _ => 0.0), seq(1536, _ => 0.0);
    ProjectionIs(m, f, image, locs.query, ms.query, 576, 576, x);
    ProjectionIs(m, f, image, locs.key, ms.key, 192, 576, x);
    ProjectionIs(m, f, image, locs.value, ms.value, 192, 576, x);
    ProjectionIs(m, f, image, locs.output, ms.output, 576, 576, x);
    ProjectionIs(m, f, image, locs.gate, ms.gate, 1536, 576, x);
    ProjectionIs(m, f, image, locs.up, ms.up, 1536, 576, x);
    ProjectionIs(m, f, image, locs.down, ms.down, 576, 1536, z);
  }

  // ---------------------------------------------------------------- the steps of the layer

  ghost predicate Sizes(ms: Matrices) {
    && |ms.query| == |ms.output| == |ms.down| == 576 && |ms.key| == |ms.value| == 192 && |ms.gate| == |ms.up| == 1536
    && Export.Shaped(ms.query, 576) && Export.Shaped(ms.key, 576) && Export.Shaped(ms.value, 576)
    && Export.Shaped(ms.output, 576) && Export.Shaped(ms.gate, 576) && Export.Shaped(ms.up, 576)
    && Export.Shaped(ms.down, 1536)
  }

  /** The normalised input, the rotated query and key, and the value of a position. */
  ghost predicate Projects(m: Math, ms: Matrices, gain: seq<Word16>, hidden: Vec, position: nat, n: Inputs)
    requires m.Valid() && Sizes(ms) && |hidden| == 576
  {
    var x := m.Rounded(m.norm(hidden, gain));
    && n.query == m.Rounded(m.rotateQuery(m.Rounded(MatVec(ms.query, x)), position))
    && n.key == m.Rounded(m.rotateKey(m.Rounded(MatVec(ms.key, x)), position))
    && n.value == m.Rounded(MatVec(ms.value, x))
  }

  /** Every entry of attention blends one column of the values under the scores of its query head. */
  ghost predicate Attends(m: Math, query: Vec, keys: History, values: History, a: Vec)
    requires m.Valid() && |query| == 576 && Wide(keys) && Wide(values) && |keys| == |values|
  {
    |a| == 576 && forall j | 0 <= j < 576 ::
      a[j] == m.Round(Inner(m.softmax(Logits(query, j / 64 * 64, keys, j / 192 * 64)),
                            Column(values, j / 192 * 64 + j % 64)))
  }

  /** A residual: the rounded product is added and the sum rounded again. */
  ghost predicate Adds(m: Math, w: seq<Vec>, x: Vec, before: Vec, after: Vec)
    requires Export.Shaped(w, |x|) && |w| == |before|
  {
    |after| == |before| && forall i | 0 <= i < |before| :: after[i] == m.Round(before[i] + m.Round(Inner(w[i], x)))
  }

  /** The gated products of the feed-forward half. */
  ghost predicate Gates(m: Math, ms: Matrices, gain: seq<Word16>, hidden: Vec, z: Vec)
    requires m.Valid() && Sizes(ms) && |hidden| == 576
  {
    var y := m.Rounded(m.norm(hidden, gain));
    |z| == 1536 && forall i | 0 <= i < 1536 ::
      z[i] == GatedValue(m, m.Round(Inner(ms.gate[i], y)), m.Round(Inner(ms.up[i], y)))
  }

  lemma ExportedSizes(f: Export.Format, image: Image, locs: LayerWeights, ms: Matrices)
    requires LayerExported(f, image, locs, ms)
    ensures Sizes(ms)
  {
  }

  lemma InputsAre(m: Math, f: Export.Format, image: Image, locs: LayerWeights, ms: Matrices, hidden: Vec, position: nat)
    requires m.Valid() && LayerExported(f, image, locs, ms) && f.value == m.fromWord && |hidden| == 576
    requires Fitted(image, locs) && Sizes(ms)
    ensures Projects(m, ms, locs.inputNorm, hidden, position, InputsOf(m, image, locs, hidden, position))
  {
    var x := m.Rounded(m.norm(hidden, locs.inputNorm));
    ProjectionIs(m, f, image, locs.query, ms.query, 576, 576, x);
    ProjectionIs(m, f, image, locs.key, ms.key, 192, 576, x);
    ProjectionIs(m, f, image, locs.value, ms.value, 192, 576, x);
  }

  lemma AttentionIs(m: Math, query: Vec, keys: History, values: History)
    requires m.Valid() && |query| == 576 && Wide(keys) && Wide(values) && |keys| == |values|
    ensures Attends(m, query, keys, values, Attention(m, query, keys, values))
  {
    forall j | 0 <= j < 576
      ensures Attention(m, query, keys, values)[j]
           == m.Round(Inner(m.softmax(Logits(query, j / 64 * 64, keys, j / 192 * 64)),
                            Column(values, j / 192 * 64 + j % 64)))
    {
      AttentionEntry(m, query, keys, values, j);
    }
  }

  lemma AddIs(m: Math, w: seq<Vec>, x: Vec, before: Vec, p: Vec)
    requires Export.Shaped(w, |x|) && |w| == |before| && p == m.Rounded(MatVec(w, x))
    ensures Adds(m, w, x, before, Add(m, before, p))
  {
    var after := Add(m, before, p);
    forall i | 0 <= i < |before| ensures after[i] == m.Round(before[i] + m.Round(Inner(w[i], x))) {
      EntryIs(m, w, x, p, i);
    }
  }

  lemma ResidualIs(m: Math, f: Export.Format, image: Image, loc: Location, w: seq<Vec>, columns: nat, x: Vec,
                   before: Vec)
    requires Exported(f, image, loc, w, 576, columns) && f.value == m.fromWord && |x| == columns && |before| == 576
    requires columns % 4 == 0
    ensures Shape(image, loc, 576, columns) && Adds(m, w, x, before, Add(m, before, Project(m, image, loc, x)))
  {
    ProjectionIs(m, f, image, loc, w, 576, columns, x);
    AddIs(m, w, x, before, Project(m, image, loc, x));
  }

  lemma EntryIs(m: Math, w: seq<Vec>, x: Vec, p: Vec, i: nat)
    requires Export.Shaped(w, |x|) && p == m.Rounded(MatVec(w, x)) && i < |w|
    ensures |p| == |w| && p[i] == m.Round(Inner(w[i], x))
  {
    assert MatVec(w, x)[i] == Inner(w[i], x);
  }

  lemma GateAt(m: Math, g: Vec, u: Vec, i: nat, a: real, b: real)
    requires i < |g| == |u| && g[i] == a && u[i] == b
    ensures Gated(m, g, u)[i] == GatedValue(m, a, b)
  {
  }

  lemma GatesAre(m: Math, ms: Matrices, gain: seq<Word16>, hidden: Vec, y: Vec, g: Vec, u: Vec)
    requires m.Valid() && Sizes(ms) && |hidden| == 576 && y == m.Rounded(m.norm(hidden, gain))
    requires g == m.Rounded(MatVec(ms.gate, y)) && u == m.Rounded(MatVec(ms.up, y))
    ensures Gates(m, ms, gain, hidden, Gated(m, g, u))
  {
    var z := Gated(m, g, u);
    forall i | 0 <= i < 1536
      ensures z[i] == GatedValue(m, m.Round(Inner(ms.gate[i], y)), m.Round(Inner(ms.up[i], y)))
    {
      EntryIs(m, ms.gate, y, g, i);
      EntryIs(m, ms.up, y, u, i);
      GateAt(m, g, u, i, m.Round(Inner(ms.gate[i], y)), m.Round(Inner(ms.up[i], y)));
    }
  }

  lemma GatedIs(m: Math, f: Export.Format, image: Image, locs: LayerWeights, ms: Matrices, hidden: Vec)
    requires m.Valid() && LayerExported(f, image, locs, ms) && f.value == m.fromWord && |hidden| == 576
    requires Fitted(image, locs) && Sizes(ms)
    ensures var y := m.Rounded(m.norm(hidden, locs.postNorm));
            var z := Gated(m, Project(m, image, locs.gate, y), Project(m, image, locs.up, y));
            Gates(m, ms, locs.postNorm, hidden, z)
  {
    var y := m.Rounded(m.norm(hidden, locs.postNorm));
    ProjectionIs(m, f, image, locs.gate, ms.gate, 1536, 576, y);
    ProjectionIs(m, f, image, locs.up, ms.up, 1536, 576, y);
    GatesAre(m, ms, locs.postNorm, hidden, y, Project(m, image, locs.gate, y), Project(m, image, locs.up, y));
  }

  lemma FirstHalf(m: Math, f: Export.Format, image: Image, locs: LayerWeights, ms: Matrices, hidden: Vec,
                  position: nat, keys: History, values: History)
    returns (n: Inputs, a: Vec, h: Vec)
    requires m.Valid() && LayerExported(f, image, locs, ms) && f.value == m.fromWord && |hidden| == 576
    requires Wide(keys) && Wide(values) && |keys| == |values| && Fitted(image, locs) && Sizes(ms)
    ensures |n.query| == 576 && |n.key| == |n.value| == 192
    ensures Projects(m, ms, locs.inputNorm, hidden, position, n)
    ensures Attends(m, n.query, keys + [n.key], values + [n.value], a)
    ensures Adds(m, ms.output, a, hidden, h) && h == Attended(m, image, locs, hidden, position, keys, values)
  {
    n := InputsOf(m, image, locs, hidden, position);
    a := Attention(m, n.query, keys + [n.key], values + [n.value]);
    h := Attended(m, image, locs, hidden, position, keys, values);
    InputsAre(m, f, image, locs, ms, hidden, position);
    AttentionIs(m, n.query, keys + [n.key], values + [n.value]);
    ResidualIs(m, f, image, locs.output, ms.output, 576, a, hidden);
  }

  lemma SecondHalf(m: Math, f: Export.Format, image: Image, locs: LayerWeights, ms: Matrices, h: Vec)
    returns (z: Vec, out: Vec)
    requires m.Valid() && LayerExported(f, image, locs, ms) && f.value == m.fromWord && |h| == 576
    requires Fitted(image, locs) && Sizes(ms)
    ensures Gates(m, ms, locs.postNorm, h, z)
    ensures Adds(m, ms.down, z, h, out) && out == FeedForward(m, image, locs, h)
  {
    var y := m.Rounded(m.norm(h, locs.postNorm));
    z := Gated(m, Project(m, image, locs.gate, y), Project(m, image, locs.up, y));
    out := FeedForward(m, image, locs, h);
    GatedIs(m, f, image, locs, ms, h);
    ResidualIs(m, f, image, locs.down, ms.down, 1536, z, h);
  }

  /** What the board computes for a layer is the transformer layer of the matrices that were exported:
      attention over the keys and values of every position, the newest included, and the gated
      feed-forward, each with its residual. */
  lemma LayerComputes(m: Math, f: Export.Format, image: Image, locs: LayerWeights, ms: Matrices, hidden: Vec,
                      position: nat, keys: History, values: History)
    returns (n: Inputs, a: Vec, h: Vec, z: Vec, out: Vec)
    requires m.Valid() && LayerExported(f, image, locs, ms) && f.value == m.fromWord && |hidden| == 576
    requires Wide(keys) && Wide(values) && |keys| == |values|
    ensures Fitted(image, locs) && Sizes(ms) && |n.query| == 576 && |n.key| == |n.value| == 192
    ensures Projects(m, ms, locs.inputNorm, hidden, position, n)
    ensures Attends(m, n.query, keys + [n.key], values + [n.value], a)
    ensures Adds(m, ms.output, a, hidden, h)
    ensures Gates(m, ms, locs.postNorm, h, z)
    ensures Adds(m, ms.down, z, h, out) && out == LayerOut(m, image, locs, hidden, position, keys, values)
  {
    ExportedFits(m, f, image, locs, ms);
    ExportedSizes(f, image, locs, ms);
    n, a, h := FirstHalf(m, f, image, locs, ms, hidden, position, keys, values);
    z, out := SecondHalf(m, f, image, locs, ms, h);
  }
}
