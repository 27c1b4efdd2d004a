/** The decoder object of one board: two flat caches updated in place by nested loops. */
module Decoder {
  import opened Options
  import opened Network

  class Transformer {
    const m: Model
    const keyCache: array<Float>
    const valueCache: array<Float>

    ghost predicate Valid() {
      m.Valid() && keyCache != valueCache
      && keyCache.Length == m.config.CacheSize() && valueCache.Length == m.config.CacheSize()
    }

    ghost function State(): (cs: Caches)
      requires Valid()
      reads keyCache, valueCache
      ensures cs.Fit(m.config)
    {
      Caches(keyCache[..], valueCache[..])
    }

    constructor (m: Model)
      requires m.Valid()
      ensures Valid() && this.m == m && fresh(keyCache) && fresh(valueCache)
    {
      this.m := m;
      keyCache := new Float[m.config.CacheSize()];
      valueCache := new Float[m.config.CacheSize()];
    }

    /** The dot product of a query slice with the cache from `offset` on. */
    method Score(qh: seq<Float>, offset: nat) returns (score: Float)
      requires Valid() && offset + |qh| <= keyCache.Length
      ensures score == Dot(m, qh, keyCache[offset..offset + |qh|], |qh|)
    {
      score := m.zero;
      for i := 0 to |qh|
        invariant score == Dot(m, qh, keyCache[offset..offset + |qh|], i)
      {
        score := m.add(score, m.mul(qh[i], keyCache[offset + i]));
      }
    }

    method Scores(l: nat, pos: nat, qh: seq<Float>, g: nat) returns (att: array<Float>)
      requires Valid() && l < m.config.layers && pos < m.config.seqLen && g + |qh| <= m.config.KvDim()
      ensures fresh(att) && att[..] == HeadScores(m, qh, Rows(m.config, keyCache[..], l, pos + 1), g)
    {
      ghost var all := HeadScores(m, qh, Rows(m.config, keyCache[..], l, pos + 1), g);
      att := new Float[pos + 1];
      for t := 0 to pos + 1
        invariant att[..t] == all[..t]
      {
        RowSlice(m.config, keyCache[..], l, pos + 1, t, g, |qh|);
        var score := Score(qh, m.config.Offset(l, t) + g);
        att[t] := m.div(score, m.rootHeadSize);
      }
      assert att[..] == att[..pos + 1];
    }

    /** Adds `a` times a slice of the value cache, component by component. */
    method AddScaled(out: array<Float>, a: Float, offset: nat)
      requires Valid() && offset + out.Length <= valueCache.Length && out != keyCache && out != valueCache
      modifies out
      ensures forall i | 0 <= i < out.Length ::
                out[i] == m.add(old(out[i]), m.mul(a, valueCache[offset..offset + out.Length][i]))
    {
      ghost var row := valueCache[offset..offset + out.Length];
      for i := 0 to out.Length
        invariant forall j | 0 <= j < i :: out[j] == m.add(old(out[j]), m.mul(a, row[j]))
        invariant forall j | i <= j < out.Length :: out[j] == old(out[j])
      {
        out[i] := m.add(out[i], m.mul(a, valueCache[offset + i]));
      }
    }

    method BlendValues(l: nat, pos: nat, weights: seq<Float>, g: nat, width: nat) returns (out: array<Float>)
      requires Valid() && l < m.config.layers && pos < m.config.seqLen && g + width <= m.config.KvDim()
      requires |weights| == pos + 1
      ensures fresh(out)
      ensures out[..] == BlendSlice(m, weights, Rows(m.config, valueCache[..], l, pos + 1), g, width, pos + 1)
    {
      ghost var values := Rows(m.config, valueCache[..], l, pos + 1);
      out := new Float[width](_ => m.zero);
      BlendStart(m, weights, values, g, out[..]);
      for t := 0 to pos + 1
        invariant out[..] == BlendSlice(m, weights, values, g, width, t)
      {
        RowSlice(m.config, valueCache[..], l, pos + 1, t, g, width);
        ghost var before := out[..];
        AddScaled(out, weights[t], m.config.Offset(l, t) + g);
        BlendStep(m, weights, values, g, before, t, out[..]);
      }
    }

    /** The attention of one head, from the key and value rows 0 up to `pos` of layer `l`. */
    method AttendHead(l: nat, pos: nat, qh: seq<Float>, g: nat) returns (out: array<Float>)
      requires Valid() && l < m.config.layers && pos < m.config.seqLen && g + |qh| <= m.config.KvDim()
      ensures fresh(out)
      ensures out[..] == HeadOutput(m, qh, Rows(m.config, keyCache[..], l, pos + 1),
                                    Rows(m.config, valueCache[..], l, pos + 1), g)
    {
      var att := Scores(l, pos, qh, g);
      out := BlendValues(l, pos, m.softmax(att[..]), g, |qh|);
    }

    method Attend(l: nat, pos: nat, q: seq<Float>) returns (xb: seq<Float>)
      requires Valid() && l < m.config.layers && pos < m.config.seqLen && |q| == m.config.Dim()
      ensures var c := m.config;
              xb == Attention(m, q, Rows(c, keyCache[..], l, pos + 1), Rows(c, valueCache[..], l, pos + 1))
    {
      xb := [];
      for h := 0 to m.config.Heads()
        invariant xb == HeadOutputs(m, q, Rows(m.config, keyCache[..], l, pos + 1),
                                    Rows(m.config, valueCache[..], l, pos + 1), h)
      {
        var head := AttendHead(l, pos, QueryOf(m.config, q, h), Group(m.config, h));
        xb := xb + head[..];
      }
    }

    /** Copies `row` over the cache from `offset` on. */
    static method CopyRow(cache: array<Float>, offset: nat, row: seq<Float>)
      requires offset + |row| <= cache.Length
      modifies cache
      ensures cache[..] == old(cache[..])[..offset] + row + old(cache[..])[offset + |row|..]
    {
      for i := 0 to |row|
        invariant cache[..] == old(cache[..])[..offset] + row[..i] + old(cache[..])[offset + i..]
      {
        cache[offset + i] := row[i];
      }
    }

    method RunLayer(l: nat, x: seq<Float>, pos: nat) returns (x': seq<Float>)
      requires Valid() && l < m.config.layers && pos < m.config.seqLen
      modifies keyCache, valueCache
      ensures Outcome(x', State()) == Layer(m, l, x, pos, old(State()))
    {
      var q, k, v := m.query(l, x, pos), m.key(l, x, pos), m.value(l, x);
      RowFits(m.config, l, pos);
      CopyRow(keyCache, m.config.Offset(l, pos), k);
      CopyRow(valueCache, m.config.Offset(l, pos), v);
      var attended := Attend(l, pos, q);
      x' := m.mix(l, x, attended);
    }

    /** Layers `lo` up to `hi`, each writing its cache rows of position `pos`. */
    method RunLayers(lo: nat, hi: nat, x: seq<Float>, pos: nat) returns (x': seq<Float>)
      requires Valid() && hi <= m.config.layers && pos < m.config.seqLen
      modifies keyCache, valueCache
      ensures Outcome(x', State()) == Layers(m, lo, hi, x, pos, old(State()))
    {
      ghost var goal := Layers(m, lo, hi, x, pos, State());
      x' := x;
      var l := lo;
      while l < hi
        invariant Layers(m, l, hi, x', pos, State()) == goal
      {
        ghost var before, x0 := State(), x';
        x' := RunLayer(l, x', pos);
        LayersStep(m, l, hi, x0, pos, before, Outcome(x', State()));
        l := l + 1;
      }
    }

    method ForwardPartial(token: nat, pos: nat, layerBegin: int, layerEnd: int, supplied: Option<seq<Float>>,
                          finishLogits: bool) returns (out: seq<Float>)
      requires Valid() && pos < m.config.seqLen
      modifies keyCache, valueCache
      ensures var step := Partial(m, token, pos, layerBegin, layerEnd, supplied, old(State()));
              && State() == step.caches
              && out == if finishLogits then m.classify(step.x) else step.x
    {
      out := if supplied.Some? then supplied.value else m.embed(token);
      var lo := if layerBegin < 0 then 0 else layerBegin;
      var hi := if layerEnd > m.config.layers then m.config.layers else layerEnd;
      if 0 <= hi {
        out := RunLayers(lo, hi, out, pos);
      }
      if finishLogits {
        out := m.classify(out);
      }
    }

    /** The unsplit decoder step. */
    method Forward(token: nat, pos: nat) returns (out: seq<Float>)
      requires Valid() && pos < m.config.seqLen
      modifies keyCache, valueCache
      ensures var step := Partial(m, token, pos, 0, m.config.layers, None, old(State()));
              State() == step.caches && out == m.classify(step.x)
    {
      out := ForwardPartial(token, pos, 0, m.config.layers, None, true);
    }
  }
}
