/** The pipeline on the real decoder: both boards run `Network`, and the two outputs are greedy
    decoding on the unsplit, cache-free network. */
module Boards {
  import opened Options
  import opened Network
  import opened PairLink
  import opened Pipeline

  /** The master runs the layers below `CUT`, the worker those from `CUT` up to `LAST`. */
  const CUT := 2
  const LAST := 4

  /** Scans left to right and moves on a strictly greater value only. */
  function ArgmaxTo(m: Model, values: seq<Float>, n: nat): (best: nat)
    requires 0 < n <= |values|
    ensures best < n
  {
    if n == 1 then 0
    else
      var best := ArgmaxTo(m, values, n - 1);
      if m.gt(values[n - 1], values[best]) then n - 1 else best
  }

  function Argmax(m: Model, values: seq<Float>): (best: nat)
    requires values != []
    ensures best < |values|
  {
    ArgmaxTo(m, values, |values|)
  }

  ghost predicate StrictWeakOrder(gt: (Float, Float) -> bool) {
    && (forall a :: !gt(a, a))
    && (forall a, b, c :: gt(a, b) && !gt(c, b) ==> gt(a, c))
    && (forall a, b, c :: gt(a, b) && gt(b, c) ==> gt(a, c))
  }

  /** On values without NaN the scan finds the first of the greatest values. */
  lemma {:induction false} ArgmaxIsFirstMaximum(m: Model, values: seq<Float>, n: nat)
    requires 0 < n <= |values| && StrictWeakOrder(m.gt)
    ensures forall i | 0 <= i < n :: !m.gt(values[i], values[ArgmaxTo(m, values, n)])
    ensures forall i | 0 <= i < ArgmaxTo(m, values, n) :: m.gt(values[ArgmaxTo(m, values, n)], values[i])
  {
    if 1 < n {
      ArgmaxIsFirstMaximum(m, values, n - 1);
    }
  }

  method ArgmaxScan(m: Model, values: seq<Float>) returns (best: nat)
    requires values != []
    ensures best == Argmax(m, values)
  {
    best := 0;
    for i := 1 to |values|
      invariant best == ArgmaxTo(m, values, i)
    {
      if m.gt(values[i], values[best]) {
        best := i;
      }
    }
  }

  /** What the pipeline asks of a model: no more layers than the two boards run, and tokens that
      fit their 16-bit fields. */
  ghost predicate FitsPair(m: Model) {
    m.Valid() && m.config.layers <= LAST && m.config.vocab <= 0x1_0000
  }

  /** How many positions a run may take: the cache has a row and the frame a number for each. */
  function Limit(m: Model): nat {
    if m.config.seqLen < 0x1_0000 then m.config.seqLen else 0x1_0000
  }

  function Cut(m: Model): nat {
    if m.config.layers < CUT then m.config.layers else CUT
  }

  /** The two calls of the decoder, one on each board. */
  function NetOf(m: Model): Net<Caches, seq<Float>>
    requires m.Valid()
  {
    Net((token: nat, pos: nat, cs: Caches) =>
          if cs.Fit(m.config) && pos < m.config.seqLen then
            var out := Partial(m, token, pos, 0, CUT, None, cs);
            (out.x, out.caches)
          else ([], cs),
        (token: nat, pos: nat, x: seq<Float>, cs: Caches) =>
          if cs.Fit(m.config) && pos < m.config.seqLen then
            var out := Partial(m, token, pos, CUT, LAST, Some(x), cs);
            (Argmax(m, m.classify(out.x)), out.caches)
          else (0, cs))
  }

  /** The token an unsplit decoder chooses after `toks`. */
  ghost function Next(m: Model, toks: seq<nat>): nat
    requires m.Valid()
  {
    if toks == [] then 0 else Argmax(m, Logits(m, toks))
  }

  ghost function ReferenceOf(m: Model): Reference<Caches, seq<Float>>
    requires m.Valid()
  {
    Reference(toks => if toks == [] then [] else Activation(m, Cut(m), toks),
              toks => Next(m, toks),
              (cs: Caches, toks) =>
                cs.Fit(m.config) && |toks| <= m.config.seqLen && Holds(m, cs, 0, Cut(m), toks),
              (cs: Caches, toks) =>
                cs.Fit(m.config) && |toks| <= m.config.seqLen && Holds(m, cs, Cut(m), m.config.layers, toks),
              Limit(m))
  }

  lemma FrontRealizes(m: Model, cs: Caches, toks: seq<nat>)
    requires FitsPair(m) && 0 < |toks| <= Limit(m) && ReferenceOf(m).frontHolds(cs, Past(toks))
    ensures var (x, cs') := NetOf(m).front(toks[|toks| - 1], |toks| - 1, cs);
            x == ReferenceOf(m).handover(toks) && ReferenceOf(m).frontHolds(cs', toks)
  {
    LayersCorrect(m, 0, Cut(m), toks, cs);
  }

  lemma BackRealizes(m: Model, cs: Caches, toks: seq<nat>, token: nat)
    requires FitsPair(m) && 0 < |toks| <= Limit(m) && ReferenceOf(m).backHolds(cs, Past(toks))
    ensures var (result, cs') := NetOf(m).back(token, |toks| - 1, ReferenceOf(m).handover(toks), cs);
            result == ReferenceOf(m).next(toks) && ReferenceOf(m).backHolds(cs', toks)
  {
    var x, pos := Activation(m, Cut(m), toks), |toks| - 1;
    LayersCorrect(m, Cut(m), m.config.layers, toks, cs);
    assert Partial(m, token, pos, CUT, LAST, Some(x), cs) == Layers(m, Cut(m), m.config.layers, x, pos, cs);
  }

  /** The two calls of the decoder realise the unsplit network, whatever the caches held. */
  lemma DecoderRealizes(m: Model)
    requires FitsPair(m)
    ensures Realizes(NetOf(m), ReferenceOf(m))
    ensures forall cs: Caches | cs.Fit(m.config) ::
              ReferenceOf(m).frontHolds(cs, []) && ReferenceOf(m).backHolds(cs, [])
  {
    var net, spec := NetOf(m), ReferenceOf(m);
    forall cs, toks | 0 < |toks| <= spec.limit && spec.frontHolds(cs, Past(toks))
      ensures var (x, cs') := net.front(toks[|toks| - 1], |toks| - 1, cs);
              x == spec.handover(toks) && spec.frontHolds(cs', toks)
    {
      FrontRealizes(m, cs, toks);
    }
    forall cs, toks, token, pos | 0 < |toks| <= spec.limit && pos == |toks| - 1 && spec.backHolds(cs, Past(toks))
      ensures var (result, cs') := net.back(token, pos, spec.handover(toks), cs);
              result == spec.next(toks) && spec.backHolds(cs', toks)
    {
      BackRealizes(m, cs, toks, token);
    }
  }

  /** The reference token is the one an unsplit decoder with any cache arrives at. */
  lemma NextIsUnsplit(m: Model, toks: seq<nat>, cs: Caches)
    requires m.Valid() && cs.Fit(m.config) && 0 < |toks| <= m.config.seqLen
    ensures Next(m, toks) == Argmax(m, m.classify(FeedWhole(m, toks, cs).x))
  {
    WholeComputesNetwork(m, toks, cs);
  }

  /** Greedy decoding of one prompt alone on the unsplit network. */
  ghost function GreedyDecode(m: Model, prompt: seq<nat>, count: nat): (out: seq<nat>)
    requires m.Valid()
    ensures |out| == count
  {
    Decode(ReferenceOf(m).next, prompt, count)
  }

  /** The split, interleaved run of two prompts gives exactly what two unsplit greedy decodes
      give, from caches in any state; when the link fails it gives a prefix of each. */
  method RunPair(m: Model, master: Master<Caches, seq<Float>>, prompts: seq<seq<Word16>>, counts: seq<nat>)
    returns (ok: bool, out0: seq<Word16>, out1: seq<Word16>)
    requires FitsPair(m) && master.net == NetOf(m) && master.Ready() && |prompts| == 2 && |counts| == 2
    requires forall i | 0 <= i < 2 :: master.caches[i].Fit(m.config) && master.worker.caches[i].Fit(m.config)
    requires forall i | 0 <= i < 2 :: prompts[i] != [] && 0 < counts[i] && |prompts[i]| + counts[i] - 1 <= Limit(m)
    modifies master, master.worker
    ensures master.Ready()
    ensures forall i | 0 <= i < 2 :: master.caches[i].Fit(m.config) && master.worker.caches[i].Fit(m.config)
    ensures out0 <= GreedyDecode(m, prompts[0], counts[0]) && out1 <= GreedyDecode(m, prompts[1], counts[1])
    ensures ok ==> out0 == GreedyDecode(m, prompts[0], counts[0]) && out1 == GreedyDecode(m, prompts[1], counts[1])
    ensures (forall n | old(master.step) <= n :: master.faults(n).Clean?) ==> ok
  {
    DecoderRealizes(m);
    var streams;
    ghost var log;
    ok, streams, log := master.RunPipeline(ReferenceOf(m), prompts, counts);
    out0, out1 := streams[0].Output(), streams[1].Output();
  }

  /** The two contexts of a run on the decoder. */
  ghost function PairOf(m: Model, prompts: seq<seq<Word16>>, counts: seq<nat>): Pair<Caches, seq<Float>>
    requires m.Valid()
  {
    Pair(NetOf(m), ReferenceOf(m), prompts, counts)
  }

  /** The decoder, from caches in any state, is a pair that `PairLink.InterleavedRunDecodes` is about:
      the two boards as free-running processes give the same two greedy decodes. */
  lemma PairIsValid(m: Model, prompts: seq<seq<Word16>>, counts: seq<nat>, fronts: seq<Caches>, backs: seq<Caches>)
    requires FitsPair(m) && |prompts| == |counts| == |fronts| == |backs| == 2
    requires forall i | 0 <= i < 2 :: fronts[i].Fit(m.config) && backs[i].Fit(m.config)
    requires forall i | 0 <= i < 2 :: prompts[i] != [] && 0 < counts[i] && |prompts[i]| + counts[i] - 1 <= Limit(m)
    ensures var pair := PairOf(m, prompts, counts);
            && pair.Valid()
            && (forall i | 0 <= i < 2 :: pair.spec.frontHolds(fronts[i], []) && pair.spec.backHolds(backs[i], []))
            && forall i | 0 <= i < 2 ::
                 Decode(pair.spec.next, prompts[i], counts[i]) == GreedyDecode(m, prompts[i], counts[i])
  {
    DecoderRealizes(m);
  }
}
