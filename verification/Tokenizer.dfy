/** The byte-pair tokenizer: UTF-8 segmentation with byte fallback, greedy merging in place, and
    decoding. Text and vocabulary entries are NUL-free byte strings. */
module Tokenizer {
  import opened Options
  import opened Sequences

  type Byte = b: nat | b < 0x100

  const BOS := 1
  const EOS := 2
  const SPACE: Byte := 0x20

  /** `scan` is the C library's reading of a piece as a byte literal such as `<0x0A>`. */
  datatype Vocabulary = Vocabulary(
    pieces: seq<seq<Byte>>,
    scores: seq<real>,
    maxLength: nat,
    scan: seq<Byte> -> Option<Byte>)
  {
    predicate Scored() {
      |scores| == |pieces|
    }

    /** What the encoder relies on: a score for each piece, the control and byte tokens, and the length the
        header announces. */
    ghost predicate Valid() {
      && Scored() && 259 <= |pieces|
      && forall i | 0 <= i < |pieces| :: |pieces[i]| <= maxLength
    }

    /** A text that is not empty gets the blank's piece in front; without one the code goes on with token -1
        and reads in front of the vocabulary. */
    predicate Prefixes(text: seq<Byte>) {
      text == [] || [SPACE] in pieces
    }

    /** The index of a string in the vocabulary, or -1. */
    function Lookup(s: seq<Byte>): (id: int)
      ensures -1 <= id < |pieces|
      ensures id == -1 <==> s !in pieces
      ensures id != -1 ==> pieces[id] == s
    {
      LookupFrom(s, 0)
    }

    function LookupFrom(s: seq<Byte>, i: nat): (id: int)
      requires i <= |pieces|
      ensures -1 <= id < |pieces|
      ensures id == -1 <==> s !in pieces[i..]
      ensures id != -1 ==> pieces[id] == s
      decreases |pieces| - i
    {
      if i == |pieces| then -1 else if pieces[i] == s then i else LookupFrom(s, i + 1)
    }
  }

  /** With distinct pieces any search that finds an equal string finds this index. */
  lemma LookupIsTheIndex(t: Vocabulary, s: seq<Byte>, id: nat)
    requires forall i, j | 0 <= i < j < |t.pieces| :: t.pieces[i] != t.pieces[j]
    requires id < |t.pieces| && t.pieces[id] == s
    ensures t.Lookup(s) == id
  {
  }

  predicate NulFree(s: seq<Byte>) {
    0 !in s
  }

  /** What a token sequence spells when token `id` stands for `f(id)`. */
  function Texts<T>(f: int -> seq<T>, toks: seq<int>): seq<T> {
    if toks == [] then [] else f(toks[0]) + Texts(f, toks[1..])
  }

  lemma TextsCons<T>(f: int -> seq<T>, id: int, rest: seq<int>)
    ensures Texts(f, [id] + rest) == f(id) + Texts(f, rest)
  {
    assert ([id] + rest)[1..] == rest;
  }

  lemma {:induction false} TextsAppend<T>(f: int -> seq<T>, a: seq<int>, b: seq<int>)
    ensures Texts(f, a + b) == Texts(f, a) + Texts(f, b)
    decreases |a|
  {
    if a == [] {
      assert a + b == b;
    } else {
      TextsAppend(f, a[1..], b);
      assert a + b == [a[0]] + (a[1..] + b);
      TextsCons(f, a[0], a[1..] + b);
      Regroup(f(a[0]), Texts(f, a[1..]), Texts(f, b));
    }
  }

  lemma SplitPair<T>(s: seq<T>, i: nat)
    requires i + 1 < |s|
    ensures s == s[..i] + ([s[i]] + ([s[i + 1]] + s[i + 2..]))
  {
  }

  lemma TextsOfPair<T>(f: int -> seq<T>, x: int, y: int, id: int, after: seq<int>)
    requires f(id) == f(x) + f(y)
    ensures Texts(f, [id] + after) == Texts(f, [x] + ([y] + after))
  {
    TextsCons(f, id, after);
    TextsCons(f, y, after);
    TextsCons(f, x, [y] + after);
    Regroup(f(x), f(y), Texts(f, after));
  }

  /** Replacing two neighbours by one token that stands for both changes no text. */
  lemma TextsMerge<T>(f: int -> seq<T>, toks: seq<int>, i: nat, id: int)
    requires i + 1 < |toks| && f(id) == f(toks[i]) + f(toks[i + 1])
    ensures Texts(f, MergeAt(toks, i, id)) == Texts(f, toks)
  {
    var before, pair, after := toks[..i], [toks[i]] + ([toks[i + 1]] + toks[i + 2..]), toks[i + 2..];
    TextsOfPair(f, toks[i], toks[i + 1], id, after);
    TextsAppend(f, before, [id] + after);
    TextsAppend(f, before, pair);
    SplitPair(toks, i);
    Regroup(before, [id], after);
  }

  // ---------------------------------------------------------------- segmentation

  predicate Continuation(b: Byte) {
    0x80 <= b < 0xC0
  }

  /** The length of the first piece of `text`, of which `k` bytes are already taken. */
  function PieceLength(text: seq<Byte>, k: nat): (n: nat)
    requires 1 <= k <= 4 && k <= |text|
    ensures k <= n <= 4 && n <= |text|
    ensures forall i | k <= i < n :: Continuation(text[i])
    ensures n == 4 || n == |text| || !Continuation(text[n])
    decreases 4 - k
  {
    if k < 4 && k < |text| && Continuation(text[k]) then PieceLength(text, k + 1) else k
  }

  /** The pieces that segmentation looks up: a byte and the continuation bytes behind it, at most
      four bytes in all. */
  function Pieces(text: seq<Byte>): seq<seq<Byte>> {
    if text == [] then []
    else
      var n := PieceLength(text, 1);
      [text[..n]] + Pieces(text[n..])
  }

  predicate Shaped(p: seq<Byte>) {
    1 <= |p| <= 4 && forall i | 1 <= i < |p| :: Continuation(p[i])
  }

  lemma {:induction false} PiecesAreShaped(text: seq<Byte>)
    ensures forall p | p in Pieces(text) :: Shaped(p)
  {
    if text != [] {
      PiecesAreShaped(text[PieceLength(text, 1)..]);
    }
  }

  /** Segmentation loses no byte, however malformed the text. */
  lemma {:induction false} PiecesCover(text: seq<Byte>)
    ensures Flatten(Pieces(text)) == text
  {
    if text != [] {
      var n := PieceLength(text, 1);
      PiecesCover(text[n..]);
      assert text == text[..n] + text[n..];
    }
  }

  /** A piece ends only at a byte that is no continuation, or after four bytes. */
  predicate Greedy(pieces: seq<seq<Byte>>) {
    forall k | 0 <= k < |pieces| - 1 ::
      |pieces[k]| == 4 || (pieces[k + 1] != [] && !Continuation(pieces[k + 1][0]))
  }

  lemma {:induction false} PiecesAreGreedy(text: seq<Byte>)
    ensures Greedy(Pieces(text))
  {
    if text != [] {
      var n := PieceLength(text, 1);
      PiecesAreGreedy(text[n..]);
      var rest := Pieces(text[n..]);
      if rest != [] {
        assert rest[0][0] == text[n];
      }
      assert forall k | 1 <= k < |Pieces(text)| :: Pieces(text)[k] == rest[k - 1];
    }
  }

  /** Segmentation is the only way to cut a text into such pieces. */
  lemma {:induction false} PiecesAreUnique(pieces: seq<seq<Byte>>)
    requires (forall p | p in pieces :: Shaped(p)) && Greedy(pieces)
    ensures Pieces(Flatten(pieces)) == pieces
  {
    if pieces != [] {
      var p, tail := pieces[0], pieces[1..];
      assert p in pieces && forall q | q in tail :: q in pieces;
      GreedyTail(pieces);
      PiecesAreUnique(tail);
      if tail != [] {
        assert tail[0] in tail;
        FlattenStarts(tail);
      }
      PieceComesOff(p, Flatten(tail));
      assert [p] + tail == pieces;
    }
  }

  lemma GreedyTail(pieces: seq<seq<Byte>>)
    requires pieces != [] && Greedy(pieces)
    ensures Greedy(pieces[1..])
    ensures 1 < |pieces| ==> |pieces[0]| == 4 || (pieces[1] != [] && !Continuation(pieces[1][0]))
  {
    var tail := pieces[1..];
    forall k | 0 <= k < |tail| - 1 ensures |tail[k]| == 4 || (tail[k + 1] != [] && !Continuation(tail[k + 1][0])) {
      assert tail[k] == pieces[k + 1];
    }
  }

  lemma FlattenStarts(pieces: seq<seq<Byte>>)
    requires pieces != [] && pieces[0] != []
    ensures Flatten(pieces) != [] && Flatten(pieces)[0] == pieces[0][0]
  {
  }

  lemma PieceComesOff(p: seq<Byte>, rest: seq<Byte>)
    requires Shaped(p) && (|p| == 4 || rest == [] || !Continuation(rest[0]))
    ensures Pieces(p + rest) == [p] + Pieces(rest)
  {
    GreedyEnd(p, rest, 1);
    assert (p + rest)[|p|..] == rest && (p + rest)[..|p|] == p;
  }

  lemma GreedyEnd(p: seq<Byte>, rest: seq<Byte>, k: nat)
    requires Shaped(p) && 1 <= k <= |p| && (|p| == 4 || rest == [] || !Continuation(rest[0]))
    ensures PieceLength(p + rest, k) == |p|
    decreases 4 - k
  {
    if k < |p| {
      GreedyEnd(p, rest, k + 1);
    }
  }

  /** The encoded form of one code point, as section 3 of RFC 3629 lays it out. */
  predicate CodePoint(p: seq<Byte>) {
    Shaped(p) && (
      || (|p| == 1 && p[0] < 0x80)
      || (|p| == 2 && 0xC0 <= p[0] < 0xE0)
      || (|p| == 3 && 0xE0 <= p[0] < 0xF0)
      || (|p| == 4 && 0xF0 <= p[0] < 0xF8))
  }

  /** On well-formed UTF-8 the pieces are exactly the code points. */
  lemma PiecesAreCodePoints(points: seq<seq<Byte>>)
    requires forall p | p in points :: CodePoint(p)
    ensures Pieces(Flatten(points)) == points
  {
    forall p | p in points ensures Shaped(p) && !Continuation(p[0]) {
      assert CodePoint(p);
    }
    forall k | 0 <= k < |points| - 1
      ensures |points[k]| == 4 || (points[k + 1] != [] && !Continuation(points[k + 1][0]))
    {
      assert points[k + 1] in points;
    }
    PiecesAreUnique(points);
  }

  // ---------------------------------------------------------------- the encoder as a function

  ghost predicate Ids(t: Vocabulary, toks: seq<int>) {
    forall i | 0 <= i < |toks| :: 0 <= toks[i] < |t.pieces|
  }

  /** A piece that is in the vocabulary is one token; any other falls back to its bytes. */
  function PieceTokens(t: Vocabulary, p: seq<Byte>): (toks: seq<int>) {
    if t.Lookup(p) != -1 then [t.Lookup(p)] else seq(|p|, i requires 0 <= i < |p| => (p[i] as int) + 3)
  }

  function TextTokens(t: Vocabulary, pieces: seq<seq<Byte>>): seq<int> {
    if pieces == [] then [] else PieceTokens(t, pieces[0]) + TextTokens(t, pieces[1..])
  }

  /** What each piece becomes: the token of its string, or one byte token for each of its bytes. */
  lemma PieceTokensAre(t: Vocabulary, p: seq<Byte>)
    ensures p in t.pieces ==> exists id: nat :: id < |t.pieces| && t.pieces[id] == p && PieceTokens(t, p) == [id]
    ensures p !in t.pieces ==> |PieceTokens(t, p)| == |p| && forall i | 0 <= i < |p| :: PieceTokens(t, p)[i] - 3 == p[i]
  {
    if p in t.pieces {
      var id: nat := t.Lookup(p);
      assert PieceTokens(t, p) == [id];
    }
  }

  /** The tokens of a list of pieces are those of its parts, in order. */
  lemma {:induction false} TextTokensAre(t: Vocabulary, a: seq<seq<Byte>>, b: seq<seq<Byte>>)
    ensures TextTokens(t, a + b) == TextTokens(t, a) + TextTokens(t, b)
    ensures |a| == 1 ==> TextTokens(t, a) == PieceTokens(t, a[0])
    decreases |a|
  {
    if a == [] {
      assert a + b == b;
    } else {
      TextTokensAre(t, a[1..], b);
      assert (a + b)[1..] == a[1..] + b;
    }
  }

  /** BOS when asked for, and the dummy prefix unless the text is empty. */
  function Prefix(t: Vocabulary, text: seq<Byte>, bos: bool): seq<int> {
    (if bos then [BOS] else []) + (if text != [] then [t.Lookup([SPACE])] else [])
  }

  function Initial(t: Vocabulary, text: seq<Byte>, bos: bool): seq<int> {
    Prefix(t, text, bos) + TextTokens(t, Pieces(text))
  }

  const LOWEST: real := -10000000000.0

  /** The id the pair at `i` merges into, or -1. */
  function PairId(t: Vocabulary, toks: seq<int>, i: nat): (id: int)
    requires Ids(t, toks) && i + 1 < |toks|
    ensures -1 <= id < |t.pieces|
  {
    t.Lookup(t.pieces[toks[i]] + t.pieces[toks[i + 1]])
  }

  /** The pair a scan of the first `n` pairs settles on. */
  function BestTo(t: Vocabulary, toks: seq<int>, n: nat): (best: Option<nat>)
    requires t.Scored() && Ids(t, toks) && (n == 0 || n < |toks|)
    ensures best.Some? ==> best.value < n && PairId(t, toks, best.value) != -1
  {
    if n == 0 then None
    else
      var best := BestTo(t, toks, n - 1);
      var floor := if best.None? then LOWEST else t.scores[PairId(t, toks, best.value)];
      var id := PairId(t, toks, n - 1);
      if id != -1 && t.scores[id] > floor then Some(n - 1) else best
  }

  function Best(t: Vocabulary, toks: seq<int>): (best: Option<nat>)
    requires t.Scored() && Ids(t, toks)
    ensures best.Some? ==> best.value + 1 < |toks| && PairId(t, toks, best.value) != -1
  {
    BestTo(t, toks, if |toks| == 0 then 0 else |toks| - 1)
  }

  /** A pair that a merge may take. */
  ghost predicate Candidate(t: Vocabulary, toks: seq<int>, i: nat)
    requires t.Scored() && Ids(t, toks) && i + 1 < |toks|
  {
    PairId(t, toks, i) != -1 && t.scores[PairId(t, toks, i)] > LOWEST
  }

  /** Among the first `n` pairs `best` has the greatest score, and is the first to have it; none is chosen
      when there is no candidate. */
  ghost predicate Chosen(t: Vocabulary, toks: seq<int>, n: nat, best: Option<nat>)
    requires t.Scored() && Ids(t, toks) && (n == 0 || n < |toks|)
  {
    if best.None? then forall i | 0 <= i < n :: !Candidate(t, toks, i)
    else
      && best.value < n && Candidate(t, toks, best.value)
      && (forall i | 0 <= i < n && Candidate(t, toks, i) :: ScoreAt(t, toks, i) <= ScoreAt(t, toks, best.value))
      && forall i | 0 <= i < best.value && Candidate(t, toks, i) :: ScoreAt(t, toks, i) < ScoreAt(t, toks, best.value)
  }

  function ScoreAt(t: Vocabulary, toks: seq<int>, i: nat): real
    requires t.Scored() && Ids(t, toks) && i + 1 < |toks| && PairId(t, toks, i) != -1
  {
    t.scores[PairId(t, toks, i)]
  }

  lemma ChosenNext(t: Vocabulary, toks: seq<int>, n: nat, best: Option<nat>)
    requires t.Scored() && Ids(t, toks) && n + 1 < |toks| && Chosen(t, toks, n, best)
    ensures var floor := if best.None? then LOWEST else ScoreAt(t, toks, best.value);
            Chosen(t, toks, n + 1, if PairId(t, toks, n) != -1 && ScoreAt(t, toks, n) > floor then Some(n) else best)
  {
  }

  /** The scan takes the best score, the leftmost one on ties, and finds nothing only when there
      is no candidate. */
  lemma {:induction false} BestIsBest(t: Vocabulary, toks: seq<int>, n: nat)
    requires t.Scored() && Ids(t, toks) && (n == 0 || n < |toks|)
    ensures Chosen(t, toks, n, BestTo(t, toks, n))
  {
    if n != 0 {
      BestIsBest(t, toks, n - 1);
      ChosenNext(t, toks, n - 1, BestTo(t, toks, n - 1));
    }
  }

  function MergeAt(toks: seq<int>, i: nat, id: int): seq<int>
    requires i + 1 < |toks|
  {
    toks[..i] + [id] + toks[i + 2..]
  }

  function Merged(t: Vocabulary, toks: seq<int>): (out: seq<int>)
    requires t.Scored() && Ids(t, toks)
    ensures Ids(t, out) && |out| <= |toks|
    decreases |toks|
  {
    var best := Best(t, toks);
    if best.None? then toks
    else Merged(t, MergeAt(toks, best.value, PairId(t, toks, best.value)))
  }

  /** Merging stops only when no adjacent pair is left to merge. */
  lemma {:induction false} MergedIsFixpoint(t: Vocabulary, toks: seq<int>)
    requires t.Scored() && Ids(t, toks)
    ensures forall i: nat | i + 1 < |Merged(t, toks)| :: !Candidate(t, Merged(t, toks), i)
    decreases |toks|
  {
    var best := Best(t, toks);
    if best.None? {
      BestIsBest(t, toks, if |toks| == 0 then 0 else |toks| - 1);
    } else {
      MergedIsFixpoint(t, MergeAt(toks, best.value, PairId(t, toks, best.value)));
    }
  }

  /** The piece of a token. */
  function PieceOf(t: Vocabulary): int -> seq<Byte> {
    id => if 0 <= id < |t.pieces| then t.pieces[id] else []
  }

  lemma PieceOfPair(t: Vocabulary, f: int -> seq<Byte>, toks: seq<int>, i: nat)
    requires f == PieceOf(t) && Ids(t, toks) && i + 1 < |toks| && PairId(t, toks, i) != -1
    ensures f(PairId(t, toks, i)) == f(toks[i]) + f(toks[i + 1])
  {
  }

  lemma MergedStep(t: Vocabulary, toks: seq<int>, i: nat, id: int)
    requires t.Scored() && Ids(t, toks) && Best(t, toks) == Some(i) && id == PairId(t, toks, i)
    ensures Ids(t, MergeAt(toks, i, id)) && Merged(t, MergeAt(toks, i, id)) == Merged(t, toks)
  {
  }

  lemma OneMergeKeepsText(t: Vocabulary, f: int -> seq<Byte>, toks: seq<int>, i: nat, id: int)
    requires f == PieceOf(t) && Ids(t, toks) && i + 1 < |toks| && id == PairId(t, toks, i) != -1
    ensures Texts(f, MergeAt(toks, i, id)) == Texts(f, toks)
  {
    PieceOfPair(t, f, toks, i);
    TextsMerge(f, toks, i, id);
  }

  /** Whatever the vocabulary, merging keeps the concatenation of the pieces. */
  lemma {:induction false} MergedKeepsText(t: Vocabulary, f: int -> seq<Byte>, toks: seq<int>)
    requires t.Scored() && Ids(t, toks) && f == PieceOf(t)
    ensures Texts(f, Merged(t, toks)) == Texts(f, toks)
    decreases |toks|
  {
    var best := Best(t, toks);
    if best.Some? {
      var id := PairId(t, toks, best.value);
      MergedStep(t, toks, best.value, id);
      OneMergeKeepsText(t, f, toks, best.value, id);
      MergedKeepsText(t, f, MergeAt(toks, best.value, id));
    }
  }

  lemma {:induction false} TextTokensAreIds(t: Vocabulary, pieces: seq<seq<Byte>>)
    requires t.Valid()
    ensures Ids(t, TextTokens(t, pieces)) && |TextTokens(t, pieces)| <= |Flatten(pieces)| + |pieces|
    ensures (forall p | p in pieces :: p != []) ==> |TextTokens(t, pieces)| <= |Flatten(pieces)|
  {
    if pieces != [] {
      assert forall p | p in pieces[1..] :: p in pieces;
      TextTokensAreIds(t, pieces[1..]);
      assert pieces[0] in pieces;
    }
  }

  lemma InitialIsIds(t: Vocabulary, text: seq<Byte>, bos: bool)
    requires t.Valid() && t.Prefixes(text)
    ensures Ids(t, Initial(t, text, bos)) && |Initial(t, text, bos)| <= |text| + 2
  {
    TextTokensAreIds(t, Pieces(text));
    PiecesAreShaped(text);
    PiecesCover(text);
  }

  function Encode(t: Vocabulary, text: seq<Byte>, bos: bool, eos: bool): (toks: seq<int>)
    requires t.Valid() && t.Prefixes(text)
    ensures Ids(t, toks) && |toks| <= |text| + 3
  {
    InitialIsIds(t, text, bos);
    Merged(t, Initial(t, text, bos)) + (if eos then [EOS] else [])
  }

  /** One merge: a pair that no other pair beats becomes the token of its concatenation. */
  ghost predicate MergesOnce(t: Vocabulary, before: seq<int>, after: seq<int>, i: nat)
    requires t.Scored()
  {
    && Ids(t, before) && i + 1 < |before| && Chosen(t, before, |before| - 1, Some(i))
    && exists id: nat :: id < |t.pieces| && t.pieces[id] == t.pieces[before[i]] + t.pieces[before[i + 1]]
                         && after == before[..i] + [id] + before[i + 2..]
  }

  ghost predicate Merges(t: Vocabulary, before: seq<int>, after: seq<int>)
    requires t.Scored()
  {
    exists i: nat :: MergesOnce(t, before, after, i)
  }

  /** A series of such merges. */
  ghost predicate MergeSeries(t: Vocabulary, series: seq<seq<int>>)
    requires t.Scored()
  {
    series != [] && forall k: nat | k + 1 < |series| :: Merges(t, series[k], series[k + 1])
  }

  /** No two neighbours make up a piece with a score above the floor of the scan. */
  ghost predicate Finished(t: Vocabulary, toks: seq<int>)
    requires t.Scored()
  {
    Ids(t, toks) && forall i: nat | i + 1 < |toks| ::
      var pair := t.pieces[toks[i]] + t.pieces[toks[i + 1]];
      pair !in t.pieces || t.scores[t.Lookup(pair)] <= -10000000000.0
  }

  lemma NoneIsFinished(t: Vocabulary, toks: seq<int>)
    requires t.Scored() && Ids(t, toks) && forall i: nat | i + 1 < |toks| :: !Candidate(t, toks, i)
    ensures Finished(t, toks)
  {
    forall i: nat | i + 1 < |toks|
      ensures var pair := t.pieces[toks[i]] + t.pieces[toks[i + 1]];
              pair !in t.pieces || t.scores[t.Lookup(pair)] <= LOWEST
    {
      assert !Candidate(t, toks, i);
    }
  }

  lemma MergedIsFinished(t: Vocabulary, toks: seq<int>)
    requires t.Scored() && Ids(t, toks)
    ensures Finished(t, Merged(t, toks))
  {
    MergedIsFixpoint(t, toks);
    NoneIsFinished(t, Merged(t, toks));
  }

  lemma BestMerges(t: Vocabulary, toks: seq<int>, i: nat)
    requires t.Scored() && Ids(t, toks) && Best(t, toks) == Some(i)
    ensures MergesOnce(t, toks, MergeAt(toks, i, PairId(t, toks, i)), i)
  {
    BestIsBest(t, toks, |toks| - 1);
    var id: nat := PairId(t, toks, i);
    assert t.pieces[id] == t.pieces[toks[i]] + t.pieces[toks[i + 1]];
  }

  lemma SeriesGrows(t: Vocabulary, first: seq<int>, series: seq<seq<int>>, i: nat)
    requires t.Scored() && MergeSeries(t, series) && MergesOnce(t, first, series[0], i)
    ensures MergeSeries(t, [first] + series)
  {
    var all := [first] + series;
    forall k: nat | k + 1 < |all| ensures Merges(t, all[k], all[k + 1]) {
      if k == 0 {
        assert MergesOnce(t, all[0], all[1], i);
      } else {
        assert all[k] == series[k - 1] && all[k + 1] == series[k - 1 + 1];
      }
    }
  }

  lemma {:induction false} MergedSeries(t: Vocabulary, toks: seq<int>) returns (series: seq<seq<int>>)
    requires t.Scored() && Ids(t, toks)
    ensures MergeSeries(t, series) && series[0] == toks && series[|series| - 1] == Merged(t, toks)
    decreases |toks|
  {
    var best := Best(t, toks);
    if best.None? {
      series := [toks];
    } else {
      var i := best.value;
      var next := MergeAt(toks, i, PairId(t, toks, i));
      BestMerges(t, toks, i);
      var rest := MergedSeries(t, next);
      SeriesGrows(t, toks, rest, i);
      series := [toks] + rest;
    }
  }

  /** The encoding is reached from the tokens of the text by merging, at every step, the pair with the best
      score, the leftmost on ties, and in the end no pair is left; EOS comes behind it when asked for. */
  lemma EncodeMerges(t: Vocabulary, text: seq<Byte>, bos: bool) returns (series: seq<seq<int>>)
    requires t.Valid() && t.Prefixes(text)
    ensures MergeSeries(t, series) && series[0] == Initial(t, text, bos)
    ensures series[|series| - 1] == Encode(t, text, bos, false) && Finished(t, Encode(t, text, bos, false))
    ensures Encode(t, text, bos, true) == Encode(t, text, bos, false) + [2]
  {
    var toks := Initial(t, text, bos);
    InitialIsIds(t, text, bos);
    series := MergedSeries(t, toks);
    MergedIsFinished(t, toks);
    assert Merged(t, toks) + [] == Merged(t, toks);
  }

  /** Before merging: BOS, the blank, and the tokens of the pieces. */
  lemma InitialIs(t: Vocabulary, text: seq<Byte>, bos: bool) returns (blank: nat)
    requires t.Valid() && t.Prefixes(text)
    ensures text == [] ==> Initial(t, text, bos) == if bos then [1] else []
    ensures text != [] ==> blank < |t.pieces| && t.pieces[blank] == [0x20]
    ensures text != [] ==>
              Initial(t, text, bos) == (if bos then [1] else []) + [blank] + TextTokens(t, Pieces(text))
  {
    blank := 0;
    if text == [] {
      assert TextTokens(t, Pieces(text)) == [];
    } else {
      blank := t.Lookup([SPACE]);
      assert Prefix(t, text, bos) == (if bos then [1] else []) + [blank];
    }
  }

  // ---------------------------------------------------------------- the encoder in place

  /** The C string of `text` read at `c`: NUL behind the last byte. */
  function At(text: seq<Byte>, c: nat): Byte
    requires c <= |text|
  {
    if c < |text| then text[c] else 0
  }

  /** `k` bytes of the first piece of `rest` are in the buffer, and more are to come. */
  predicate Open(rest: seq<Byte>, k: nat) {
    && k < 4 && k <= |rest|
    && (0 < k ==> k < |rest| && Continuation(rest[k]) && PieceLength(rest, 1) == PieceLength(rest, k))
  }

  lemma TakeMore(rest: seq<Byte>, k: nat)
    requires k < |rest| && Open(rest, k) && k < 3 && Continuation(At(rest, k + 1))
    ensures Open(rest, k + 1)
  {
  }

  lemma TakeLast(t: Vocabulary, rest: seq<Byte>, k: nat)
    requires k < |rest| && Open(rest, k) && (k == 3 || !Continuation(At(rest, k + 1)))
    ensures TextTokens(t, Pieces(rest)) == PieceTokens(t, rest[..k + 1]) + TextTokens(t, Pieces(rest[k + 1..]))
  {
    assert PieceLength(rest, 1) == k + 1;
    assert Pieces(rest)[1..] == Pieces(rest[k + 1..]);
  }

  lemma Aligned(text: seq<Byte>, rest: seq<Byte>, c: nat, k: nat)
    requires k <= c < |text| && rest == text[c - k..]
    ensures rest[..k] + [text[c]] == rest[..k + 1] && rest[k + 1..] == text[c + 1..]
    ensures rest[k] == text[c] && At(rest, k + 1) == At(text, c + 1)
  {
  }

  lemma Reassociate(a: seq<int>, b: seq<int>, c: seq<int>)
    ensures (a + b) + c == a + (b + c)
  {
  }

  /** The three locals of the scan after `i` pairs. */
  ghost predicate Scanned(t: Vocabulary, toks: seq<int>, i: nat, idx: int, id: int, score: real)
    requires t.Scored() && Ids(t, toks) && (i == 0 || i < |toks|)
  {
    var best := BestTo(t, toks, i);
    if best.None? then idx == -1 && score == LOWEST
    else idx == best.value && id == PairId(t, toks, idx) && score == t.scores[id]
  }

  lemma ScanStep(t: Vocabulary, toks: seq<int>, i: nat, idx: int, id: int, score: real)
    requires t.Scored() && Ids(t, toks) && i + 1 < |toks| && Scanned(t, toks, i, idx, id, score)
    ensures var pair := PairId(t, toks, i);
            if pair != -1 && t.scores[pair] > score then Scanned(t, toks, i + 1, i, pair, t.scores[pair])
            else Scanned(t, toks, i + 1, idx, id, score)
  {
  }

  /** The blank's piece makes room for the four bytes of a piece. */
  lemma BufferFits(t: Vocabulary, text: seq<Byte>)
    requires t.Valid() && t.Prefixes(text)
    ensures text == [] || 1 <= t.maxLength
  {
    if text != [] {
      var i :| 0 <= i < |t.pieces| && t.pieces[i] == [SPACE];
    }
  }

  class Encoder {
    const t: Vocabulary
    const buffer: array<Byte>

    ghost predicate Valid() {
      t.Valid() && buffer.Length == 2 * t.maxLength + 3
    }

    constructor (t: Vocabulary)
      requires t.Valid()
      ensures Valid() && this.t == t && fresh(buffer)
    {
      this.t := t;
      buffer := new Byte[2 * t.maxLength + 3](_ => 0);
    }

    /** Appends the token of the piece in the buffer, or one token for each of its bytes. */
    method EmitPiece(len: nat, tokens: array<int>, n: nat) returns (m: nat)
      requires (tokens as object) != buffer && len <= buffer.Length && n + len <= tokens.Length && 1 <= len
      modifies tokens
      ensures n <= m <= n + len
      ensures tokens[..m] == old(tokens[..n]) + PieceTokens(t, buffer[..len])
    {
      var id := t.Lookup(buffer[..len]);
      if id != -1 {
        tokens[n] := id;
        m := n + 1;
      } else {
        m := n;
        for i := 0 to len
          invariant m == n + i
          invariant tokens[..n] == old(tokens[..n])
          invariant forall j | 0 <= j < i :: tokens[n + j] == (buffer[j] as int) + 3
        {
          tokens[m] := (buffer[i] as int) + 3;
          m := m + 1;
        }
      }
    }

    /** The end of the first piece of `rest`, which is in the buffer. */
    method Flush(len: nat, tokens: array<int>, n: nat, ghost rest: seq<Byte>) returns (m: nat)
      requires (tokens as object) != buffer && 0 < len <= buffer.Length && n + len <= tokens.Length
      requires len <= |rest| && Open(rest, len - 1) && (len == 4 || !Continuation(At(rest, len)))
      requires buffer[..len] == rest[..len]
      modifies tokens
      ensures n <= m <= n + len
      ensures tokens[..m] + TextTokens(t, Pieces(rest[len..])) == old(tokens[..n]) + TextTokens(t, Pieces(rest))
    {
      m := EmitPiece(len, tokens, n);
      TakeLast(t, rest, len - 1);
      Reassociate(old(tokens[..n]), PieceTokens(t, rest[..len]), TextTokens(t, Pieces(rest[len..])));
    }

    /** The segmentation loop. The buffer holds the unfinished piece and never more than four
        bytes, and whenever it is reset it is already empty. */
    method Segment(text: seq<Byte>, tokens: array<int>, n0: nat) returns (n: nat)
      requires (text == [] || 5 <= buffer.Length) && (tokens as object) != buffer && n0 + |text| <= tokens.Length
      modifies tokens, buffer
      ensures n <= n0 + |text|
      ensures tokens[..n] == old(tokens[..n0]) + TextTokens(t, Pieces(text))
    {
      n := n0;
      var strLen: nat := 0;
      ghost var rest, goal := text, tokens[..n0] + TextTokens(t, Pieces(text));
      for c := 0 to |text|
        invariant strLen <= c && Open(rest, strLen) && rest == text[c - strLen..] && buffer[..strLen] == rest[..strLen]
        invariant n <= n0 + c - strLen && tokens[..n] + TextTokens(t, Pieces(rest)) == goal
      {
        strLen, n, rest := ReadByte(text, c, strLen, tokens, n, rest);
      }
      assert tokens[..n] + [] == tokens[..n];
    }

    /** Takes in the byte at `c`. */
    method ReadByte(text: seq<Byte>, c: nat, k: nat, tokens: array<int>, n: nat, ghost rest: seq<Byte>)
      returns (strLen: nat, m: nat, ghost left: seq<Byte>)
      requires 5 <= buffer.Length && (tokens as object) != buffer && Open(rest, k) && n + k < tokens.Length
      requires k <= c < |text| && rest == text[c - k..] && buffer[..k] == rest[..k]
      modifies tokens, buffer
      ensures m + strLen <= n + k + 1 && strLen <= c + 1 && Open(left, strLen) && left == text[c + 1 - strLen..]
      ensures buffer[..strLen] == left[..strLen]
      ensures tokens[..m] + TextTokens(t, Pieces(left)) == old(tokens[..n]) + TextTokens(t, Pieces(rest))
    {
      Aligned(text, rest, c, k);
      strLen, m, left := k, n, rest;
      if !Continuation(text[c]) {
        strLen := 0;
      }
      Push(strLen, text[c]);
      strLen := strLen + 1;
      assert strLen == k + 1 && buffer[..strLen] == rest[..strLen];
      if Continuation(At(text, c + 1)) && strLen < 4 {
        TakeMore(rest, k);
      } else {
        m := Flush(strLen, tokens, n, rest);
        left := rest[strLen..];
        strLen := 0;
      }
    }

    method Push(len: nat, b: Byte)
      requires len + 1 < buffer.Length
      modifies buffer
      ensures buffer[..len + 1] == old(buffer[..len]) + [b] && buffer[len + 1] == 0
    {
      buffer[len] := b;
      buffer[len + 1] := 0;
    }

    /** Prints two pieces and a NUL into the buffer, and reads the string back. */
    method Print(a: seq<Byte>, b: seq<Byte>) returns (s: seq<Byte>)
      requires Valid() && |a| <= t.maxLength && |b| <= t.maxLength
      modifies buffer
      ensures s == a + b
    {
      for i := 0 to |a|
        invariant forall j | 0 <= j < i :: buffer[j] == a[j]
      {
        buffer[i] := a[i];
      }
      for i := 0 to |b|
        invariant forall j | 0 <= j < |a| + i :: buffer[j] == (a + b)[j]
      {
        buffer[|a| + i] := b[i];
      }
      buffer[|a| + |b|] := 0;
      s := buffer[..|a| + |b|];
      assert s == a + b;
    }

    /** One scan over the adjacent pairs. */
    method FindBest(tokens: array<int>, n: nat) returns (bestIdx: int, bestId: int)
      requires Valid() && (tokens as object) != buffer && n <= tokens.Length && Ids(t, tokens[..n])
      modifies buffer
      ensures var best := Best(t, tokens[..n]);
              if best.None? then bestIdx == -1
              else bestIdx == best.value && bestId == PairId(t, tokens[..n], best.value)
    {
      var bestScore := LOWEST;
      bestId, bestIdx := -1, -1;
      ghost var toks := tokens[..n];
      var i: nat := 0;
      while i < n - 1
        invariant (i == 0 || i < n)
        invariant tokens[..n] == toks
        invariant Scanned(t, toks, i, bestIdx, bestId, bestScore)
      {
        assert tokens[i] == toks[i] && tokens[i + 1] == toks[i + 1];
        var s := Print(t.pieces[tokens[i]], t.pieces[tokens[i + 1]]);
        var id := t.Lookup(s);
        assert id == PairId(t, toks, i);
        ScanStep(t, toks, i, bestIdx, bestId, bestScore);
        if id != -1 && t.scores[id] > bestScore {
          bestScore, bestId, bestIdx := t.scores[id], id, i;
        }
        i := i + 1;
      }
    }

    /** Overwrites the pair at `at` with one token and shifts the rest back by one. */
    method MergePair(tokens: array<int>, n: nat, at: nat, id: int)
      requires n <= tokens.Length && at + 1 < n
      modifies tokens
      ensures tokens[..n - 1] == MergeAt(old(tokens[..n]), at, id)
    {
      tokens[at] := id;
      for i := at + 1 to n - 1
        invariant forall j | 0 <= j < at :: tokens[j] == old(tokens[j])
        invariant tokens[at] == id
        invariant forall j | at < j < i :: tokens[j] == old(tokens[j + 1])
        invariant forall j | i <= j < n :: tokens[j] == old(tokens[j])
      {
        tokens[i] := tokens[i + 1];
      }
    }

    /** The merge loop ends because every round leaves one token fewer. */
    method Merge(tokens: array<int>, n0: nat) returns (n: nat)
      requires Valid() && (tokens as object) != buffer && n0 <= tokens.Length && Ids(t, tokens[..n0])
      modifies tokens, buffer
      ensures n <= n0 && tokens[..n] == Merged(t, old(tokens[..n0]))
    {
      n := n0;
      ghost var start := tokens[..n0];
      while true
        invariant n <= n0 && Ids(t, tokens[..n])
        invariant Merged(t, tokens[..n]) == Merged(t, start)
        decreases n
      {
        ghost var toks := tokens[..n];
        var bestIdx, bestId := FindBest(tokens, n);
        assert tokens[..n] == toks;
        if bestIdx == -1 {
          break;
        }
        MergePair(tokens, n, bestIdx, bestId);
        n := n - 1;
        MergedStep(t, toks, bestIdx, bestId);
      }
    }

    method WritePrefix(text: seq<Byte>, bos: bool, tokens: array<int>) returns (n: nat)
      requires Valid() && 2 <= tokens.Length
      modifies tokens
      ensures n <= 2 && tokens[..n] == Prefix(t, text, bos)
    {
      n := 0;
      if bos {
        tokens[n] := BOS;
        n := n + 1;
      }
      if text != [] {
        tokens[n] := t.Lookup([SPACE]);
        n := n + 1;
      }
    }

    /** The caller's token array, which holds |text| + 3 entries, is never overrun. */
    method Run(text: seq<Byte>, bos: bool, eos: bool, tokens: array<int>) returns (n: nat)
      requires Valid() && t.Prefixes(text) && NulFree(text) && |text| + 3 <= tokens.Length
      requires (tokens as object) != buffer
      modifies tokens, buffer
      ensures n <= |text| + 3
      ensures tokens[..n] == Encode(t, text, bos, eos)
      ensures eos ==> 0 < n && tokens[n - 1] == EOS
      ensures Finished(t, tokens[..if eos then n - 1 else n])
    {
      n := WritePrefix(text, bos, tokens);
      BufferFits(t, text);
      n := Segment(text, tokens, n);
      InitialIsIds(t, text, bos);
      n := Merge(tokens, n);
      ghost var merged := tokens[..n];
      MergedIsFinished(t, Initial(t, text, bos));
      if eos {
        tokens[n] := EOS;
        n := n + 1;
      }
      assert tokens[..if eos then n - 1 else n] == merged;
    }
  }

  // ---------------------------------------------------------------- decoding

  /** What one token prints, given the token before it. A NUL byte ends the C string it sits in,
      so it prints nothing. */
  function DecodePiece(t: Vocabulary, prev: int, id: int): seq<Byte>
    requires 0 <= id < |t.pieces|
  {
    var piece := t.pieces[id];
    var shown := if prev == BOS && piece != [] && piece[0] == SPACE then piece[1..] else piece;
    match t.scan(shown)
    case None => shown
    case Some(b) => if b == 0 then [] else [b]
  }

  function DecodeAll(t: Vocabulary, prev: int, toks: seq<int>): seq<Byte>
    requires Ids(t, toks)
    decreases |toks|
  {
    if toks == [] then [] else DecodePiece(t, prev, toks[0]) + DecodeAll(t, toks[0], toks[1..])
  }

  predicate ByteToken(id: int) {
    3 <= id < 259
  }

  predicate Reserved(id: int) {
    id == BOS || ByteToken(id)
  }

  /** The vocabulary conditions of the round trip: byte tokens, and only they, read as byte
      literals, and neither a lookup nor a merge can touch a reserved token. */
  ghost predicate Faithful(t: Vocabulary)
    requires t.Valid()
  {
    && (forall id | ByteToken(id) && id != 3 :: t.scan(t.pieces[id]) == Some(id - 3))
    && (forall id | 0 <= id < |t.pieces| && !Reserved(id) :: Literal(t, t.pieces[id]))
    && (forall id | Reserved(id) :: !Shaped(t.pieces[id]))
    && forall i, j | 0 <= i < |t.pieces| && 0 <= j < |t.pieces| :: Separate(t, i, j)
  }

  predicate Literal(t: Vocabulary, piece: seq<Byte>) {
    t.scan(piece) == None && (piece != [] && piece[0] == SPACE ==> t.scan(piece[1..]) == None)
  }

  predicate Separate(t: Vocabulary, i: nat, j: nat)
    requires i < |t.pieces| && j < |t.pieces|
  {
    var id := t.Lookup(t.pieces[i] + t.pieces[j]);
    id != -1 ==> !Reserved(i) && !Reserved(j) && !Reserved(id)
  }

  /** The text a token stands for, before the dummy prefix is stripped. */
  function Meaning(t: Vocabulary, id: int): seq<Byte> {
    if id == BOS then []
    else if ByteToken(id) then [(id - 3) as Byte]
    else if 0 <= id < |t.pieces| then t.pieces[id]
    else []
  }

  function MeaningOf(t: Vocabulary): int -> seq<Byte> {
    id => Meaning(t, id)
  }

  function Spell(t: Vocabulary, toks: seq<int>): seq<Byte> {
    Texts(MeaningOf(t), toks)
  }

  lemma {:induction false} BytesSpell(t: Vocabulary, p: seq<Byte>, toks: seq<int>)
    requires t.Valid() && |toks| == |p|
    requires forall i | 0 <= i < |p| :: toks[i] == (p[i] as int) + 3
    ensures Ids(t, toks) && Spell(t, toks) == p
  {
    if p != [] {
      BytesSpell(t, p[1..], toks[1..]);
      assert MeaningOf(t)(toks[0]) == [p[0]];
    }
  }

  /** No token is the null byte or BOS. */
  predicate Plain(toks: seq<int>) {
    forall i | 0 <= i < |toks| :: toks[i] != BOS && toks[i] != 3
  }

  /** Segmentation with byte fallback spells the text. */
  lemma {:induction false} TextSpells(t: Vocabulary, pieces: seq<seq<Byte>>)
    requires t.Valid() && Faithful(t)
    requires forall p | p in pieces :: Shaped(p) && NulFree(p)
    ensures Ids(t, TextTokens(t, pieces)) && Plain(TextTokens(t, pieces))
    ensures Spell(t, TextTokens(t, pieces)) == Flatten(pieces)
  {
    if pieces != [] {
      var p := pieces[0];
      assert p in pieces && forall q | q in pieces[1..] :: q in pieces;
      TextSpells(t, pieces[1..]);
      PieceSpells(t, p);
      TextsAppend(MeaningOf(t), PieceTokens(t, p), TextTokens(t, pieces[1..]));
    }
  }

  lemma PieceSpells(t: Vocabulary, p: seq<Byte>)
    requires t.Valid() && Faithful(t) && Shaped(p) && NulFree(p)
    ensures Ids(t, PieceTokens(t, p)) && Plain(PieceTokens(t, p))
    ensures Spell(t, PieceTokens(t, p)) == p
  {
    var id := t.Lookup(p);
    if id != -1 {
      assert !Reserved(id) && [id] + [] == [id];
      TextsCons(MeaningOf(t), id, []);
    } else {
      BytesSpell(t, p, PieceTokens(t, p));
    }
  }

  lemma {:induction false} PiecesNulFree(text: seq<Byte>)
    requires NulFree(text)
    ensures forall p | p in Pieces(text) :: NulFree(p)
  {
    if text != [] {
      PiecesNulFree(text[PieceLength(text, 1)..]);
    }
  }

  /** What the merge loop keeps of the tokens behind BOS: they spell a space and the text, and
      the first one carries the space. */
  ghost predicate Spelled(t: Vocabulary, text: seq<Byte>, toks: seq<int>) {
    && toks != [] && toks[0] == BOS && Ids(t, toks) && Plain(toks[1..])
    && (1 == |toks| ==> text == [])
    && (1 < |toks| ==>
          && text != [] && !Reserved(toks[1]) && [SPACE] <= t.pieces[toks[1]]
          && Spell(t, toks[1..]) == [SPACE] + text)
  }

  lemma SpaceToken(t: Vocabulary) returns (id: int)
    requires t.Valid() && Faithful(t) && [SPACE] in t.pieces
    ensures id == t.Lookup([SPACE]) && id != -1 && t.pieces[id] == [SPACE]
    ensures !Reserved(id) && MeaningOf(t)(id) == [SPACE]
  {
    id := t.Lookup([SPACE]);
    assert Shaped([SPACE]);
  }

  lemma PrefixedSpells(t: Vocabulary, text: seq<Byte>, space: int, rest: seq<int>)
    requires t.Valid() && 0 <= space < |t.pieces| && !Reserved(space) && t.pieces[space] == [SPACE]
    requires text != [] && Ids(t, rest) && Plain(rest) && Spell(t, rest) == text
    ensures Spelled(t, text, [BOS, space] + rest)
  {
    var toks := [BOS, space] + rest;
    TextsCons(MeaningOf(t), space, rest);
    assert toks[1..] == [space] + rest;
  }

  lemma InitialSpells(t: Vocabulary, text: seq<Byte>)
    requires t.Valid() && Faithful(t) && NulFree(text) && t.Prefixes(text)
    ensures Spelled(t, text, Initial(t, text, true))
  {
    var rest := TextTokens(t, Pieces(text));
    if text != [] {
      PiecesNulFree(text);
      PiecesAreShaped(text);
      TextSpells(t, Pieces(text));
      PiecesCover(text);
      var space := SpaceToken(t);
      PrefixedSpells(t, text, space, rest);
      assert Initial(t, text, true) == [BOS, space] + rest;
    }
  }

  /** A merge changes no text: the new token means what the two old ones meant. */
  lemma MergeSpells(t: Vocabulary, toks: seq<int>, i: nat)
    requires t.Valid() && Faithful(t) && Ids(t, toks) && i + 1 < |toks| && PairId(t, toks, i) != -1
    ensures !Reserved(toks[i]) && !Reserved(toks[i + 1]) && !Reserved(PairId(t, toks, i))
    ensures Spell(t, MergeAt(toks, i, PairId(t, toks, i))) == Spell(t, toks)
  {
    assert Separate(t, toks[i], toks[i + 1]);
    TextsMerge(MeaningOf(t), toks, i, PairId(t, toks, i));
  }

  lemma {:induction false} MergedSpells(t: Vocabulary, text: seq<Byte>, toks: seq<int>)
    requires t.Valid() && Faithful(t) && Spelled(t, text, toks)
    ensures Spelled(t, text, Merged(t, toks))
    decreases |toks|
  {
    var best := Best(t, toks);
    if best.Some? {
      var i := best.value;
      var id := PairId(t, toks, i);
      assert Separate(t, toks[i], toks[i + 1]);
      assert 0 < i;
      MergeKeepsSpelled(t, text, toks, i);
      MergedSpells(t, text, MergeAt(toks, i, id));
    }
  }

  lemma MergeKeepsSpelled(t: Vocabulary, text: seq<Byte>, toks: seq<int>, i: nat)
    requires t.Valid() && Faithful(t) && Spelled(t, text, toks)
    requires 0 < i && i + 1 < |toks| && PairId(t, toks, i) != -1
    ensures Spelled(t, text, MergeAt(toks, i, PairId(t, toks, i)))
  {
    var id, rest := PairId(t, toks, i), toks[1..];
    var next := MergeAt(toks, i, id);
    assert PairId(t, rest, i - 1) == id;
    MergeSpells(t, rest, i - 1);
    assert next[1..] == MergeAt(rest, i - 1, id);
    PlainMerge(rest, i - 1, id);
    if i == 1 {
      StartsWith(t.pieces[toks[1]], t.pieces[toks[2]]);
    }
  }

  lemma PlainMerge(toks: seq<int>, i: nat, id: int)
    requires Plain(toks) && i + 1 < |toks| && id != BOS && id != 3
    ensures Plain(MergeAt(toks, i, id))
  {
  }

  lemma StartsWith(a: seq<Byte>, b: seq<Byte>)
    requires [SPACE] <= a
    ensures [SPACE] <= a + b
  {
  }

  lemma {:induction false} DecodeSpells(t: Vocabulary, prev: int, toks: seq<int>)
    requires t.Valid() && Faithful(t) && Ids(t, toks) && Plain(toks) && prev != BOS
    ensures DecodeAll(t, prev, toks) == Spell(t, toks)
    decreases |toks|
  {
    if toks != [] {
      DecodeSpells(t, toks[0], toks[1..]);
      assert ByteToken(toks[0]) || Literal(t, t.pieces[toks[0]]);
    }
  }

  /** Decoding what was encoded gives the text back byte for byte, well-formed UTF-8 or not. */
  lemma RoundTrip(t: Vocabulary, text: seq<Byte>)
    requires t.Valid() && Faithful(t) && NulFree(text) && t.Prefixes(text)
    ensures var toks := Encode(t, text, true, false);
            toks != [] && toks[0] == BOS && DecodeAll(t, BOS, toks[1..]) == text
  {
    var toks := Encode(t, text, true, false);
    InitialIsIds(t, text, true);
    InitialSpells(t, text);
    MergedSpells(t, text, Initial(t, text, true));
    assert toks == Merged(t, Initial(t, text, true));
    SpelledDecodes(t, text, toks);
  }

  lemma SpelledDecodes(t: Vocabulary, text: seq<Byte>, toks: seq<int>)
    requires t.Valid() && Faithful(t) && Spelled(t, text, toks)
    ensures DecodeAll(t, BOS, toks[1..]) == text
  {
    if 1 < |toks| {
      var first, rest := toks[1], toks[2..];
      var piece := t.pieces[first];
      assert toks[1..] == [first] + rest && toks[1..][1..] == rest;
      DecodeSpells(t, first, rest);
      assert Literal(t, piece);
      TextsCons(MeaningOf(t), first, rest);
      Regroup([SPACE], piece[1..], Spell(t, rest));
      assert piece == [SPACE] + piece[1..];
      assert text == ([SPACE] + text)[1..];
    }
  }
}
