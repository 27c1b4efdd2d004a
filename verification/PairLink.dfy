/** The pipeline over the handshake: whatever way the two boards interleave, the replies that the
    master fetches are the ones that make both outputs greedy decodes. */
module PairLink {
  import opened Pipeline
  import Handshake

  /** The worker's loop body as the service behind the READY line. */
  function ServiceOf<C, A>(net: Net<C, A>): Handshake.Service<seq<C>, WireFrame<A>, Reply> {
    Handshake.Service((rx: WireFrame<A>) => rx.magic == FRAME_MAGIC && rx.stream < 2,
                      (caches, rx) => Serve(net, caches, rx))
  }

  function Serve<C, A>(net: Net<C, A>, caches: seq<C>, rx: WireFrame<A>): (seq<C>, Reply) {
    if rx.stream < |caches| then
      var (result, cache) := net.back(rx.token, rx.position, rx.activation, caches[rx.stream]);
      (caches[rx.stream := cache], Reply(FRAME_MAGIC, rx.sequence, result % 0x1_0000, rx.stream))
    else (caches, Reply(0, 0, 0, 0))
  }

  /** The worker of the pipeline is that service. */
  method ServeOnBoard<C, A>(worker: Worker<C, A>, rx: WireFrame<A>) returns (reply: Reply)
    requires |worker.caches| == 2 && worker.Accepts(rx)
    modifies worker
    ensures ServiceOf(worker.net).accepts(rx)
    ensures (worker.caches, reply) == ServiceOf(worker.net).serve(old(worker.caches), rx)
  {
    reply := worker.Compute(rx);
  }

  // ---------------------------------------------------------------- the schedule, both ways

  /** How many of the first `k` slots are stream `id`'s. */
  function Before(id: nat, k: nat, total0: nat, total1: nat): (n: nat)
    requires id < 2
  {
    var both := if total0 < total1 then total0 else total1;
    if k <= 2 * both then (k + 1 - id) / 2
    else if (if id == 0 then total0 else total1) == both then both
    else k - both
  }

  /** The slot of position `p` of stream `id`. */
  function SlotNumber(id: nat, p: nat, total0: nat, total1: nat): nat {
    var both := if total0 < total1 then total0 else total1;
    if p < both then 2 * p + id else p + both
  }

  lemma SlotIsNext(k: nat, total0: nat, total1: nat)
    requires k < total0 + total1
    ensures var (id, p) := Slot(k, total0, total1);
            && id < 2 && p < (if id == 0 then total0 else total1)
            && Before(id, k, total0, total1) == p && Before(id, k + 1, total0, total1) == p + 1
            && Before(1 - id, k + 1, total0, total1) == Before(1 - id, k, total0, total1)
  {
  }

  lemma NumberIsSlot(id: nat, p: nat, k: nat, total0: nat, total1: nat)
    requires id < 2 && k <= total0 + total1 && p < Before(id, k, total0, total1)
    ensures p < if id == 0 then total0 else total1
    ensures SlotNumber(id, p, total0, total1) < k && Slot(SlotNumber(id, p, total0, total1), total0, total1) == (id, p)
  {
  }

  lemma AllBefore(id: nat, total0: nat, total1: nat)
    requires id < 2
    ensures Before(id, total0 + total1, total0, total1) == if id == 0 then total0 else total1
  {
  }

  // ---------------------------------------------------------------- the master's program

  /** Two contexts on one network. */
  datatype Pair<!C(!new), !A(!new)> = Pair(net: Net<C, A>, spec: Reference<C, A>, prompts: seq<seq<Word16>>,
                                           counts: seq<nat>)
  {
    ghost predicate Valid() {
      && |prompts| == 2 && |counts| == 2
      && Job(net, spec, prompts[0], counts[0]).Runnable() && Job(net, spec, prompts[1], counts[1]).Runnable()
    }

    function Work(id: nat): Job<C, A>
      requires id < |prompts| && id < |counts|
    {
      Job(net, spec, prompts[id], counts[id])
    }

    ghost function Total(id: nat): nat
      requires Valid() && id < 2
    {
      Work(id).TotalSteps()
    }
  }

  /** The token that the master feeds at position `p`, from the replies it has fetched. */
  ghost function TokenFed<C(!new), A(!new)>(pair: Pair<C, A>, id: nat, p: nat, got: seq<Reply>): Word16
    requires pair.Valid() && id < 2
  {
    if p < |pair.prompts[id]| then pair.prompts[id][p]
    else
      var k := SlotNumber(id, p - 1, pair.Total(0), pair.Total(1));
      if k < |got| then got[k].resultToken else 0
  }

  ghost function TokensFrom<C(!new), A(!new)>(pair: Pair<C, A>, id: nat, from: nat, n: nat,
                                              got: seq<Reply>): (toks: seq<nat>)
    requires pair.Valid() && id < 2
    ensures |toks| == n && forall p: nat | p < n :: toks[p] == TokenFed(pair, id, from + p, got)
  {
    if n == 0 then [] else TokensFrom(pair, id, from, n - 1, got) + [TokenFed(pair, id, from + n - 1, got)]
  }

  ghost function TokensFed<C(!new), A(!new)>(pair: Pair<C, A>, id: nat, n: nat, got: seq<Reply>): (toks: seq<nat>)
    requires pair.Valid() && id < 2
    ensures |toks| == n
  {
    TokensFrom(pair, id, 0, n, got)
  }

  /** The master's half of the cache after it has been fed these tokens. */
  function FrontCache<C, A>(net: Net<C, A>, cache: C, toks: seq<nat>): C {
    if toks == [] then cache
    else net.front(toks[|toks| - 1], |toks| - 1, FrontCache(net, cache, toks[..|toks| - 1])).1
  }

  function Handover<C, A>(net: Net<C, A>, cache: C, toks: seq<nat>): A
    requires toks != []
  {
    net.front(toks[|toks| - 1], |toks| - 1, FrontCache(net, cache, toks[..|toks| - 1])).0
  }

  /** The `k`-th request, from the replies fetched before it. */
  ghost function FrameOf<C(!new), A(!new)>(pair: Pair<C, A>, fronts: seq<C>, k: nat, got: seq<Reply>): WireFrame<A>
    requires pair.Valid() && |fronts| == 2 && k < pair.Total(0) + pair.Total(1)
  {
    SlotIsNext(k, pair.Total(0), pair.Total(1));
    var (id, p) := Slot(k, pair.Total(0), pair.Total(1));
    WireFrame(FRAME_MAGIC, p + 1, TokenFed(pair, id, p, got), p, id,
      Handover(pair.net, fronts[id], TokensFed(pair, id, p + 1, got)))
  }

  // ---------------------------------------------------------------- what they ought to be

  ghost function TrueFrame<C(!new), A(!new)>(pair: Pair<C, A>, k: nat): WireFrame<A>
    requires pair.Valid() && k < pair.Total(0) + pair.Total(1)
  {
    SlotIsNext(k, pair.Total(0), pair.Total(1));
    var (id, p) := Slot(k, pair.Total(0), pair.Total(1));
    var j := pair.Work(id);
    WireFrame(FRAME_MAGIC, p + 1, TokenAt(j.spec.next, j.prompt, p), p, id, j.spec.handover(j.Tokens(p + 1)))
  }

  ghost function TrueReply<C(!new), A(!new)>(pair: Pair<C, A>, k: nat): Reply
    requires pair.Valid() && k < pair.Total(0) + pair.Total(1)
  {
    SlotIsNext(k, pair.Total(0), pair.Total(1));
    var (id, p) := Slot(k, pair.Total(0), pair.Total(1));
    var j := pair.Work(id);
    Reply(FRAME_MAGIC, p + 1, j.spec.next(j.Tokens(p + 1)), id)
  }

  ghost function Frames<C(!new), A(!new)>(pair: Pair<C, A>): nat --> WireFrame<A> {
    (k: nat) requires pair.Valid() && k < pair.Total(0) + pair.Total(1) => TrueFrame(pair, k)
  }

  ghost function Replies<C(!new), A(!new)>(pair: Pair<C, A>): nat --> Reply {
    (k: nat) requires pair.Valid() && k < pair.Total(0) + pair.Total(1) => TrueReply(pair, k)
  }

  ghost predicate Agree<T>(ts: seq<T>, f: nat --> T) {
    forall i: nat | i < |ts| :: f.requires(i) && ts[i] == f(i)
  }

  ghost predicate TrueReplies<C(!new), A(!new)>(pair: Pair<C, A>, got: seq<Reply>)
    requires pair.Valid()
  {
    |got| <= pair.Total(0) + pair.Total(1) && forall k: nat | k < |got| :: got[k] == TrueReply(pair, k)
  }

  // ---------------------------------------------------------------- the master's half

  lemma {:induction false} FedAt(next: seq<nat> -> nat, prompt: seq<nat>, n: nat, p: nat)
    requires p < n
    ensures Fed(next, prompt, n)[p] == TokenAt(next, prompt, p)
  {
    if p < n - 1 {
      FedAt(next, prompt, n - 1, p);
    }
  }

  /** From true replies the master feeds the tokens of the decode. */
  lemma TokenIsTrue<C(!new), A(!new)>(pair: Pair<C, A>, id: nat, p: nat, got: seq<Reply>)
    requires pair.Valid() && id < 2 && TrueReplies(pair, got)
    requires p <= Before(id, |got|, pair.Total(0), pair.Total(1))
    ensures TokenFed(pair, id, p, got) == TokenAt(pair.spec.next, pair.prompts[id], p)
  {
    if |pair.prompts[id]| <= p {
      NumberIsSlot(id, p - 1, |got|, pair.Total(0), pair.Total(1));
      var k := SlotNumber(id, p - 1, pair.Total(0), pair.Total(1));
      assert got[k] == TrueReply(pair, k);
    }
  }

  lemma TokensAreTrue<C(!new), A(!new)>(pair: Pair<C, A>, id: nat, n: nat, got: seq<Reply>)
    requires pair.Valid() && id < 2 && TrueReplies(pair, got)
    requires n <= Before(id, |got|, pair.Total(0), pair.Total(1)) + 1
    ensures TokensFed(pair, id, n, got) == pair.Work(id).Tokens(n)
  {
    var toks, fed := TokensFed(pair, id, n, got), pair.Work(id).Tokens(n);
    forall p: nat | p < n ensures toks[p] == fed[p] {
      TokenIsTrue(pair, id, p, got);
      FedAt(pair.spec.next, pair.prompts[id], n, p);
    }
  }

  /** Feeding the decode builds its history and hands over its activations. */
  lemma {:induction false} FrontIsTrue<C(!new), A(!new)>(j: Job<C, A>, cache: C, n: nat)
    requires j.Runnable() && j.spec.frontHolds(cache, []) && n <= j.TotalSteps()
    ensures j.spec.frontHolds(FrontCache(j.net, cache, j.Tokens(n)), j.Tokens(n))
    ensures 0 < n ==> Handover(j.net, cache, j.Tokens(n)) == j.spec.handover(j.Tokens(n))
  {
    if n == 0 {
      assert j.Tokens(0) == [];
    } else {
      FrontIsTrue(j, cache, n - 1);
      assert Past(j.Tokens(n)) == j.Tokens(n - 1);
    }
  }

  /** After true replies the master asks the true question. */
  lemma FrameIsTrue<C(!new), A(!new)>(pair: Pair<C, A>, fronts: seq<C>, got: seq<Reply>)
    requires pair.Valid() && |fronts| == 2 && |got| < pair.Total(0) + pair.Total(1) && TrueReplies(pair, got)
    requires forall i | 0 <= i < 2 :: pair.spec.frontHolds(fronts[i], [])
    ensures FrameOf(pair, fronts, |got|, got) == TrueFrame(pair, |got|)
  {
    SlotIsNext(|got|, pair.Total(0), pair.Total(1));
    var (id, p) := Slot(|got|, pair.Total(0), pair.Total(1));
    TokenIsTrue(pair, id, p, got);
    TokensAreTrue(pair, id, p + 1, got);
    FrontIsTrue(pair.Work(id), fronts[id], p + 1);
  }

  // ---------------------------------------------------------------- the worker's half

  ghost predicate Remembers<C(!new), A(!new)>(pair: Pair<C, A>, caches: seq<C>, k: nat)
    requires pair.Valid()
  {
    && |caches| == 2
    && forall id: nat | id < 2 ::
         pair.spec.backHolds(caches[id], pair.Work(id).Tokens(Before(id, k, pair.Total(0), pair.Total(1))))
  }

  lemma ServedIsTrue<C(!new), A(!new)>(pair: Pair<C, A>, caches: seq<C>, k: nat)
    requires pair.Valid() && k < pair.Total(0) + pair.Total(1) && Remembers(pair, caches, k)
    ensures var (caches', reply) := Serve(pair.net, caches, TrueFrame(pair, k));
            reply == TrueReply(pair, k) && Remembers(pair, caches', k + 1)
  {
    SlotIsNext(k, pair.Total(0), pair.Total(1));
    var (id, p) := Slot(k, pair.Total(0), pair.Total(1));
    var j, rx := pair.Work(id), TrueFrame(pair, k);
    assert Past(j.Tokens(p + 1)) == j.Tokens(p);
    var (result, cache) := j.net.back(rx.token, rx.position, rx.activation, caches[id]);
    assert result == j.spec.next(j.Tokens(p + 1)) && j.spec.backHolds(cache, j.Tokens(p + 1));
    var after := Serve(pair.net, caches, rx).0;
    forall i: nat | i < 2
      ensures pair.spec.backHolds(after[i], pair.Work(i).Tokens(Before(i, k + 1, pair.Total(0), pair.Total(1))))
    {
      assert i == id || i == 1 - id;
    }
  }

  ghost predicate TrueFrames<C(!new), A(!new)>(pair: Pair<C, A>, sent: seq<WireFrame<A>>)
    requires pair.Valid()
  {
    |sent| <= pair.Total(0) + pair.Total(1) && forall k: nat | k < |sent| :: sent[k] == TrueFrame(pair, k)
  }

  lemma NothingServed<C(!new), A(!new)>(pair: Pair<C, A>, caches: seq<C>)
    requires pair.Valid() && |caches| == 2 && forall i | 0 <= i < 2 :: pair.spec.backHolds(caches[i], [])
    ensures Remembers(pair, caches, 0)
  {
    assert pair.Work(0).Tokens(0) == [] && pair.Work(1).Tokens(0) == [];
  }

  /** A service that keeps `inv` and gives the `k`-th reply to the `k`-th request of a series. */
  ghost predicate Serves<S(!new), F, R(!new)>(v: Handshake.Service<S, F, R>, sent: seq<F>, inv: (S, nat) -> bool,
                                              reply: nat --> R) {
    forall m, k: nat | k < |sent| && inv(m, k) ::
      inv(v.serve(m, sent[k]).0, k + 1) && reply.requires(k) && v.serve(m, sent[k]).1 == reply(k)
  }

  lemma {:induction false} ServingKeeps<S(!new), F, R(!new)>(v: Handshake.Service<S, F, R>, model: S, sent: seq<F>,
      inv: (S, nat) -> bool, reply: nat --> R, k: nat)
    requires inv(model, 0) && Serves(v, sent, inv, reply) && k <= |sent|
    ensures inv(Handshake.Served(v, model, sent[..k]), k)
    ensures 0 < k ==> reply.requires(k - 1) && Handshake.Answer(v, model, sent[..k]) == reply(k - 1)
  {
    if 0 < k {
      ServingKeeps(v, model, sent, inv, reply, k - 1);
      assert sent[..k][..k - 1] == sent[..k - 1];
    }
  }

  lemma LastAnswer<S(!new), F, R(!new)>(v: Handshake.Service<S, F, R>, model: S, sent: seq<F>, inv: (S, nat) -> bool,
                                        reply: nat --> R)
    requires inv(model, 0) && Serves(v, sent, inv, reply) && sent != []
    ensures reply.requires(|sent| - 1) && Handshake.Answer(v, model, sent) == reply(|sent| - 1)
  {
    ServingKeeps(v, model, sent, inv, reply, |sent|);
    assert sent[..|sent|] == sent;
  }

  /** A worker that is asked the true questions gives the true answers. */
  lemma ServingIsTrue<C(!new), A(!new)>(pair: Pair<C, A>, caches: seq<C>, sent: seq<WireFrame<A>>)
    requires pair.Valid() && |caches| == 2 && forall i | 0 <= i < 2 :: pair.spec.backHolds(caches[i], [])
    requires TrueFrames(pair, sent) && sent != []
    ensures Handshake.Answer(ServiceOf(pair.net), caches, sent) == TrueReply(pair, |sent| - 1)
  {
    var inv := (cs: seq<C>, k: nat) => pair.Valid() && Remembers(pair, cs, k);
    NothingServed(pair, caches);
    WorkerServes(pair, sent, inv);
    LastAnswer(ServiceOf(pair.net), caches, sent, inv, Replies(pair));
  }

  lemma WorkerServes<C(!new), A(!new)>(pair: Pair<C, A>, sent: seq<WireFrame<A>>, inv: (seq<C>, nat) -> bool)
    requires pair.Valid() && TrueFrames(pair, sent)
    requires forall cs, k :: inv(cs, k) <==> Remembers(pair, cs, k)
    ensures Serves(ServiceOf(pair.net), sent, inv, Replies(pair))
  {
    forall cs, k: nat | k < |sent| && inv(cs, k)
      ensures inv(ServiceOf(pair.net).serve(cs, sent[k]).0, k + 1)
      ensures Replies(pair).requires(k) && ServiceOf(pair.net).serve(cs, sent[k]).1 == Replies(pair)(k)
    {
      ServedIsTrue(pair, cs, k);
    }
  }

  // ---------------------------------------------------------------- both boards

  /** Every question comes from the answers before it; there are at most `n`. */
  ghost predicate Asked<F(!new), R(!new)>(n: nat, ask: seq<R> --> F, sent: seq<F>, got: seq<R>) {
    && |got| <= |sent| <= |got| + 1 && |sent| <= n
    && forall i: nat | i < |sent| :: ask.requires(got[..i]) && sent[i] == ask(got[..i])
  }

  /** Every answer comes from the questions up to it. */
  ghost predicate Answered<F(!new), R(!new)>(answer: seq<F> --> R, sent: seq<F>, got: seq<R>) {
    |got| <= |sent| && forall i: nat | i < |got| :: answer.requires(sent[..i + 1]) && got[i] == answer(sent[..i + 1])
  }

  ghost predicate AsksRight<F(!new), R(!new)>(n: nat, ask: seq<R> --> F, frames: nat --> F, replies: nat --> R) {
    forall rs: seq<R> | |rs| < n && Agree(rs, replies) ::
      ask.requires(rs) && frames.requires(|rs|) && ask(rs) == frames(|rs|)
  }

  ghost predicate AnswersRight<F(!new), R(!new)>(n: nat, answer: seq<F> --> R, frames: nat --> F, replies: nat --> R) {
    forall fs: seq<F> | 0 < |fs| <= n && Agree(fs, frames) ::
      answer.requires(fs) && replies.requires(|fs| - 1) && answer(fs) == replies(|fs| - 1)
  }

  lemma OneExchange<F(!new), R(!new)>(n: nat, ask: seq<R> --> F, answer: seq<F> --> R, frames: nat --> F,
                                      replies: nat --> R,
                                      fs: seq<F>, rs: seq<R>, frame: F, reply: R)
    requires AsksRight(n, ask, frames, replies) && AnswersRight(n, answer, frames, replies)
    requires Agree(rs, replies) && Agree(fs, frames) && |fs| == |rs| < n
    requires ask.requires(rs) && frame == ask(rs) && answer.requires(fs + [frame]) && reply == answer(fs + [frame])
    ensures Agree(fs + [frame], frames) && Agree(rs + [reply], replies)
  {
    assert frames.requires(|rs|) && frame == frames(|rs|);
    assert Agree(fs + [frame], frames);
    assert fs + [frame] != [] && |fs + [frame]| - 1 == |rs|;
    assert replies.requires(|rs|) && reply == replies(|rs|);
  }

  /** When each question is right after right answers, and each answer after right questions, all are. */
  lemma {:induction false} Alternation<F(!new), R(!new)>(n: nat, ask: seq<R> --> F, answer: seq<F> --> R,
      frames: nat --> F, replies: nat --> R, sent: seq<F>, got: seq<R>, k: nat)
    requires AsksRight(n, ask, frames, replies) && AnswersRight(n, answer, frames, replies)
    requires Asked(n, ask, sent, got) && Answered(answer, sent, got) && k <= |got|
    ensures Agree(got[..k], replies) && Agree(sent[..k], frames)
  {
    if k != 0 {
      Alternation(n, ask, answer, frames, replies, sent, got, k - 1);
      NextExchange(n, ask, answer, frames, replies, sent, got, k - 1);
    }
  }

  lemma NextExchange<F(!new), R(!new)>(n: nat, ask: seq<R> --> F, answer: seq<F> --> R,
      frames: nat --> F, replies: nat --> R, sent: seq<F>, got: seq<R>, k: nat)
    requires AsksRight(n, ask, frames, replies) && AnswersRight(n, answer, frames, replies)
    requires Asked(n, ask, sent, got) && Answered(answer, sent, got) && k < |got|
    requires Agree(got[..k], replies) && Agree(sent[..k], frames)
    ensures Agree(got[..k + 1], replies) && Agree(sent[..k + 1], frames)
  {
    LastExchange(n, ask, answer, sent, got, k);
    OneExchange(n, ask, answer, frames, replies, sent[..k], got[..k], sent[k], got[k]);
    NextFront(got, k);
    NextFront(sent, k);
  }

  lemma NextFront<T>(ts: seq<T>, k: nat)
    requires k < |ts|
    ensures ts[..k + 1] == ts[..k] + [ts[k]]
  {
  }

  lemma LastExchange<F(!new), R(!new)>(n: nat, ask: seq<R> --> F, answer: seq<F> --> R, sent: seq<F>, got: seq<R>,
                                       i: nat)
    requires Asked(n, ask, sent, got) && Answered(answer, sent, got) && i < |got|
    ensures ask.requires(got[..i]) && sent[i] == ask(got[..i])
    ensures answer.requires(sent[..i] + [sent[i]]) && got[i] == answer(sent[..i] + [sent[i]])
  {
    assert answer.requires(sent[..i + 1]) && got[i] == answer(sent[..i + 1]);
    assert sent[..i + 1] == sent[..i] + [sent[i]];
  }

  /** The master's program: the next request, from the replies so far, while there is one. */
  ghost function Asker<C(!new), A(!new)>(pair: Pair<C, A>, fronts: seq<C>): seq<Reply> --> WireFrame<A> {
    (got: seq<Reply>) requires pair.Valid() && |fronts| == 2 && |got| < pair.Total(0) + pair.Total(1) =>
      FrameOf(pair, fronts, |got|, got)
  }

  /** A service's answer to the last of these requests. */
  ghost function Answerer<S, F, R>(v: Handshake.Service<S, F, R>, model: S): seq<F> --> R {
    (sent: seq<F>) requires sent != [] => Handshake.Answer(v, model, sent)
  }

  lemma AskerIsRight<C(!new), A(!new)>(pair: Pair<C, A>, fronts: seq<C>, n: nat)
    requires pair.Valid() && |fronts| == 2 && forall i | 0 <= i < 2 :: pair.spec.frontHolds(fronts[i], [])
    requires n == pair.Total(0) + pair.Total(1)
    ensures AsksRight(n, Asker(pair, fronts), Frames(pair), Replies(pair))
  {
    forall got: seq<Reply> | |got| < n && Agree(got, Replies(pair))
      ensures Asker(pair, fronts)(got) == Frames(pair)(|got|)
    {
      AgreeingReplies(pair, got);
      FrameIsTrue(pair, fronts, got);
    }
  }

  lemma AnswererIsRight<C(!new), A(!new)>(pair: Pair<C, A>, backs: seq<C>, n: nat)
    requires pair.Valid() && |backs| == 2 && forall i | 0 <= i < 2 :: pair.spec.backHolds(backs[i], [])
    requires n == pair.Total(0) + pair.Total(1)
    ensures AnswersRight(n, Answerer(ServiceOf(pair.net), backs), Frames(pair), Replies(pair))
  {
    forall sent: seq<WireFrame<A>> | 0 < |sent| <= n && Agree(sent, Frames(pair))
      ensures Answerer(ServiceOf(pair.net), backs)(sent) == Replies(pair)(|sent| - 1)
    {
      AgreeingFrames(pair, sent);
      ServingIsTrue(pair, backs, sent);
    }
  }

  lemma AgreeingReplies<C(!new), A(!new)>(pair: Pair<C, A>, got: seq<Reply>)
    requires pair.Valid() && |got| <= pair.Total(0) + pair.Total(1) && Agree(got, Replies(pair))
    ensures TrueReplies(pair, got)
  {
    forall k: nat | k < |got| ensures got[k] == TrueReply(pair, k) {
      assert got[k] == Replies(pair)(k);
    }
  }

  lemma AgreeingFrames<C(!new), A(!new)>(pair: Pair<C, A>, sent: seq<WireFrame<A>>)
    requires pair.Valid() && |sent| <= pair.Total(0) + pair.Total(1) && Agree(sent, Frames(pair))
    ensures TrueFrames(pair, sent)
  {
    forall k: nat | k < |sent| ensures sent[k] == TrueFrame(pair, k) {
      assert sent[k] == Frames(pair)(k);
    }
  }

  /** What a stream has collected: the tokens behind its prompt, from its own replies. */
  ghost function Collected<C(!new), A(!new)>(pair: Pair<C, A>, id: nat, got: seq<Reply>): (out: seq<nat>)
    requires pair.Valid() && id < 2
  {
    var from, n := |pair.prompts[id]|, Before(id, |got|, pair.Total(0), pair.Total(1));
    if n < from then [] else TokensFrom(pair, id, from, n - from + 1, got)
  }

  lemma {:induction false} OutputAt(next: seq<nat> -> nat, prompt: seq<nat>, p: nat, i: nat)
    requires prompt != [] && |prompt| + i <= p
    ensures Output(next, prompt, p)[i] == TokenAt(next, prompt, |prompt| + i)
    decreases p
  {
    if |prompt| + i < p {
      OutputAt(next, prompt, p - 1, i);
    }
  }

  lemma CollectedIsOutput<C(!new), A(!new)>(pair: Pair<C, A>, id: nat, got: seq<Reply>)
    requires pair.Valid() && id < 2 && TrueReplies(pair, got)
    ensures Collected(pair, id, got)
         == Output(pair.spec.next, pair.prompts[id], Before(id, |got|, pair.Total(0), pair.Total(1)))
  {
    var prompt, p, out := pair.prompts[id], Before(id, |got|, pair.Total(0), pair.Total(1)), Collected(pair, id, got);
    forall i: nat | i < |out| ensures out[i] == Output(pair.spec.next, prompt, p)[i] {
      TokenIsTrue(pair, id, |prompt| + i, got);
      OutputAt(pair.spec.next, prompt, p, i);
    }
  }

  /** The output of a stream is a greedy decode as far as it goes, and whole once every request is
      answered. */
  ghost predicate Decoded<C(!new), A(!new)>(pair: Pair<C, A>, id: nat, got: seq<Reply>)
    requires pair.Valid() && id < 2
  {
    var whole := Decode(pair.spec.next, pair.prompts[id], pair.counts[id]);
    && Collected(pair, id, got) <= whole
    && (|got| == pair.Total(0) + pair.Total(1) ==> Collected(pair, id, got) == whole)
  }

  lemma CollectedIsDecode<C(!new), A(!new)>(pair: Pair<C, A>, id: nat, got: seq<Reply>)
    requires pair.Valid() && id < 2 && TrueReplies(pair, got)
    ensures Decoded(pair, id, got)
  {
    CollectedIsOutput(pair, id, got);
    AllBefore(id, pair.Total(0), pair.Total(1));
    BeforeInside(id, |got|, pair.Total(0), pair.Total(1));
    OutputIsPrefix(pair.Work(id), Before(id, |got|, pair.Total(0), pair.Total(1)));
  }

  lemma OutputIsPrefix<C(!new), A(!new)>(j: Job<C, A>, p: nat)
    requires j.Runnable() && p <= j.TotalSteps()
    ensures Output(j.spec.next, j.prompt, p) <= Decode(j.spec.next, j.prompt, j.count)
    ensures p == j.TotalSteps() ==> Output(j.spec.next, j.prompt, p) == Decode(j.spec.next, j.prompt, j.count)
  {
    var n := |Output(j.spec.next, j.prompt, p)|;
    FeedingDecodes(j.spec.next, j.prompt, n);
    DecodeGrows(j.spec.next, j.prompt, n, j.count);
  }

  lemma BeforeInside(id: nat, k: nat, total0: nat, total1: nat)
    requires id < 2 && k <= total0 + total1
    ensures Before(id, k, total0, total1) <= if id == 0 then total0 else total1
  {
  }

  lemma TrueRepliesDecode<C(!new), A(!new)>(pair: Pair<C, A>, got: seq<Reply>)
    requires pair.Valid() && |got| <= pair.Total(0) + pair.Total(1) && Agree(got, Replies(pair))
    ensures TrueReplies(pair, got) && Decoded(pair, 0, got) && Decoded(pair, 1, got)
  {
    AgreeingReplies(pair, got);
    CollectedIsDecode(pair, 0, got);
    CollectedIsDecode(pair, 1, got);
  }

  lemma AnsweredInTurn<S, F(!new), R(!new)>(v: Handshake.Service<S, F, R>, s: Handshake.Link<S, F, R>,
                                            acts: seq<Handshake.Action<F>>)
    requires Handshake.Start(s) && Handshake.Listening(s) && Handshake.OneRun(v, acts)
    ensures var now := Handshake.Run(v, s, acts);
            !now.mismatch && Answered(Answerer(v, s.model), now.sent, now.got)
  {
    Handshake.TransfersMatch(v, s, acts);
  }

  /** Both programs together, whatever brings their messages across. */
  lemma ExchangeDecodes<C(!new), A(!new)>(pair: Pair<C, A>, fronts: seq<C>, backs: seq<C>, sent: seq<WireFrame<A>>,
                                          got: seq<Reply>)
    requires pair.Valid() && |fronts| == |backs| == 2
    requires forall i | 0 <= i < 2 :: pair.spec.frontHolds(fronts[i], []) && pair.spec.backHolds(backs[i], [])
    requires Asked(pair.Total(0) + pair.Total(1), Asker(pair, fronts), sent, got)
    requires Answered(Answerer(ServiceOf(pair.net), backs), sent, got)
    ensures TrueReplies(pair, got) && Decoded(pair, 0, got) && Decoded(pair, 1, got)
  {
    var n := pair.Total(0) + pair.Total(1);
    AskerIsRight(pair, fronts, n);
    AnswererIsRight(pair, backs, n);
    Alternation(n, Asker(pair, fronts), Answerer(ServiceOf(pair.net), backs), Frames(pair), Replies(pair), sent, got,
                |got|);
    assert got[..|got|] == got;
    TrueRepliesDecode(pair, got);
  }

  /** Under every interleaving of the two boards in which the master asks as its program does, no
      transfer meets a worker that is not set up for it, every reply fetched is the answer of the
      unsplit network, and both outputs are greedy decodes. */
  lemma InterleavedRunDecodes<C(!new), A(!new)>(pair: Pair<C, A>, fronts: seq<C>,
      s: Handshake.Link<seq<C>, WireFrame<A>, Reply>, acts: seq<Handshake.Action<WireFrame<A>>>)
    requires pair.Valid() && |fronts| == |s.model| == 2
    requires forall i | 0 <= i < 2 :: pair.spec.frontHolds(fronts[i], []) && pair.spec.backHolds(s.model[i], [])
    requires Handshake.Start(s) && Handshake.Listening(s) && Handshake.OneRun(ServiceOf(pair.net), acts)
    requires var now := Handshake.Run(ServiceOf(pair.net), s, acts);
             Asked(pair.Total(0) + pair.Total(1), Asker(pair, fronts), now.sent, now.got)
    ensures var now := Handshake.Run(ServiceOf(pair.net), s, acts);
            !now.mismatch && TrueReplies(pair, now.got) && Decoded(pair, 0, now.got) && Decoded(pair, 1, now.got)
  {
    var now := Handshake.Run(ServiceOf(pair.net), s, acts);
    AnsweredInTurn(ServiceOf(pair.net), s, acts);
    ExchangeDecodes(pair, fronts, s.model, now.sent, now.got);
  }
}
