/** The two-board pipeline: a master that runs the first layers of two contexts in turn and a
    worker that runs the rest, joined by one transmit buffer and one reply.

    The two halves of the network are a parameter here (`Net`), with what they have to compute
    (`Reference`); module `Boards` supplies the real decoder for both. */
module Pipeline {
  const FRAME_MAGIC: nat := 0x32504B51

  type Word16 = n: nat | n < 0x1_0000
  type Word32 = n: nat | n < 0x1_0000_0000

  /** The fields of a request frame that either board reads. */
  datatype WireFrame<A> = WireFrame(magic: nat, sequence: Word32, token: Word16, position: Word16, stream: Word16,
                                    activation: A)

  /** The 20 bytes a reply carries. */
  datatype Reply = Reply(magic: nat, sequence: Word32, resultToken: Word16, stream: Word16)
  {
    predicate SameHeader(other: Reply) {
      magic == other.magic && sequence == other.sequence && stream == other.stream
    }
  }

  /** What the link does to one dispatch or one collect: nothing; it loses the transfer; it reports
      failure after the transfer went through; it reports success although no worker was listening; it
      brings in other bytes. */
  datatype Fault = Clean | Lost | Late | Unheard | Garbled(reply: Reply)

  /** What is in the receive buffer after a collect. Only the worker's answer to the request in flight
      carries the header that the master waits for: this is the one thing the link is trusted with. */
  function Arriving(fault: Fault, pending: Reply, answered: bool, awaited: Reply): Reply {
    if fault.Garbled? && !fault.reply.SameHeader(awaited) then fault.reply
    else if answered then pending
    else Reply(0, 0, 0, 0)
  }

  // ---------------------------------------------------------------- the network

  /** The two halves of a decoder step, each on a cache of its own. */
  datatype Net<!C, !A> = Net(
    front: (nat, nat, C) -> (A, C),      // token, position, cache
    back: (nat, nat, A, C) -> (nat, C))  // token, position, activation, cache

  /** What the halves stand for, as functions of all the tokens fed so far. */
  datatype Reference<!C, !A> = Reference(
    handover: seq<nat> -> A,
    next: seq<nat> -> nat,
    frontHolds: (C, seq<nat>) -> bool,
    backHolds: (C, seq<nat>) -> bool,
    limit: nat)

  /** The halves compute the reference on caches that hold the past, and keep them up to date;
      a cache that holds any history will do to start over. */
  ghost predicate Realizes<C(!new), A(!new)>(net: Net<C, A>, spec: Reference<C, A>) {
    && spec.limit <= 0x1_0000
    && (forall toks :: spec.next(toks) < 0x1_0000)
    && (forall cs, toks :: spec.frontHolds(cs, toks) ==> spec.frontHolds(cs, []))
    && (forall cs, toks :: spec.backHolds(cs, toks) ==> spec.backHolds(cs, []))
    && (forall cs, toks | 0 < |toks| <= spec.limit && spec.frontHolds(cs, Past(toks)) ::
          var (x, cs') := net.front(toks[|toks| - 1], |toks| - 1, cs);
          x == spec.handover(toks) && spec.frontHolds(cs', toks))
    && (forall cs, toks, token, pos | 0 < |toks| <= spec.limit && pos == |toks| - 1 && spec.backHolds(cs, Past(toks)) ::
          var (result, cs') := net.back(token, pos, spec.handover(toks), cs);
          result == spec.next(toks) && spec.backHolds(cs', toks))
  }

  function Past(toks: seq<nat>): seq<nat>
    requires toks != []
  {
    toks[..|toks| - 1]
  }

  /** The first `n` tokens that greedy decoding appends to `prompt`. */
  ghost function Decode(next: seq<nat> -> nat, prompt: seq<nat>, n: nat): (out: seq<nat>)
    ensures |out| == n
  {
    if n == 0 then []
    else
      var past := Decode(next, prompt, n - 1);
      past + [next(prompt + past)]
  }

  lemma {:induction false} DecodeGrows(next: seq<nat> -> nat, prompt: seq<nat>, n: nat, n': nat)
    requires n <= n'
    ensures Decode(next, prompt, n) <= Decode(next, prompt, n')
    decreases n'
  {
    if n < n' {
      DecodeGrows(next, prompt, n, n' - 1);
    }
  }

  /** The first `p` tokens that are fed, position by position: those of the prompt, then each
      time the one that follows from all before it. */
  ghost function Fed(next: seq<nat> -> nat, prompt: seq<nat>, p: nat): (toks: seq<nat>)
    ensures |toks| == p
    decreases p, 0
  {
    if p == 0 then [] else Fed(next, prompt, p - 1) + [TokenAt(next, prompt, p - 1)]
  }

  ghost function TokenAt(next: seq<nat> -> nat, prompt: seq<nat>, p: nat): nat
    decreases p, 1
  {
    if p < |prompt| then prompt[p] else next(Fed(next, prompt, p))
  }

  /** What has been generated once `p` positions have been fed. */
  ghost function Output(next: seq<nat> -> nat, prompt: seq<nat>, p: nat): (out: seq<nat>)
    ensures |out| == if p < |prompt| then 0 else p - |prompt| + 1
  {
    if p < |prompt| then []
    else if p == 0 then [next([])]
    else Output(next, prompt, p - 1) + [next(Fed(next, prompt, p))]
  }

  /** Feeding position by position is greedy decoding of the prompt. */
  lemma {:induction false} FeedingDecodes(next: seq<nat> -> nat, prompt: seq<nat>, n: nat)
    requires prompt != []
    ensures Fed(next, prompt, |prompt| + n) == prompt + Decode(next, prompt, n)
    ensures n == 0 || Output(next, prompt, |prompt| + n - 1) == Decode(next, prompt, n)
  {
    if n == 0 {
      FeedingPrompt(next, prompt, |prompt|);
    } else {
      FeedingDecodes(next, prompt, n - 1);
    }
  }

  lemma {:induction false} FeedingPrompt(next: seq<nat> -> nat, prompt: seq<nat>, p: nat)
    requires p <= |prompt|
    ensures Fed(next, prompt, p) == prompt[..p]
  {
    if 0 < p {
      FeedingPrompt(next, prompt, p - 1);
    }
  }

  // ---------------------------------------------------------------- one context, as a value

  /** One context: its stream state and the caches of its two halves. */
  datatype Context<C> = Context(token: Word16, pos: nat, output: seq<Word16>, prepared: bool, front: C, back: C)

  /** What stays fixed about a context. */
  datatype Job<!C(!new), !A(!new)> = Job(net: Net<C, A>, spec: Reference<C, A>, prompt: seq<Word16>, count: nat)
  {
    function TotalSteps(): int {
      |prompt| + count - 1
    }

    ghost predicate Runnable() {
      Realizes(net, spec) && prompt != [] && 0 < count && TotalSteps() <= spec.limit
    }

    ghost function Tokens(p: nat): (toks: seq<nat>)
      ensures |toks| == p
    {
      Fed(spec.next, prompt, p)
    }
  }

  /** The stream stands on the greedy decode of its prompt, and its caches will do for another run. */
  ghost predicate OnDecode<C(!new), A(!new)>(j: Job<C, A>, c: Context<C>) {
    && j.Runnable() && c.pos <= j.TotalSteps()
    && c.output == Output(j.spec.next, j.prompt, c.pos)
    && (c.pos < j.TotalSteps() ==> c.token == TokenAt(j.spec.next, j.prompt, c.pos))
    && j.spec.frontHolds(c.front, []) && j.spec.backHolds(c.back, [])
  }

  /** Between two positions. */
  ghost predicate Idle<C(!new), A(!new)>(j: Job<C, A>, c: Context<C>) {
    && !c.prepared && OnDecode(j, c)
    && j.spec.frontHolds(c.front, j.Tokens(c.pos)) && j.spec.backHolds(c.back, j.Tokens(c.pos))
  }

  /** Prepared: the request for the position stands in the transmit buffer. */
  ghost predicate Loaded<C(!new), A(!new)>(j: Job<C, A>, c: Context<C>, id: Word16, frame: WireFrame<A>) {
    && c.prepared && OnDecode(j, c) && c.pos < j.TotalSteps()
    && j.spec.frontHolds(c.front, j.Tokens(c.pos + 1)) && j.spec.backHolds(c.back, j.Tokens(c.pos))
    && frame == WireFrame(FRAME_MAGIC, c.pos + 1, c.token, c.pos, id, j.spec.handover(j.Tokens(c.pos + 1)))
  }

  /** Served: the worker's answer for the position waits to be collected. */
  ghost predicate InFlight<C(!new), A(!new)>(j: Job<C, A>, c: Context<C>, id: Word16, reply: Reply) {
    && !c.prepared && OnDecode(j, c) && c.pos < j.TotalSteps()
    && j.spec.frontHolds(c.front, j.Tokens(c.pos + 1)) && j.spec.backHolds(c.back, j.Tokens(c.pos + 1))
    && reply == Reply(FRAME_MAGIC, c.pos + 1, j.spec.next(j.Tokens(c.pos + 1)), id)
  }

  lemma StartIsIdle<C(!new), A(!new)>(j: Job<C, A>, c: Context<C>)
    requires j.Runnable() && c.pos == 0 && c.output == [] && c.token == j.prompt[0] && !c.prepared
    requires j.spec.frontHolds(c.front, []) && j.spec.backHolds(c.back, [])
    ensures Idle(j, c)
  {
    assert j.Tokens(0) == [];
  }

  /** What the output of a stream is worth at any time, and once it is done. */
  lemma OutputIsDecode<C(!new), A(!new)>(j: Job<C, A>, c: Context<C>)
    requires OnDecode(j, c)
    ensures c.output <= Decode(j.spec.next, j.prompt, j.count)
    ensures c.pos == j.TotalSteps() ==> c.output == Decode(j.spec.next, j.prompt, j.count)
  {
    var n := |c.output|;
    FeedingDecodes(j.spec.next, j.prompt, n);
    DecodeGrows(j.spec.next, j.prompt, n, j.count);
  }

  lemma PrepareKeeps<C(!new), A(!new)>(j: Job<C, A>, c: Context<C>, id: Word16)
    requires Idle(j, c) && c.pos < j.TotalSteps()
    ensures var (x, front) := j.net.front(c.token, c.pos, c.front);
            Loaded(j, c.(front := front, prepared := true), id,
                   WireFrame(FRAME_MAGIC, c.pos + 1, c.token, c.pos, id, x))
  {
    assert Past(j.Tokens(c.pos + 1)) == j.Tokens(c.pos);
    assert j.spec.frontHolds(j.net.front(c.token, c.pos, c.front).1, j.Tokens(c.pos + 1));
  }

  lemma DispatchKeeps<C(!new), A(!new)>(j: Job<C, A>, c: Context<C>, id: Word16, frame: WireFrame<A>)
    requires Loaded(j, c, id, frame)
    ensures var (result, back) := j.net.back(frame.token, frame.position, frame.activation, c.back);
            && result < 0x1_0000
            && InFlight(j, c.(back := back, prepared := false), id, Reply(FRAME_MAGIC, frame.sequence, result, id))
  {
    assert Past(j.Tokens(c.pos + 1)) == j.Tokens(c.pos);
    assert j.spec.backHolds(j.net.back(frame.token, frame.position, frame.activation, c.back).1, j.Tokens(c.pos + 1));
  }

  /** The context after its reply has been taken over: within the prompt the next token is
      forced, behind it the worker's token is appended to the output. */
  function Advanced<C>(prompt: seq<Word16>, c: Context<C>, reply: Reply): Context<C> {
    if c.pos < |prompt| - 1 then c.(token := prompt[c.pos + 1], pos := c.pos + 1)
    else c.(token := reply.resultToken, pos := c.pos + 1, output := c.output + [reply.resultToken])
  }

  lemma CollectKeeps<C(!new), A(!new)>(j: Job<C, A>, c: Context<C>, id: Word16, reply: Reply)
    requires InFlight(j, c, id, reply)
    ensures Idle(j, Advanced(j.prompt, c, reply))
  {
    assert Past(j.Tokens(c.pos + 1)) == j.Tokens(c.pos);
  }

  /** A stream that is not done has room for its next token. */
  lemma RoomLeft<C(!new), A(!new)>(j: Job<C, A>, c: Context<C>)
    requires OnDecode(j, c) && c.pos < j.TotalSteps()
    ensures c.pos < |j.prompt| - 1 || |c.output| < j.count
  {
  }

  // ---------------------------------------------------------------- the schedule

  /** The `k`-th frame that is dispatched, as (stream, position): the streams alternate until
      the shorter one is done, then the longer one goes on alone. */
  function Slot(k: nat, total0: int, total1: int): (nat, nat) {
    var both := if total0 < total1 then total0 else total1;
    if k < 2 * both then (k % 2, k / 2) else (if total0 > total1 then 0 else 1, k - both)
  }

  /** The first `n` frames of a run. */
  ghost function Schedule(n: nat, total0: int, total1: int): (frames: seq<(nat, nat)>)
    ensures |frames| == n
    ensures forall k | 0 <= k < n :: frames[k] == Slot(k, total0, total1)
  {
    if n == 0 then [] else Schedule(n - 1, total0, total1) + [Slot(n - 1, total0, total1)]
  }

  /** Every position of either stream is dispatched exactly once in a whole run. */
  lemma ScheduleIsExact(total0: nat, total1: nat, stream: nat, pos: nat)
    requires stream < 2 && pos < if stream == 0 then total0 else total1
    ensures exists k: nat :: k < total0 + total1 && Slot(k, total0, total1) == (stream, pos)
    ensures forall k: nat, k': nat | k < k' < total0 + total1 :: Slot(k, total0, total1) != Slot(k', total0, total1)
  {
    var both := if total0 < total1 then total0 else total1;
    var k := if pos < both then 2 * pos + stream else pos + both;
    assert Slot(k, total0, total1) == (stream, pos);
  }

  /** While both streams are active they take turns and stream 0 is at most one ahead. */
  lemma ScheduleAlternates(k: nat, total0: nat, total1: nat)
    requires k + 1 < 2 * total0 && k + 1 < 2 * total1
    ensures Slot(k + 1, total0, total1).0 == 1 - Slot(k, total0, total1).0
    ensures Slot(k + 1, total0, total1).1 - Slot(k, total0, total1).1 == Slot(k, total0, total1).0
  {
  }

  /** After `k` dispatches the stream `id` in flight is the one of slot `k - 1` (see `SlotTaken`),
      and the other stream has had all the other slots. */
  ghost predicate OnSchedule(id: nat, total: int, pos: nat, otherTotal: int, otherPos: nat, k: nat) {
    && id < 2 && pos < total && otherPos <= otherTotal && 0 < otherTotal && pos + otherPos == k - 1
    && if pos < otherTotal then k - 1 == 2 * pos + id else k - 1 == pos + otherTotal
  }

  lemma SlotTaken(id: nat, total: int, pos: nat, otherTotal: int, otherPos: nat, k: nat)
    requires OnSchedule(id, total, pos, otherTotal, otherPos, k)
    ensures k <= total + otherTotal
    ensures (id, pos) == if id == 0 then Slot(k - 1, total, otherTotal) else Slot(k - 1, otherTotal, total)
  {
  }

  /** Whose turn comes next; the other stream never becomes active again once it is done. */
  lemma ScheduleStep(id: nat, total: int, pos: nat, otherTotal: int, otherPos: nat, k: nat)
    requires OnSchedule(id, total, pos, otherTotal, otherPos, k)
    ensures otherPos < otherTotal ==> OnSchedule(1 - id, otherTotal, otherPos, total, pos + 1, k + 1)
    ensures otherPos == otherTotal && pos + 1 < total ==> OnSchedule(id, total, pos + 1, otherTotal, otherPos, k + 1)
    ensures otherPos == otherTotal && pos + 1 == total ==> k == total + otherTotal
  {
  }

  // ---------------------------------------------------------------- the boards

  class StreamState {
    const prompt: seq<Word16>
    const expectedCount: nat
    const generated: array<Word16>
    var token: Word16
    var pos: nat
    var outCount: nat
    var prepared: bool

    constructor (prompt: seq<Word16>, expectedCount: nat)
      requires prompt != []
      ensures this.prompt == prompt && this.expectedCount == expectedCount
      ensures fresh(generated) && generated.Length == expectedCount
      ensures token == prompt[0] && pos == 0 && outCount == 0 && !prepared
    {
      this.prompt, this.expectedCount := prompt, expectedCount;
      token, pos, outCount, prepared := prompt[0], 0, 0, false;
      generated := new Word16[expectedCount](_ => 0);
    }

    function TotalSteps(): int {
      |prompt| + expectedCount - 1
    }

    ghost predicate Valid()
      reads `outCount
    {
      outCount <= generated.Length == expectedCount
    }

    function Output(): seq<Word16>
      reads `outCount, generated
    {
      if outCount <= generated.Length then generated[..outCount] else []
    }

    predicate Active()
      reads `pos
    {
      pos < TotalSteps()
    }
  }

  class Worker<C, A> {
    const net: Net<C, A>
    var caches: seq<C>

    constructor (net: Net<C, A>, caches: seq<C>)
      ensures this.net == net && this.caches == caches
    {
      this.net, this.caches := net, caches;
    }

    /** Whether the worker answers a request or drops it and listens again. */
    predicate Accepts(rx: WireFrame<A>) {
      rx.magic == FRAME_MAGIC && rx.stream < 2
    }

    /** The worker's half of a request and the reply it sends back. */
    method Compute(rx: WireFrame<A>) returns (reply: Reply)
      requires Accepts(rx) && |caches| == 2
      modifies this
      ensures var (result, cache) := net.back(rx.token, rx.position, rx.activation, old(caches)[rx.stream]);
              && caches == old(caches)[rx.stream := cache]
              && reply == Reply(FRAME_MAGIC, rx.sequence, result % 0x1_0000, rx.stream)
    {
      var (result, cache) := net.back(rx.token, rx.position, rx.activation, caches[rx.stream]);
      caches := caches[rx.stream := cache];
      reply := Reply(FRAME_MAGIC, rx.sequence, result % 0x1_0000, rx.stream);
    }
  }

  datatype Turn = Same | Other | Finished | Failed

  class Master<C(!new), A(!new)> {
    const net: Net<C, A>
    const worker: Worker<C, A>
    /** What the link will do, one entry for each dispatch and each collect. */
    const faults: nat -> Fault
    var caches: seq<C>
    var txFrame: WireFrame<A>
    /** The worker's answer to the last request it received. */
    var pending: Reply
    /** Whether the request that was dispatched last has been received. */
    var answered: bool
    var step: nat

    constructor (net: Net<C, A>, worker: Worker<C, A>, faults: nat -> Fault, caches: seq<C>, blank: WireFrame<A>)
      ensures this.net == net && this.worker == worker && this.faults == faults && this.caches == caches
    {
      this.net, this.worker, this.faults, this.caches, txFrame := net, worker, faults, caches, blank;
      pending, answered, step := Reply(0, 0, 0, 0), false, 0;
    }

    ghost predicate Ready()
      reads this, worker
    {
      worker.net == net && |caches| == 2 && |worker.caches| == 2
    }

    ghost function Work(spec: Reference<C, A>, st: StreamState): Job<C, A> {
      Job(net, spec, st.prompt, st.expectedCount)
    }

    ghost function View(st: StreamState, id: Word16): Context<C>
      requires id < 2 && Ready()
      reads this, worker, st, st.generated
    {
      Context(st.token, st.pos, st.Output(), st.prepared, caches[id], worker.caches[id])
    }

    method Prepare(st: StreamState, id: Word16)
      requires id < 2 && Ready() && st.pos < 0x1_0000
      modifies this`txFrame, this`caches, st`prepared
      ensures var (x, front) := net.front(st.token, st.pos, old(caches)[id]);
              && caches == old(caches)[id := front]
              && txFrame == WireFrame(FRAME_MAGIC, st.pos + 1, st.token, st.pos, id, x)
      ensures st.prepared
    {
      var (x, front) := net.front(st.token, st.pos, caches[id]);
      caches := caches[id := front];
      txFrame := WireFrame(FRAME_MAGIC, st.pos + 1, st.token, st.pos, id, x);
      st.prepared := true;
    }

    method Dispatch(st: StreamState) returns (ok: bool)
      requires Ready() && worker.Accepts(txFrame)
      modifies this`step, this`pending, this`answered, st`prepared, worker
      ensures Ready() && step == old(step) + 1
      ensures var fault := faults(old(step));
              ok == (fault.Clean? || fault.Unheard?) && answered == (fault.Clean? || fault.Late?)
      ensures var (result, back) := net.back(txFrame.token, txFrame.position, txFrame.activation,
                                             old(worker.caches)[txFrame.stream]);
              if answered then
                && worker.caches == old(worker.caches)[txFrame.stream := back]
                && pending == Reply(FRAME_MAGIC, txFrame.sequence, result % 0x1_0000, txFrame.stream)
              else worker.caches == old(worker.caches) && pending == old(pending)
      ensures st.prepared == (!ok && old(st.prepared))
    {
      var fault := faults(step);
      step := step + 1;
      answered := fault.Clean? || fault.Late?;
      if answered {
        pending := worker.Compute(txFrame);
      }
      ok := fault.Clean? || fault.Unheard?;
      if ok {
        st.prepared := false;
      }
    }

    method Collect(st: StreamState, id: Word16) returns (ok: bool)
      requires id < 2 && Ready() && st.Valid() && st.pos < 0xFFFF_FFFF
      requires answered ==> pending.SameHeader(Awaited(st, id))
      requires st.pos < |st.prompt| - 1 || st.outCount < st.generated.Length
      modifies this`step, st`token, st`pos, st`outCount, st.generated
      ensures st.Valid() && step == old(step) + 1
      ensures ok ==> answered
      ensures answered && faults(old(step)).Clean? ==> ok
      ensures View(st, id) == if ok then Advanced(st.prompt, old(View(st, id)), pending) else old(View(st, id))
    {
      var fault := faults(step);
      step := step + 1;
      if fault.Lost? || fault.Late? {
        return false;
      }
      var reply := Arriving(fault, pending, answered, Awaited(st, id));
      if reply.magic != FRAME_MAGIC || reply.stream != id || reply.sequence != st.pos + 1 {
        return false;
      }
      var next;
      if st.pos < |st.prompt| - 1 {
        next := st.prompt[st.pos + 1];
      } else {
        next := reply.resultToken;
        st.generated[st.outCount] := next;
        st.outCount := st.outCount + 1;
      }
      st.token := next;
      st.pos := st.pos + 1;
      ok := true;
    }

    /** The header of the reply that a stream waits for. */
    function Awaited(st: StreamState, id: Word16): Reply
      requires st.pos < 0xFFFF_FFFF
      reads st`pos
    {
      Reply(FRAME_MAGIC, st.pos + 1, 0, id)
    }

    /** Two streams that share nothing, of which `current` has number `id`. */
    ghost predicate Apart(current: StreamState, id: Word16, waiting: StreamState) {
      id < 2 && current != waiting && current.generated != waiting.generated
    }

    /** The link has failed since step `from`. */
    ghost predicate Faulty(from: nat)
      reads this`step
    {
      exists n | from <= n < step :: !faults(n).Clean?
    }

    /** A stream in flight: its answer waits, or its request was never heard. */
    ghost predicate Sent(spec: Reference<C, A>, st: StreamState, id: Word16)
      requires id < 2 && Ready()
      reads this, worker, st, st.generated
    {
      if answered then InFlight(Work(spec, st), View(st, id), id, pending)
      else !st.prepared && OnDecode(Work(spec, st), View(st, id)) && st.Active()
    }

    /** The loop head: `current` is in flight and `waiting` is between two positions, not prepared. */
    ghost predicate Head(spec: Reference<C, A>, current: StreamState, id: Word16, waiting: StreamState)
      reads this, worker, current, current.generated, waiting, waiting.generated
    {
      && Apart(current, id, waiting) && Ready() && current.Valid() && waiting.Valid()
      && Sent(spec, current, id) && Idle(Work(spec, waiting), View(waiting, 1 - id))
    }

    /** Prepares the waiting stream, if it has anything left, while the worker is computing. */
    method Overlap(ghost spec: Reference<C, A>, current: StreamState, id: Word16, waiting: StreamState)
      requires Apart(current, id, waiting) && Ready() && Idle(Work(spec, waiting), View(waiting, 1 - id))
      modifies this`txFrame, this`caches, waiting`prepared
      ensures Ready() && View(current, id) == old(View(current, id))
      ensures if waiting.Active() then Loaded(Work(spec, waiting), View(waiting, 1 - id), 1 - id, txFrame)
              else View(waiting, 1 - id) == old(View(waiting, 1 - id))
    {
      if waiting.Active() && !waiting.prepared {
        PrepareKeeps(Work(spec, waiting), View(waiting, 1 - id), 1 - id);
        Prepare(waiting, 1 - id);
      }
    }

    /** Collects the answer in flight. */
    method Accept(ghost spec: Reference<C, A>, st: StreamState, id: Word16, other: StreamState) returns (ok: bool)
      requires Apart(st, id, other) && Ready() && st.Valid() && Sent(spec, st, id)
      modifies this`step, st`token, st`pos, st`outCount, st.generated
      ensures Ready() && st.Valid() && step == old(step) + 1 && (answered && faults(old(step)).Clean? ==> ok)
      ensures View(other, 1 - id) == old(View(other, 1 - id)) && OnDecode(Work(spec, st), View(st, id))
      ensures ok ==> st.pos == old(st.pos) + 1 && Idle(Work(spec, st), View(st, id))
    {
      RoomLeft(Work(spec, st), View(st, id));
      if answered {
        CollectKeeps(Work(spec, st), View(st, id), id, pending);
      }
      ok := Collect(st, id);
    }

    /** The first half of a turn: the waiting stream is prepared while the worker computes, then the
        answer in flight is collected. */
    method Receive(ghost spec: Reference<C, A>, current: StreamState, id: Word16, waiting: StreamState, ghost from: nat)
      returns (ok: bool)
      requires Head(spec, current, id, waiting) && from <= step && (answered || Faulty(from))
      modifies this`txFrame, this`caches, this`step, waiting`prepared
      modifies current`token, current`pos, current`outCount, current.generated
      ensures Ready() && current.Valid() && old(step) < step && (ok || Faulty(from))
      ensures OnDecode(Work(spec, current), View(current, id)) && OnDecode(Work(spec, waiting), View(waiting, 1 - id))
      ensures ok ==> current.pos == old(current.pos) + 1 && Idle(Work(spec, current), View(current, id))
      ensures if waiting.Active() then Loaded(Work(spec, waiting), View(waiting, 1 - id), 1 - id, txFrame)
              else Idle(Work(spec, waiting), View(waiting, 1 - id))
    {
      Overlap(spec, current, id, waiting);
      ghost var now := step;
      ok := Accept(spec, current, id, waiting);
      assert ok || !answered || !faults(now).Clean?;
    }

    /** Dispatches a prepared stream. */
    method Send(ghost spec: Reference<C, A>, st: StreamState, id: Word16, other: StreamState) returns (ok: bool)
      requires Apart(st, id, other) && Ready() && Loaded(Work(spec, st), View(st, id), id, txFrame)
      modifies this`step, this`pending, this`answered, st`prepared, worker
      ensures Ready() && step == old(step) + 1
      ensures faults(old(step)).Clean? ==> ok && answered
      ensures View(other, 1 - id) == old(View(other, 1 - id)) && OnDecode(Work(spec, st), View(st, id))
      ensures ok ==> Sent(spec, st, id)
    {
      DispatchKeeps(Work(spec, st), View(st, id), id, txFrame);
      ok := Dispatch(st);
    }

    /** Prepares a stream and dispatches it at once. */
    method Launch(ghost spec: Reference<C, A>, st: StreamState, id: Word16, other: StreamState) returns (ok: bool)
      requires Apart(st, id, other) && Ready() && Idle(Work(spec, st), View(st, id)) && st.Active()
      modifies this`txFrame, this`caches, this`step, this`pending, this`answered, st`prepared, worker
      ensures Ready() && step == old(step) + 1
      ensures faults(old(step)).Clean? ==> ok && answered
      ensures View(other, 1 - id) == old(View(other, 1 - id)) && OnDecode(Work(spec, st), View(st, id))
      ensures ok ==> Sent(spec, st, id)
    {
      PrepareKeeps(Work(spec, st), View(st, id), id);
      Prepare(st, id);
      ok := Send(spec, st, id, other);
    }

    /** Sends the next request: the other stream's if it is prepared, else one of the same stream. */
    method Proceed(ghost spec: Reference<C, A>, current: StreamState, id: Word16, waiting: StreamState)
      returns (turn: Turn)
      requires Apart(current, id, waiting) && Ready() && Idle(Work(spec, current), View(current, id))
      requires if waiting.Active() then Loaded(Work(spec, waiting), View(waiting, 1 - id), 1 - id, txFrame)
               else Idle(Work(spec, waiting), View(waiting, 1 - id))
      modifies this`txFrame, this`caches, this`step, this`pending, this`answered
      modifies current`prepared, waiting`prepared, worker
      ensures Ready() && old(step) <= step
      ensures OnDecode(Work(spec, current), View(current, id)) && OnDecode(Work(spec, waiting), View(waiting, 1 - id))
      ensures turn.Finished? || (answered && !turn.Failed?) || (old(step) < step && !faults(old(step)).Clean?)
      ensures turn.Other? ==> waiting.Active() && Sent(spec, waiting, 1 - id)
                              && View(current, id) == old(View(current, id))
      ensures turn.Same? ==> !waiting.Active() && Sent(spec, current, id)
                             && View(waiting, 1 - id) == old(View(waiting, 1 - id))
      ensures turn.Finished? ==> !waiting.Active() && !current.Active()
      ensures current.pos == old(current.pos) && waiting.pos == old(waiting.pos)
    {
      var sent;
      if waiting.prepared {
        sent := Send(spec, waiting, 1 - id, current);
        turn := Other;
      } else if current.Active() {
        sent := Launch(spec, current, id, waiting);
        turn := Same;
      } else if waiting.Active() {
        assert false;
      } else {
        return Finished;
      }
      if !sent {
        turn := Failed;
      }
    }

    /** One turn of the pipeline loop after `k` dispatches: prepare the other stream while the
        worker computes, collect the answer in flight, send the next request. */
    method Step(ghost spec: Reference<C, A>, current: StreamState, id: Word16, waiting: StreamState, ghost k: nat,
                ghost from: nat)
      returns (turn: Turn)
      requires Head(spec, current, id, waiting) && from <= step && (answered || Faulty(from))
      requires OnSchedule(id, current.TotalSteps(), current.pos, waiting.TotalSteps(), waiting.pos, k)
      modifies this, worker, current, current.generated, waiting`prepared
      ensures Ready() && old(step) <= step && current.Valid()
      ensures OnDecode(Work(spec, current), View(current, id)) && OnDecode(Work(spec, waiting), View(waiting, 1 - id))
      ensures turn.Finished? || (answered && !turn.Failed?) || Faulty(from)
      ensures turn.Finished? ==> !current.Active() && !waiting.Active()
      ensures turn.Finished? ==> k == current.TotalSteps() + waiting.TotalSteps()
      ensures turn.Same? ==> Head(spec, current, id, waiting)
      ensures turn.Same? ==> OnSchedule(id, current.TotalSteps(), current.pos, waiting.TotalSteps(), waiting.pos, k + 1)
      ensures turn.Other? ==> Head(spec, waiting, 1 - id, current)
      ensures turn.Other? ==>
                OnSchedule(1 - id, waiting.TotalSteps(), waiting.pos, current.TotalSteps(), current.pos, k + 1)
    {
      ScheduleStep(id, current.TotalSteps(), current.pos, waiting.TotalSteps(), waiting.pos, k);
      var taken := Receive(spec, current, id, waiting, from);
      if !taken {
        return Failed;
      }
      ghost var now := step;
      turn := Proceed(spec, current, id, waiting);
      assert turn.Finished? || (answered && !turn.Failed?) || !faults(now).Clean?;
    }

    /** The loop head after `k` dispatches, with stream `inflight` in flight. */
    ghost predicate At(spec: Reference<C, A>, s0: StreamState, s1: StreamState, inflight: Word16, k: nat)
      reads this, worker, s0, s0.generated, s1, s1.generated
    {
      if inflight == 0 then Head(spec, s0, 0, s1) && OnSchedule(0, s0.TotalSteps(), s0.pos, s1.TotalSteps(), s1.pos, k)
      else inflight == 1 && Head(spec, s1, 1, s0) && OnSchedule(1, s1.TotalSteps(), s1.pos, s0.TotalSteps(), s0.pos, k)
    }

    ghost predicate BothOnDecode(spec: Reference<C, A>, s0: StreamState, s1: StreamState)
      reads this, worker, s0, s0.generated, s1, s1.generated
    {
      && Ready() && s0.Valid() && s1.Valid()
      && OnDecode(Work(spec, s0), View(s0, 0)) && OnDecode(Work(spec, s1), View(s1, 1))
    }

    method RoundOf0(ghost spec: Reference<C, A>, s0: StreamState, s1: StreamState, ghost k: nat, ghost from: nat)
      returns (turn: Turn)
      requires At(spec, s0, s1, 0, k) && from <= step && (answered || Faulty(from))
      modifies this, worker, s0, s0.generated, s1, s1.generated
      ensures BothOnDecode(spec, s0, s1) && old(step) <= step
      ensures turn.Finished? || (answered && !turn.Failed?) || Faulty(from)
      ensures turn.Finished? ==> !s0.Active() && !s1.Active() && k == s0.TotalSteps() + s1.TotalSteps()
      ensures turn.Same? ==> At(spec, s0, s1, 0, k + 1)
      ensures turn.Other? ==> At(spec, s0, s1, 1, k + 1)
    {
      turn := Step(spec, s0, 0, s1, k, from);
    }

    method RoundOf1(ghost spec: Reference<C, A>, s0: StreamState, s1: StreamState, ghost k: nat, ghost from: nat)
      returns (turn: Turn)
      requires At(spec, s0, s1, 1, k) && from <= step && (answered || Faulty(from))
      modifies this, worker, s0, s0.generated, s1, s1.generated
      ensures BothOnDecode(spec, s0, s1) && old(step) <= step
      ensures turn.Finished? || (answered && !turn.Failed?) || Faulty(from)
      ensures turn.Finished? ==> !s0.Active() && !s1.Active() && k == s0.TotalSteps() + s1.TotalSteps()
      ensures turn.Same? ==> At(spec, s0, s1, 1, k + 1)
      ensures turn.Other? ==> At(spec, s0, s1, 0, k + 1)
    {
      turn := Step(spec, s1, 1, s0, k, from);
    }

    /** One round of the loop, for either stream. */
    method Round(ghost spec: Reference<C, A>, s0: StreamState, s1: StreamState, inflight: Word16, ghost k: nat,
                 ghost from: nat)
      returns (turn: Turn, next: Word16)
      requires At(spec, s0, s1, inflight, k) && from <= step && (answered || Faulty(from))
      modifies this, worker, s0, s0.generated, s1, s1.generated
      ensures BothOnDecode(spec, s0, s1) && old(step) <= step
      ensures turn.Finished? || (answered && !turn.Failed?) || Faulty(from)
      ensures turn.Finished? ==> !s0.Active() && !s1.Active() && k == s0.TotalSteps() + s1.TotalSteps()
      ensures turn.Same? || turn.Other? ==> At(spec, s0, s1, next, k + 1)
    {
      if inflight == 0 {
        turn := RoundOf0(spec, s0, s1, k, from);
      } else {
        turn := RoundOf1(spec, s0, s1, k, from);
      }
      next := if turn.Other? then 1 - inflight else inflight;
    }

    /** The frame dispatched last is the one the schedule asks for. */
    lemma LogGrows(spec: Reference<C, A>, s0: StreamState, s1: StreamState, inflight: Word16, log: seq<(nat, nat)>)
      requires At(spec, s0, s1, inflight, |log| + 1) && log == Schedule(|log|, s0.TotalSteps(), s1.TotalSteps())
      ensures |log| < s0.TotalSteps() + s1.TotalSteps()
      ensures log + [(inflight, if inflight == 0 then s0.pos else s1.pos)]
           == Schedule(|log| + 1, s0.TotalSteps(), s1.TotalSteps())
    {
      if inflight == 0 {
        SlotTaken(0, s0.TotalSteps(), s0.pos, s1.TotalSteps(), s1.pos, |log| + 1);
      } else {
        SlotTaken(1, s1.TotalSteps(), s1.pos, s0.TotalSteps(), s0.pos, |log| + 1);
      }
    }

    /** The pipeline loop, from the first dispatch on. */
    method Drive(ghost spec: Reference<C, A>, s0: StreamState, s1: StreamState, ghost from: nat)
      returns (ok: bool, ghost log: seq<(nat, nat)>)
      requires At(spec, s0, s1, 0, 1) && from <= step && (answered || Faulty(from))
      modifies this, worker, s0, s0.generated, s1, s1.generated
      ensures BothOnDecode(spec, s0, s1)
      ensures ok ==> !s0.Active() && !s1.Active()
      ensures |log| <= s0.TotalSteps() + s1.TotalSteps() && (ok ==> |log| == s0.TotalSteps() + s1.TotalSteps())
      ensures log == Schedule(|log|, s0.TotalSteps(), s1.TotalSteps())
      ensures old(step) <= step && (ok || Faulty(from))
    {
      ok, log := false, [];
      var inflight: Word16 := 0;
      while true
        invariant At(spec, s0, s1, inflight, |log| + 1) && old(step) <= step && (answered || Faulty(from))
        invariant log == Schedule(|log|, s0.TotalSteps(), s1.TotalSteps())
        decreases s0.TotalSteps() + s1.TotalSteps() - |log|
      {
        LogGrows(spec, s0, s1, inflight, log);
        log := log + [(inflight as nat, if inflight == 0 then s0.pos else s1.pos)];
        var turn, next := Round(spec, s0, s1, inflight, |log|, from);
        if turn.Failed? {
          return;
        }
        if turn.Finished? {
          return true, log;
        }
        inflight := next;
      }
    }

    /** Both streams are fresh, and both halves of either cache will do to start from. */
    ghost predicate Fresh(spec: Reference<C, A>, s0: StreamState, s1: StreamState)
      reads this, worker, s0, s0.generated, s1, s1.generated
    {
      && Apart(s0, 0, s1) && Ready() && s0.Valid() && s1.Valid()
      && Work(spec, s0).Runnable() && Work(spec, s1).Runnable()
      && s0.pos == s1.pos == s0.outCount == s1.outCount == 0 && !s0.prepared && !s1.prepared
      && s0.token == s0.prompt[0] && s1.token == s1.prompt[0]
      && forall i | 0 <= i < 2 :: spec.frontHolds(caches[i], []) && spec.backHolds(worker.caches[i], [])
    }

    /** Prepares stream 0 and sends the first request. */
    method Begin(ghost spec: Reference<C, A>, s0: StreamState, s1: StreamState) returns (ok: bool)
      requires Fresh(spec, s0, s1)
      modifies this, worker, s0`prepared
      ensures BothOnDecode(spec, s0, s1) && old(step) <= step
      ensures ok ==> At(spec, s0, s1, 0, 1)
      ensures (ok && answered) || Faulty(old(step))
    {
      StartIsIdle(Work(spec, s0), View(s0, 0));
      StartIsIdle(Work(spec, s1), View(s1, 1));
      ghost var now := step;
      ok := Launch(spec, s0, 0, s1);
      assert (ok && answered) || !faults(now).Clean?;
    }

    /** The output of a stream is a prefix of greedy decoding of its prompt, and all of it when
        the stream is done. */
    ghost predicate Delivered(spec: Reference<C, A>, st: StreamState, prompt: seq<Word16>, count: nat, done: bool)
      reads st, st.generated
    {
      && st.prompt == prompt && st.generated.Length == count && st.outCount <= count
      && st.generated[..st.outCount] <= Decode(spec.next, prompt, count)
      && (done ==> st.outCount == count && st.generated[..] == Decode(spec.next, prompt, count))
    }

    lemma Deliver(spec: Reference<C, A>, s0: StreamState, s1: StreamState, done: bool)
      requires BothOnDecode(spec, s0, s1) && (done ==> !s0.Active() && !s1.Active())
      ensures Delivered(spec, s0, s0.prompt, s0.expectedCount, done)
      ensures Delivered(spec, s1, s1.prompt, s1.expectedCount, done)
      ensures forall i | 0 <= i < 2 :: spec.frontHolds(caches[i], []) && spec.backHolds(worker.caches[i], [])
    {
      OutputIsDecode(Work(spec, s0), View(s0, 0));
      OutputIsDecode(Work(spec, s1), View(s1, 1));
    }

    /** A run of two fresh streams. */
    method Run(ghost spec: Reference<C, A>, s0: StreamState, s1: StreamState)
      returns (ok: bool, ghost log: seq<(nat, nat)>)
      requires Fresh(spec, s0, s1)
      modifies this, worker, s0, s0.generated, s1, s1.generated
      ensures Ready()
      ensures Delivered(spec, s0, s0.prompt, s0.expectedCount, ok)
      ensures Delivered(spec, s1, s1.prompt, s1.expectedCount, ok)
      ensures forall i | 0 <= i < 2 :: spec.frontHolds(caches[i], []) && spec.backHolds(worker.caches[i], [])
      ensures |log| <= s0.TotalSteps() + s1.TotalSteps() && (ok ==> |log| == s0.TotalSteps() + s1.TotalSteps())
      ensures log == Schedule(|log|, s0.TotalSteps(), s1.TotalSteps())
      ensures (forall n | old(step) <= n :: faults(n).Clean?) ==> ok
    {
      log := [];
      ok := Begin(spec, s0, s1);
      if ok {
        ok, log := Drive(spec, s0, s1, old(step));
      }
      Deliver(spec, s0, s1, ok);
    }

    /** A whole run. Whatever the link does, at every return the output of either stream is a
        prefix of greedy decoding of its own prompt, and the frames dispatched so far follow the
        schedule; a clean link gives both outputs in full. The caches are taken as the last run
        left them. */
    method RunPipeline(ghost spec: Reference<C, A>, prompts: seq<seq<Word16>>, counts: seq<nat>)
      returns (ok: bool, streams: seq<StreamState>, ghost log: seq<(nat, nat)>)
      requires Ready() && |prompts| == 2 && |counts| == 2
      requires Job(net, spec, prompts[0], counts[0]).Runnable() && Job(net, spec, prompts[1], counts[1]).Runnable()
      requires forall i | 0 <= i < 2 :: spec.frontHolds(caches[i], []) && spec.backHolds(worker.caches[i], [])
      modifies this, worker
      ensures Ready() && |streams| == 2
      ensures forall i | 0 <= i < 2 :: spec.frontHolds(caches[i], []) && spec.backHolds(worker.caches[i], [])
      ensures Delivered(spec, streams[0], prompts[0], counts[0], ok)
      ensures Delivered(spec, streams[1], prompts[1], counts[1], ok)
      ensures var total0 := Job(net, spec, prompts[0], counts[0]).TotalSteps();
              var total1 := Job(net, spec, prompts[1], counts[1]).TotalSteps();
              |log| <= total0 + total1 && (ok ==> |log| == total0 + total1) && log == Schedule(|log|, total0, total1)
      ensures (forall n | old(step) <= n :: faults(n).Clean?) ==> ok
    {
      var s0 := new StreamState(prompts[0], counts[0]);
      var s1 := new StreamState(prompts[1], counts[1]);
      streams := [s0, s1];
      ok, log := Run(spec, s0, s1);
    }
  }
}
