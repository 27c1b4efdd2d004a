/** The READY handshake between the boards, as two processes that interleave freely.

    The master polls the READY line around every transfer; the worker raises the line when a
    transaction is set up and lowers it when one is over. */
module Handshake {
  import opened Options

  /** Where the master stands: around the request transfer, then around the reply transfer. */
  datatype MasterAt = RequestHigh | RequestTransfer | RequestLow | ReplyHigh | ReplyTransfer | ReplyLow | TimedOut

  /** Where the worker stands in its loop. */
  datatype WorkerAt = ToReceive | Receiving | Received | Computing | ToRespond | Responding | Responded | Resting

  datatype Link<S, F, R> = Link(
    master: MasterAt,
    worker: WorkerAt,
    ready: bool,            // the level of the READY line
    model: S,               // the worker's decoders
    rx: Option<F>,          // the worker's receive buffer
    tx: Option<R>,          // the worker's transmit buffer
    sent: seq<F>,           // requests of this run that the worker has received whole
    got: seq<R>,            // replies of this run that the master has received whole
    mismatch: bool)         // a transfer met a worker not set up for it

  /** How the worker answers. */
  datatype Service<!S, !F, !R> = Service(accepts: F -> bool, serve: (S, F) -> (S, R))

  /** One step of either process. */
  datatype Action<F> =
    | SeeLevel | GiveUp | Request(frame: F) | FetchReply | Restart
    | Arm | Lower | Compute | ArmReply | LowerReply | Rest

  function Wanted(m: MasterAt): bool {
    m.RequestHigh? || m.ReplyHigh?
  }

  predicate Polling(m: MasterAt) {
    m.RequestHigh? || m.RequestLow? || m.ReplyHigh? || m.ReplyLow?
  }

  function AfterLevel(m: MasterAt): MasterAt {
    match m
    case RequestHigh => RequestTransfer
    case RequestLow => ReplyHigh
    case ReplyHigh => ReplyTransfer
    case ReplyLow => RequestHigh
    case _ => m
  }

  /** The state after a step, or `None` when the process cannot take it. */
  function Step<S, F, R>(v: Service<S, F, R>, s: Link<S, F, R>, a: Action<F>): Option<Link<S, F, R>> {
    match a
    case SeeLevel =>
      if Polling(s.master) && s.ready == Wanted(s.master) then Some(s.(master := AfterLevel(s.master))) else None
    case GiveUp =>
      if Polling(s.master) && s.ready != Wanted(s.master) then Some(s.(master := TimedOut)) else None
    case Request(frame) =>
      if !s.master.RequestTransfer? then None
      else if s.worker.Receiving? then
        Some(s.(master := RequestLow, worker := Received, rx := Some(frame), sent := s.sent + [frame]))
      else Some(s.(master := RequestLow, mismatch := true))
    case FetchReply =>
      if !s.master.ReplyTransfer? then None
      else if s.worker.Responding? && s.tx.Some? then
        Some(s.(master := ReplyLow, worker := Responded, got := s.got + [s.tx.value]))
      else Some(s.(master := ReplyLow, mismatch := true))
    case Restart =>
      if s.master.TimedOut? then Some(s.(master := RequestHigh, sent := [], got := [])) else None
    case Arm =>
      if s.worker.ToReceive? then Some(s.(worker := Receiving, ready := true, rx := None)) else None
    case Lower =>
      if s.worker.Received? && s.rx.Some? then
        Some(s.(worker := if v.accepts(s.rx.value) then Computing else ToReceive, ready := false))
      else None
    case Compute =>
      if s.worker.Computing? && s.rx.Some? then
        var (model, reply) := v.serve(s.model, s.rx.value);
        Some(s.(worker := ToRespond, model := model, tx := Some(reply)))
      else None
    case ArmReply =>
      if s.worker.ToRespond? then Some(s.(worker := Responding, ready := true)) else None
    case LowerReply =>
      if s.worker.Responded? then Some(s.(worker := Resting, ready := false)) else None
    case Rest =>
      if s.worker.Resting? then Some(s.(worker := ToReceive)) else None
  }

  /** A run: any interleaving of steps; one a process cannot take leaves the state as it is. */
  function Run<S, F, R>(v: Service<S, F, R>, s: Link<S, F, R>, acts: seq<Action<F>>): Link<S, F, R> {
    if acts == [] then s
    else
      var last := |acts| - 1;
      var before := Run(v, s, acts[..last]);
      var after := Step(v, before, acts[last]);
      if after.Some? then after.value else before
  }

  /** A master run: every request is one the worker accepts, and no second run is started. */
  ghost predicate OneRun<S, F, R>(v: Service<S, F, R>, acts: seq<Action<F>>) {
    forall i | 0 <= i < |acts| :: !acts[i].Restart? && (acts[i].Request? ==> v.accepts(acts[i].frame))
  }

  /** The worker's decoders after a series of requests, and its answer to the last one. */
  function Served<S, F, R>(v: Service<S, F, R>, model: S, frames: seq<F>): S {
    if frames == [] then model
    else v.serve(Served(v, model, frames[..|frames| - 1]), frames[|frames| - 1]).0
  }

  function Answer<S, F, R>(v: Service<S, F, R>, model: S, frames: seq<F>): R
    requires frames != []
  {
    v.serve(Served(v, model, frames[..|frames| - 1]), frames[|frames| - 1]).1
  }

  /** A worker that is about to listen, with the line low, or listening, with the line high. */
  predicate Listening<S, F, R>(s: Link<S, F, R>) {
    || (s.worker.Receiving? && s.ready)
    || ((s.worker.ToReceive? || s.worker.Resting?) && !s.ready)
  }

  ghost predicate Start<S, F, R>(s: Link<S, F, R>) {
    s.master.RequestHigh? && s.sent == [] && s.got == [] && !s.mismatch
  }

  /** Between the receipt of a request and the fetching of its reply. */
  predicate Busy(w: WorkerAt) {
    w.Received? || w.Computing? || w.ToRespond? || w.Responding?
  }

  /** What holds at every moment of a run that found the worker listening. */
  ghost predicate Inv<S, F, R>(v: Service<S, F, R>, model: S, s: Link<S, F, R>) {
    && !s.mismatch
    && (s.ready <==> s.worker.Receiving? || s.worker.Received? || s.worker.Responding? || s.worker.Responded?)
    // which half of the exchange the worker is in, as the master sees it
    && (s.master.RequestHigh? ==> Listening(s))
    && (s.master.RequestTransfer? ==> s.worker.Receiving?)
    && (s.master.RequestLow? ==> Busy(s.worker))
    && (s.master.ReplyHigh? ==> s.worker.Computing? || s.worker.ToRespond? || s.worker.Responding?)
    && (s.master.ReplyTransfer? ==> s.worker.Responding?)
    && (s.master.ReplyLow? ==> s.worker.Responded? || Listening(s))
    // requests and replies alternate, and every reply answers its own request
    && |s.sent| == |s.got| + (if Busy(s.worker) then 1 else 0)
    && (forall i | 0 <= i < |s.got| :: s.got[i] == Answer(v, model, s.sent[..i + 1]))
    && (s.worker.Received? || s.worker.Computing? ==>
          && s.rx == Some(s.sent[|s.sent| - 1]) && v.accepts(s.rx.value)
          && s.model == Served(v, model, s.sent[..|s.sent| - 1]))
    && (!s.worker.Received? && !s.worker.Computing? ==> s.model == Served(v, model, s.sent))
    && (s.worker.ToRespond? || s.worker.Responding? ==> s.tx == Some(Answer(v, model, s.sent)))
  }

  lemma StepKeepsInv<S, F, R>(v: Service<S, F, R>, model: S, s: Link<S, F, R>, a: Action<F>)
    requires Inv(v, model, s) && !a.Restart? && (a.Request? ==> v.accepts(a.frame)) && Step(v, s, a).Some?
    ensures Inv(v, model, Step(v, s, a).value)
  {
    var s' := Step(v, s, a).value;
    match a
    case Request(frame) =>
      assert s'.sent[..|s.sent|] == s.sent;
      forall i | 0 <= i < |s.got|
        ensures s'.got[i] == Answer(v, model, s'.sent[..i + 1])
      {
        assert s'.sent[..i + 1] == s.sent[..i + 1];
      }
    case FetchReply =>
      assert s.sent[..|s.got| + 1] == s.sent;
    case _ =>
  }

  lemma {:induction false} RunKeepsInv<S, F, R>(v: Service<S, F, R>, s: Link<S, F, R>, acts: seq<Action<F>>)
    requires Start(s) && Listening(s) && OneRun(v, acts)
    ensures Inv(v, s.model, Run(v, s, acts))
  {
    if acts != [] {
      var last := |acts| - 1;
      RunKeepsInv(v, s, acts[..last]);
      if Step(v, Run(v, s, acts[..last]), acts[last]).Some? {
        StepKeepsInv(v, s.model, Run(v, s, acts[..last]), acts[last]);
      }
    }
  }

  /** Under every interleaving, a request is transferred only to a worker set up to receive and
      when all earlier requests have been answered, a reply only from a worker set up to respond
      and when exactly one request is open; the reply is the answer to that request. */
  lemma TransfersMatch<S, F, R>(v: Service<S, F, R>, s: Link<S, F, R>, acts: seq<Action<F>>)
    requires Start(s) && Listening(s) && OneRun(v, acts)
    ensures var now := Run(v, s, acts);
            && !now.mismatch
            && (now.master.RequestTransfer? ==> now.worker.Receiving? && |now.sent| == |now.got|)
            && (now.master.ReplyTransfer? ==> now.worker.Responding? && |now.sent| == |now.got| + 1
                                              && now.tx == Some(Answer(v, s.model, now.sent)))
            && |now.got| <= |now.sent| <= |now.got| + 1
            && forall i | 0 <= i < |now.got| :: now.got[i] == Answer(v, s.model, now.sent[..i + 1])
  {
    RunKeepsInv(v, s, acts);
  }

  /** A master that polls for the low level and finds the worker already set up again has missed
      the pulse: from there it can only time out. */
  ghost predicate MissedPulse<S, F, R>(s: Link<S, F, R>) {
    s.ready && ((s.master.RequestLow? && s.worker.Responding?) || (s.master.ReplyLow? && s.worker.Receiving?))
  }

  lemma {:induction false} MissedPulseOnlyTimesOut<S, F, R>(v: Service<S, F, R>, s: Link<S, F, R>, acts: seq<Action<F>>)
    requires MissedPulse(s) && OneRun(v, acts)
    ensures var now := Run(v, s, acts);
            now == s || now == s.(master := TimedOut)
  {
    if acts != [] {
      MissedPulseOnlyTimesOut(v, s, acts[..|acts| - 1]);
    }
  }

  /** Whether some interleaving of a run makes a transfer meet a worker not set up for it. */
  ghost predicate CanMismatch<S(!new), F(!new), R(!new)>(v: Service<S, F, R>, s: Link<S, F, R>) {
    exists acts :: OneRun(v, acts) && Run(v, s, acts).mismatch
  }

  ghost predicate LineFollowsWorker<S, F, R>(s: Link<S, F, R>) {
    && (s.ready <==> s.worker.Receiving? || s.worker.Received? || s.worker.Responding? || s.worker.Responded?)
    && (s.worker.Received? || s.worker.Computing? ==> s.rx.Some?)
    && (s.worker.Responding? ==> s.tx.Some?)
  }

  lemma {:induction false} RunCons<S, F, R>(v: Service<S, F, R>, s: Link<S, F, R>, a: Action<F>, rest: seq<Action<F>>)
    ensures Run(v, s, [a] + rest) == Run(v, if Step(v, s, a).Some? then Step(v, s, a).value else s, rest)
  {
    var acts := [a] + rest;
    if rest == [] {
      assert acts[..0] == [];
    } else {
      var last := |rest| - 1;
      RunCons(v, s, a, rest[..last]);
      assert acts[..|acts| - 1] == [a] + rest[..last];
    }
  }

  lemma MismatchComes<S(!new), F(!new), R(!new)>(v: Service<S, F, R>, s: Link<S, F, R>, a: Action<F>)
    requires !a.Restart? && (a.Request? ==> v.accepts(a.frame)) && Step(v, s, a).Some?
    requires CanMismatch(v, Step(v, s, a).value)
    ensures CanMismatch(v, s)
  {
    var rest :| OneRun(v, rest) && Run(v, Step(v, s, a).value, rest).mismatch;
    RunCons(v, s, a, rest);
    var acts := [a] + rest;
    assert OneRun(v, acts) && Run(v, s, acts).mismatch;
  }

  lemma MismatchAtOnce<S(!new), F(!new), R(!new)>(v: Service<S, F, R>, s: Link<S, F, R>, frame: F)
    requires s.master.RequestHigh? && s.ready && !s.worker.Receiving? && v.accepts(frame)
    ensures CanMismatch(v, s)
  {
    var seen := Step(v, s, SeeLevel).value;
    var hit := Step(v, seen, Request(frame)).value;
    var none: seq<Action<F>> := [];
    assert OneRun(v, none) && Run(v, hit, none).mismatch;
    MismatchComes(v, seen, Request(frame));
    MismatchComes(v, s, SeeLevel);
  }

  /** A run is safe exactly when it finds the worker listening. */
  lemma SafeIffListening<S(!new), F(!new), R(!new)>(v: Service<S, F, R>, s: Link<S, F, R>, frame: F)
    requires Start(s) && LineFollowsWorker(s) && v.accepts(frame)
    ensures CanMismatch(v, s) <==> !Listening(s)
  {
    if Listening(s) {
      if acts :| OneRun(v, acts) && Run(v, s, acts).mismatch {
        RunKeepsInv(v, s, acts);
      }
    } else if s.ready {
      MismatchAtOnce(v, s, frame);
    } else if s.worker.ToRespond? {
      ArmedMismatch(v, s, frame);
    } else {
      ArmedMismatch(v, Step(v, s, Compute).value, frame);
      MismatchComes(v, s, Compute);
    }
  }

  lemma ArmedMismatch<S(!new), F(!new), R(!new)>(v: Service<S, F, R>, s: Link<S, F, R>, frame: F)
    requires s.master.RequestHigh? && s.worker.ToRespond? && v.accepts(frame)
    ensures CanMismatch(v, s)
  {
    MismatchAtOnce(v, Step(v, s, ArmReply).value, frame);
    MismatchComes(v, s, ArmReply);
  }

  lemma OneMore<S, F, R>(v: Service<S, F, R>, s: Link<S, F, R>, acts: seq<Action<F>>, a: Action<F>)
    ensures var before := Run(v, s, acts);
            Run(v, s, acts + [a]) == if Step(v, before, a).Some? then Step(v, before, a).value else before
  {
    assert (acts + [a])[..|acts|] == acts;
  }

  /** A run in which the worker serves the first request before the master looks at the line again. */
  function HastyWorker<F>(frame: F): seq<Action<F>> {
    [Arm] + [SeeLevel] + [Request(frame)] + [Lower] + [Compute] + [ArmReply]
  }

  lemma PulseIsMissed<S, F, R>(v: Service<S, F, R>, s: Link<S, F, R>, frame: F)
    requires Start(s) && s.worker.ToReceive? && !s.ready && v.accepts(frame)
    ensures OneRun(v, HastyWorker(frame))
    ensures var now := Run(v, s, HastyWorker(frame));
            && MissedPulse(now) && LineFollowsWorker(now)
            && now.master.RequestLow? && now.worker.Responding? && !now.mismatch
  {
    var heard := [Arm] + [SeeLevel] + [Request(frame)];
    RequestIsHeard(v, s, frame);
    OneMore(v, s, heard, Lower);
    OneMore(v, s, heard + [Lower], Compute);
    OneMore(v, s, heard + [Lower] + [Compute], ArmReply);
  }

  lemma RequestIsHeard<S, F, R>(v: Service<S, F, R>, s: Link<S, F, R>, frame: F)
    requires Start(s) && s.worker.ToReceive? && !s.ready
    ensures Run(v, s, [Arm] + [SeeLevel] + [Request(frame)])
         == s.(master := RequestLow, worker := Received, ready := true, rx := Some(frame), sent := [frame])
  {
    var none: seq<Action<F>> := [];
    assert none + [Arm] == [Arm];
    OneMore(v, s, none, Arm);
    OneMore(v, s, [Arm], SeeLevel);
    OneMore(v, s, [Arm] + [SeeLevel], Request(frame));
  }

  /** A missed pulse can come up in any run that starts with a listening worker, and it can only end
      in a time-out; the next run then starts with a worker that is about to respond and is not safe. */
  lemma TimedOutRunIsUnsafe<S(!new), F(!new), R(!new)>(v: Service<S, F, R>, s: Link<S, F, R>, frame: F)
    requires Start(s) && s.worker.ToReceive? && !s.ready && v.accepts(frame)
    ensures MissedPulse(Run(v, s, HastyWorker(frame)))
    ensures var next := Run(v, s, HastyWorker(frame) + [GiveUp] + [Restart]);
            Start(next) && LineFollowsWorker(next) && !Listening(next) && CanMismatch(v, next)
  {
    PulseIsMissed(v, s, frame);
    OneMore(v, s, HastyWorker(frame), GiveUp);
    OneMore(v, s, HastyWorker(frame) + [GiveUp], Restart);
    SafeIffListening(v, Run(v, s, HastyWorker(frame) + [GiveUp] + [Restart]), frame);
  }
}
