/** The packet controller: its state, what every command does to it, and what all runs keep. */
module Kernel {
  import opened Options
  import opened Packets
  import opened PacketText
  import opened PacketLines

  const OUTPUTS := 8
  const WEIGHTS := 72

  datatype Saved = Saved(bank: Bank, nextGen: nat)

  /** `flash` is the saved blob: absent, or one whole bank. */
  datatype State = State(
    bank: Bank,
    nextGen: nat,
    recvCount: nat,
    weights: seq<real>,
    ready: bool,
    flash: Option<Saved>)

  function NoWeights(): (w: seq<real>)
    ensures |w| == WEIGHTS
  {
    seq(WEIGHTS, _ => 0.0)
  }

  function EmptyBank(): Bank {
    seq(PKT_MAX, _ => BLANK)
  }

  // ---------------------------------------------------------------- the commands

  function Store(s: State, r: Request): State {
    if Storable(s.bank, r) then
      s.(bank := Put(s.bank, r, s.nextGen),
         nextGen := (s.nextGen + 1) % 0x1_0000,
         recvCount := (s.recvCount + 1) % 0x1_0000_0000)
    else s
  }

  const SEED_KERNEL := Request("ctrl:kernel", ZERO_COORD, ROLE_BOOT, "", "open", "ssos.packet.v1")
  const SEED_USB := Request("ctrl:usb", [1, 0, 0, 0, 0, 0, 0, 0, 0], ROLE_RUNTIME, "", "open", "port:usb")

  function Seed(s: State): State {
    Store(Store(s.(bank := EmptyBank(), nextGen := 1), SEED_KERNEL), SEED_USB)
  }

  const MODEL_PREFIX := "model:w:"

  predicate IsModelId(id: string) {
    MODEL_PREFIX <= id
  }

  function RowId(r: nat): (id: string)
    requires r < OUTPUTS
    ensures IsModelId(id) && |id| == 9
  {
    MODEL_PREFIX + ['0' + r as char]
  }

  function RowOf(b: Bank, r: nat): (row: Option<seq<real>>)
    requires r < OUTPUTS
    ensures row.Some? ==> |row.value| == ROW
  {
    var slot := Find(b, ById(RowId(r)));
    if slot == -1 then None else Row(b[slot].body)
  }

  /** The first `r` rows one after another, when all of them are there. */
  function Gathered(rows: nat -> Option<seq<real>>, r: nat): Option<seq<real>> {
    if r == 0 then Some([])
    else
      var w, row := Gathered(rows, r - 1), rows(r - 1);
      if w.None? || row.None? then None else Some(w.value + row.value)
  }

  lemma {:induction false} GatheredLength(rows: nat -> Option<seq<real>>, r: nat)
    requires forall k: nat | k < r && rows(k).Some? :: |rows(k).value| == ROW
    ensures Gathered(rows, r).Some? ==> |Gathered(rows, r).value| == ROW * r
  {
    if r != 0 {
      GatheredLength(rows, r - 1);
    }
  }

  lemma {:induction false} SameGathered(rows: nat -> Option<seq<real>>, other: nat -> Option<seq<real>>, r: nat)
    requires forall k: nat | k < r :: rows(k) == other(k)
    ensures Gathered(rows, r) == Gathered(other, r)
  {
    if r != 0 {
      SameGathered(rows, other, r - 1);
    }
  }

  lemma {:induction false} GatheredMissing(rows: nat -> Option<seq<real>>, k: nat, r: nat)
    requires k < r && rows(k) == None
    ensures Gathered(rows, r) == None
  {
    if k < r - 1 {
      GatheredMissing(rows, k, r - 1);
    }
  }

  function RowsIn(b: Bank): nat -> Option<seq<real>> {
    (k: nat) => if k < OUTPUTS then RowOf(b, k) else None
  }

  /** The weights that the rows in the bank decode to. */
  function RowsTo(b: Bank, r: nat): (w: Option<seq<real>>)
    requires r <= OUTPUTS
    ensures w.Some? ==> |w.value| == ROW * r
  {
    GatheredLength(RowsIn(b), r);
    Gathered(RowsIn(b), r)
  }

  function ClearModel(s: State): State {
    s.(weights := NoWeights(), ready := false)
  }

  function LoadModel(s: State): State {
    match RowsTo(s.bank, OUTPUTS)
    case None => ClearModel(s)
    case Some(w) => s.(weights := w, ready := true)
  }

  function WithoutRows(b: Bank, r: nat): Bank
    requires r <= OUTPUTS
  {
    if r == 0 then b else Remove(WithoutRows(b, r - 1), RowId(r - 1))
  }

  /** `ok` is whether the flash answers. */
  function Apply(s: State, c: Command, ok: bool): State {
    match c
    case Pkt(r) =>
      var t := Store(s, r);
      if Storable(s.bank, r) && IsModelId(r.id) then ClearModel(t) else t
    case Del(id) =>
      var t := s.(bank := Remove(s.bank, id));
      if Find(s.bank, ById(id)) != -1 && IsModelId(id) then ClearModel(t) else t
    case Clear => ClearModel(Seed(s))
    case MLoad => LoadModel(s)
    case MClear => ClearModel(s.(bank := WithoutRows(s.bank, OUTPUTS)))
    case Save => if ok then s.(flash := Some(Saved(s.bank, s.nextGen))) else s
    case Load =>
      if ok && s.flash.Some? then LoadModel(s.(bank := s.flash.value.bank, nextGen := s.flash.value.nextGen)) else s
    case Nothing => s
  }

  /** Static memory after a reset: only the flash survives. */
  function Zeroed(flash: Option<Saved>): State {
    State(EmptyBank(), 1, 0, NoWeights(), false, flash)
  }

  function Boot(flash: Option<Saved>, ok: bool): State {
    var s := Zeroed(flash);
    LoadModel(if ok && flash.Some? then s.(bank := flash.value.bank, nextGen := flash.value.nextGen) else Seed(s))
  }

  function Infer(weights: seq<real>, x: seq<real>, r: nat): (y: seq<real>)
    requires |weights| == WEIGHTS && |x| == ROW && r <= OUTPUTS
    ensures |y| == r
  {
    if r == 0 then [] else Infer(weights, x, r - 1) + [Product(weights, ROW * (r - 1), x, ROW)]
  }

  function Product(w: seq<real>, at: nat, x: seq<real>, n: nat): real
    requires at + n <= |w| && n <= |x|
  {
    if n == 0 then 0.0 else Product(w, at, x, n - 1) + w[at + n - 1] * x[n - 1]
  }

  // ---------------------------------------------------------------- runs

  /** A run is any mixture of commands, background saves and resets. */
  datatype Event = Input(command: Command, ok: bool) | Reset(ok: bool)

  function Next(s: State, e: Event): State {
    match e
    case Input(c, ok) => Apply(s, c, ok)
    case Reset(ok) => Boot(s.flash, ok)
  }

  function Run(s: State, events: seq<Event>): State {
    if events == [] then s else Next(Run(s, events[..|events| - 1]), events[|events| - 1])
  }

  // ---------------------------------------------------------------- the bank over all runs

  ghost predicate TidyBank(b: Bank) {
    DistinctIds(b) && forall i | 0 <= i < |b| && b[i].used :: Stored(b[i])
  }

  ghost predicate Tidy(s: State) {
    TidyBank(s.bank) && (s.flash.Some? ==> TidyBank(s.flash.value.bank)) && |s.weights| == WEIGHTS
  }

  /** A request that a clean line can make, with an id that fits its buffer. */
  predicate Fits(c: Command) {
    c.Pkt? ==> CleanRequest(c.request) && |c.request.id| <= ID_CHARS
  }

  lemma StoreKeepsTidy(s: State, r: Request)
    requires Tidy(s) && CleanRequest(r) && |r.id| <= ID_CHARS
    ensures Tidy(Store(s, r))
  {
    if Storable(s.bank, r) {
      PutKeepsDistinct(s.bank, r, s.nextGen);
      RecordIsStored(r, s.nextGen);
    }
  }

  lemma SeedUsbIsClean()
    ensures CleanRequest(SEED_USB) && |SEED_USB.id| <= ID_CHARS
  {
  }

  lemma SeedIsTidy(s: State)
    requires |s.weights| == WEIGHTS && (s.flash.Some? ==> TidyBank(s.flash.value.bank))
    ensures Tidy(Seed(s))
  {
    SeedUsbIsClean();
    TwoStoresAreTidy(s.(bank := EmptyBank(), nextGen := 1), SEED_KERNEL, SEED_USB);
  }

  lemma TwoStoresAreTidy(s: State, q: Request, r: Request)
    requires Tidy(s) && CleanRequest(q) && |q.id| <= ID_CHARS && CleanRequest(r) && |r.id| <= ID_CHARS
    ensures Tidy(Store(Store(s, q), r))
  {
    StoreKeepsTidy(s, q);
    StoreKeepsTidy(Store(s, q), r);
  }

  lemma {:induction false} WithoutRowsIsTidy(b: Bank, r: nat)
    requires TidyBank(b) && r <= OUTPUTS
    ensures TidyBank(WithoutRows(b, r))
  {
    if r != 0 {
      WithoutRowsIsTidy(b, r - 1);
    }
  }

  lemma RemoveKeepsTidy(b: Bank, id: string)
    requires TidyBank(b)
    ensures TidyBank(Remove(b, id))
  {
  }

  lemma LoadKeepsTidy(s: State)
    requires Tidy(s)
    ensures Tidy(LoadModel(s))
  {
  }

  lemma ApplyKeepsTidy(s: State, c: Command, ok: bool)
    requires Tidy(s) && Fits(c)
    ensures Tidy(Apply(s, c, ok))
  {
    match c
    case Pkt(r) => StoreKeepsTidy(s, r);
    case Del(id) => RemoveKeepsTidy(s.bank, id);
    case Clear => SeedIsTidy(s);
    case MLoad => LoadKeepsTidy(s);
    case MClear => WithoutRowsIsTidy(s.bank, OUTPUTS);
    case Load =>
      if ok && s.flash.Some? {
        LoadKeepsTidy(s.(bank := s.flash.value.bank, nextGen := s.flash.value.nextGen));
      }
    case Save =>
    case Nothing =>
  }

  lemma BootIsTidy(flash: Option<Saved>, ok: bool)
    requires flash.Some? ==> TidyBank(flash.value.bank)
    ensures Tidy(Boot(flash, ok))
  {
    var s := Zeroed(flash);
    if ok && flash.Some? {
      LoadKeepsTidy(s.(bank := flash.value.bank, nextGen := flash.value.nextGen));
    } else {
      SeedIsTidy(s);
      LoadKeepsTidy(Seed(s));
    }
  }

  lemma NextKeepsTidy(s: State, e: Event)
    requires Tidy(s) && (e.Input? ==> Fits(e.command))
    ensures Tidy(Next(s, e))
  {
    match e
    case Input(c, ok) => ApplyKeepsTidy(s, c, ok);
    case Reset(ok) => BootIsTidy(s.flash, ok);
  }

  /** With ids that fit, every reachable bank has pairwise distinct ids and well-formed records. */
  lemma {:induction false} RunKeepsTidy(s: State, events: seq<Event>)
    requires Tidy(s)
    requires forall i | 0 <= i < |events| && events[i].Input? :: Fits(events[i].command)
    ensures Tidy(Run(s, events))
  {
    if events != [] {
      var n := |events| - 1;
      RunKeepsTidy(s, events[..n]);
      NextKeepsTidy(Run(s, events[..n]), events[n]);
    }
  }

  // ---------------------------------------------------------------- the model cache over all runs

  /** A cache that is ready holds exactly the weights of the rows now in the bank. */
  ghost predicate Coherent(s: State) {
    s.ready ==> RowsTo(s.bank, OUTPUTS) == Some(s.weights)
  }

  /** A packet that is no model row pushes a model row out by its coordinate. The firmware does not
      clear the cache then. */
  predicate Displaces(b: Bank, r: Request) {
    && Storable(b, r) && !IsModelId(r.id)
    && b[SlotFor(b, r.id, r.d)].used && exists k: nat | k < OUTPUTS :: b[SlotFor(b, r.id, r.d)].id == RowId(k)
  }

  lemma PutKeepsRows(b: Bank, r: Request, gen: nat)
    requires Storable(b, r) && !IsModelId(r.id) && !Displaces(b, r)
    ensures RowsTo(Put(b, r, gen), OUTPUTS) == RowsTo(b, OUTPUTS)
  {
    var slot := SlotFor(b, r.id, r.d);
    forall k: nat | k < OUTPUTS ensures RowOf(Put(b, r, gen), k) == RowOf(b, k) {
      FindIgnores(b, slot, Record(r, gen), ById(RowId(k)));
    }
    SameGathered(RowsIn(Put(b, r, gen)), RowsIn(b), OUTPUTS);
  }

  lemma PutLosesRow(b: Bank, r: Request, gen: nat)
    requires DistinctIds(b) && Displaces(b, r)
    ensures RowsTo(Put(b, r, gen), OUTPUTS) == None
  {
    var c, slot := Put(b, r, gen), SlotFor(b, r.id, r.d);
    var k: nat :| k < OUTPUTS && b[slot].id == RowId(k);
    forall j | 0 <= j < |c| ensures !Matches(ById(RowId(k)), c[j]) {
      assert j < slot || j == slot || slot < j;
    }
    GatheredMissing(RowsIn(c), k, OUTPUTS);
  }

  lemma RemoveKeepsRows(b: Bank, id: string)
    requires !IsModelId(id)
    ensures RowsTo(Remove(b, id), OUTPUTS) == RowsTo(b, OUTPUTS)
  {
    var slot := Find(b, ById(id));
    if slot != -1 {
      forall k: nat | k < OUTPUTS ensures RowOf(Remove(b, id), k) == RowOf(b, k) {
        FindIgnores(b, slot, b[slot].(used := false), ById(RowId(k)));
      }
      SameGathered(RowsIn(Remove(b, id)), RowsIn(b), OUTPUTS);
    }
  }

  /** A command on a ready, coherent cache leaves it coherent exactly unless it is such a PKT. */
  lemma ApplyCoherent(s: State, c: Command, ok: bool)
    requires DistinctIds(s.bank) && Coherent(s)
    ensures s.ready ==> (Coherent(Apply(s, c, ok)) <==> !(c.Pkt? && Displaces(s.bank, c.request)))
    ensures !s.ready ==> Coherent(Apply(s, c, ok))
  {
    match c
    case Pkt(r) =>
      if Storable(s.bank, r) && !IsModelId(r.id) {
        if Displaces(s.bank, r) {
          PutLosesRow(s.bank, r, s.nextGen);
        } else {
          PutKeepsRows(s.bank, r, s.nextGen);
        }
      }
    case Del(id) =>
      if !IsModelId(id) {
        RemoveKeepsRows(s.bank, id);
      }
    case _ =>
  }

  /** No PKT of the run displaces a model row by coordinate. */
  ghost predicate Undisplaced(s: State, events: seq<Event>) {
    forall n | 0 <= n < |events| && events[n].Input? && events[n].command.Pkt? ::
      !Displaces(Run(s, events[..n]).bank, events[n].command.request)
  }

  lemma NextKeepsCoherent(s: State, e: Event)
    requires Tidy(s) && Coherent(s)
    requires e.Input? && e.command.Pkt? ==> !Displaces(s.bank, e.command.request)
    ensures Coherent(Next(s, e))
  {
    if e.Input? {
      ApplyCoherent(s, e.command, e.ok);
    }
  }

  /** As long as no such PKT comes, the cache agrees with the bank in every reachable state. */
  lemma {:induction false} RunKeepsCoherent(s: State, events: seq<Event>)
    requires Tidy(s) && Coherent(s) && Undisplaced(s, events)
    requires forall i | 0 <= i < |events| && events[i].Input? :: Fits(events[i].command)
    ensures Coherent(Run(s, events))
  {
    if events != [] {
      var n := |events| - 1;
      var before := events[..n];
      assert forall i | 0 <= i < n :: before[..i] == events[..i];
      RunKeepsCoherent(s, before);
      RunKeepsTidy(s, before);
      NextKeepsCoherent(Run(s, before), events[n]);
    }
  }

  lemma SeedKeepsFlash(s: State)
    ensures Seed(s).flash == s.flash
  {
    var t := s.(bank := EmptyBank(), nextGen := 1);
    assert Store(t, SEED_KERNEL).flash == s.flash;
  }

  /** A save that the flash takes. */
  predicate Saves(e: Event) {
    e.Input? && e.command.Save? && e.ok
  }

  lemma ApplyKeepsFlash(s: State, c: Command, ok: bool)
    requires !(c.Save? && ok)
    ensures Apply(s, c, ok).flash == s.flash
  {
    if c.Clear? {
      SeedKeepsFlash(s);
    }
  }

  lemma BootKeepsFlash(flash: Option<Saved>, ok: bool)
    ensures Boot(flash, ok).flash == flash
  {
    SeedKeepsFlash(Zeroed(flash));
  }

  lemma NextKeepsFlash(s: State, e: Event)
    requires !Saves(e)
    ensures Next(s, e).flash == s.flash
  {
    match e
    case Input(c, ok) => ApplyKeepsFlash(s, c, ok);
    case Reset(ok) => BootKeepsFlash(s.flash, ok);
  }

  lemma {:induction false} RunKeepsFlash(s: State, events: seq<Event>)
    requires forall i | 0 <= i < |events| :: !Saves(events[i])
    ensures Run(s, events).flash == s.flash
  {
    if events != [] {
      var n := |events| - 1;
      RunKeepsFlash(s, events[..n]);
      NextKeepsFlash(Run(s, events[..n]), events[n]);
    }
  }

  lemma SaveStores(s: State, e: Event)
    requires Saves(e)
    ensures Next(s, e).flash == Some(Saved(s.bank, s.nextGen))
  {
  }

  /** The flash holds the bank as it was at the last save that succeeded, the loop's own saves included. */
  lemma {:induction false} FlashIsLastSave(s: State, events: seq<Event>, n: nat)
    requires n < |events| && Saves(events[n]) && forall i | n < i < |events| :: !Saves(events[i])
    ensures var saved := Run(s, events[..n]);
            Run(s, events).flash == Some(Saved(saved.bank, saved.nextGen))
    decreases |events|
  {
    var last := |events| - 1;
    var before := events[..last];
    RunEnds(s, events);
    if n == last {
      SaveStores(Run(s, before), events[n]);
    } else {
      FlashIsLastSave(s, before, n);
      assert before[..n] == events[..n];
      NextKeepsFlash(Run(s, before), events[last]);
    }
  }

  lemma RunEnds(s: State, events: seq<Event>)
    requires events != []
    ensures Run(s, events) == Next(Run(s, events[..|events| - 1]), events[|events| - 1])
  {
  }

  lemma BootRestores(s: State)
    requires s.ready && Coherent(s)
    ensures var after := Boot(Some(Saved(s.bank, s.nextGen)), true);
            after.bank == s.bank && after.ready && after.weights == s.weights
  {
  }

  /** Whatever happens after the last save that succeeded, a reset brings back the model of that moment,
      rows and weights: every MINFER then answers as it did. */
  lemma SavedModelSurvives(s: State, events: seq<Event>, n: nat, x: seq<real>)
    requires n < |events| && Saves(events[n]) && forall i | n < i < |events| :: !Saves(events[i])
    requires |x| == ROW && |Run(s, events[..n]).weights| == WEIGHTS
    requires Run(s, events[..n]).ready && Coherent(Run(s, events[..n]))
    ensures var saved, after := Run(s, events[..n]), Next(Run(s, events), Reset(true));
            && after.bank == saved.bank && after.ready && after.weights == saved.weights
            && Infer(after.weights, x, OUTPUTS) == Infer(saved.weights, x, OUTPUTS)
  {
    FlashIsLastSave(s, events, n);
    ModelComesBack(Run(s, events), Run(s, events[..n]), x);
  }

  lemma ModelComesBack(s: State, saved: State, x: seq<real>)
    requires saved.ready && Coherent(saved) && |saved.weights| == WEIGHTS && |x| == ROW
    requires s.flash == Some(Saved(saved.bank, saved.nextGen))
    ensures var after := Next(s, Reset(true));
            && after.bank == saved.bank && after.ready && after.weights == saved.weights
            && Infer(after.weights, x, OUTPUTS) == Infer(saved.weights, x, OUTPUTS)
  {
    BootRestores(saved);
  }
}
