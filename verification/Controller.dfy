/** The firmware itself: the static bank and model cache, changed in place by every handler. */
module Controller {
  import opened Options
  import opened Packets
  import opened PacketText
  import opened PacketLines
  import opened Kernel
  import opened SerialLine
  import opened Device
  import opened Tape

  class Controller {
    const bank: array<Packet>
    const weights: array<real>
    var nextGen: nat
    var recvCount: nat
    var ready: bool
    var flash: Option<Saved>
    var lineBuf: string

    ghost predicate Valid() {
      bank.Length == PKT_MAX && weights.Length == WEIGHTS && (bank as object) != weights
    }

    ghost function View(): State
      requires Valid()
      reads this, bank, weights
    {
      State(bank[..], nextGen, recvCount, weights[..], ready, flash)
    }

    /** The three slot searches are this loop with different tests. */
    method Search(k: Key) returns (slot: int)
      requires Valid()
      ensures slot == Find(bank[..], k)
    {
      for i := 0 to bank.Length
        invariant forall j | 0 <= j < i :: !Matches(k, bank[j])
      {
        if Matches(k, bank[i]) {
          FindIs(bank[..], k, i);
          return i;
        }
      }
      return -1;
    }

    method PacketCount() returns (n: nat)
      requires Valid()
      ensures n == Count(bank[..])
    {
      n := 0;
      for i := 0 to bank.Length
        invariant n == Count(bank[..i])
      {
        assert bank[..i + 1][..i] == bank[..i];
        if bank[i].used {
          n := n + 1;
        }
      }
      assert bank[..bank.Length] == bank[..];
    }

    method StorePacket(r: Request) returns (ok: bool)
      requires Valid()
      modifies this`nextGen, this`recvCount, bank
      ensures ok == old(Storable(bank[..], r))
      ensures View() == Store(old(View()), r)
    {
      if r.role == 0 || r.role >= ROLE_COUNT {
        return false;
      }
      var slot := Search(ById(r.id));
      if slot < 0 {
        slot := Search(ByCoord(r.d));
      }
      if slot < 0 {
        slot := Search(Free);
      }
      if slot < 0 {
        return false;
      }
      bank[slot] := Record(r, nextGen);
      nextGen := (nextGen + 1) % 0x1_0000;
      recvCount := (recvCount + 1) % 0x1_0000_0000;
      return true;
    }

    method ModelClear()
      requires Valid()
      modifies this`ready, weights
      ensures View() == ClearModel(old(View()))
    {
      for i := 0 to weights.Length
        invariant forall j | 0 <= j < i :: weights[j] == 0.0
      {
        weights[i] := 0.0;
      }
      ready := false;
      assert weights[..] == NoWeights();
    }

    method ModelLoad(w: seq<real>)
      requires Valid() && |w| == WEIGHTS
      modifies this`ready, weights
      ensures View() == old(View()).(weights := w, ready := true)
    {
      for i := 0 to weights.Length
        invariant forall j | 0 <= j < i :: weights[j] == w[j]
      {
        weights[i] := w[i];
      }
      ready := true;
      assert weights[..] == w;
    }

    /** The eight rows in order; None when one is missing or is not nine numbers. */
    method GatherRows() returns (w: Option<seq<real>>)
      requires Valid()
      ensures w == RowsTo(bank[..], OUTPUTS)
    {
      ghost var b := bank[..];
      var rows: seq<real> := [];
      for r := 0 to OUTPUTS
        invariant RowsTo(b, r) == Some(rows)
      {
        var slot := Search(ById(RowId(r)));
        var row := if slot < 0 then None else Row(bank[slot].body);
        assert row == RowOf(b, r);
        if row.None? {
          RowsMiss(b, r);
          return None;
        }
        RowsNext(b, r, rows);
        rows := rows + row.value;
      }
      return Some(rows);
    }

    method LoadModelPackets() returns (ok: bool)
      requires Valid()
      modifies this`ready, weights
      ensures ok == old(RowsTo(bank[..], OUTPUTS).Some?)
      ensures View() == LoadModel(old(View()))
    {
      var w := GatherRows();
      ok := w.Some?;
      if ok {
        ModelLoad(w.value);
      } else {
        ModelClear();
      }
    }

    method ClearModelPackets()
      requires Valid()
      modifies this`ready, bank, weights
      ensures View() == ClearModel(old(View()).(bank := WithoutRows(old(bank[..]), OUTPUTS)))
    {
      for r := 0 to OUTPUTS
        invariant bank[..] == WithoutRows(old(bank[..]), r)
        invariant unchanged(this, weights)
      {
        var slot := Search(ById(RowId(r)));
        if slot >= 0 {
          bank[slot] := bank[slot].(used := false);
        }
      }
      ModelClear();
    }

    method WipeBank()
      requires Valid()
      modifies this`nextGen, bank
      ensures View() == old(View()).(bank := EmptyBank(), nextGen := 1)
    {
      for i := 0 to bank.Length
        invariant forall j | 0 <= j < i :: bank[j] == BLANK
      {
        bank[i] := BLANK;
      }
      assert bank[..] == EmptyBank();
      nextGen := 1;
    }

    method StoreTwo(q: Request, r: Request)
      requires Valid()
      modifies this`nextGen, this`recvCount, bank
      ensures View() == Store(Store(old(View()), q), r)
    {
      var _ := StorePacket(q);
      var _ := StorePacket(r);
    }

    method SeedController()
      requires Valid()
      modifies this`nextGen, this`recvCount, bank
      ensures View() == Seed(old(View()))
    {
      WipeBank();
      StoreTwo(SEED_KERNEL, SEED_USB);
    }

    /** The flash answers or not; `saved` says which. */
    method SaveBank(saved: bool)
      requires Valid()
      modifies this`flash
      ensures View() == Apply(old(View()), Save, saved)
    {
      if saved {
        flash := Some(Saved(bank[..], nextGen));
      }
    }

    method LoadBank(answers: bool) returns (ok: bool)
      requires Valid()
      modifies this`nextGen, bank
      ensures ok == (answers && old(flash).Some?)
      ensures View() == if ok then old(View()).(bank := old(flash).value.bank, nextGen := old(flash).value.nextGen)
                        else old(View())
    {
      if !answers || flash.None? {
        return false;
      }
      var blob := flash.value.bank;
      for i := 0 to bank.Length
        invariant forall j | 0 <= j < i :: bank[j] == blob[j]
      {
        bank[i] := blob[i];
      }
      assert bank[..] == blob;
      nextGen := flash.value.nextGen;
      return true;
    }

    method HandlePkt(r: Request)
      requires Valid()
      modifies this`nextGen, this`recvCount, this`ready, bank, weights
      ensures View() == Apply(old(View()), Pkt(r), true)
    {
      var ok := StorePacket(r);
      if ok && IsModelId(r.id) {
        ModelClear();
      }
    }

    method HandleDel(id: string)
      requires Valid()
      modifies this`ready, bank, weights
      ensures View() == Apply(old(View()), Del(id), true)
    {
      var slot := Search(ById(id));
      if slot < 0 {
        return;
      }
      bank[slot] := bank[slot].(used := false);
      if IsModelId(id) {
        ModelClear();
      }
    }

    method Execute(c: Command, flashOk: bool)
      requires Valid()
      modifies this`nextGen, this`recvCount, this`ready, this`flash, bank, weights
      ensures View() == Apply(old(View()), c, flashOk)
    {
      match c
      case Pkt(r) => HandlePkt(r);
      case Del(id) => HandleDel(id);
      case Clear =>
        SeedController();
        ModelClear();
      case MLoad => var _ := LoadModelPackets();
      case MClear => ClearModelPackets();
      case Save => SaveBank(flashOk);
      case Load =>
        var ok := LoadBank(flashOk);
        if ok {
          var _ := LoadModelPackets();
        }
      case Nothing =>
    }

    method HandleLine(line: string, flashOk: bool)
      requires Valid()
      modifies this`nextGen, this`recvCount, this`ready, this`flash, bank, weights
      ensures View() == Handle(old(View()), line, flashOk)
    {
      Execute(ParseLine(CString(line)), flashOk);
    }

    /** One pass of the main loop: a save when one is due, then the characters that have come in. */
    method Loop(pass: Pass)
      requires Valid()
      modifies this`nextGen, this`recvCount, this`ready, this`flash, this`lineBuf, bank, weights
      ensures Console(View(), lineBuf) == LoopOnce(old(Console(View(), lineBuf)), pass)
    {
      if pass.due {
        SaveBank(pass.ok);
      }
      ReceiveAll(pass.input, pass.ok);
    }

    method ReceiveAll(input: string, flashOk: bool)
      requires Valid()
      modifies this`nextGen, this`recvCount, this`ready, this`flash, this`lineBuf, bank, weights
      ensures Console(View(), lineBuf) == Receive(Handler(flashOk), old(Console(View(), lineBuf)), input)
    {
      ghost var start := Console(View(), lineBuf);
      for i := 0 to |input|
        invariant Console(View(), lineBuf) == Receive(Handler(flashOk), start, input[..i])
      {
        var ch := input[i];
        ghost var before := Console(View(), lineBuf);
        if ch == '\r' {
        } else if ch == '\n' {
          HandleLine(lineBuf, flashOk);
          lineBuf := "";
        } else if |lineBuf| + 1 < CMD_LINE_MAX {
          lineBuf := lineBuf + [ch];
        }
        ReceiveChar(Handler(flashOk), start, input[..i], ch);
        assert input[..i + 1] == input[..i] + [ch];
      }
      assert input[..|input|] == input;
    }

    /** Static memory is zeroed; the flash keeps what it had. */
    constructor (flash: Option<Saved>)
      ensures Valid() && fresh(bank) && fresh(weights)
      ensures View() == Zeroed(flash) && lineBuf == ""
    {
      bank := new Packet[PKT_MAX](_ => BLANK);
      weights := new real[WEIGHTS](_ => 0.0);
      nextGen, recvCount, ready, lineBuf := 1, 0, false, "";
      this.flash := flash;
      new;
      assert bank[..] == EmptyBank() && weights[..] == NoWeights();
    }

    method Setup(answers: bool)
      requires Valid() && View() == Zeroed(flash)
      modifies this`nextGen, this`recvCount, this`ready, bank, weights
      ensures View() == Boot(flash, answers)
    {
      var ok := LoadBank(answers);
      if !ok {
        SeedController();
      }
      var _ := LoadModelPackets();
    }

    /** Prints the records in use behind what is already printed. */
    method EmitAll(printed: string) returns (tape: string)
      requires Valid()
      ensures tape == printed + Joined(LinesOf(Used(bank[..])))
    {
      tape := printed;
      for i := 0 to bank.Length
        invariant tape == printed + Joined(LinesOf(Used(bank[..i])))
      {
        EmitGrows(printed, bank[..], i);
        if bank[i].used {
          tape := tape + (PktLine(bank[i]) + "\n");
        }
      }
      assert bank[..bank.Length] == bank[..];
    }

    /** The DUMP listing. */
    method Dump() returns (tape: string)
      requires Valid()
      ensures tape == Tape.Dump(bank[..])
    {
      var n := PacketCount();
      var records := EmitAll(Header(n) + "\n");
      tape := records + (FOOTER + "\r\n");
      Nested(Header(n) + "\n", Joined(LinesOf(Used(bank[..]))), FOOTER + "\r\n");
    }

    /** The model head: eight products with the cached rows, or zeros. */
    method ModelInfer(x: seq<real>) returns (y: seq<real>)
      requires Valid() && |x| == ROW
      ensures y == if ready then Infer(weights[..], x, OUTPUTS) else [0.0, 0.0, 0.0, 0.0, 0.0, 0.0, 0.0, 0.0]
    {
      if !ready {
        return [0.0, 0.0, 0.0, 0.0, 0.0, 0.0, 0.0, 0.0];
      }
      y := [];
      for r := 0 to OUTPUTS
        invariant y == Infer(weights[..], x, r)
      {
        var sum := 0.0;
        for i := 0 to ROW
          invariant sum == Product(weights[..], ROW * r, x, i)
        {
          sum := sum + weights[ROW * r + i] * x[i];
        }
        y := y + [sum];
      }
    }

    /** What MINFER prints: the eight answers and the place of the greatest one, the first of equals;
        nothing without a model. */
    method AnswerModel(x: seq<real>) returns (ok: bool, y: seq<real>, best: nat)
      requires Valid() && |x| == ROW
      ensures ok == ready
      ensures ok ==> y == Infer(weights[..], x, OUTPUTS) && best < 8
      ensures ok ==> forall i | 0 <= i < 8 :: y[i] <= y[best] && (i < best ==> y[i] < y[best])
    {
      best := 0;
      if !ready {
        return false, [], best;
      }
      ok := true;
      y := ModelInfer(x);
      for i := 1 to OUTPUTS
        invariant best < i
        invariant forall j | 0 <= j < i :: y[j] <= y[best] && (j < best ==> y[j] < y[best])
      {
        if y[i] > y[best] {
          best := i;
        }
      }
    }
  }

  lemma RowsMiss(b: Bank, r: nat)
    requires r < OUTPUTS && RowOf(b, r) == None
    ensures RowsTo(b, OUTPUTS) == None
  {
    GatheredMissing(RowsIn(b), r, OUTPUTS);
  }

  lemma RowsNext(b: Bank, r: nat, w: seq<real>)
    requires r < OUTPUTS && RowsTo(b, r) == Some(w) && RowOf(b, r).Some?
    ensures RowsTo(b, r + 1) == Some(w + RowOf(b, r).value)
  {
  }

  lemma ReceiveChar<S>(handle: (S, string) -> S, c: Console<S>, input: string, ch: char)
    ensures Receive(handle, c, input + [ch]) == Take(handle, Receive(handle, c, input), ch)
  {
    ReceiveAppend(handle, c, input, [ch]);
    assert [ch][1..] == "";
  }

  lemma Nested(a: string, b: string, c: string)
    ensures (a + b) + c == a + (b + c)
  {
  }

  lemma LinesAppend(ps: seq<Packet>, p: Packet)
    ensures LinesOf(ps + [p]) == LinesOf(ps) + [PktLine(p)]
  {
  }

  lemma EmitGrows(printed: string, b: seq<Packet>, i: nat)
    requires i < |b|
    ensures printed + Joined(LinesOf(Used(b[..i + 1])))
         == if b[i].used then (printed + Joined(LinesOf(Used(b[..i])))) + (PktLine(b[i]) + "\n")
            else printed + Joined(LinesOf(Used(b[..i])))
  {
    var front := Used(b[..i]);
    assert b[..i + 1][..i] == b[..i];
    if b[i].used {
      assert Used(b[..i + 1]) == front + [b[i]];
      LinesAppend(front, b[i]);
      JoinedAppend(printed, LinesOf(front), PktLine(b[i]));
    } else {
      assert Used(b[..i + 1]) == front;
    }
  }

  lemma JoinedAppend(head: string, lines: seq<string>, line: string)
    ensures (head + Joined(lines)) + (line + "\n") == head + Joined(lines + [line])
  {
    assert (lines + [line])[..|lines|] == lines;
  }
}
