/** Runs of the packet controller in which a promise fails, step by step. */
module Counterexamples {
  import opened Options
  import opened Packets
  import opened PacketText
  import opened PacketLines
  import opened Kernel
  import opened Tape

  /** Nine times zero. */
  function ZeroRow(): string {
    Listed(Zeros(ROW))
  }

  function At(x: int): Coord {
    [x, 0, 0, 0, 0, 0, 0, 0, 0]
  }

  /** Row `k` of a model of zeros, at a coordinate of its own. */
  function RowPacket(k: nat): Packet
    requires k < OUTPUTS
  {
    Packet(true, 1, At(k), 0, RowId(k), "h", "open", ZeroRow())
  }

  function RowPackets(n: nat): (ps: seq<Packet>)
    requires n <= OUTPUTS
    ensures |ps| == n && forall k | 0 <= k < n :: ps[k] == RowPacket(k)
  {
    if n == 0 then [] else RowPackets(n - 1) + [RowPacket(n - 1)]
  }

  lemma RowIsStored(k: nat)
    requires k < OUTPUTS
    ensures Stored(RowPacket(k))
  {
    ListedLength(Zeros(ROW));
    ListedIsUnbroken(Zeros(ROW));
  }

  lemma RowsDiffer(j: nat, k: nat)
    requires j < k < OUTPUTS
    ensures RowId(j) != RowId(k) && At(j) != At(k)
  {
    assert RowId(j)[8] == '0' + j as char && RowId(k)[8] == '0' + k as char;
    assert At(j)[0] == j && At(k)[0] == k;
  }

  lemma ZeroRowReads()
    ensures Row(ZeroRow()).Some?
  {
    RowRoundTrip(Zeros(ROW));
  }

  /** The PKT commands that send the first `n` rows. */
  function SendRows(n: nat): (events: seq<Event>)
    requires n <= OUTPUTS
    ensures |events| == n
  {
    if n == 0 then [] else SendRows(n - 1) + [Input(Pkt(RequestOf(RowPacket(n - 1))), true)]
  }

  lemma {:induction false} RowsArrive(s: State, n: nat)
    requires n <= OUTPUTS && forall i | 0 <= i < PKT_MAX :: !s.bank[i].used
    ensures Loaded(Run(s, SendRows(n)).bank, RowPackets(n))
  {
    if n != 0 {
      var before := Run(s, SendRows(n - 1));
      RowsArrive(s, n - 1);
      RowIsStored(n - 1);
      var ps := RowPackets(n - 1);
      forall k | 0 <= k < n - 1 ensures ps[k].id != RowId(n - 1) && ps[k].d != At(n - 1) {
        RowsDiffer(k, n - 1);
      }
      LoadOne(before.bank, ps, RowPacket(n - 1), before.nextGen);
      assert SendRows(n)[..n - 1] == SendRows(n - 1);
    }
  }

  lemma RowIsThere(b: Bank, k: nat)
    requires Loaded(b, RowPackets(OUTPUTS)) && k < OUTPUTS
    ensures Find(b, ById(RowId(k))) == k && RowOf(b, k).Some?
  {
    var ps := RowPackets(OUTPUTS);
    forall j | 0 <= j <= k ensures b[j].id == RowId(j) && b[j].body == ZeroRow() && b[j].used {
      assert RequestOf(b[j]) == RequestOf(ps[j]);
    }
    forall j | 0 <= j < k ensures !Matches(ById(RowId(k)), b[j]) {
      RowsDiffer(j, k);
    }
    FindIs(b, ById(RowId(k)), k);
    ZeroRowReads();
  }

  lemma {:induction false} AllGathered(rows: nat -> Option<seq<real>>, r: nat)
    requires forall k: nat | k < r :: rows(k).Some?
    ensures Gathered(rows, r).Some?
  {
    if r != 0 {
      AllGathered(rows, r - 1);
    }
  }

  lemma ModelLoads(b: Bank)
    requires Loaded(b, RowPackets(OUTPUTS))
    ensures RowsTo(b, OUTPUTS).Some?
  {
    forall k: nat | k < OUTPUTS ensures RowsIn(b)(k).Some? {
      RowIsThere(b, k);
    }
    AllGathered(RowsIn(b), OUTPUTS);
  }

  /** A note at the coordinate of row 0. */
  const INTRUDER := Request("x", [0, 0, 0, 0, 0, 0, 0, 0, 0], 1, "h", "open", "")

  lemma IntruderDisplaces(b: Bank)
    requires Loaded(b, RowPackets(OUTPUTS))
    ensures Displaces(b, INTRUDER)
  {
    var ps := RowPackets(OUTPUTS);
    forall j | 0 <= j < PKT_MAX ensures !Matches(ById("x"), b[j]) {
      if j < OUTPUTS {
        assert RequestOf(b[j]) == RequestOf(ps[j]) && |b[j].id| == 9;
      }
    }
    assert RequestOf(b[0]) == RequestOf(ps[0]);
    FindIs(b, ByCoord(INTRUDER.d), 0);
    assert b[0].id == RowId(0);
  }

  /** Eight rows, MLOAD, and one more packet. */
  function StaleRun(): seq<Event> {
    SendRows(OUTPUTS) + [Input(MLoad, true)] + [Input(Pkt(INTRUDER), true)]
  }

  lemma RunOn(s: State, events: seq<Event>, e: Event)
    ensures Run(s, events + [e]) == Next(Run(s, events), e)
  {
    assert (events + [e])[..|events|] == events;
  }

  /** The documentation says that changing a model packet invalidates the model cache. After this run the
      cache is ready and agrees with no bank: row 0 was pushed out by its coordinate. */
  lemma CacheGoesStale(s: State)
    requires forall i | 0 <= i < PKT_MAX :: !s.bank[i].used
    ensures var t := Run(s, StaleRun());
            t.ready && !Coherent(t) && RowsTo(t.bank, OUTPUTS) == None
  {
    RowsArrive(s, OUTPUTS);
    RunOn(s, SendRows(OUTPUTS), Input(MLoad, true));
    RunOn(s, SendRows(OUTPUTS) + [Input(MLoad, true)], Input(Pkt(INTRUDER), true));
    StaleFrom(Run(s, SendRows(OUTPUTS)));
  }

  lemma StaleFrom(s: State)
    requires Loaded(s.bank, RowPackets(OUTPUTS))
    ensures var t := Next(Next(s, Input(MLoad, true)), Input(Pkt(INTRUDER), true));
            t.ready && !Coherent(t) && RowsTo(t.bank, OUTPUTS) == None
  {
    var loaded := Next(s, Input(MLoad, true));
    ModelLoads(s.bank);
    MLoadReadies(s);
    IntruderDisplaces(loaded.bank);
    LoadedDistinct(loaded.bank, RowPackets(OUTPUTS));
    GoesStale(loaded);
  }

  lemma MLoadReadies(s: State)
    requires RowsTo(s.bank, OUTPUTS).Some?
    ensures var t := Next(s, Input(MLoad, true));
            t.ready && t.bank == s.bank
  {
  }

  lemma GoesStale(s: State)
    requires s.ready && DistinctIds(s.bank) && Displaces(s.bank, INTRUDER)
    ensures var t := Next(s, Input(Pkt(INTRUDER), true));
            t.ready && !Coherent(t) && RowsTo(t.bank, OUTPUTS) == None
  {
    PutLosesRow(s.bank, INTRUDER, s.nextGen);
  }

  lemma LoadedDistinct(b: Bank, ps: seq<Packet>)
    requires Loaded(b, ps) && ps == RowPackets(OUTPUTS)
    ensures DistinctIds(b)
  {
    forall i, j | 0 <= i < j < PKT_MAX && b[i].used && b[j].used ensures b[i].id != b[j].id {
      assert RequestOf(b[i]) == RequestOf(ps[i]) && RequestOf(b[j]) == RequestOf(ps[j]);
      RowsDiffer(i, j);
    }
  }

  // ---------------------------------------------------------------- two packets at one coordinate

  function Note(id: string, x: int): Packet {
    Packet(true, 1, At(x), 0, id, "h", "open", "")
  }

  lemma MovesOnto(b: Bank, ps: seq<Packet>, r: Request)
    requires |ps| == 2 && Loaded(b, ps) && 0 < r.role < ROLE_COUNT
    requires ps[0].id == r.id && ps[1].id != r.id && ps[0].d != r.d && ps[1].d == r.d
    ensures DistinctCoords(b) && !DistinctCoords(Put(b, r, 1))
  {
    assert RequestOf(b[0]) == RequestOf(ps[0]) && RequestOf(b[1]) == RequestOf(ps[1]);
    FindIs(b, ById(r.id), 0);
    FindIs(b, ByCoord(r.d), 1);
    PutKeepsCoords(b, r, 1);
  }

  lemma TwoLoad(b: Bank, p: Packet, q: Packet)
    requires forall i | 0 <= i < PKT_MAX :: !b[i].used
    requires p.used && q.used && Stored(p) && Stored(q) && p.id != q.id && p.d != q.d
    ensures Loaded(Put(Put(b, RequestOf(p), 1), RequestOf(q), 1), [p, q])
  {
    LoadOne(b, [], p, 1);
    assert [] + [p] == [p] && [p] + [q] == [p, q];
    LoadOne(Put(b, RequestOf(p), 1), [p], q, 1);
  }

  lemma NoteIsStored(id: string, x: int)
    requires id == "a" || id == "b"
    requires 0 <= x <= 1
    ensures Stored(Note(id, x)) && At(x)[0] == x
  {
  }

  /** Packets "a" and "b" lie apart until "a" is sent again with the coordinate of "b". */
  lemma UpdateMovesOnto(b: Bank)
    requires forall i | 0 <= i < PKT_MAX :: !b[i].used
    ensures var two := Put(Put(b, RequestOf(Note("a", 0)), 1), RequestOf(Note("b", 1)), 1);
            DistinctCoords(two) && !DistinctCoords(Put(two, RequestOf(Note("a", 1)), 1))
  {
    var p, q := Note("a", 0), Note("b", 1);
    NoteIsStored("a", 0);
    NoteIsStored("b", 1);
    TwoLoad(b, p, q);
    MovesOnto(Put(Put(b, RequestOf(p), 1), RequestOf(q), 1), [p, q], RequestOf(Note("a", 1)));
  }
}
