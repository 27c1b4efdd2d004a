/** What each command of the packet controller does to its records, its model and its flash, stated on
    the map from ids to records and on literal values. */
module CommandLaws {
  import opened Packets
  import opened PacketLines
  import opened Kernel
  import opened SerialLine
  import opened LineLaws
  import opened Device

  /** The model head answers nothing: it is not ready, and its 72 weights are zero. */
  predicate Silent(s: State) {
    !s.ready && |s.weights| == 72 && forall i | 0 <= i < 72 :: s.weights[i] == 0.0
  }

  predicate SameModel(s: State, t: State) {
    t.ready == s.ready && t.weights == s.weights
  }

  predicate SameCounters(s: State, t: State) {
    t.nextGen == s.nextGen && t.recvCount == s.recvCount
  }

  // ---------------------------------------------------------------- DEL and MCLEAR

  /** DEL takes one record out and leaves every other slot as it was. The model is cleared exactly when
      the record was there under an id of a model row. */
  lemma DelRemoves(s: State, id: string, ok: bool)
    requires DistinctIds(s.bank)
    ensures var t := Apply(s, Del(id), ok);
            && MapOf(t.bank) == MapOf(s.bank) - {id}
            && (forall i | 0 <= i < 32 ::
                  t.bank[i] == s.bank[i] || (s.bank[i].used && s.bank[i].id == id && !t.bank[i].used))
            && SameCounters(s, t) && t.flash == s.flash
            && if id in MapOf(s.bank) && "model:w:" <= id then Silent(t) else SameModel(s, t)
  {
    RemoveRefinesMap(s.bank, id);
    MapHas(s.bank, id);
  }

  ghost const MODEL_ROWS: set<string> :=
    {"model:w:0", "model:w:1", "model:w:2", "model:w:3", "model:w:4", "model:w:5", "model:w:6", "model:w:7"}

  ghost function RowIds(r: nat): set<string>
    requires r <= 8
  {
    if r == 0 then {} else RowIds(r - 1) + {RowId(r - 1)}
  }

  lemma RowIdsAre()
    ensures RowIds(8) == MODEL_ROWS
  {
    assert RowId(0) == "model:w:0" && RowId(1) == "model:w:1" && RowId(2) == "model:w:2" && RowId(3) == "model:w:3";
    assert RowId(4) == "model:w:4" && RowId(5) == "model:w:5" && RowId(6) == "model:w:6" && RowId(7) == "model:w:7";
    assert RowIds(4) == {RowId(0), RowId(1), RowId(2), RowId(3)};
    assert RowIds(8) == RowIds(4) + {RowId(4), RowId(5), RowId(6), RowId(7)};
  }

  lemma RemoveKeepsDistinct(b: Bank, id: string)
    requires DistinctIds(b)
    ensures DistinctIds(Remove(b, id))
  {
  }

  lemma {:induction false} WithoutRowsIs(b: Bank, r: nat)
    requires DistinctIds(b) && r <= 8
    ensures DistinctIds(WithoutRows(b, r)) && MapOf(WithoutRows(b, r)) == MapOf(b) - RowIds(r)
  {
    if r != 0 {
      WithoutRowsIs(b, r - 1);
      RemoveRefinesMap(WithoutRows(b, r - 1), RowId(r - 1));
      RemoveKeepsDistinct(WithoutRows(b, r - 1), RowId(r - 1));
      assert MapOf(b) - RowIds(r - 1) - {RowId(r - 1)} == MapOf(b) - RowIds(r);
    }
  }

  lemma MClearIs(s: State, rows: set<string>, ok: bool)
    requires DistinctIds(s.bank) && rows == RowIds(8)
    ensures var t := Apply(s, MClear, ok);
            MapOf(t.bank) == MapOf(s.bank) - rows && SameCounters(s, t) && t.flash == s.flash && Silent(t)
  {
    WithoutRowsIs(s.bank, 8);
    MClearApplies(s, WithoutRows(s.bank, 8), ok);
  }

  lemma MClearApplies(s: State, b: Bank, ok: bool)
    requires b == WithoutRows(s.bank, 8)
    ensures var t := Apply(s, MClear, ok); t.bank == b && SameCounters(s, t) && t.flash == s.flash && Silent(t)
  {
  }

  /** MCLEAR takes the eight model rows out and clears the model. */
  lemma MClearRemovesRows(s: State, ok: bool)
    requires DistinctIds(s.bank)
    ensures var t := Apply(s, MClear, ok);
            MapOf(t.bank) == MapOf(s.bank) - MODEL_ROWS && SameCounters(s, t) && t.flash == s.flash && Silent(t)
  {
    RowIdsAre();
    MClearIs(s, MODEL_ROWS, ok);
  }

  // ---------------------------------------------------------------- PKT

  /** The lowest slot that holds a record at a coordinate. */
  ghost predicate Holds(b: Bank, d: Coord, i: nat) {
    i < 32 && b[i].used && b[i].d == d && forall j | 0 <= j < i :: !(b[j].used && b[j].d == d)
  }

  ghost predicate Held(b: Bank, d: Coord) {
    exists i: nat :: Holds(b, d, i)
  }

  /** Nothing happens when the role is none of the eight, or when the bank is full and has neither the id
      nor the coordinate. */
  lemma PktRefused(s: State, r: Request, ok: bool)
    requires DistinctIds(s.bank) && |r.id| <= 39
    requires !(1 <= r.role <= 8) || (r.id !in MapOf(s.bank) && !Held(s.bank, r.d) && |MapOf(s.bank)| == 32)
    ensures Apply(s, Pkt(r), ok) == s
  {
    PutRefinesMap(s.bank, r, s.nextGen);
    var at := Find(s.bank, ByCoord(r.d));
    if at != -1 {
      assert Holds(s.bank, r.d, at);
    }
  }

  /** What a stored PKT leaves of everything but the records. */
  ghost predicate Stores(s: State, r: Request, t: State) {
    && t.nextGen == (s.nextGen + 1) % 65536 && t.recvCount == (s.recvCount + 1) % 4294967296 && t.flash == s.flash
    && if "model:w:" <= r.id then Silent(t) else SameModel(s, t)
  }

  /** An update by id, or an insertion. */
  lemma PktUpdates(s: State, r: Request, ok: bool)
    requires DistinctIds(s.bank) && |r.id| <= 39 && 1 <= r.role <= 8
    requires r.id in MapOf(s.bank) || (!Held(s.bank, r.d) && |MapOf(s.bank)| < 32)
    ensures var t := Apply(s, Pkt(r), ok);
            MapOf(t.bank) == MapOf(s.bank)[r.id := Record(r, s.nextGen)] && Stores(s, r, t)
  {
    PutRefinesMap(s.bank, r, s.nextGen);
    var at := Find(s.bank, ByCoord(r.d));
    if at != -1 {
      assert Holds(s.bank, r.d, at);
    }
  }

  /** A new id at a coordinate that is taken replaces the record in the lowest such slot. */
  lemma PktReplaces(s: State, r: Request, i: nat, ok: bool)
    requires DistinctIds(s.bank) && |r.id| <= 39 && 1 <= r.role <= 8
    requires r.id !in MapOf(s.bank) && Holds(s.bank, r.d, i)
    ensures var t := Apply(s, Pkt(r), ok);
            && MapOf(t.bank) == (MapOf(s.bank) - {s.bank[i].id})[r.id := Record(r, s.nextGen)]
            && t.bank == s.bank[i := Record(r, s.nextGen)] && Stores(s, r, t)
  {
    FindIs(s.bank, ByCoord(r.d), i);
    MapHas(s.bank, r.id);
    PutRefinesMap(s.bank, r, s.nextGen);
  }

  // ---------------------------------------------------------------- CLEAR

  lemma StoresAt(s: State, r: Request, slot: nat)
    requires 1 <= r.role <= 8 && slot < 32
    requires forall j | 0 <= j < slot :: s.bank[j].used && s.bank[j].id != r.id && s.bank[j].d != r.d
    requires forall j | slot <= j < 32 :: !s.bank[j].used
    ensures Store(s, r) == s.(bank := s.bank[slot := Record(r, s.nextGen)],
                              nextGen := (s.nextGen + 1) % 65536,
                              recvCount := (s.recvCount + 1) % 4294967296)
  {
    FindIs(s.bank, Free, slot);
  }

  /** Two records in a bank that was wiped. */
  ghost predicate JustTwo(b: Bank, p: Packet, q: Packet) {
    b[0] == p && b[1] == q && forall i | 2 <= i < 32 :: !b[i].used
  }

  lemma SecondStore(s: State, p: Packet, r: Request)
    requires 1 <= r.role <= 8 && s.bank[0] == p && p.used && p.id != r.id && p.d != r.d
    requires forall i | 1 <= i < 32 :: !s.bank[i].used
    ensures var t := Store(s, r);
            && JustTwo(t.bank, p, Record(r, s.nextGen)) && t.nextGen == (s.nextGen + 1) % 65536
            && t.recvCount == (s.recvCount + 1) % 4294967296 && t.flash == s.flash && SameModel(s, t)
  {
    StoresAt(s, r, 1);
  }

  predicate Blank(b: Bank) {
    forall i | 0 <= i < 32 :: !b[i].used
  }

  lemma EmptyIsBlank()
    ensures Blank(EmptyBank())
  {
  }

  lemma FirstStore(s: State, r: Request)
    requires 1 <= r.role <= 8 && Blank(s.bank)
    ensures var t := Store(s, r);
            && t.bank[0] == Record(r, s.nextGen) && (forall i | 1 <= i < 32 :: !t.bank[i].used)
            && t.nextGen == (s.nextGen + 1) % 65536 && t.recvCount == (s.recvCount + 1) % 4294967296
            && t.flash == s.flash && SameModel(s, t)
  {
    StoresAt(s, r, 0);
  }

  lemma ShortId(r: Request, gen: nat)
    requires |r.id| <= 39
    ensures var p := Record(r, gen); p.used && p.id == r.id && p.d == r.d
  {
  }

  /** What storing two packets in a wiped bank leaves. */
  ghost predicate TwoStored(s: State, q: Request, r: Request, t: State) {
    && JustTwo(t.bank, Record(q, 1), Record(r, 2)) && t.nextGen == 3
    && t.recvCount == (s.recvCount + 2) % 4294967296 && t.flash == s.flash && SameModel(s, t)
  }

  lemma CountsOn(n: nat, m: nat, k: nat)
    requires m == (n + 1) % 4294967296 && k == (m + 1) % 4294967296
    ensures k == (n + 2) % 4294967296
  {
  }

  lemma StoresTwo(s: State, q: Request, r: Request, u: State, v: State, t: State)
    requires 1 <= q.role <= 8 && 1 <= r.role <= 8 && |q.id| <= 39 && q.id != r.id && q.d != r.d
    requires Blank(u.bank) && u.nextGen == 1 && v == Store(u, q) && t == Store(v, r)
    requires u.recvCount == s.recvCount && u.flash == s.flash && SameModel(s, u)
    ensures TwoStored(s, q, r, t)
  {
    var p := Record(q, 1);
    FirstStore(u, q);
    ShortId(q, 1);
    SecondStore(v, p, r);
    CountsOn(s.recvCount, v.recvCount, t.recvCount);
  }

  ghost predicate SeedRecord(p: Packet, role: nat, x: int, gen: nat, id: string, hash: string, body: string) {
    && p.used && p.role == role && p.d == [x, 0, 0, 0, 0, 0, 0, 0, 0] && p.gen == gen
    && p.id == id && p.hash == hash && p.perm == "open" && p.body == body
  }

  /** The two records of a fresh controller, with the hashes `g` and `h`. */
  ghost predicate Seeded(b: Bank, g: string, h: string) {
    && SeedRecord(b[0], 5, 0, 1, "ctrl:kernel", g, "ssos.packet.v1")
    && SeedRecord(b[1], 4, 1, 2, "ctrl:usb", h, "port:usb")
    && forall i | 2 <= i < 32 :: !b[i].used
  }

  lemma SeedsAre(b: Bank, q: Request, r: Request)
    requires JustTwo(b, Record(q, 1), Record(r, 2))
    requires q == SEED_KERNEL && r == SEED_USB
    ensures Seeded(b, BodyHash("ssos.packet.v1"), BodyHash("port:usb"))
  {
  }

  lemma SeedsDiffer(q: Request, r: Request)
    requires q == SEED_KERNEL && r == SEED_USB
    ensures 1 <= q.role <= 8 && 1 <= r.role <= 8 && |q.id| <= 39 && q.id != r.id && q.d != r.d
  {
    assert q.d[0] != r.d[0] && q.id[5] != r.id[5];
  }

  lemma SeedIs(s: State, t: State)
    requires t == Seed(s)
    ensures Seeded(t.bank, BodyHash("ssos.packet.v1"), BodyHash("port:usb"))
    ensures t.nextGen == 3 && t.recvCount == (s.recvCount + 2) % 4294967296
    ensures t.flash == s.flash && SameModel(s, t)
  {
    var q, r, u := SEED_KERNEL, SEED_USB, s.(bank := EmptyBank(), nextGen := 1);
    SeedsDiffer(q, r);
    EmptyIsBlank();
    StoresTwo(s, q, r, u, Store(u, q), t);
    SeedsAre(t.bank, q, r);
  }

  lemma ClearIs(s: State, t: State, ok: bool)
    requires t == Seed(s)
    ensures var u := Apply(s, Clear, ok);
            u.bank == t.bank && SameCounters(t, u) && u.flash == t.flash && Silent(u)
  {
  }

  /** CLEAR leaves exactly the two records of a fresh controller, and no model. */
  lemma ClearSeeds(s: State, ok: bool)
    ensures var t := Apply(s, Clear, ok);
            && Seeded(t.bank, BodyHash("ssos.packet.v1"), BodyHash("port:usb"))
            && t.nextGen == 3 && t.recvCount == (s.recvCount + 2) % 4294967296
            && t.flash == s.flash && Silent(t)
  {
    var t := Seed(s);
    SeedIs(s, t);
    ClearIs(s, t, ok);
  }

  // ---------------------------------------------------------------- whole lines

  /** A line `DEL id=...`, typed in any case and with any blanks, takes that id out of the bank. */
  lemma DelLine(s: State, indent: string, typed: string, gap: string, id: string, rest: string, line: string, ok: bool)
    requires DistinctIds(s.bank) && Indent(indent) && Spells(typed, "DEL") && Blanks(gap) && Unbroken(id)
    requires (rest == "" || rest[0] == ' ') && Clean(id) && Clean(line)
    requires line == indent + typed + ((" " + (gap + ("id=" + id))) + rest)
    ensures var t := Handle(s, line, ok);
            && MapOf(t.bank) == MapOf(s.bank) - {id} && SameCounters(s, t) && t.flash == s.flash
            && if id in MapOf(s.bank) && "model:w:" <= id then Silent(t) else SameModel(s, t)
  {
    CleanIsCString(line);
    DelCommand(indent, typed, gap, id, rest);
    DelRemoves(s, id, ok);
  }

  /** A line `CLEAR` or `MCLEAR`, likewise, whatever is behind it. */
  lemma ClearLines(s: State, indent: string, typed: string, name: string, rest: string, line: string, ok: bool)
    requires DistinctIds(s.bank) && Indent(indent) && Spells(typed, name) && (rest == "" || rest[0] == ' ')
    requires name in {"CLEAR", "MCLEAR"} && line == indent + typed + rest && Clean(line)
    ensures var t := Handle(s, line, ok);
            && t.flash == s.flash && Silent(t)
            && (name == "CLEAR" ==> Seeded(t.bank, BodyHash("ssos.packet.v1"), BodyHash("port:usb")))
            && (name == "MCLEAR" ==> MapOf(t.bank) == MapOf(s.bank) - MODEL_ROWS && SameCounters(s, t))
  {
    CleanIsCString(line);
    PlainCommands(indent, typed, name, rest);
    if name == "CLEAR" {
      ClearSeeds(s, ok);
    } else {
      MClearRemovesRows(s, ok);
    }
  }
}
