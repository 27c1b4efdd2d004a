/** DUMP prints a tape; feeding the tape to another controller's serial line restores the bank. */
module Tape {
  import opened Packets
  import opened PacketText
  import opened PacketLines
  import opened Kernel
  import opened SerialLine
  import opened Device

  // ---------------------------------------------------------------- DUMP

  /** The records in use, in slot order. */
  function Used(b: seq<Packet>): (ps: seq<Packet>)
    ensures |ps| <= |b|
  {
    if b == [] then []
    else Used(b[..|b| - 1]) + (if b[|b| - 1].used then [b[|b| - 1]] else [])
  }

  function LinesOf(ps: seq<Packet>): seq<string> {
    seq(|ps|, i requires 0 <= i < |ps| => PktLine(ps[i]))
  }

  function Header(count: nat): string {
    "OK" + (" " + ("dump proto=ssos.packet.v1 count=" + Decimal(count)))
  }

  const FOOTER := "OK" + (" " + "end")

  /** Everything DUMP prints. `println` ends its line with a carriage return and a newline. */
  function Dump(b: seq<Packet>): string {
    (Header(Count(b)) + "\n") + (Joined(LinesOf(Used(b))) + (FOOTER + "\r\n"))
  }

  lemma {:induction false} CountIsUsed(b: seq<Packet>)
    ensures Count(b) == |Used(b)|
  {
    if b != [] {
      CountIsUsed(b[..|b| - 1]);
    }
  }

  // ---------------------------------------------------------------- replay

  /** The first slots hold the records of `ps` and the others are free. */
  ghost predicate Loaded(b: Bank, ps: seq<Packet>) {
    && |ps| <= PKT_MAX
    && (forall i | 0 <= i < |ps| :: b[i].used && RequestOf(b[i]) == RequestOf(ps[i]))
    && (forall i | |ps| <= i < PKT_MAX :: !b[i].used)
  }

  /** A record with a new id and a new coordinate goes into the first free slot. */
  lemma LoadOne(b: Bank, ps: seq<Packet>, p: Packet, gen: nat)
    requires Loaded(b, ps) && |ps| < PKT_MAX && p.used && Stored(p)
    requires forall i | 0 <= i < |ps| :: ps[i].id != p.id && ps[i].d != p.d
    ensures Loaded(Put(b, RequestOf(p), gen), ps + [p])
  {
    forall i | 0 <= i < |b| ensures !Matches(ById(p.id), b[i]) && !Matches(ByCoord(p.d), b[i]) {
      if i < |ps| {
        assert RequestOf(b[i]) == RequestOf(ps[i]);
      }
    }
    FindIs(b, Free, |ps|);
    ReplayedRecord(p, gen);
  }

  lemma CleanFieldText(key: string, value: string, rest: string)
    requires Clean(key) && Clean(value) && Clean(rest)
    ensures Clean(key + (value + (" " + rest)))
  {
  }

  lemma PktLineIsClean(p: Packet)
    requires Stored(p)
    ensures Clean(PktLine(p))
  {
    ListedIsUnbroken(p.d);
    RoleNameIsLetters(p.role);
    LettersAreLower(RoleName(p.role));
    CleanFieldText("perm=", p.perm, BodyText(p));
    CleanFieldText("hash=", p.hash, PermText(p));
    CleanFieldText("role=", RoleName(p.role), HashText(p));
    CleanFieldText("d=", Listed(p.d), RoleText(p));
    CleanFieldText("id=", p.id, DimsText(p));
    assert Clean("PKT" + (" " + FieldText(p)));
  }

  /** What a tape is printed from. */
  ghost predicate Records(ps: seq<Packet>) {
    |ps| <= PKT_MAX && DistinctIds(ps) && forall i | 0 <= i < |ps| :: ps[i].used && Stored(ps[i])
  }

  predicate IsLineOf(p: Packet, line: string) {
    Stored(p) && line == PktLine(p)
  }

  ghost predicate Stores(s: State, t: State, p: Packet) {
    t.bank == Put(s.bank, RequestOf(p), s.nextGen) && t.flash == s.flash
  }

  /** A handler that stores what is left of the record a line was printed from. */
  ghost predicate Installs(handle: (State, string) -> State) {
    forall s: State, line: string, p | IsLineOf(p, line) :: Stores(s, handle(s, Kept(line)), Shown(p))
  }

  lemma HandlerStores(s: State, line: string, p: Packet, ok: bool)
    requires IsLineOf(p, line)
    ensures Stores(s, Handler(ok)(s, Kept(line)), Shown(p))
  {
    PktLineIsClean(p);
    CleanIsCString(Kept(line));
    KeptReads(p);
  }

  lemma HandlerInstalls(ok: bool)
    ensures Installs(Handler(ok))
  {
    forall s: State, line: string, p | IsLineOf(p, line)
      ensures Stores(s, Handler(ok)(s, Kept(line)), Shown(p))
    {
      HandlerStores(s, line, p, ok);
    }
  }

  /** A line that DUMP prints and the console takes in full. */
  predicate Fitting(p: Packet) {
    Replayable(p) && |PktLine(p)| < CMD_LINE_MAX
  }

  function ShownAll(ps: seq<Packet>): (qs: seq<Packet>)
    ensures |qs| == |ps|
  {
    seq(|ps|, i requires 0 <= i < |ps| => Shown(ps[i]))
  }

  /** Cutting and trimming change a body and nothing else. */
  lemma ShownKeeps(p: Packet)
    requires Stored(p)
    ensures Stored(Shown(p)) && Shown(p) == p.(body := Shown(p).body)
    ensures RequestOf(Shown(p)) == RequestOf(p) <==> Fitting(p)
  {
    KeptReads(p);
    ShownIff(p);
  }

  predicate Has(ps: seq<Packet>, k: Key) {
    Find(ps, k) != -1
  }

  lemma HasAppend(ps: seq<Packet>, p: Packet, k: Key)
    ensures Has(ps + [p], k) <==> Has(ps, k) || Matches(k, p)
  {
    var qs := ps + [p];
    assert qs[|ps|] == p;
    if Has(ps, k) {
      assert Matches(k, qs[Find(ps, k)]);
    } else {
      assert forall i | 0 <= i < |ps| :: !Matches(k, ps[i]) && qs[i] == ps[i];
    }
  }

  /** A used record behind others keeps ids and coordinates distinct exactly when its own are new. */
  lemma AppendDistinct(ps: seq<Packet>, p: Packet)
    requires p.used
    ensures DistinctIds(ps + [p]) <==> DistinctIds(ps) && !Has(ps, ById(p.id))
    ensures DistinctCoords(ps + [p]) <==> DistinctCoords(ps) && !Has(ps, ByCoord(p.d))
  {
    var qs := ps + [p];
    assert qs[|ps|] == p && forall i | 0 <= i < |ps| :: qs[i] == ps[i];
    if Has(ps, ById(p.id)) {
      assert Matches(ById(p.id), qs[Find(ps, ById(p.id))]);
    } else {
      assert forall i | 0 <= i < |ps| :: !Matches(ById(p.id), ps[i]);
    }
    if Has(ps, ByCoord(p.d)) {
      assert Matches(ByCoord(p.d), qs[Find(ps, ByCoord(p.d))]);
    } else {
      assert forall i | 0 <= i < |ps| :: !Matches(ByCoord(p.d), ps[i]);
    }
  }

  lemma FrontOfRecords(ps: seq<Packet>, n: nat)
    requires Records(ps) && |ps| == n + 1
    ensures Records(ps[..n]) && LinesOf(ps[..n]) == LinesOf(ps)[..n] && IsLineOf(ps[n], LinesOf(ps)[n])
    ensures DistinctCoords(ps) <==> DistinctCoords(ps[..n]) && !Has(ps[..n], ByCoord(ps[n].d))
    ensures !Has(ps[..n], ById(ps[n].id))
    ensures ps == ps[..n] + [ps[n]]
  {
    assert ps == ps[..n] + [ps[n]];
    AppendDistinct(ps[..n], ps[n]);
  }

  lemma FrontOfShown(ps: seq<Packet>, n: nat)
    requires |ps| == n + 1
    ensures ShownAll(ps) == ShownAll(ps[..n]) + [Shown(ps[n])]
  {
  }

  /** Records at different coordinates take the slots 0, 1, ... in turn. */
  lemma {:induction false} LoadAll(handle: (State, string) -> State, s: State, ps: seq<Packet>, lines: seq<string>)
    requires Installs(handle) && Loaded(s.bank, []) && Records(ps) && DistinctCoords(ps) && lines == LinesOf(ps)
    ensures var t := HandleAll(handle, s, lines);
            Loaded(t.bank, ShownAll(ps)) && t.flash == s.flash
    decreases |ps|
  {
    if ps != [] {
      var n := |ps| - 1;
      FrontOfRecords(ps, n);
      FrontOfShown(ps, n);
      LoadAll(handle, s, ps[..n], lines[..n]);
      var t := HandleAll(handle, s, lines[..n]);
      LoadNext(t.bank, ps[..n], ps[n], t.nextGen);
    }
  }

  lemma LoadNext(b: Bank, front: seq<Packet>, p: Packet, gen: nat)
    requires Loaded(b, ShownAll(front)) && Records(front) && |front| < PKT_MAX && p.used && Stored(p)
    requires !Has(front, ById(p.id)) && !Has(front, ByCoord(p.d))
    ensures Loaded(Put(b, RequestOf(Shown(p)), gen), ShownAll(front) + [Shown(p)])
  {
    ShownKeeps(p);
    forall i | 0 <= i < |front| ensures ShownAll(front)[i].id != p.id && ShownAll(front)[i].d != p.d {
      ShownKeeps(front[i]);
      assert !Matches(ById(p.id), front[i]) && !Matches(ByCoord(p.d), front[i]);
    }
    LoadOne(b, ShownAll(front), Shown(p), gen);
  }

  // ---------------------------------------------------------------- coordinates that meet

  lemma {:induction false} CountPut(b: seq<Packet>, i: nat, p: Packet)
    requires i < |b| && p.used
    ensures Count(b[i := p]) == Count(b) + if b[i].used then 0 else 1
  {
    var n := |b| - 1;
    if i == n {
      assert b[i := p][..n] == b[..n];
    } else {
      assert b[i := p][..n] == b[..n][i := p];
      CountPut(b[..n], i, p);
    }
  }

  /** What the bank keeps of the records sent so far: only their ids, all their coordinates, and
      fewer records than were sent as soon as two of these meet. */
  ghost predicate Holds(b: Bank, ps: seq<Packet>) {
    && Count(b) <= |ps|
    && (forall id :: Has(b, ById(id)) ==> Has(ps, ById(id)))
    && (forall d :: Has(ps, ByCoord(d)) ==> Has(b, ByCoord(d)))
    && (!DistinctCoords(ps) ==> Count(b) < |ps|)
  }

  /** Such a record never meets its own id: it goes over its coordinate or into a free slot. */
  lemma HoldSlot(b: Bank, front: seq<Packet>, p: Packet)
    requires Holds(b, front) && |front| < PKT_MAX && !Has(front, ById(p.id))
    ensures var slot := SlotFor(b, p.id, p.d);
            slot != -1 && if Has(b, ByCoord(p.d)) then Matches(ByCoord(p.d), b[slot]) else !b[slot].used
  {
    assert !Has(b, ById(p.id));
    CountFree(b);
  }

  lemma WriteHas(b: Bank, i: nat, p: Packet, k: Key)
    requires i < |b| && p.used && !k.Free?
    ensures k.ById? && Has(b[i := p], k) ==> Has(b, k) || k.id == p.id
    ensures k.ByCoord? && (b[i].used ==> b[i].d == p.d) && (Has(b, k) || k.d == p.d) ==> Has(b[i := p], k)
  {
    var c := b[i := p];
    if Has(c, k) && Find(c, k) != i {
      assert Matches(k, b[Find(c, k)]);
    }
    if Has(b, k) && Find(b, k) != i {
      assert Matches(k, c[Find(b, k)]);
    }
    assert Matches(k, p) ==> Matches(k, c[i]);
  }

  lemma HoldWrite(b: Bank, front: seq<Packet>, p: Packet, i: nat, record: Packet)
    requires Holds(b, front) && p.used && i < PKT_MAX && record.used && record.id == p.id && record.d == p.d
    requires if Has(b, ByCoord(p.d)) then Matches(ByCoord(p.d), b[i]) else !b[i].used
    ensures Holds(b[i := record], front + [p])
  {
    var c: Bank, ps := b[i := record], front + [p];
    CountPut(b, i, record);
    AppendDistinct(front, p);
    forall id | Has(c, ById(id)) ensures Has(ps, ById(id)) {
      WriteHas(b, i, record, ById(id));
      HasAppend(front, p, ById(id));
    }
    forall d | Has(ps, ByCoord(d)) ensures Has(c, ByCoord(d)) {
      WriteHas(b, i, record, ByCoord(d));
      HasAppend(front, p, ByCoord(d));
    }
  }

  lemma HoldOne(b: Bank, front: seq<Packet>, p: Packet, q: Packet, gen: nat)
    requires Holds(b, front) && |front| < PKT_MAX && !Has(front, ById(p.id))
    requires p.used && q.used && Stored(q) && q.id == p.id && q.d == p.d
    ensures Holds(Put(b, RequestOf(q), gen), front + [p])
  {
    HoldSlot(b, front, p);
    ReplayedRecord(q, gen);
    HoldWrite(b, front, p, SlotFor(b, p.id, p.d), q.(gen := gen));
  }

  lemma HoldNext(handle: (State, string) -> State, s: State, front: seq<Packet>, p: Packet, line: string)
    requires Installs(handle) && IsLineOf(p, line) && p.used
    requires Holds(s.bank, front) && |front| < PKT_MAX && !Has(front, ById(p.id))
    ensures Holds(handle(s, Kept(line)).bank, front + [p]) && handle(s, Kept(line)).flash == s.flash
  {
    ShownKeeps(p);
    HoldOne(s.bank, front, p, Shown(p), s.nextGen);
  }

  lemma HoldNone(b: Bank)
    requires Loaded(b, [])
    ensures Holds(b, [])
  {
    NoneUsed(b);
  }

  lemma HandleLast(handle: (State, string) -> State, s: State, lines: seq<string>, n: nat)
    requires |lines| == n + 1
    ensures HandleAll(handle, s, lines) == handle(HandleAll(handle, s, lines[..n]), Kept(lines[n]))
  {
  }

  lemma {:induction false} HoldAll(handle: (State, string) -> State, s: State, ps: seq<Packet>, lines: seq<string>)
    requires Installs(handle) && Loaded(s.bank, []) && Records(ps) && lines == LinesOf(ps)
    ensures var t := HandleAll(handle, s, lines);
            Holds(t.bank, ps) && t.flash == s.flash
    decreases |ps|
  {
    if ps == [] {
      HoldNone(s.bank);
    } else {
      var n := |ps| - 1;
      FrontOfRecords(ps, n);
      HoldAll(handle, s, ps[..n], lines[..n]);
      HandleLast(handle, s, lines, n);
      HoldNext(handle, HandleAll(handle, s, lines[..n]), ps[..n], ps[n], lines[n]);
    }
  }

  lemma {:induction false} NoneUsed(b: seq<Packet>)
    requires forall i | 0 <= i < |b| :: !b[i].used
    ensures Count(b) == 0
  {
    if b != [] {
      NoneUsed(b[..|b| - 1]);
    }
  }

  // ---------------------------------------------------------------- the frame of the tape

  /** The header and the footer are no commands. */
  lemma FrameLine(rest: string)
    requires Clean(rest) && rest != "" && rest[|rest| - 1] != ' '
    ensures Clean("OK" + (" " + rest)) && ParseLine("OK" + (" " + rest)) == Nothing
  {
    var s := "OK" + (" " + rest);
    assert s[0] == 'O' && s[|s| - 1] == rest[|rest| - 1];
    TrimKeeps(s);
    SplitReads("OK", rest);
    assert Upper("OK") == "OK";
  }

  lemma HeaderIsNothing(count: nat)
    requires count <= PKT_MAX
    ensures Clean(Header(count)) && Kept(Header(count)) == Header(count) && ParseLine(Header(count)) == Nothing
  {
    DecimalIsUnbroken(count);
    var n := Decimal(count);
    assert count < 10 || |Digits(count / 10)| == 1;
    assert Digit(n[|n| - 1]);
    FrameLine("dump proto=ssos.packet.v1 count=" + n);
  }

  lemma FooterIsNothing()
    ensures Clean(FOOTER) && Kept(FOOTER) == FOOTER && ParseLine(FOOTER) == Nothing
  {
    FrameLine("end");
  }

  lemma HandlesNothing(s: State, line: string, ok: bool)
    requires Clean(line) && ParseLine(line) == Nothing
    ensures Handler(ok)(s, line) == s
  {
    CleanIsCString(line);
  }

  lemma {:induction false} AllUsed(b: seq<Packet>)
    requires forall i | 0 <= i < |b| :: b[i].used
    ensures Used(b) == b
    decreases |b|
  {
    if b != [] {
      var front, last := b[..|b| - 1], b[|b| - 1];
      AllUsed(front);
      assert Used(b) == Used(front) + [last] == front + [last] == b;
    }
  }

  lemma {:induction false} UsedOfLoaded(b: seq<Packet>, n: nat)
    requires n <= |b| && (forall i | 0 <= i < n :: b[i].used) && (forall i | n <= i < |b| :: !b[i].used)
    ensures Used(b) == b[..n]
    decreases |b|
  {
    if n == |b| {
      AllUsed(b);
    } else {
      UsedOfLoaded(b[..|b| - 1], n);
      assert b[..|b| - 1][..n] == b[..n];
    }
  }

  lemma SameLines(ps: seq<Packet>, qs: seq<Packet>)
    requires |ps| == |qs| && forall i | 0 <= i < |ps| :: RequestOf(ps[i]) == RequestOf(qs[i])
    ensures LinesOf(ps) == LinesOf(qs)
  {
    forall i | 0 <= i < |ps| ensures PktLine(ps[i]) == PktLine(qs[i]) {
      assert RequestOf(ps[i]) == RequestOf(qs[i]);
    }
  }

  lemma UsedFront(b: seq<Packet>, c: seq<Packet>, p: Packet)
    requires b == c + [p]
    ensures Used(b) == if p.used then Used(c) + [p] else Used(c)
  {
    assert b[..|b| - 1] == c;
    assert !p.used ==> Used(c) + [] == Used(c);
  }

  lemma {:induction false} UsedHas(b: seq<Packet>, k: Key)
    requires !k.Free?
    ensures Has(Used(b), k) <==> Has(b, k)
  {
    if b != [] {
      var c, p := b[..|b| - 1], b[|b| - 1];
      UsedHas(c, k);
      UsedFront(b, c, p);
      HasAppend(c, p, k);
      HasAppend(Used(c), p, k);
      assert b == c + [p];
    }
  }

  lemma UnusedDistinct(c: seq<Packet>, p: Packet)
    requires !p.used
    ensures DistinctIds(c + [p]) <==> DistinctIds(c)
    ensures DistinctCoords(c + [p]) <==> DistinctCoords(c)
  {
    var b := c + [p];
    assert b[|c|] == p && forall i | 0 <= i < |c| :: b[i] == c[i];
  }

  /** One slot more: `ps` are the records in use among `c`. */
  lemma DistinctFront(c: seq<Packet>, ps: seq<Packet>, p: Packet)
    requires (DistinctIds(ps) <==> DistinctIds(c)) && (DistinctCoords(ps) <==> DistinctCoords(c))
    requires Has(ps, ById(p.id)) <==> Has(c, ById(p.id))
    requires Has(ps, ByCoord(p.d)) <==> Has(c, ByCoord(p.d))
    ensures var qs := if p.used then ps + [p] else ps;
            (DistinctIds(qs) <==> DistinctIds(c + [p])) && (DistinctCoords(qs) <==> DistinctCoords(c + [p]))
  {
    if p.used {
      AppendDistinct(c, p);
      AppendDistinct(ps, p);
    } else {
      UnusedDistinct(c, p);
    }
  }

  /** The records in use, in slot order, share an id or a coordinate exactly when two slots do. */
  lemma {:induction false} UsedDistinct(b: seq<Packet>)
    ensures DistinctIds(Used(b)) <==> DistinctIds(b)
    ensures DistinctCoords(Used(b)) <==> DistinctCoords(b)
  {
    if b != [] {
      var c, p := b[..|b| - 1], b[|b| - 1];
      UsedDistinct(c);
      UsedHas(c, ById(p.id));
      UsedHas(c, ByCoord(p.d));
      UsedFront(b, c, p);
      DistinctFront(c, Used(c), p);
      assert b == c + [p];
    }
  }

  lemma {:induction false} UsedIs(b: seq<Packet>, p: Packet)
    ensures p in Used(b) <==> p in b && p.used
  {
    if b != [] {
      var c, q := b[..|b| - 1], b[|b| - 1];
      UsedIs(c, p);
      UsedFront(b, c, q);
      assert b == c + [q];
    }
  }

  /** A bank can be installed from its own tape when its coordinates are distinct and no line is too
      long or ends in a blank. */
  ghost predicate Installable(b: Bank) {
    DistinctCoords(b) && forall i | 0 <= i < PKT_MAX && b[i].used :: Fitting(b[i])
  }

  lemma UsedRecords(b: Bank)
    requires TidyBank(b)
    ensures Records(Used(b))
    ensures Installable(b) <==> DistinctCoords(Used(b)) && forall i | 0 <= i < |Used(b)| :: Fitting(Used(b)[i])
  {
    var ps := Used(b);
    UsedDistinct(b);
    forall i | 0 <= i < |ps| ensures ps[i].used && ps[i] in b {
      UsedIs(b, ps[i]);
    }
    if forall i | 0 <= i < |ps| :: Fitting(ps[i]) {
      forall i | 0 <= i < PKT_MAX && b[i].used ensures Fitting(b[i]) {
        UsedIs(b, b[i]);
      }
    }
  }

  lemma LinesAreClean(ps: seq<Packet>)
    requires Records(ps)
    ensures forall i | 0 <= i < |ps| :: Clean(LinesOf(ps)[i])
  {
    forall i | 0 <= i < |ps| ensures Clean(LinesOf(ps)[i]) {
      PktLineIsClean(ps[i]);
    }
  }

  lemma LoadedDumps(b: Bank, c: Bank)
    requires Loaded(c, Used(b))
    ensures Dump(c) == Dump(b) && Count(c) == Count(b)
  {
    UsedOfLoaded(c, |Used(b)|);
    CountIsUsed(b);
    CountIsUsed(c);
    SameLines(Used(c), Used(b));
  }

  lemma ShownIsLoaded(c: Bank, ps: seq<Packet>)
    requires Records(ps) && Loaded(c, ShownAll(ps))
    ensures Loaded(c, ps) <==> forall i | 0 <= i < |ps| :: Fitting(ps[i])
  {
    forall i | 0 <= i < |ps| ensures RequestOf(c[i]) == RequestOf(ps[i]) <==> Fitting(ps[i]) {
      ShownKeeps(ps[i]);
      assert RequestOf(c[i]) == RequestOf(ShownAll(ps)[i]);
    }
  }

  /** The whole tape is received line by line. */
  lemma DumpIsReceived(b: Bank, s: State, ok: bool)
    requires Records(Used(b))
    ensures Receive(Handler(ok), Console(s, ""), Dump(b)) == Console(HandleAll(Handler(ok), s, LinesOf(Used(b))), "")
  {
    var ps, lines := Used(b), LinesOf(Used(b));
    var t := HandleAll(Handler(ok), s, lines);
    CountIsUsed(b);
    LinesAreClean(ps);
    HeaderIsNothing(Count(b));
    HandlesNothing(s, Header(Count(b)), ok);
    FooterIsNothing();
    HandlesNothing(t, FOOTER, ok);
    ReceiveListing(Handler(ok), s, Header(Count(b)), lines, FOOTER);
  }

  /** Feeding the tape of a bank to an empty one restores every record in order, in slots 0, 1, ...,
      exactly when the bank is installable; the copy then prints the same tape. With distinct
      coordinates every record arrives, less what the serial line cuts from its body; when two meet,
      records are lost. */
  lemma DumpReplaysAtOnce(b: Bank, s: State, ok: bool) returns (t: State)
    requires TidyBank(b) && forall i | 0 <= i < PKT_MAX :: !s.bank[i].used
    ensures Receive(Handler(ok), Console(s, ""), Dump(b)) == Console(t, "")
    ensures Replayed(b, t.bank)
  {
    var ps, lines := Used(b), LinesOf(Used(b));
    t := HandleAll(Handler(ok), s, lines);
    UsedRecords(b);
    UsedDistinct(b);
    CountIsUsed(b);
    HandlerInstalls(ok);
    HoldAll(Handler(ok), s, ps, lines);
    if DistinctCoords(b) {
      LoadAll(Handler(ok), s, ps, lines);
      ShownIsLoaded(t.bank, ps);
    }
    if Loaded(t.bank, ps) {
      LoadedDumps(b, t.bank);
    }
    DumpIsReceived(b, s, ok);
  }

  /** What becomes of the tape of `b`. */
  ghost predicate Replayed(b: Bank, copy: Bank) {
    && (Loaded(copy, Used(b)) <==> Installable(b))
    && (Installable(b) ==> Dump(copy) == Dump(b))
    && (DistinctCoords(b) ==> Loaded(copy, ShownAll(Used(b))))
    && (!DistinctCoords(b) ==> Count(copy) < Count(b))
  }

  lemma ListenLast(lines: seq<string>, n: nat)
    requires |lines| == n + 1
    ensures HandleAll(Listen, true, lines) == Listen(HandleAll(Listen, true, lines[..n]), Kept(lines[n]))
  {
  }

  lemma {:induction false} LinesAreQuiet(ps: seq<Packet>, lines: seq<string>)
    requires Records(ps) && lines == LinesOf(ps)
    ensures HandleAll(Listen, true, lines)
    decreases |ps|
  {
    if ps != [] {
      var n := |ps| - 1;
      FrontOfRecords(ps, n);
      LinesAreQuiet(ps[..n], lines[..n]);
      ListenLast(lines, n);
      LineIsQuiet(ps[n], lines[n]);
    }
  }

  lemma LineIsQuiet(p: Packet, line: string)
    requires IsLineOf(p, line)
    ensures Quiet(Kept(line))
  {
    PktLineIsClean(p);
    CleanIsCString(Kept(line));
    KeptReads(p);
  }

  lemma NothingIsQuiet(line: string)
    requires Clean(line) && ParseLine(line) == Nothing
    ensures Quiet(line)
  {
    CleanIsCString(line);
  }

  /** A tape asks for no save and no load. */
  lemma DumpIsQuiet(b: Bank)
    requires Records(Used(b))
    ensures AllQuiet("", Dump(b)) && Receive(Listen, Console(true, ""), Dump(b)).line == ""
  {
    var lines := LinesOf(Used(b));
    CountIsUsed(b);
    LinesAreClean(Used(b));
    LinesAreQuiet(Used(b), lines);
    HeaderIsNothing(Count(b));
    NothingIsQuiet(Header(Count(b)));
    FooterIsNothing();
    NothingIsQuiet(FOOTER);
    ReceiveListing(Listen, true, Header(Count(b)), lines, FOOTER);
  }

  /** The same however the tape is cut into passes of the loop, with saves of the loop's own in between
      and a flash that answers or not. */
  lemma DumpReplays(b: Bank, s: State, passes: seq<Pass>)
    requires TidyBank(b) && (forall i | 0 <= i < PKT_MAX :: !s.bank[i].used) && Inputs(passes) == Dump(b)
    ensures var c := Loops(Console(s, ""), passes);
            c.line == "" && Replayed(b, c.state.bank)
  {
    var t := DumpReplaysAtOnce(b, s, true);
    UsedRecords(b);
    DumpIsQuiet(b);
    LoopsAreBare(Console(s, ""), Console(s, ""), passes);
    assert Bare(Loops(Console(s, ""), passes)) == Bare(Console(t, ""));
  }
}
