/** A tape fed to a controller that has just booted, with its two seed packets in the bank. */
module SeededTape {
  import opened Options
  import opened Packets
  import opened PacketLines
  import opened Kernel
  import opened SerialLine
  import opened Device
  import opened Tape

  // ---------------------------------------------------------------- two packets in the way

  /** The id and the coordinate of a packet. */
  datatype Place = Place(id: string, d: Coord)

  predicate Holds0(p: Packet, place: Place) {
    p.used && p.id == place.id && p.d == place.d
  }

  /** The first `k` records are in their slots; behind them are what is left of the two packets, and free
      slots. */
  ghost predicate InPlace(b: Bank, a: Place, c: Place, ps: seq<Packet>, k: nat) {
    && k <= |ps| <= PKT_MAX
    && (forall i | 0 <= i < k :: b[i].used && RequestOf(b[i]) == RequestOf(ps[i]))
    && (k == 0 ==> Holds0(b[0], a)) && (k <= 1 ==> Holds0(b[1], c))
    && forall i | k <= i < PKT_MAX && 2 <= i :: !b[i].used
  }

  /** Record `k` goes to slot `k` when all before it went to theirs. */
  predicate Lands(a: Place, c: Place, ps: seq<Packet>, k: nat)
    requires k < |ps|
  {
    if k == 0 then ps[0].id == a.id || (ps[0].id != c.id && ps[0].d == a.d)
    else if k == 1 then ps[1].id == c.id || (ps[1].d != ps[0].d && ps[1].d == c.d)
    else forall i | 0 <= i < k :: ps[i].d != ps[k].d
  }

  lemma PlacesInFront(b: Bank, a: Place, c: Place, ps: seq<Packet>, k: nat)
    requires InPlace(b, a, c, ps, k)
    ensures forall i | 0 <= i < k :: b[i].used && b[i].id == ps[i].id && b[i].d == ps[i].d
  {
    forall i | 0 <= i < k ensures b[i].id == ps[i].id && b[i].d == ps[i].d {
      assert RequestOf(b[i]) == RequestOf(ps[i]);
    }
  }

  lemma LandsFirst(b: Bank, a: Place, c: Place, id: string, d: Coord)
    requires Holds0(b[0], a) && Holds0(b[1], c) && a.id != c.id && a.d != c.d
    requires forall i | 2 <= i < PKT_MAX :: !b[i].used
    ensures SlotFor(b, id, d) == 0 <==> id == a.id || (id != c.id && d == a.d)
  {
    assert forall i | 2 <= i < PKT_MAX :: !Matches(ById(id), b[i]) && !Matches(ByCoord(d), b[i]);
    if id == a.id {
      FindIs(b, ById(id), 0);
    } else if id == c.id {
      FindIs(b, ById(id), 1);
    } else if d == a.d {
      FindIs(b, ByCoord(d), 0);
    } else if d == c.d {
      FindIs(b, ByCoord(d), 1);
    } else {
      FindIs(b, Free, 2);
    }
  }

  lemma LandsSecond(b: Bank, first: Place, c: Place, id: string, d: Coord)
    requires Holds0(b[0], first) && Holds0(b[1], c) && id != first.id && forall i | 2 <= i < PKT_MAX :: !b[i].used
    ensures SlotFor(b, id, d) == 1 <==> id == c.id || (d != first.d && d == c.d)
  {
    assert forall i | 2 <= i < PKT_MAX :: !Matches(ById(id), b[i]) && !Matches(ByCoord(d), b[i]);
    if id == c.id {
      FindIs(b, ById(id), 1);
    } else if d == first.d {
      FindIs(b, ByCoord(d), 0);
    } else if d == c.d {
      FindIs(b, ByCoord(d), 1);
    } else {
      FindIs(b, Free, 2);
    }
  }

  lemma LandsLater(b: Bank, ps: seq<Packet>, k: nat, id: string, d: Coord)
    requires 2 <= k <= |ps| && k < PKT_MAX && forall i | k <= i < PKT_MAX :: !b[i].used
    requires forall i | 0 <= i < k :: b[i].used && b[i].id == ps[i].id && b[i].d == ps[i].d && ps[i].id != id
    ensures SlotFor(b, id, d) == k <==> forall i | 0 <= i < k :: ps[i].d != d
  {
    assert forall i | 0 <= i < PKT_MAX :: !Matches(ById(id), b[i]);
    if forall i | 0 <= i < k :: ps[i].d != d {
      assert forall i | 0 <= i < PKT_MAX :: !Matches(ByCoord(d), b[i]);
      FindIs(b, Free, k);
    } else {
      var i :| 0 <= i < k && ps[i].d == d;
      assert Matches(ByCoord(d), b[i]) && Find(b, ByCoord(d)) <= i;
    }
  }

  lemma LandsIff(b: Bank, a: Place, c: Place, ps: seq<Packet>, k: nat)
    requires InPlace(b, a, c, ps, k) && Records(ps) && k < |ps| && a.id != c.id && a.d != c.d
    ensures SlotFor(b, ps[k].id, ps[k].d) == k <==> Lands(a, c, ps, k)
  {
    PlacesInFront(b, a, c, ps, k);
    assert forall i | 0 <= i < k :: ps[i].id != ps[k].id;
    if k == 0 {
      LandsFirst(b, a, c, ps[0].id, ps[0].d);
    } else if k == 1 {
      LandsSecond(b, Place(ps[0].id, ps[0].d), c, ps[1].id, ps[1].d);
    } else {
      LandsLater(b, ps, k, ps[k].id, ps[k].d);
    }
  }

  // ---------------------------------------------------------------- record by record

  /** The record `p` has been sent. */
  ghost predicate IsPut(b: Bank, after: Bank, p: Packet) {
    exists gen: nat :: after == Put(b, RequestOf(p), gen)
  }

  /** The banks before and after each of these records. */
  ghost predicate Fed(banks: seq<Bank>, ps: seq<Packet>) {
    |banks| == |ps| + 1 && forall k: nat | k < |ps| :: IsPut(banks[k], banks[k + 1], ps[k])
  }

  lemma PutIs(b: Bank, after: Bank, p: Packet) returns (gen: nat)
    requires IsPut(b, after, p) && p.used && Stored(p)
    ensures after == if SlotFor(b, p.id, p.d) == -1 then b else b[SlotFor(b, p.id, p.d) := p.(gen := gen)]
  {
    gen :| after == Put(b, RequestOf(p), gen);
    ReplayedRecord(p, gen);
  }

  lemma InPlaceStep(b: Bank, after: Bank, a: Place, c: Place, ps: seq<Packet>, k: nat)
    requires InPlace(b, a, c, ps, k) && Records(ps) && k < |ps| && SlotFor(b, ps[k].id, ps[k].d) == k
    requires IsPut(b, after, ps[k])
    ensures InPlace(after, a, c, ps, k + 1)
  {
    var gen := PutIs(b, after, ps[k]);
  }

  lemma KeepsDistinct(b: Bank, after: Bank, p: Packet)
    requires DistinctIds(b) && Stored(p) && IsPut(b, after, p)
    ensures DistinctIds(after)
  {
    var gen: nat :| after == Put(b, RequestOf(p), gen);
    if Storable(b, RequestOf(p)) {
      PutKeepsDistinct(b, RequestOf(p), gen);
    }
  }

  /** A record that goes to another slot is not in slot `k`. */
  lemma GoesElsewhere(b: Bank, after: Bank, p: Packet, k: nat)
    requires DistinctIds(b) && p.used && Stored(p) && k < PKT_MAX && SlotFor(b, p.id, p.d) != k && IsPut(b, after, p)
    ensures !Matches(ById(p.id), after[k])
  {
    var gen := PutIs(b, after, p);
    KeepsDistinct(b, after, p);
    var slot := SlotFor(b, p.id, p.d);
    if slot != -1 {
      assert after[slot].used && after[slot].id == p.id;
      assert slot < k || k < slot;
    }
  }

  /** No other record brings its id there. */
  lemma StaysElsewhere(b: Bank, after: Bank, p: Packet, k: nat, id: string)
    requires p.used && Stored(p) && k < PKT_MAX && p.id != id && !Matches(ById(id), b[k]) && IsPut(b, after, p)
    ensures !Matches(ById(id), after[k])
  {
    var gen := PutIs(b, after, p);
  }

  lemma {:induction false} AllInPlace(banks: seq<Bank>, ps: seq<Packet>, a: Place, c: Place, k: nat)
    requires Fed(banks, ps) && Records(ps) && k <= |ps| && InPlace(banks[0], a, c, ps, 0) && a.id != c.id && a.d != c.d
    requires forall i: nat | i < k :: Lands(a, c, ps, i)
    ensures InPlace(banks[k], a, c, ps, k)
  {
    if k != 0 {
      AllInPlace(banks, ps, a, c, k - 1);
      LandsIff(banks[k - 1], a, c, ps, k - 1);
      assert IsPut(banks[k - 1], banks[k - 1 + 1], ps[k - 1]);
      InPlaceStep(banks[k - 1], banks[k], a, c, ps, k - 1);
    }
  }

  lemma {:induction false} AllDistinct(banks: seq<Bank>, ps: seq<Packet>, k: nat)
    requires Fed(banks, ps) && Records(ps) && k <= |ps| && DistinctIds(banks[0])
    ensures DistinctIds(banks[k])
  {
    if k != 0 {
      AllDistinct(banks, ps, k - 1);
      assert IsPut(banks[k - 1], banks[k - 1 + 1], ps[k - 1]);
      KeepsDistinct(banks[k - 1], banks[k], ps[k - 1]);
    }
  }

  /** A record that missed its slot never gets there. */
  lemma {:induction false} MissedForGood(banks: seq<Bank>, ps: seq<Packet>, k: nat, m: nat)
    requires Fed(banks, ps) && Records(ps) && k < m <= |ps| && DistinctIds(banks[0])
    requires SlotFor(banks[k], ps[k].id, ps[k].d) != k
    ensures !Matches(ById(ps[k].id), banks[m][k])
    decreases m
  {
    assert IsPut(banks[m - 1], banks[m - 1 + 1], ps[m - 1]);
    if m == k + 1 {
      AllDistinct(banks, ps, k);
      GoesElsewhere(banks[k], banks[m], ps[k], k);
    } else {
      MissedForGood(banks, ps, k, m - 1);
      StaysElsewhere(banks[m - 1], banks[m], ps[m - 1], k, ps[k].id);
    }
  }

  lemma {:induction false} FirstMiss(a: Place, c: Place, ps: seq<Packet>, n: nat) returns (k: nat)
    requires n <= |ps| && exists i: nat | i < n :: !Lands(a, c, ps, i)
    ensures k < n && !Lands(a, c, ps, k) && forall i: nat | i < k :: Lands(a, c, ps, i)
  {
    k := n - 1;
    if exists i: nat | i < n - 1 :: !Lands(a, c, ps, i) {
      k := FirstMiss(a, c, ps, n - 1);
    }
  }

  /** Every id is where its record belongs. */
  predicate IdsAtHome(b: Bank, ps: seq<Packet>) {
    |ps| <= PKT_MAX && forall i | 0 <= i < |ps| :: Matches(ById(ps[i].id), b[i])
  }

  /** The ids are at home exactly when every record landed, and then the records are. */
  lemma FedIff(banks: seq<Bank>, ps: seq<Packet>, a: Place, c: Place)
    requires Fed(banks, ps) && Records(ps) && DistinctIds(banks[0])
    requires InPlace(banks[0], a, c, ps, 0) && a.id != c.id && a.d != c.d
    ensures IdsAtHome(banks[|ps|], ps) <==> forall i: nat | i < |ps| :: Lands(a, c, ps, i)
    ensures IdsAtHome(banks[|ps|], ps) ==> InPlace(banks[|ps|], a, c, ps, |ps|)
  {
    var n := |ps|;
    if i: nat :| i < n && !Lands(a, c, ps, i) {
      var k := FirstMiss(a, c, ps, n);
      AllInPlace(banks, ps, a, c, k);
      LandsIff(banks[k], a, c, ps, k);
      MissedForGood(banks, ps, k, n);
    } else {
      AllInPlace(banks, ps, a, c, n);
      PlacesInFront(banks[n], a, c, ps, n);
    }
  }

  // ---------------------------------------------------------------- the tape

  ghost function Banks(handle: (State, string) -> State, s: State, lines: seq<string>): (banks: seq<Bank>)
    ensures |banks| == |lines| + 1
  {
    if lines == [] then [s.bank] else Banks(handle, s, lines[..|lines| - 1]) + [HandleAll(handle, s, lines).bank]
  }

  lemma {:induction false} LinesFeed(handle: (State, string) -> State, s: State, ps: seq<Packet>, lines: seq<string>)
    requires Installs(handle) && Records(ps) && lines == LinesOf(ps)
    ensures var banks := Banks(handle, s, lines);
            Fed(banks, ShownAll(ps)) && banks[0] == s.bank && banks[|ps|] == HandleAll(handle, s, lines).bank
    decreases |ps|
  {
    if ps != [] {
      var n := |ps| - 1;
      FrontOfRecords(ps, n);
      FrontOfShown(ps, n);
      LinesFeed(handle, s, ps[..n], lines[..n]);
      var t := HandleAll(handle, s, lines[..n]);
      assert IsLineOf(ps[n], lines[n]);
      assert Stores(t, handle(t, Kept(lines[n])), Shown(ps[n]));
      OneMoreFed(Banks(handle, s, lines[..n]), ShownAll(ps[..n]), HandleAll(handle, s, lines).bank, Shown(ps[n]),
                 t.nextGen);
    }
  }

  lemma OneMoreFed(banks: seq<Bank>, ps: seq<Packet>, b: Bank, p: Packet, gen: nat)
    requires Fed(banks, ps) && b == Put(banks[|ps|], RequestOf(p), gen)
    ensures Fed(banks + [b], ps + [p])
  {
    var all := banks + [b];
    assert IsPut(all[|ps|], all[|ps| + 1], p);
    forall k: nat | k < |ps| ensures IsPut(all[k], all[k + 1], (ps + [p])[k]) {
      assert IsPut(banks[k], banks[k + 1], ps[k]);
    }
  }

  const KERNEL := Place("ctrl:kernel", ZERO_COORD)
  const USB := Place("ctrl:usb", [1, 0, 0, 0, 0, 0, 0, 0, 0])

  lemma StoreFresh(s: State, r: Request, n: nat)
    requires 0 < r.role < ROLE_COUNT && |r.id| <= ID_CHARS && n < PKT_MAX
    requires forall i | n <= i < PKT_MAX :: !s.bank[i].used
    requires forall i | 0 <= i < n :: s.bank[i].used && s.bank[i].id != r.id && s.bank[i].d != r.d
    ensures Store(s, r).bank == s.bank[n := Record(r, s.nextGen)] && Record(r, s.nextGen).id == r.id
  {
    assert forall i | 0 <= i < PKT_MAX :: !Matches(ById(r.id), s.bank[i]) && !Matches(ByCoord(r.d), s.bank[i]);
    FindIs(s.bank, Free, n);
  }

  lemma TwoStoresHold(s: State, q: Request, r: Request)
    requires forall i | 0 <= i < PKT_MAX :: !s.bank[i].used
    requires 0 < q.role < ROLE_COUNT && 0 < r.role < ROLE_COUNT && |q.id| <= ID_CHARS && |r.id| <= ID_CHARS
    requires q.id != r.id && q.d != r.d
    ensures var b := Store(Store(s, q), r).bank;
            && Holds0(b[0], Place(q.id, q.d)) && Holds0(b[1], Place(r.id, r.d)) && DistinctIds(b)
            && forall i | 2 <= i < PKT_MAX :: !b[i].used
  {
    StoreFresh(s, q, 0);
    StoreFresh(Store(s, q), r, 1);
  }

  /** After a first boot the two seed packets are in slots 0 and 1. */
  lemma BootHolds(ok: bool)
    ensures var b := Boot(None, ok).bank;
            && Holds0(b[0], KERNEL) && Holds0(b[1], USB) && DistinctIds(b)
            && forall i | 2 <= i < PKT_MAX :: !b[i].used
  {
    var s := Zeroed(None).(bank := EmptyBank(), nextGen := 1);
    SeedsDiffer();
    TwoStoresHold(s, SEED_KERNEL, SEED_USB);
    BootIsSeed(ok);
  }

  lemma SeedsDiffer()
    ensures SEED_KERNEL.id != SEED_USB.id && SEED_KERNEL.d != SEED_USB.d
    ensures |SEED_KERNEL.id| <= ID_CHARS && |SEED_USB.id| <= ID_CHARS
    ensures Place(SEED_KERNEL.id, SEED_KERNEL.d) == KERNEL && Place(SEED_USB.id, SEED_USB.d) == USB
  {
    assert SEED_KERNEL.d[0] != SEED_USB.d[0];
    assert SEED_KERNEL.id[5] != SEED_USB.id[5];
  }

  lemma BootIsSeed(ok: bool)
    ensures var s := Zeroed(None).(bank := EmptyBank(), nextGen := 1);
            Boot(None, ok).bank == Store(Store(s, SEED_KERNEL), SEED_USB).bank
  {
  }

  lemma ShownRecords(ps: seq<Packet>)
    requires Records(ps)
    ensures Records(ShownAll(ps))
    ensures forall i | 0 <= i < |ps| :: ShownAll(ps)[i].id == ps[i].id && ShownAll(ps)[i].d == ps[i].d
  {
    forall i | 0 <= i < |ps|
      ensures var q := ShownAll(ps)[i]; q.id == ps[i].id && q.d == ps[i].d && q.used && Stored(q)
    {
      ShownKeeps(ps[i]);
    }
  }

  /** Two records or more, the first of which replaces the kernel seed and the second the usb seed, by id or
      by coordinate, the others lying apart, and no line is cut. */
  ghost predicate Reinstalls(ps: seq<Packet>) {
    2 <= |ps| && forall i: nat | i < |ps| :: Lands(KERNEL, USB, ps, i) && Fitting(ps[i])
  }

  /** The banks that a freshly booted controller takes over from their tapes. */
  ghost predicate Reinstallable(b: Bank) {
    Reinstalls(Used(b))
  }

  lemma SameLanding(ps: seq<Packet>, qs: seq<Packet>, i: nat)
    requires i < |ps| == |qs| && forall k | 0 <= k < |ps| :: ps[k].id == qs[k].id && ps[k].d == qs[k].d
    ensures Lands(KERNEL, USB, ps, i) <==> Lands(KERNEL, USB, qs, i)
  {
  }

  /** The bank after all lines, against the records of the tape. */
  lemma CopyIff(banks: seq<Bank>, ps: seq<Packet>)
    requires Records(ps) && Fed(banks, ShownAll(ps)) && DistinctIds(banks[0])
    requires Holds0(banks[0][0], KERNEL) && Holds0(banks[0][1], USB) && forall i | 2 <= i < PKT_MAX :: !banks[0][i].used
    ensures Loaded(banks[|ps|], ps) <==> Reinstalls(ps)
  {
    var qs, b := ShownAll(ps), banks[|ps|];
    ShownRecords(ps);
    forall i: nat | i < |ps| ensures Lands(KERNEL, USB, qs, i) <==> Lands(KERNEL, USB, ps, i) {
      SameLanding(ps, qs, i);
    }
    KernelIsNotUsb();
    FedIff(banks, qs, KERNEL, USB);
    CopyOfLanded(b, ps);
  }

  lemma KernelIsNotUsb()
    ensures KERNEL.id != USB.id && KERNEL.d != USB.d
  {
    SeedsDiffer();
  }

  lemma CopyOfLanded(b: Bank, ps: seq<Packet>)
    requires Records(ps) && (IdsAtHome(b, ShownAll(ps)) ==> InPlace(b, KERNEL, USB, ShownAll(ps), |ps|))
    ensures Loaded(b, ps) <==> 2 <= |ps| && IdsAtHome(b, ShownAll(ps)) && forall i | 0 <= i < |ps| :: Fitting(ps[i])
  {
    if Loaded(b, ps) {
      LoadedAtHome(b, ps);
    }
    if IdsAtHome(b, ShownAll(ps)) && 2 <= |ps| {
      ShownIsLoaded(b, ps);
    }
  }

  lemma LoadedAtHome(b: Bank, ps: seq<Packet>)
    requires Loaded(b, ps) && Records(ps)
    ensures IdsAtHome(b, ps) && IdsAtHome(b, ShownAll(ps))
  {
    ShownRecords(ps);
    forall i | 0 <= i < |ps| ensures Matches(ById(ps[i].id), b[i]) {
      assert RequestOf(b[i]) == RequestOf(ps[i]);
    }
  }

  lemma LinesAfterBoot(handle: (State, string) -> State, s: State, ps: seq<Packet>, ok: bool)
    requires Installs(handle) && Records(ps) && s.bank == Boot(None, ok).bank
    ensures Loaded(HandleAll(handle, s, LinesOf(ps)).bank, ps) <==> Reinstalls(ps)
  {
    LinesFeed(handle, s, ps, LinesOf(ps));
    BootHolds(ok);
    CopyIff(Banks(handle, s, LinesOf(ps)), ps);
  }

  /** Feeding the tape of a bank to a controller that has just booted restores every record in order
      exactly when the bank is reinstallable; saves of the loop in between do not matter. */
  lemma DumpReplaysAfterBoot(b: Bank, s: State, passes: seq<Pass>, ok: bool)
    requires TidyBank(b) && s.bank == Boot(None, ok).bank && Inputs(passes) == Dump(b)
    ensures var c := Loops(Console(s, ""), passes);
            c.line == "" && (Loaded(c.state.bank, Used(b)) <==> Reinstallable(b))
  {
    var ps, lines := Used(b), LinesOf(Used(b));
    UsedRecords(b);
    DumpIsQuiet(b);
    LoopsAreBare(Console(s, ""), Console(s, ""), passes);
    DumpIsReceived(b, s, true);
    HandlerInstalls(true);
    LinesAfterBoot(Handler(true), s, ps, ok);
    assert Bare(Loops(Console(s, ""), passes)) == Bare(Console(HandleAll(Handler(true), s, lines), ""));
  }
}
