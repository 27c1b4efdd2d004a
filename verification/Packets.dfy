/** The packet controller's bank: 32 slots looked up by id and by coordinate. */
module Packets {
  import opened Fnv

  const DIMS := 9
  const PKT_MAX := 32
  const ID_CHARS := 39
  const HASH_CHARS := 16
  const PERM_CHARS := 19
  const BODY_CHARS := 63

  /** Roles are numbered 1 to 8; 0 is the empty role. */
  const ROLE_BOOT := 5
  const ROLE_RUNTIME := 4
  const ROLE_COUNT := 9

  type Coord = d: seq<int> | |d| == DIMS witness [0, 0, 0, 0, 0, 0, 0, 0, 0]

  datatype Packet = Packet(
    used: bool,
    role: nat,
    d: Coord,
    gen: nat,
    id: string,
    hash: string,
    perm: string,
    body: string)

  const ZERO_COORD: Coord := [0, 0, 0, 0, 0, 0, 0, 0, 0]
  const BLANK := Packet(false, 0, ZERO_COORD, 0, "", "", "", "")

  type Bank = b: seq<Packet> | |b| == PKT_MAX witness seq(PKT_MAX, _ => BLANK)

  // ---------------------------------------------------------------- look-up

  /** What the three slot searches look for. */
  datatype Key = ById(id: string) | ByCoord(d: Coord) | Free

  predicate Matches(k: Key, p: Packet) {
    match k
    case ById(id) => p.used && p.id == id
    case ByCoord(d) => p.used && p.d == d
    case Free => !p.used
  }

  function FindFrom(b: seq<Packet>, k: Key, i: nat): (slot: int)
    requires i <= |b|
    ensures slot == -1 || i <= slot < |b|
    ensures slot == -1 <==> forall j | i <= j < |b| :: !Matches(k, b[j])
    ensures slot != -1 ==> Matches(k, b[slot]) && forall j | i <= j < slot :: !Matches(k, b[j])
    decreases |b| - i
  {
    if i == |b| then -1 else if Matches(k, b[i]) then i else FindFrom(b, k, i + 1)
  }

  /** The lowest slot that matches, or -1. */
  function Find(b: seq<Packet>, k: Key): (slot: int)
    ensures slot == -1 || 0 <= slot < |b|
    ensures slot == -1 <==> forall j | 0 <= j < |b| :: !Matches(k, b[j])
    ensures slot != -1 ==> Matches(k, b[slot]) && forall j | 0 <= j < slot :: !Matches(k, b[j])
  {
    FindFrom(b, k, 0)
  }

  lemma FindIs(b: seq<Packet>, k: Key, i: nat)
    requires i < |b| && Matches(k, b[i]) && forall j | 0 <= j < i :: !Matches(k, b[j])
    ensures Find(b, k) == i
  {
  }

  /** A write between two packets that do not match leaves a search where it was. */
  lemma FindIgnores(b: seq<Packet>, i: nat, p: Packet, k: Key)
    requires i < |b| && !Matches(k, b[i]) && !Matches(k, p)
    ensures Find(b[i := p], k) == Find(b, k)
  {
    var c := b[i := p];
    if Find(b, k) == -1 {
      assert forall j | 0 <= j < |c| :: !Matches(k, c[j]);
    } else {
      FindIs(c, k, Find(b, k));
    }
  }

  /** Where a packet goes: over its id, else over its coordinate, else into the first free slot. */
  function SlotFor(b: seq<Packet>, id: string, d: Coord): (slot: int)
    ensures slot == -1 || 0 <= slot < |b|
  {
    if Find(b, ById(id)) != -1 then Find(b, ById(id))
    else if Find(b, ByCoord(d)) != -1 then Find(b, ByCoord(d))
    else Find(b, Free)
  }

  // ---------------------------------------------------------------- writing a slot

  function Clip(s: string, n: nat): (r: string)
    ensures |r| <= n && r <= s && (|s| <= n ==> r == s)
  {
    if |s| <= n then s else s[..n]
  }

  function HexDigit(n: bv32): (c: char)
    ensures '0' <= c <= 'f'
  {
    if n == 0 then '0' else if n == 1 then '1' else if n == 2 then '2' else if n == 3 then '3'
    else if n == 4 then '4' else if n == 5 then '5' else if n == 6 then '6' else if n == 7 then '7'
    else if n == 8 then '8' else if n == 9 then '9' else if n == 10 then 'a' else if n == 11 then 'b'
    else if n == 12 then 'c' else if n == 13 then 'd' else if n == 14 then 'e' else 'f'
  }

  function Nibble(h: bv32, k: nat): (n: bv32)
    requires k < 8
  {
    (if k == 0 then h >> 28 else if k == 1 then h >> 24 else if k == 2 then h >> 20 else if k == 3 then h >> 16
     else if k == 4 then h >> 12 else if k == 5 then h >> 8 else if k == 6 then h >> 4 else h) & 0xF
  }

  /** The printed form of a hash: eight lower-case digits. */
  function Hex8(h: bv32): (s: string)
    ensures |s| == 8
  {
    seq(8, k requires 0 <= k < 8 => HexDigit(Nibble(h, k)))
  }

  lemma NibblesTell(g: bv32, h: bv32)
    requires forall k: nat | k < 8 :: Nibble(g, k) == Nibble(h, k)
    ensures g == h
  {
    assert Nibble(g, 0) == Nibble(h, 0) && Nibble(g, 1) == Nibble(h, 1) && Nibble(g, 2) == Nibble(h, 2);
    assert Nibble(g, 3) == Nibble(h, 3) && Nibble(g, 4) == Nibble(h, 4) && Nibble(g, 5) == Nibble(h, 5);
    assert Nibble(g, 6) == Nibble(h, 6) && Nibble(g, 7) == Nibble(h, 7);
  }

  lemma Hex8Tells(g: bv32, h: bv32)
    requires Hex8(g) == Hex8(h)
    ensures g == h
  {
    forall k: nat | k < 8 ensures Nibble(g, k) == Nibble(h, k) {
      assert Hex8(g)[k] == HexDigit(Nibble(g, k)) && Hex8(h)[k] == HexDigit(Nibble(h, k));
    }
    NibblesTell(g, h);
  }

  function ByteOf(c: char): bv8 {
    ((c as int) % 256) as bv8
  }

  function Bytes(s: string): seq<bv8> {
    seq(|s|, i requires 0 <= i < |s| => ByteOf(s[i]))
  }

  /** The hash a packet gets when the sender gives none: FNV-1a of its body in eight digits. */
  function BodyHash(body: string): (s: string)
    ensures |s| == 8
  {
    Hex8(Fold(OFFSET_BASIS, Bytes(body)))
  }

  /** Two bodies that differ in one byte get different default hashes. */
  lemma BodyHashTells(body: string, i: nat, c: char)
    requires i < |body| && ByteOf(c) != ByteOf(body[i])
    ensures BodyHash(body[i := c]) != BodyHash(body)
  {
    var bytes, other := Bytes(body), Bytes(body[i := c]);
    assert other == bytes[i := ByteOf(c)];
    OneByteDetected(OFFSET_BASIS, bytes, i, ByteOf(c));
    if BodyHash(body[i := c]) == BodyHash(body) {
      Hex8Tells(Fold(OFFSET_BASIS, other), Fold(OFFSET_BASIS, bytes));
    }
  }

  /** What a PKT line asks for. */
  datatype Request = Request(id: string, d: Coord, role: nat, hash: string, perm: string, body: string)

  /** The record that is stored: every text field is cut to its buffer. */
  function Record(r: Request, gen: nat): Packet {
    Packet(true, r.role, r.d, gen,
      Clip(r.id, ID_CHARS),
      if r.hash != "" then Clip(r.hash, HASH_CHARS) else BodyHash(r.body),
      Clip(if r.perm != "" then r.perm else "open", PERM_CHARS),
      Clip(r.body, BODY_CHARS))
  }

  function Shorter(n: nat, m: nat): nat {
    if n < m then n else m
  }

  function HexValue(c: char): bv32 {
    if c == '1' then 1 else if c == '2' then 2 else if c == '3' then 3 else if c == '4' then 4 else if c == '5' then 5
    else if c == '6' then 6 else if c == '7' then 7 else if c == '8' then 8 else if c == '9' then 9
    else if c == 'a' then 10 else if c == 'b' then 11 else if c == 'c' then 12 else if c == 'd' then 13
    else if c == 'e' then 14 else if c == 'f' then 15 else 0
  }

  /** Eight digits read as a number, the first one in front. */
  function HexNumber(s: string): bv32
    requires |s| == 8
  {
    (HexValue(s[0]) << 28) | (HexValue(s[1]) << 24) | (HexValue(s[2]) << 20) | (HexValue(s[3]) << 16)
    | (HexValue(s[4]) << 12) | (HexValue(s[5]) << 8) | (HexValue(s[6]) << 4) | HexValue(s[7])
  }

  lemma DigitReads(n: bv32)
    requires n < 16
    ensures HexValue(HexDigit(n)) == n
  {
  }

  lemma NibblesJoin(h: bv32)
    ensures h == (Nibble(h, 0) << 28) | (Nibble(h, 1) << 24) | (Nibble(h, 2) << 20) | (Nibble(h, 3) << 16)
               | (Nibble(h, 4) << 12) | (Nibble(h, 5) << 8) | (Nibble(h, 6) << 4) | Nibble(h, 7)
  {
  }

  /** The eight digits of a hash read back as the hash. */
  lemma HexReads(h: bv32)
    ensures HexNumber(Hex8(h)) == h
  {
    forall k: nat | k < 8 ensures HexValue(Hex8(h)[k]) == Nibble(h, k) {
      DigitReads(Nibble(h, k));
    }
    NibblesJoin(h);
  }

  /** What is stored of a request: the front of every text that its buffer holds, the permission "open" when
      none is given, and the hash of the body when none is given. */
  lemma RecordIs(r: Request, gen: nat)
    ensures var p := Record(r, gen);
            && p.used && p.role == r.role && p.d == r.d && p.gen == gen
            && p.id == r.id[..Shorter(|r.id|, 39)] && p.body == r.body[..Shorter(|r.body|, 63)]
            && p.perm == (if r.perm == "" then "open" else r.perm[..Shorter(|r.perm|, 19)])
            && (r.hash != "" ==> p.hash == r.hash[..Shorter(|r.hash|, 16)])
            && (r.hash == "" ==> |p.hash| == 8 && HexNumber(p.hash) == Fold(0x811C9DC5, Bytes(r.body)))
  {
    HexReads(Fold(OFFSET_BASIS, Bytes(r.body)));
  }

  predicate Storable(b: seq<Packet>, r: Request) {
    0 < r.role < ROLE_COUNT && SlotFor(b, r.id, r.d) != -1
  }

  function Put(b: Bank, r: Request, gen: nat): Bank {
    if Storable(b, r) then b[SlotFor(b, r.id, r.d) := Record(r, gen)] else b
  }

  function Remove(b: Bank, id: string): Bank {
    var slot := Find(b, ById(id));
    if slot == -1 then b else b[slot := b[slot].(used := false)]
  }

  // ---------------------------------------------------------------- distinct ids

  ghost predicate DistinctIds(b: seq<Packet>) {
    forall i, j | 0 <= i < j < |b| && b[i].used && b[j].used :: b[i].id != b[j].id
  }

  /** A stored packet is found under the id it was sent with exactly when that id fits. */
  lemma SentIsFound(b: Bank, r: Request, gen: nat)
    requires Storable(b, r)
    requires forall i | 0 <= i < |b| && b[i].used :: |b[i].id| <= ID_CHARS
    ensures |r.id| <= ID_CHARS ==> Find(Put(b, r, gen), ById(r.id)) == SlotFor(b, r.id, r.d)
    ensures |r.id| > ID_CHARS ==> Find(Put(b, r, gen), ById(r.id)) == -1
  {
    var slot := SlotFor(b, r.id, r.d);
    if |r.id| <= ID_CHARS {
      FindIs(Put(b, r, gen), ById(r.id), slot);
    } else {
      var c := Put(b, r, gen);
      assert forall j | 0 <= j < |c| :: !Matches(ById(r.id), c[j]);
    }
  }

  /** Ids stay distinct exactly unless the cut id belongs to a packet that is not overwritten,
      which takes an id that does not fit. */
  lemma PutKeepsDistinct(b: Bank, r: Request, gen: nat)
    requires DistinctIds(b) && Storable(b, r)
    ensures DistinctIds(Put(b, r, gen)) <==>
            Find(b, ById(Clip(r.id, ID_CHARS))) in {-1, SlotFor(b, r.id, r.d)}
    ensures |r.id| <= ID_CHARS ==> DistinctIds(Put(b, r, gen))
  {
    var c, slot, held := Put(b, r, gen), SlotFor(b, r.id, r.d), Find(b, ById(Clip(r.id, ID_CHARS)));
    if held != -1 && held != slot {
      assert c[held].id == c[slot].id && c[held].used && c[slot].used;
      assert held < slot || slot < held;
    }
  }

  ghost predicate DistinctCoords(b: seq<Packet>) {
    forall i, j | 0 <= i < j < |b| && b[i].used && b[j].used :: b[i].d != b[j].d
  }

  /** Coordinates stay distinct exactly unless an update by id moves a packet onto another one:
      that path never looks at the coordinate. */
  lemma PutKeepsCoords(b: Bank, r: Request, gen: nat)
    requires DistinctCoords(b) && Storable(b, r)
    ensures DistinctCoords(Put(b, r, gen)) <==>
            !(Find(b, ById(r.id)) != -1 && Find(b, ByCoord(r.d)) != -1 && Find(b, ByCoord(r.d)) != Find(b, ById(r.id)))
  {
    var c, slot, held := Put(b, r, gen), SlotFor(b, r.id, r.d), Find(b, ByCoord(r.d));
    if held != -1 && held != slot {
      assert c[held].d == c[slot].d && c[held].used && c[slot].used;
      assert held < slot || slot < held;
    } else if held == slot {
      assert forall j | 0 <= j < |b| && j != slot && b[j].used :: b[j].d != r.d by {
        forall j | 0 <= j < |b| && j != slot && b[j].used ensures b[j].d != r.d {
          assert j < slot || slot < j;
        }
      }
    }
  }

  // ---------------------------------------------------------------- the bank as a bounded map

  function MapOf(b: seq<Packet>): map<string, Packet> {
    if b == [] then map[]
    else
      var p, m := b[|b| - 1], MapOf(b[..|b| - 1]);
      if p.used then m[p.id := p] else m
  }

  function Count(b: seq<Packet>): nat {
    if b == [] then 0 else Count(b[..|b| - 1]) + (if b[|b| - 1].used then 1 else 0)
  }

  lemma {:induction false} MapHas(b: seq<Packet>, id: string)
    requires DistinctIds(b)
    ensures id in MapOf(b) <==> Find(b, ById(id)) != -1
    ensures id in MapOf(b) ==> MapOf(b)[id] == b[Find(b, ById(id))]
  {
    if b != [] {
      var n := |b| - 1;
      var c := b[..n];
      MapHas(c, id);
      assert forall j | 0 <= j < n :: Matches(ById(id), c[j]) <==> Matches(ById(id), b[j]);
      if Find(c, ById(id)) != -1 {
        FindIs(b, ById(id), Find(c, ById(id)));
      } else if b[n].used && b[n].id == id {
        FindIs(b, ById(id), n);
      } else {
        assert forall j | 0 <= j < |b| :: !Matches(ById(id), b[j]);
      }
    }
  }

  lemma {:induction false} MapSize(b: seq<Packet>)
    requires DistinctIds(b)
    ensures |MapOf(b)| == Count(b)
  {
    if b != [] {
      var n := |b| - 1;
      var c := b[..n];
      MapSize(c);
      if b[n].used {
        MapHas(c, b[n].id);
        assert Matches(ById(b[n].id), b[n]);
      }
    }
  }

  lemma {:induction false} CountFree(b: seq<Packet>)
    ensures Count(b) <= |b|
    ensures Count(b) == |b| <==> Find(b, Free) == -1
  {
    if b != [] {
      var n := |b| - 1;
      var c := b[..n];
      CountFree(c);
      assert forall j | 0 <= j < n :: Matches(Free, c[j]) <==> Matches(Free, b[j]);
      assert Matches(Free, b[n]) <==> !b[n].used;
      if Find(c, Free) == -1 && b[n].used {
        assert forall j | 0 <= j < |b| :: !Matches(Free, b[j]);
      }
    }
  }

  /** PKT on the bank is an update of a map that never holds more than 32 packets: by id, else in
      place of the lowest record at the coordinate, else an insertion, else nothing. */
  lemma PutRefinesMap(b: Bank, r: Request, gen: nat)
    requires DistinctIds(b) && |r.id| <= ID_CHARS
    ensures Storable(b, r) <==>
            0 < r.role < ROLE_COUNT && (r.id in MapOf(b) || Find(b, ByCoord(r.d)) != -1 || |MapOf(b)| < PKT_MAX)
    ensures MapOf(Put(b, r, gen)) == if Storable(b, r) then MapPut(b, r, gen) else MapOf(b)
  {
    MapHas(b, r.id);
    MapSize(b);
    CountFree(b);
    if Storable(b, r) {
      PutKeepsDistinct(b, r, gen);
      var c, next := Put(b, r, gen), MapPut(b, r, gen);
      forall id ensures id in MapOf(c) <==> id in next
        ensures id in next ==> MapOf(c)[id] == next[id]
      {
        PutAgrees(b, r, gen, id);
      }
      assert MapOf(c) == next;
    }
  }

  ghost function MapPut(b: Bank, r: Request, gen: nat): map<string, Packet> {
    var m, at := MapOf(b), Find(b, ByCoord(r.d));
    (if r.id in m || at == -1 then m else m - {b[at].id})[r.id := Record(r, gen)]
  }

  lemma PutAgrees(b: Bank, r: Request, gen: nat, id: string)
    requires DistinctIds(b) && |r.id| <= ID_CHARS && Storable(b, r) && DistinctIds(Put(b, r, gen))
    ensures var m, next := MapOf(Put(b, r, gen)), MapPut(b, r, gen);
            (id in m <==> id in next) && (id in m ==> m[id] == next[id])
  {
    MapHas(b, r.id);
    MapHas(b, id);
    MapHas(Put(b, r, gen), id);
    PutLooksUp(b, r, gen, id);
  }

  /** What any id finds after a PKT. */
  lemma PutLooksUp(b: Bank, r: Request, gen: nat, id: string)
    requires DistinctIds(b) && |r.id| <= ID_CHARS && Storable(b, r)
    ensures var c, slot := Put(b, r, gen), SlotFor(b, r.id, r.d);
            if id == r.id then Find(c, ById(id)) == slot
            else if b[slot].used && b[slot].id == id then Find(c, ById(id)) == -1
            else Find(c, ById(id)) == Find(b, ById(id))
  {
    var c, slot := Put(b, r, gen), SlotFor(b, r.id, r.d);
    if id == r.id {
      FindIs(c, ById(id), slot);
    } else if b[slot].used && b[slot].id == id {
      assert forall j | 0 <= j < |c| :: !Matches(ById(id), c[j]);
    } else {
      FindIgnores(b, slot, Record(r, gen), ById(id));
    }
  }

  /** DEL is removal from the map. */
  lemma RemoveRefinesMap(b: Bank, id: string)
    requires DistinctIds(b)
    ensures MapOf(Remove(b, id)) == MapOf(b) - {id}
  {
    var c, slot := Remove(b, id), Find(b, ById(id));
    forall x ensures x in MapOf(c) <==> x in MapOf(b) && x != id
      ensures x in MapOf(c) ==> MapOf(c)[x] == MapOf(b)[x]
    {
      MapHas(b, x);
      MapHas(c, x);
      if slot != -1 {
        if x == id {
          assert forall j | 0 <= j < |c| :: !Matches(ById(x), c[j]);
        } else {
          FindIgnores(b, slot, c[slot], ById(x));
        }
      }
    }
    assert MapOf(c) == MapOf(b) - {id};
  }
}
