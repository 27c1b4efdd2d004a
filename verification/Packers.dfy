/** The two byte packers of the exporter: four 2-bit codes or five trits to a byte. */
module Packers {
  import opened Options

  type Byte = b: nat | b < 0x100

  // ---------------------------------------------------------------- 2-bit codes

  function CodeAt(codes: seq<nat>, i: nat): nat {
    if i < |codes| then codes[i] else 0
  }

  predicate TwoBit(codes: seq<nat>) {
    forall i | 0 <= i < |codes| :: codes[i] < 4
  }

  /** The code in bits 2 * lane and 2 * lane + 1. */
  function Lane(packed: nat, lane: nat): (code: nat)
    ensures code < 4
  {
    if lane == 0 then packed % 4
    else if lane == 1 then packed / 4 % 4
    else if lane == 2 then packed / 16 % 4
    else packed / 64 % 4
  }

  function PackedByte(codes: seq<nat>, k: nat): (b: Byte)
    requires TwoBit(codes)
    ensures forall lane: nat | lane < 4 :: Lane(b, lane) == CodeAt(codes, 4 * k + lane)
  {
    var a, b := CodeAt(codes, 4 * k), CodeAt(codes, 4 * k + 1);
    var c, d := CodeAt(codes, 4 * k + 2), CodeAt(codes, 4 * k + 3);
    FourLanes(a, b, c, d);
    a + 4 * b + 16 * c + 64 * d
  }

  lemma FourLanes(a: nat, b: nat, c: nat, d: nat)
    requires a < 4 && b < 4 && c < 4 && d < 4
    ensures var v := a + 4 * b + 16 * c + 64 * d;
            v < 256 && Lane(v, 0) == a && Lane(v, 1) == b && Lane(v, 2) == c && Lane(v, 3) == d
  {
    var v := a + 4 * b + 16 * c + 64 * d;
    assert v / 64 == d;
    assert v / 16 == c + 4 * d;
    assert v / 4 == b + 4 * c + 16 * d;
  }

  /** Codes padded with zeros to whole bytes; a value above 3 is refused. */
  function Pack2(codes: seq<nat>): (packed: Option<seq<Byte>>)
    ensures packed.None? <==> !TwoBit(codes)
    ensures packed.Some? ==> |packed.value| == (|codes| + 3) / 4
  {
    if !TwoBit(codes) then None
    else Some(seq((|codes| + 3) / 4, k requires 0 <= k && TwoBit(codes) => PackedByte(codes, k)))
  }

  function Unpack2(packed: seq<Byte>, count: nat): (codes: seq<nat>)
    requires count <= 4 * |packed|
    ensures |codes| == count
  {
    seq(count, i requires 0 <= i < count <= 4 * |packed| => Lane(packed[i / 4], i % 4))
  }

  /** Code `i` sits in lane i % 4 of byte i / 4, and the padding is zero. */
  lemma PackedLane(codes: seq<nat>, i: nat)
    requires TwoBit(codes) && i / 4 < (|codes| + 3) / 4
    ensures Lane(Pack2(codes).value[i / 4], i % 4) == CodeAt(codes, i)
  {
    assert i == 4 * (i / 4) + i % 4;
    assert Pack2(codes).value[i / 4] == PackedByte(codes, i / 4);
  }

  /** The byte of four codes, the first code lowest. */
  lemma PackedByteIs(codes: seq<nat>, k: nat)
    requires TwoBit(codes) && 4 * k + 3 < |codes|
    ensures k < |Pack2(codes).value|
    ensures Pack2(codes).value[k] == codes[4 * k] + 4 * codes[4 * k + 1] + 16 * codes[4 * k + 2] + 64 * codes[4 * k + 3]
  {
    assert Pack2(codes).value[k] == PackedByte(codes, k);
  }

  lemma TwoBitRoundTrip(codes: seq<nat>)
    requires TwoBit(codes)
    ensures Unpack2(Pack2(codes).value, |codes|) == codes
  {
    var packed := Pack2(codes).value;
    forall i | 0 <= i < |codes| ensures Unpack2(packed, |codes|)[i] == codes[i] {
      PackedLane(codes, i);
    }
  }

  // ---------------------------------------------------------------- little-endian words

  type Word16 = w: nat | w < 0x1_0000

  function WordBytes(words: seq<Word16>): (bytes: seq<Byte>)
    ensures |bytes| == 2 * |words|
  {
    if words == [] then []
    else
      var w: int := words[0];
      [w % 0x100, w / 0x100] + WordBytes(words[1..])
  }

  function WordAt(bytes: seq<Byte>, at: nat): (w: Word16)
    requires at + 2 <= |bytes|
  {
    var low: int, high: int := bytes[at], bytes[at + 1];
    low + 0x100 * high
  }

  lemma {:induction false} WordReads(words: seq<Word16>, i: nat)
    requires i < |words|
    ensures WordAt(WordBytes(words), 2 * i) == words[i]
  {
    var bytes := WordBytes(words);
    if i != 0 {
      WordReads(words[1..], i - 1);
      assert bytes[2..] == WordBytes(words[1..]);
      assert bytes[2 * i] == bytes[2..][2 * (i - 1)] && bytes[2 * i + 1] == bytes[2..][2 * (i - 1) + 1];
    }
  }

  /** Words are stored low byte first. */
  lemma {:induction false} WordBytesAre(words: seq<Word16>, i: nat)
    requires i < |words|
    ensures WordBytes(words)[2 * i] == words[i] % 256 && WordBytes(words)[2 * i + 1] == words[i] / 256
  {
    var bytes := WordBytes(words);
    if i != 0 {
      WordBytesAre(words[1..], i - 1);
      assert bytes[2..] == WordBytes(words[1..]);
      assert bytes[2 * i] == bytes[2..][2 * (i - 1)] && bytes[2 * i + 1] == bytes[2..][2 * (i - 1) + 1];
    }
  }

  lemma {:induction false} WordBytesAppend(a: seq<Word16>, b: seq<Word16>)
    ensures WordBytes(a + b) == WordBytes(a) + WordBytes(b)
  {
    if a == [] {
      assert a + b == b;
    } else {
      WordBytesAppend(a[1..], b);
      assert (a + b)[0] == a[0] && (a + b)[1..] == a[1..] + b;
    }
  }

  // ---------------------------------------------------------------- trits

  const TRITS_PER_BYTE := 5
  const TRIT_BYTES := 243

  predicate Trit(v: int) {
    -1 <= v <= 1
  }

  predicate Trits(ts: seq<int>) {
    forall i | 0 <= i < |ts| :: Trit(ts[i])
  }

  function Power3(n: nat): nat {
    if n == 0 then 1 else 3 * Power3(n - 1)
  }

  /** The base-3 number whose lowest digit is the first trit plus one. */
  function ChunkValue(ts: seq<int>): (v: nat)
    requires Trits(ts)
    ensures v < Power3(|ts|)
  {
    if ts == [] then 0 else (ts[0] + 1) + 3 * ChunkValue(ts[1..])
  }

  function ByteTrits(v: nat, n: nat): (ts: seq<int>)
    ensures |ts| == n && Trits(ts)
  {
    if n == 0 then [] else [v % 3 - 1] + ByteTrits(v / 3, n - 1)
  }

  lemma {:induction false} ChunkReads(ts: seq<int>, n: nat)
    requires Trits(ts) && |ts| <= n
    ensures ByteTrits(ChunkValue(ts), n)[..|ts|] == ts
  {
    if ts != [] {
      var v := ChunkValue(ts[1..]);
      assert ChunkValue(ts) % 3 == ts[0] + 1 && ChunkValue(ts) / 3 == v;
      ChunkReads(ts[1..], n - 1);
      assert ByteTrits(ChunkValue(ts), n)[..|ts|] == [ts[0]] + ByteTrits(v, n - 1)[..|ts| - 1];
    }
  }

  lemma {:induction false} ChunkAppend(ts: seq<int>, t: int)
    requires Trits(ts) && Trit(t)
    ensures ChunkValue(ts + [t]) == ChunkValue(ts) + (t + 1) * Power3(|ts|)
  {
    if ts == [] {
      assert (ts + [t])[1..] == [];
    } else {
      ChunkAppend(ts[1..], t);
      assert (ts + [t])[1..] == ts[1..] + [t];
      assert 3 * ((t + 1) * Power3(|ts| - 1)) == (t + 1) * Power3(|ts|);
    }
  }

  function FirstChunk(ts: seq<int>): (n: nat)
    ensures n <= |ts| && n <= TRITS_PER_BYTE && (ts != [] ==> 0 < n)
    ensures n < TRITS_PER_BYTE ==> n == |ts|
  {
    if |ts| < TRITS_PER_BYTE then |ts| else TRITS_PER_BYTE
  }

  function PackTrits(ts: seq<int>): (packed: seq<Byte>)
    requires Trits(ts)
    ensures |packed| == (|ts| + TRITS_PER_BYTE - 1) / TRITS_PER_BYTE
    ensures forall i | 0 <= i < |packed| :: packed[i] < TRIT_BYTES
  {
    if ts == [] then []
    else
      var n := FirstChunk(ts);
      [ChunkValue(ts[..n])] + PackTrits(ts[n..])
  }

  lemma FiveTrits(ts: seq<int>)
    requires Trits(ts) && |ts| == 5
    ensures ChunkValue(ts)
         == (ts[0] + 1) + 3 * (ts[1] + 1) + 9 * (ts[2] + 1) + 27 * (ts[3] + 1) + 81 * (ts[4] + 1)
  {
    var c, d, e := ts[2..], ts[3..], ts[4..];
    assert ts[1..][1..] == c && c[1..] == d && d[1..] == e && e[1..] == [];
    assert ChunkValue(e) == ts[4] + 1;
    assert ChunkValue(d) == (ts[3] + 1) + 3 * ChunkValue(e);
    assert ChunkValue(c) == (ts[2] + 1) + 3 * ChunkValue(d);
    assert ChunkValue(ts[1..]) == (ts[1] + 1) + 3 * ChunkValue(c);
  }

  /** The byte of five trits, the first trit lowest. */
  lemma {:induction false} TritByteIs(ts: seq<int>, k: nat)
    requires Trits(ts) && 5 * k + 4 < |ts|
    ensures k < |PackTrits(ts)|
    ensures PackTrits(ts)[k] == (ts[5 * k] + 1) + 3 * (ts[5 * k + 1] + 1) + 9 * (ts[5 * k + 2] + 1)
                              + 27 * (ts[5 * k + 3] + 1) + 81 * (ts[5 * k + 4] + 1)
  {
    if k == 0 {
      FiveTrits(ts[..5]);
    } else {
      var rest := ts[5..];
      TritByteIs(rest, k - 1);
      assert FirstChunk(ts) == 5 && PackTrits(ts)[1..] == PackTrits(rest);
      assert rest[5 * (k - 1)] == ts[5 * k] && rest[5 * (k - 1) + 4] == ts[5 * k + 4];
    }
  }

  function AllTrits(payload: seq<Byte>): (ts: seq<int>)
    ensures |ts| == TRITS_PER_BYTE * |payload| && Trits(ts)
  {
    if payload == [] then [] else ByteTrits(payload[0], TRITS_PER_BYTE) + AllTrits(payload[1..])
  }

  /** A payload is accepted exactly when it has the right length and no byte above 242. */
  predicate Acceptable(payload: seq<Byte>, count: int) {
    && 0 <= count && |payload| == (count + 4) / 5
    && forall i | 0 <= i < |payload| :: payload[i] < 243
  }

  function UnpackTrits(payload: seq<Byte>, count: int): (ts: Option<seq<int>>)
    ensures ts.Some? <==> Acceptable(payload, count)
    ensures ts.Some? ==> |ts.value| == count && Trits(ts.value)
  {
    if !Acceptable(payload, count) then None else Some(AllTrits(payload)[..count])
  }

  lemma TakeBoth(front: seq<int>, rest: seq<int>, ts: seq<int>, n: nat)
    requires n <= |ts| && n <= |front| && |ts| - n <= |rest| && (n < |front| ==> n == |ts|)
    requires front[..n] == ts[..n] && rest[..|ts| - n] == ts[n..]
    ensures (front + rest)[..|ts|] == ts
  {
    assert ts == ts[..n] + ts[n..];
  }

  lemma {:induction false} AllTritsReads(ts: seq<int>)
    requires Trits(ts)
    ensures AllTrits(PackTrits(ts))[..|ts|] == ts
    decreases |ts|
  {
    if ts != [] {
      var n := FirstChunk(ts);
      var byte, packed := ChunkValue(ts[..n]), PackTrits(ts);
      ChunkReads(ts[..n], TRITS_PER_BYTE);
      AllTritsReads(ts[n..]);
      assert packed[0] == byte && packed[1..] == PackTrits(ts[n..]);
      TakeBoth(ByteTrits(byte, TRITS_PER_BYTE), AllTrits(PackTrits(ts[n..])), ts, n);
    }
  }

  /** Packing is undone for every length, a partial last byte included. */
  lemma TritRoundTrip(ts: seq<int>)
    requires Trits(ts)
    ensures UnpackTrits(PackTrits(ts), |ts|) == Some(ts)
  {
    AllTritsReads(ts);
  }

  /** The digit loop over one chunk; None is a value that is no trit. */
  method EncodeChunk(chunk: seq<int>) returns (byte: Option<nat>)
    ensures byte == if Trits(chunk) then Some(ChunkValue(chunk)) else None
  {
    var encoded: nat, factor: nat := 0, 1;
    for i := 0 to |chunk|
      invariant Trits(chunk[..i]) && encoded == ChunkValue(chunk[..i]) && factor == Power3(i)
    {
      if !Trit(chunk[i]) {
        return None;
      }
      assert chunk[..i + 1] == chunk[..i] + [chunk[i]];
      ChunkAppend(chunk[..i], chunk[i]);
      encoded := encoded + (chunk[i] + 1) * factor;
      factor := factor * 3;
    }
    assert chunk[..|chunk|] == chunk;
    return Some(encoded);
  }

  lemma PackStep(rest: seq<int>, out: seq<Byte>)
    requires rest != [] && Trits(rest)
    ensures var n := FirstChunk(rest);
            && Trits(rest[..n]) && Trits(rest[n..]) && ChunkValue(rest[..n]) < TRIT_BYTES
            && out + PackTrits(rest) == (out + [ChunkValue(rest[..n])]) + PackTrits(rest[n..])
  {
    var n := FirstChunk(rest);
    var byte: Byte, more := ChunkValue(rest[..n]), PackTrits(rest[n..]);
    assert PackTrits(rest) == [byte] + more;
    Shift(out, byte, more);
  }

  lemma Shift(a: seq<Byte>, b: Byte, c: seq<Byte>)
    ensures a + ([b] + c) == (a + [b]) + c
  {
  }

  /** The packing loop; None is the exporter's ValueError. */
  method Pack(values: seq<int>) returns (packed: Option<seq<Byte>>)
    ensures packed == if Trits(values) then Some(PackTrits(values)) else None
  {
    var out: seq<Byte> := [];
    var rest := values;
    while rest != []
      invariant Trits(values) <==> Trits(rest)
      invariant Trits(rest) ==> out + PackTrits(rest) == PackTrits(values)
      decreases |rest|
    {
      var n := FirstChunk(rest);
      var byte := EncodeChunk(rest[..n]);
      if byte.None? {
        return None;
      }
      if Trits(rest[n..]) {
        PackStep(rest, out);
      }
      out, rest := out + [byte.value], rest[n..];
    }
    assert out + [] == out;
    return Some(out);
  }

  method DecodeByte(encoded: Byte) returns (ts: seq<int>)
    ensures ts == ByteTrits(encoded, TRITS_PER_BYTE)
  {
    ts := [];
    var remaining: nat := encoded;
    for i := 0 to TRITS_PER_BYTE
      invariant ts + ByteTrits(remaining, TRITS_PER_BYTE - i) == ByteTrits(encoded, TRITS_PER_BYTE)
    {
      ghost var rest := ByteTrits(remaining / 3, TRITS_PER_BYTE - i - 1);
      assert ts + ([remaining % 3 - 1] + rest) == (ts + [remaining % 3 - 1]) + rest;
      ts := ts + [remaining % 3 - 1];
      remaining := remaining / 3;
    }
    assert ts + [] == ts;
  }

  method Unpack(payload: seq<Byte>, count: int) returns (ts: Option<seq<int>>)
    ensures ts == UnpackTrits(payload, count)
  {
    if count < 0 || |payload| != (count + TRITS_PER_BYTE - 1) / TRITS_PER_BYTE {
      return None;
    }
    var values: seq<int> := [];
    assert payload[0..] == payload;
    for i := 0 to |payload|
      invariant forall j | 0 <= j < i :: payload[j] < TRIT_BYTES
      invariant values + AllTrits(payload[i..]) == AllTrits(payload)
    {
      if payload[i] >= TRIT_BYTES {
        return None;
      }
      var five := DecodeByte(payload[i]);
      assert payload[i..][0] == payload[i] && payload[i..][1..] == payload[i + 1..];
      assert values + (five + AllTrits(payload[i + 1..])) == (values + five) + AllTrits(payload[i + 1..]);
      values := values + five;
    }
    assert values + [] == values;
    return Some(values[..count]);
  }
}
