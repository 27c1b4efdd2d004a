/** The cluster packet: 1188 packed little-endian bytes, sealed by a checksum over everything but
    the checksum field itself. */
module ClusterFrame {
  import opened Fnv

  const MAGIC: bv32 := 0x50513125
  const SIZE := 1188

  // byte offsets of the fields that the checksum code reads
  const SEQUENCE := 4
  const CHECKSUM := 8
  const COMPUTE_US := 12
  const PAYLOAD_WORDS := 22
  const MAX_PAYLOAD_WORDS := 576

  function Join(a: bv8, b: bv8, c: bv8, d: bv8): bv32 {
    (a as bv32) | ((b as bv32) << 8) | ((c as bv32) << 16) | ((d as bv32) << 24)
  }

  function Byte(w: bv32, k: nat): bv8
    requires k < 4
  {
    if k == 0 then (w & 0xFF) as bv8
    else if k == 1 then ((w >> 8) & 0xFF) as bv8
    else if k == 2 then ((w >> 16) & 0xFF) as bv8
    else ((w >> 24) & 0xFF) as bv8
  }

  function Word(bytes: seq<bv8>, i: nat): bv32
    requires i + 4 <= |bytes|
  {
    Join(bytes[i], bytes[i + 1], bytes[i + 2], bytes[i + 3])
  }

  function WithWord(bytes: seq<bv8>, i: nat, w: bv32): seq<bv8>
    requires i + 4 <= |bytes|
  {
    bytes[i := Byte(w, 0)][i + 1 := Byte(w, 1)][i + 2 := Byte(w, 2)][i + 3 := Byte(w, 3)]
  }

  predicate Frame(bytes: seq<bv8>) {
    |bytes| == SIZE
  }

  function Hash(bytes: seq<bv8>): bv32
    requires Frame(bytes)
  {
    Step(Step(Fold(OFFSET_BASIS, bytes[COMPUTE_US..]), Word(bytes, 0)), Word(bytes, SEQUENCE))
  }

  function PayloadWords(bytes: seq<bv8>): nat
    requires Frame(bytes)
  {
    (bytes[PAYLOAD_WORDS] as nat) + 256 * (bytes[PAYLOAD_WORDS + 1] as nat)
  }

  predicate Accepted(bytes: seq<bv8>)
    requires Frame(bytes)
  {
    && Word(bytes, 0) == MAGIC
    && PayloadWords(bytes) <= MAX_PAYLOAD_WORDS
    && Word(bytes, CHECKSUM) == Hash(bytes)
  }

  class ClusterPacket {
    const bytes: array<bv8>

    ghost predicate Valid() {
      bytes.Length == SIZE
    }

    constructor (bytes: array<bv8>)
      requires bytes.Length == SIZE
      ensures Valid() && this.bytes == bytes
    {
      this.bytes := bytes;
    }

    method Checksum() returns (hash: bv32)
      requires Valid()
      ensures hash == Hash(bytes[..])
    {
      hash := OFFSET_BASIS;
      for index := COMPUTE_US to bytes.Length
        invariant hash == Fold(OFFSET_BASIS, bytes[COMPUTE_US..index])
      {
        FoldAppend(OFFSET_BASIS, bytes[COMPUTE_US..index], [bytes[index]]);
        assert bytes[COMPUTE_US..index + 1] == bytes[COMPUTE_US..index] + [bytes[index]];
        assert [bytes[index]][1..] == [];
        hash := Step(hash, bytes[index] as bv32);
      }
      assert bytes[COMPUTE_US..bytes.Length] == bytes[..][COMPUTE_US..];
      hash := Step(hash, Word(bytes[..], 0));
      hash := Step(hash, Word(bytes[..], SEQUENCE));
    }

    method IsValid() returns (ok: bool)
      requires Valid()
      ensures ok == Accepted(bytes[..])
    {
      var checksum := Checksum();
      ok := Word(bytes[..], 0) == MAGIC && PayloadWords(bytes[..]) <= MAX_PAYLOAD_WORDS
        && Word(bytes[..], CHECKSUM) == checksum;
    }

    method Seal()
      requires Valid()
      modifies bytes
      ensures bytes[..] == WithWord(old(bytes[..]), CHECKSUM, Hash(old(bytes[..])))
    {
      var w := Checksum();
      bytes[CHECKSUM] := Byte(w, 0);
      bytes[CHECKSUM + 1] := Byte(w, 1);
      bytes[CHECKSUM + 2] := Byte(w, 2);
      bytes[CHECKSUM + 3] := Byte(w, 3);
    }
  }

  lemma WordIsLittleEndian(bytes: seq<bv8>, i: nat)
    requires i + 4 <= |bytes|
    ensures Word(bytes, i) == (bytes[i] as bv32) + 0x100 * (bytes[i + 1] as bv32)
                            + 0x10000 * (bytes[i + 2] as bv32) + 0x1000000 * (bytes[i + 3] as bv32)
  {
  }

  /** The checksum covers the bytes from 12 on, then the magic word, then the sequence word. */
  lemma HashIs(bytes: seq<bv8>, magic: bv32, sequence: bv32)
    requires |bytes| == 1188 && magic == Word(bytes, 0) && sequence == Word(bytes, 4)
    ensures Hash(bytes) == Step(Step(Fold(0x811C9DC5, bytes[12..]), magic), sequence)
  {
  }

  /** A frame with another magic word has another checksum: it is not the comparison with the magic alone
      that guards it. */
  lemma MagicIsCovered(bytes: seq<bv8>, other: seq<bv8>)
    requires Frame(bytes) && Frame(other) && other[4..] == bytes[4..]
    ensures Hash(other) == Hash(bytes) <==> other[..4] == bytes[..4]
  {
    var g, v := Fold(OFFSET_BASIS, bytes[12..]), Word(bytes, 4);
    assert bytes[12..] == bytes[4..][8..] && other[12..] == other[4..][8..];
    assert Word(bytes, 4) == Word(bytes[4..], 0) && Word(other, 4) == Word(other[4..], 0);
    if Hash(other) == Hash(bytes) {
      StepIsBijection(Step(g, Word(bytes, 0)), v);
      StepIsBijection(Step(g, Word(other, 0)), v);
      StepTellsWords(g, Word(bytes, 0), Word(other, 0));
      WordTells(bytes, other);
    }
  }

  lemma JoinSplits(a: bv8, b: bv8, c: bv8, d: bv8)
    ensures Byte(Join(a, b, c, d), 0) == a && Byte(Join(a, b, c, d), 1) == b
    ensures Byte(Join(a, b, c, d), 2) == c && Byte(Join(a, b, c, d), 3) == d
  {
  }

  lemma WordTells(bytes: seq<bv8>, other: seq<bv8>)
    requires |bytes| >= 4 && |other| >= 4 && Word(bytes, 0) == Word(other, 0)
    ensures bytes[..4] == other[..4]
  {
    JoinSplits(bytes[0], bytes[1], bytes[2], bytes[3]);
    JoinSplits(other[0], other[1], other[2], other[3]);
    assert bytes[..4] == [bytes[0], bytes[1], bytes[2], bytes[3]];
  }

  /** What the runtime takes for a frame: the bytes of the magic, at most 576 payload words, and the
      checksum. */
  lemma AcceptedIs(bytes: seq<bv8>)
    requires |bytes| == 1188
    ensures Accepted(bytes) <==>
            && bytes[0] == 0x25 && bytes[1] == 0x31 && bytes[2] == 0x51 && bytes[3] == 0x50
            && (bytes[22] as int) + 256 * (bytes[23] as int) <= 576 && Word(bytes, 8) == Hash(bytes)
  {
  }

  /** Sealing makes a frame valid exactly when its magic and payload length are in order. */
  lemma SealedIsAccepted(bytes: seq<bv8>)
    requires Frame(bytes)
    ensures Accepted(WithWord(bytes, CHECKSUM, Hash(bytes)))
       <==> Word(bytes, 0) == MAGIC && PayloadWords(bytes) <= MAX_PAYLOAD_WORDS
  {
  }

  /** The two words folded in last keep hash states apart, and are told apart themselves. */
  lemma HeaderTells(g: bv32, h: bv32, magic: bv32, v: bv32, w: bv32)
    ensures Step(Step(g, magic), v) == Step(Step(h, magic), v) ==> g == h
    ensures Step(Step(g, magic), v) == Step(Step(g, magic), w) ==> v == w
  {
    StepIsBijection(g, magic);
    StepIsBijection(h, magic);
    StepIsBijection(Step(g, magic), v);
    StepIsBijection(Step(h, magic), v);
    if Step(Step(g, magic), v) == Step(Step(g, magic), w) {
      StepTellsWords(Step(g, magic), v, w);
    }
  }

  /** A changed sequence word is noticed: no frame passes under another number. */
  lemma SequenceRejected(bytes: seq<bv8>, other: seq<bv8>)
    requires Frame(bytes) && Frame(other) && Accepted(bytes)
    requires Word(other, 0) == Word(bytes, 0) && other[CHECKSUM..] == bytes[CHECKSUM..]
    requires Word(other, SEQUENCE) != Word(bytes, SEQUENCE)
    ensures !Accepted(other)
  {
    var tail := bytes[COMPUTE_US..];
    assert other[COMPUTE_US..] == other[CHECKSUM..][4..] && tail == bytes[CHECKSUM..][4..];
    assert Word(other, CHECKSUM) == Word(other[CHECKSUM..], 0) && Word(bytes, CHECKSUM) == Word(bytes[CHECKSUM..], 0);
    HeaderTells(Fold(OFFSET_BASIS, tail), 0, MAGIC, Word(other, SEQUENCE), Word(bytes, SEQUENCE));
  }

  /** So is a changed checksum word. */
  lemma ChecksumRejected(bytes: seq<bv8>, w: bv32)
    requires Frame(bytes) && Accepted(bytes) && w != Word(bytes, CHECKSUM)
    ensures !Accepted(WithWord(bytes, CHECKSUM, w))
  {
  }

  lemma CoveredByteRejected(bytes: seq<bv8>, i: nat, b: bv8)
    requires Frame(bytes) && Accepted(bytes) && COMPUTE_US <= i < SIZE && b != bytes[i]
    ensures !Accepted(bytes[i := b])
  {
    var c, tail := bytes[i := b], bytes[COMPUTE_US..];
    assert c[COMPUTE_US..] == tail[i - COMPUTE_US := b];
    assert Word(c, 0) == Word(bytes, 0) && Word(c, SEQUENCE) == Word(bytes, SEQUENCE);
    assert Word(c, CHECKSUM) == Word(bytes, CHECKSUM);
    OneByteDetected(OFFSET_BASIS, tail, i - COMPUTE_US, b);
    HeaderTells(Fold(OFFSET_BASIS, tail), Fold(OFFSET_BASIS, c[COMPUTE_US..]), MAGIC, Word(bytes, SEQUENCE), 0);
  }

  lemma HeaderByteRejected(bytes: seq<bv8>, i: nat, k: nat, b: bv8)
    requires Frame(bytes) && Accepted(bytes) && i in {0, SEQUENCE, CHECKSUM} && k < 4 && b != bytes[i + k]
    ensures !Accepted(bytes[i + k := b])
  {
    var c := bytes[i + k := b];
    assert c[COMPUTE_US..] == bytes[COMPUTE_US..];
    if i == SEQUENCE {
      assert c[CHECKSUM..] == bytes[CHECKSUM..];
      SequenceRejected(bytes, c);
    }
  }

  /** No single changed byte, anywhere in the frame, goes unnoticed. */
  lemma OneByteRejected(bytes: seq<bv8>, i: nat, b: bv8)
    requires Frame(bytes) && Accepted(bytes) && i < SIZE && b != bytes[i]
    ensures !Accepted(bytes[i := b])
  {
    if COMPUTE_US <= i {
      CoveredByteRejected(bytes, i, b);
    } else {
      var k := if i < SEQUENCE then 0 else if i < CHECKSUM then SEQUENCE else CHECKSUM;
      HeaderByteRejected(bytes, k, i - k, b);
    }
  }
}
