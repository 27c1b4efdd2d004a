/** The 32-bit FNV-1a hash that both the cluster frames and the packet controller use. */
module Fnv {
  const OFFSET_BASIS: bv32 := 2166136261

  /** One step: xor a word in, multiply modulo 2^32. */
  function Step(h: bv32, w: bv32): bv32 {
    (h ^ w) * 16777619
  }

  function Unstep(r: bv32, w: bv32): bv32 {
    (r * 899433627) ^ w
  }

  /** The prime is odd, so multiplying by it modulo 2^32 can be undone; so can the exclusive or.
      Every step is a bijection of the hash state. */
  lemma StepIsBijection(h: bv32, w: bv32)
    ensures Unstep(Step(h, w), w) == h && Step(Unstep(h, w), w) == h
  {
    assert Unstep((h ^ w) * 16777619, w) == h;
    assert Step((h * 899433627) ^ w, w) == h;
  }

  /** ... and it tells any two words apart. */
  lemma StepTellsWords(h: bv32, v: bv32, w: bv32)
    requires Step(h, v) == Step(h, w)
    ensures v == w
  {
    StepIsBijection(v, h);
    StepIsBijection(w, h);
  }

  function Fold(h: bv32, bytes: seq<bv8>): bv32
    decreases |bytes|
  {
    if bytes == [] then h else Fold(Step(h, bytes[0] as bv32), bytes[1..])
  }

  lemma {:induction false} FoldAppend(h: bv32, a: seq<bv8>, b: seq<bv8>)
    ensures Fold(h, a + b) == Fold(Fold(h, a), b)
    decreases |a|
  {
    if a == [] {
      assert a + b == b;
    } else {
      FoldAppend(Step(h, a[0] as bv32), a[1..], b);
      assert (a + b)[1..] == a[1..] + b;
    }
  }

  /** Equal bytes keep different states apart. */
  lemma {:induction false} FoldTellsStates(g: bv32, h: bv32, bytes: seq<bv8>)
    ensures Fold(g, bytes) == Fold(h, bytes) <==> g == h
    decreases |bytes|
  {
    if bytes != [] {
      var w := bytes[0] as bv32;
      FoldTellsStates(Step(g, w), Step(h, w), bytes[1..]);
      StepIsBijection(g, w);
      StepIsBijection(h, w);
    }
  }

  /** One changed byte always changes the hash. */
  lemma OneByteDetected(h: bv32, bytes: seq<bv8>, i: nat, b: bv8)
    requires i < |bytes| && b != bytes[i]
    ensures Fold(h, bytes[i := b]) != Fold(h, bytes)
  {
    var before, after, other := bytes[..i], bytes[i + 1..], bytes[i := b];
    assert bytes == before + ([bytes[i]] + after) && other == before + ([b] + after);
    FoldAppend(h, before, [bytes[i]] + after);
    FoldAppend(h, before, [b] + after);
    var g := Fold(h, before);
    assert ([bytes[i]] + after)[1..] == after && ([b] + after)[1..] == after;
    FoldTellsStates(Step(g, bytes[i] as bv32), Step(g, b as bv32), after);
    if Step(g, bytes[i] as bv32) == Step(g, b as bv32) {
      StepTellsWords(g, bytes[i] as bv32, b as bv32);
    }
  }

  lemma FoldOne(h: bv32, b: bv8)
    ensures Fold(h, [b]) == Step(h, b as bv32)
  {
    assert [b][1..] == [];
  }

  /** The published values of the 32-bit FNV-1a hash: nothing, "a", and "foobar" from its front on. */
  lemma TestVectors()
    ensures Fold(OFFSET_BASIS, []) == 0x811C9DC5 && Fold(OFFSET_BASIS, [0x61]) == 0xE40C292C
    ensures Fold(OFFSET_BASIS, [0x66, 0x6F]) == 0x6222E842
  {
    FoldOne(OFFSET_BASIS, 0x61);
    FoldOne(OFFSET_BASIS, 0x66);
    FoldAppend(OFFSET_BASIS, [0x66], [0x6F]);
    FoldOne(Fold(OFFSET_BASIS, [0x66]), 0x6F);
    assert [0x66, 0x6F] == [0x66] + [0x6F];
  }
}
