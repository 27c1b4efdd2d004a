/** The shard files of the exporter: aligned regions in `layers.bin`, the split of the vocabulary
    between flash and PSRAM, and the vocabulary ranges of the nodes. */
module ShardFile {
  import opened Options
  import opened Packers
  import opened Sequences

  const ALIGNMENT := 64
  const SECTOR := 4096

  type Contents = seq<Byte>

  // ---------------------------------------------------------------- regions

  datatype Region = Region(offset: nat, size: nat)

  function Padding(n: nat): (p: nat)
    ensures p < ALIGNMENT && (n + p) % ALIGNMENT == 0
  {
    var over := n % ALIGNMENT;
    if over == 0 then 0 else ALIGNMENT - over
  }

  function Start(file: Contents): nat {
    |file| + Padding(|file|)
  }

  function Zeros(n: nat): (z: Contents)
    ensures |z| == n && forall i | 0 <= i < n :: z[i] == 0
  {
    seq(n, _ => 0)
  }

  /** The file after one aligned write. */
  function Extend(file: Contents, payload: seq<Byte>): (next: Contents)
    ensures |next| == Start(file) + |payload|
    ensures next[..|file|] == file && next[Start(file)..] == payload
    ensures forall i | |file| <= i < Start(file) :: next[i] == 0
  {
    (file + Zeros(Padding(|file|))) + payload
  }

  function WriteAll(file: Contents, payloads: seq<seq<Byte>>): Contents
    decreases |payloads|
  {
    if payloads == [] then file else WriteAll(Extend(file, payloads[0]), payloads[1..])
  }

  function Regions(file: Contents, payloads: seq<seq<Byte>>): (rs: seq<Region>)
    ensures |rs| == |payloads|
    decreases |payloads|
  {
    if payloads == [] then []
    else [Region(Start(file), |payloads[0]|)] + Regions(Extend(file, payloads[0]), payloads[1..])
  }

  /** None is the short read. */
  function ReadSlice(file: Contents, offset: nat, size: nat): (payload: Option<seq<Byte>>) {
    var available := if offset < |file| then |file| - offset else 0;
    if available < size then None else if size == 0 then Some([]) else Some(file[offset..offset + size])
  }

  class Stream {
    var bytes: Contents

    constructor ()
      ensures bytes == []
    {
      bytes := [];
    }

    method AlignedWrite(payload: seq<Byte>) returns (r: Region)
      modifies this
      ensures bytes == Extend(old(bytes), payload)
      ensures r == Region(Start(old(bytes)), |payload|)
    {
      var padding := Padding(|bytes|);
      if padding != 0 {
        bytes := bytes + Zeros(padding);
      }
      var offset := |bytes|;
      bytes := bytes + payload;
      r := Region(offset, |payload|);
    }

    method ExportAll(payloads: seq<seq<Byte>>) returns (rs: seq<Region>)
      modifies this
      ensures bytes == WriteAll(old(bytes), payloads) && rs == Regions(old(bytes), payloads)
    {
      rs := [];
      assert payloads[0..] == payloads;
      for i := 0 to |payloads|
        invariant WriteAll(bytes, payloads[i..]) == WriteAll(old(bytes), payloads)
        invariant rs + Regions(bytes, payloads[i..]) == Regions(old(bytes), payloads)
      {
        ghost var rest := payloads[i..];
        assert rest[0] == payloads[i] && rest[1..] == payloads[i + 1..];
        ghost var before := bytes;
        var r := AlignedWrite(payloads[i]);
        assert rs + ([r] + Regions(bytes, payloads[i + 1..])) == (rs + [r]) + Regions(bytes, payloads[i + 1..]);
        rs := rs + [r];
      }
      assert rs + [] == rs;
    }
  }

  lemma {:induction false} WritesExtend(file: Contents, payloads: seq<seq<Byte>>)
    ensures |file| <= |WriteAll(file, payloads)| && WriteAll(file, payloads)[..|file|] == file
    decreases |payloads|
  {
    if payloads != [] {
      var next := Extend(file, payloads[0]);
      WritesExtend(next, payloads[1..]);
      assert file == next[..|file|] == WriteAll(file, payloads)[..|next|][..|file|];
    }
  }

  /** Where the data in front of region `i` ends. */
  function EndBefore(start: nat, rs: seq<Region>, i: nat): nat
    requires i < |rs|
  {
    if i == 0 then start else rs[i - 1].offset + rs[i - 1].size
  }

  /** Every region starts at the first multiple of 64 behind the one in front. */
  lemma {:induction false} RegionsAre(file: Contents, payloads: seq<seq<Byte>>, i: nat)
    requires i < |payloads|
    ensures var rs := Regions(file, payloads);
            && rs[i].size == |payloads[i]| && rs[i].offset % 64 == 0
            && EndBefore(|file|, rs, i) <= rs[i].offset < EndBefore(|file|, rs, i) + 64
    decreases i
  {
    if i != 0 {
      var next, rs := Extend(file, payloads[0]), Regions(file, payloads);
      RegionsAre(next, payloads[1..], i - 1);
      assert rs[1..] == Regions(next, payloads[1..]);
      assert EndBefore(|next|, rs[1..], i - 1) == EndBefore(|file|, rs, i);
    }
  }

  /** Regions start on 64-byte boundaries, one behind the other, and none reaches into the next. */
  lemma {:induction false} RegionsAreDisjoint(file: Contents, payloads: seq<seq<Byte>>)
    ensures var rs := Regions(file, payloads);
            && (forall i | 0 <= i < |rs| :: |file| <= rs[i].offset && rs[i].offset % ALIGNMENT == 0)
            && forall i, j | 0 <= i < j < |rs| :: rs[i].offset + rs[i].size <= rs[j].offset
    decreases |payloads|
  {
    if payloads != [] {
      RegionsAreDisjoint(Extend(file, payloads[0]), payloads[1..]);
      var rs := Regions(file, payloads);
      assert rs[1..] == Regions(Extend(file, payloads[0]), payloads[1..]);
      forall j | 1 <= j < |rs| ensures rs[0].offset + rs[0].size <= rs[j].offset {
        assert rs[j] == rs[1..][j - 1];
      }
      forall i, j | 1 <= i < j < |rs| ensures rs[i].offset + rs[i].size <= rs[j].offset {
        assert rs[i] == rs[1..][i - 1] && rs[j] == rs[1..][j - 1];
      }
    }
  }

  /** Whatever is written later, every payload reads back from the finished file. */
  lemma {:induction false} RegionsReadBack(file: Contents, payloads: seq<seq<Byte>>, i: nat)
    requires i < |payloads|
    ensures var r := Regions(file, payloads)[i];
            ReadSlice(WriteAll(file, payloads), r.offset, r.size) == Some(payloads[i])
    decreases |payloads|
  {
    var next, final := Extend(file, payloads[0]), WriteAll(file, payloads);
    if i == 0 {
      WritesExtend(next, payloads[1..]);
      var at, n := Start(file), |payloads[0]|;
      assert final[at..at + n] == final[..|next|][at..] == next[at..] == payloads[0];
    } else {
      RegionsReadBack(next, payloads[1..], i - 1);
    }
  }

  // ---------------------------------------------------------------- flash and PSRAM

  function VocabOffset(layerBytes: nat): (offset: nat)
    ensures layerBytes <= offset < layerBytes + 4096 && offset % 4096 == 0
  {
    (layerBytes + SECTOR - 1) / SECTOR * SECTOR
  }

  datatype Split = OverBudget | CapacityFailed | Fits(flashRows: nat, psramRows: nat)

  function FlashRows(budget: nat, rowBytes: nat, count: nat): (rows: nat)
    requires 0 < rowBytes
    ensures rows <= count
  {
    if count <= budget / rowBytes then count else budget / rowBytes
  }

  /** The flash part of a node's checks, in the exporter's order. */
  function SplitRows(layerBytes: nat, partition: nat, reserve: nat, rowBytes: nat, count: nat): (s: Split)
    requires 0 < rowBytes
  {
    var offset := VocabOffset(layerBytes);
    if partition - reserve - offset < 0 then OverBudget
    else
      var flashRows := FlashRows(partition - reserve - offset, rowBytes, count);
      if offset + flashRows * rowBytes + reserve > partition then CapacityFailed
      else Fits(flashRows, count - flashRows)
  }

  lemma RowsMono(a: nat, b: nat, k: nat)
    requires a <= b
    ensures a * k <= b * k
  {
  }

  /** The split takes the most rows that fit, so behind the budget check the capacity check can
      never fail. */
  lemma FlashRowsAreMost(layerBytes: nat, partition: nat, reserve: nat, rowBytes: nat, count: nat)
    requires 0 < rowBytes
    ensures var s, offset := SplitRows(layerBytes, partition, reserve, rowBytes, count), VocabOffset(layerBytes);
            && !s.CapacityFailed?
            && (s.OverBudget? <==> offset + reserve > partition)
            && (s.Fits? ==>
                  && s.flashRows + s.psramRows == count
                  && offset + s.flashRows * rowBytes + reserve <= partition
                  && forall k: nat | s.flashRows < k <= count :: offset + k * rowBytes + reserve > partition)
  {
    var offset := VocabOffset(layerBytes);
    if offset + reserve <= partition {
      var budget: nat := partition - reserve - offset;
      var most := budget / rowBytes;
      RowsMono(FlashRows(budget, rowBytes, count), most, rowBytes);
      forall k: nat | most < k ensures budget < k * rowBytes {
        RowsMono(most + 1, k, rowBytes);
      }
    }
  }

  /** A shard that is cut anywhere is whole again, byte for byte. */
  lemma CutIsWhole(shard: seq<seq<Word16>>, rows: nat)
    requires rows <= |shard|
    ensures WordBytes(Flatten(shard[..rows])) + WordBytes(Flatten(shard[rows..])) == WordBytes(Flatten(shard))
  {
    assert shard == shard[..rows] + shard[rows..];
    FlattenAppend(shard[..rows], shard[rows..]);
    WordBytesAppend(Flatten(shard[..rows]), Flatten(shard[rows..]));
  }

  /** The flash file of a node followed by its PSRAM file is its shard, byte for byte, when the split
      is the one computed for the node. */
  lemma ShardIsWhole(embedding: seq<seq<Word16>>, first: nat, count: nat, layerBytes: nat, partition: nat, reserve: nat,
                     rowBytes: nat)
    requires first + count <= |embedding| && 0 < rowBytes
    ensures var shard, s := embedding[first..first + count], SplitRows(layerBytes, partition, reserve, rowBytes, count);
            s.Fits? ==>
              && |shard[..s.flashRows]| == s.flashRows && |shard[s.flashRows..]| == s.psramRows
              && WordBytes(Flatten(shard[..s.flashRows])) + WordBytes(Flatten(shard[s.flashRows..]))
              == WordBytes(Flatten(shard))
  {
    var shard, s := embedding[first..first + count], SplitRows(layerBytes, partition, reserve, rowBytes, count);
    if s.Fits? {
      CutIsWhole(shard, s.flashRows);
    }
  }

  // ---------------------------------------------------------------- vocabulary ranges

  datatype Range = Range(first: int, count: int)

  function Sum(nodes: seq<Range>): int {
    if nodes == [] then 0 else Sum(nodes[..|nodes| - 1]) + nodes[|nodes| - 1].count
  }

  predicate Contiguous(nodes: seq<Range>) {
    forall i | 0 <= i < |nodes| :: nodes[i].first == Sum(nodes[..i])
  }

  method TotalCount(nodes: seq<Range>) returns (sum: int)
    ensures sum == Sum(nodes)
  {
    sum := 0;
    for i := 0 to |nodes|
      invariant sum == Sum(nodes[..i])
    {
      assert nodes[..i + 1][..i] == nodes[..i];
      sum := sum + nodes[i].count;
    }
    assert nodes[..|nodes|] == nodes;
  }

  method AreContiguous(nodes: seq<Range>) returns (ok: bool)
    ensures ok <==> Contiguous(nodes)
  {
    var expected := 0;
    for i := 0 to |nodes|
      invariant expected == Sum(nodes[..i])
      invariant forall j | 0 <= j < i :: nodes[j].first == Sum(nodes[..j])
    {
      if nodes[i].first != expected {
        return false;
      }
      assert nodes[..i + 1][..i] == nodes[..i];
      expected := expected + nodes[i].count;
    }
    return true;
  }

  /** The two checks before anything is exported. */
  method CheckRanges(nodes: seq<Range>, total: int) returns (ok: bool)
    ensures ok <==> Sum(nodes) == total && Contiguous(nodes)
  {
    var sum := TotalCount(nodes);
    if sum != total {
      return false;
    }
    ok := AreContiguous(nodes);
  }

  predicate Owns(r: Range, id: int) {
    r.first <= id < r.first + r.count
  }

  predicate Owned(nodes: seq<Range>, id: int) {
    exists i :: 0 <= i < |nodes| && Owns(nodes[i], id)
  }

  /** Between two sums every level is owned on the way up. */
  lemma {:induction false} UpStep(nodes: seq<Range>, a: nat, b: nat, id: int) returns (i: nat)
    requires a <= b <= |nodes| && Contiguous(nodes) && Sum(nodes[..a]) <= id < Sum(nodes[..b])
    ensures a <= i < b && Owns(nodes[i], id)
    decreases b
  {
    i := b - 1;
    assert nodes[..b][..b - 1] == nodes[..b - 1];
    if id < Sum(nodes[..b - 1]) {
      i := UpStep(nodes, a, b - 1, id);
    }
  }

  lemma {:induction false} SumMono(nodes: seq<Range>, a: nat, b: nat)
    requires a <= b <= |nodes| && forall k | 0 <= k < |nodes| :: 0 <= nodes[k].count
    ensures Sum(nodes[..a]) <= Sum(nodes[..b])
    decreases b
  {
    if a < b {
      SumMono(nodes, a, b - 1);
      assert nodes[..b][..b - 1] == nodes[..b - 1];
    }
  }

  lemma OwnedInside(nodes: seq<Range>, i: nat, id: int)
    requires i < |nodes| && Contiguous(nodes) && forall k | 0 <= k < |nodes| :: 0 <= nodes[k].count
    ensures Owns(nodes[i], id) <==> Sum(nodes[..i]) <= id < Sum(nodes[..i + 1])
  {
    assert nodes[..i + 1][..i] == nodes[..i];
  }

  /** Nothing is owned outside the total, and nothing twice. */
  lemma OwnedWithin(nodes: seq<Range>, i: nat, id: int)
    requires i < |nodes| && Contiguous(nodes) && Owns(nodes[i], id)
    requires forall k | 0 <= k < |nodes| :: 0 <= nodes[k].count
    ensures 0 <= id < Sum(nodes)
  {
    assert nodes[..0] == [] && nodes[..|nodes|] == nodes;
    OwnedInside(nodes, i, id);
    SumMono(nodes, 0, i);
    SumMono(nodes, i + 1, |nodes|);
  }

  lemma NotTwice(nodes: seq<Range>, i: nat, j: nat, id: int)
    requires i < j < |nodes| && Contiguous(nodes) && forall k | 0 <= k < |nodes| :: 0 <= nodes[k].count
    ensures !(Owns(nodes[i], id) && Owns(nodes[j], id))
  {
    OwnedInside(nodes, i, id);
    OwnedInside(nodes, j, id);
    SumMono(nodes, i + 1, j);
  }

  lemma OwnedSomewhere(nodes: seq<Range>, id: int)
    requires Contiguous(nodes) && 0 <= id < Sum(nodes)
    ensures Owned(nodes, id)
  {
    assert nodes[..0] == [] && nodes[..|nodes|] == nodes;
    var i := UpStep(nodes, 0, |nodes|, id);
  }

  /** Behind the checks every vocabulary id belongs to exactly one node. */
  lemma OneOwner(nodes: seq<Range>, total: int, id: int)
    requires Sum(nodes) == total && Contiguous(nodes) && forall k | 0 <= k < |nodes| :: 0 <= nodes[k].count
    ensures Owned(nodes, id) <==> 0 <= id < total
    ensures forall i, j | 0 <= i < j < |nodes| :: !(Owns(nodes[i], id) && Owns(nodes[j], id))
  {
    if 0 <= id < total {
      OwnedSomewhere(nodes, id);
    } else if Owned(nodes, id) {
      var i :| 0 <= i < |nodes| && Owns(nodes[i], id);
      OwnedWithin(nodes, i, id);
    }
    forall i, j | 0 <= i < j < |nodes| ensures !(Owns(nodes[i], id) && Owns(nodes[j], id)) {
      NotTwice(nodes, i, j, id);
    }
  }

  /** Every id of the vocabulary belongs to one node, no other id to any, and none to two. */
  ghost predicate OwnedOnce(nodes: seq<Range>, total: nat) {
    && (forall id :: Owned(nodes, id) <==> 0 <= id < total)
    && forall id, i, j | 0 <= i < j < |nodes| :: !(Owns(nodes[i], id) && Owns(nodes[j], id))
  }

  /** A negative count leaves an id without its one owner, or gives an owner to an id outside. */
  lemma NegativeBreaks(nodes: seq<Range>, total: nat, k: nat)
    requires Contiguous(nodes) && Sum(nodes) == total && k < |nodes| && nodes[k].count < 0
    ensures !OwnedOnce(nodes, total)
  {
    var n := |nodes|;
    var before, after := Sum(nodes[..k]), Sum(nodes[..k + 1]);
    assert nodes[..n] == nodes && nodes[..0] == [];
    assert nodes[..k + 1][..k] == nodes[..k];
    if before > total {
      var i := UpStep(nodes, 0, k, total);
      assert Owned(nodes, total);
    } else if after < 0 {
      var i := UpStep(nodes, k + 1, n, -1);
      assert Owned(nodes, -1);
    } else {
      var i := UpStep(nodes, 0, k, after);
      var j := UpStep(nodes, k + 1, n, after);
    }
  }

  /** Behind the two checks the vocabulary is owned once exactly when no count is negative. The checks
      themselves do not look at the sign of a count. */
  lemma OwnedOnceIff(nodes: seq<Range>, total: nat)
    requires Contiguous(nodes) && Sum(nodes) == total
    ensures OwnedOnce(nodes, total) <==> forall k | 0 <= k < |nodes| :: 0 <= nodes[k].count
  {
    if k :| 0 <= k < |nodes| && nodes[k].count < 0 {
      NegativeBreaks(nodes, total, k);
    } else {
      OwnedAsSummed(nodes, total);
    }
  }

  lemma OwnedAsSummed(nodes: seq<Range>, total: nat)
    requires Sum(nodes) == total && Contiguous(nodes) && forall k | 0 <= k < |nodes| :: 0 <= nodes[k].count
    ensures OwnedOnce(nodes, total)
  {
    forall id ensures Owned(nodes, id) <==> 0 <= id < total {
      OneOwner(nodes, total, id);
    }
    forall id, i, j | 0 <= i < j < |nodes| ensures !(Owns(nodes[i], id) && Owns(nodes[j], id)) {
      OneOwner(nodes, total, id);
    }
  }

  /** Three ranges that pass the checks, with one id in two of them. */
  lemma NegativeCountOverlaps()
    ensures var nodes := [Range(0, 5), Range(5, -2), Range(3, 1)];
            Contiguous(nodes) && Sum(nodes) == 4 && Owns(nodes[0], 3) && Owns(nodes[2], 3)
  {
    var a, b, c := Range(0, 5), Range(5, -2), Range(3, 1);
    SumOfThree(a, b, c);
    var nodes := [a, b, c];
    assert nodes[..0] == [] && nodes[..1] == [a] && nodes[..2] == [a, b];
  }

  lemma SumOfThree(a: Range, b: Range, c: Range)
    ensures Sum([a]) == a.count && Sum([a, b]) == a.count + b.count && Sum([a, b, c]) == a.count + b.count + c.count
  {
    assert [a][..0] == [] && [a, b][..1] == [a] && [a, b, c][..2] == [a, b];
  }
}
