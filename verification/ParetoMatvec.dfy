/** The ParetoQ matrix product on the board: a direct loop over packed rows, and the same product
    through a table of 256 entries for every group of four inputs. Sums are over the reals. */
module ParetoMatvec {
  import opened Packers
  import opened Products

  const CODES := 256
  const LANES := 4

  /** How a 16-bit scale is read. */
  type Bf16 = nat -> real

  /** Where a matrix lies in the mapped flash image. */
  datatype Location = Location(codes: nat, low: nat, high: nat, rows: nat, columns: nat, rowBytes: nat)

  type Image = seq<Byte>

  /** Every address the product touches. */
  predicate Mapped(image: Image, m: Location) {
    && m.rowBytes == Groups(m.columns)
    && m.codes + Times(m.rows, m.rowBytes) <= |image|
    && m.low + 2 * m.rows <= |image| && m.high + 2 * m.rows <= |image|
  }

  function Groups(columns: nat): nat {
    (columns + 3) / 4
  }

  function CountIn(columns: nat, group: nat): (count: nat)
    requires group < Groups(columns)
    ensures 0 < count <= LANES && 4 * group + count <= columns
    ensures count == LANES || 4 * group + count == columns
  {
    if columns - 4 * group < 4 then columns - 4 * group else 4
  }

  // ---------------------------------------------------------------- what a code contributes

  /** Codes 0 and 3 are minus and plus the high scale, 1 and 2 minus and plus the low one. */
  function Coef(high: bool, code: nat): real {
    if high then (if code == 0 then -1.0 else if code == 3 then 1.0 else 0.0)
    else (if code == 1 then -1.0 else if code == 2 then 1.0 else 0.0)
  }

  function LaneSum(high: bool, packed: Byte, x: seq<real>, first: nat, n: nat): real
    requires first + n <= |x| && n <= LANES
  {
    if n == 0 then 0.0
    else LaneSum(high, packed, x, first, n - 1) + Coef(high, Lane(packed, n - 1)) * x[first + n - 1]
  }

  /** The sum over the first `groups` groups of the row whose codes start at `at`. */
  function GroupSum(high: bool, image: Image, at: nat, x: seq<real>, groups: nat): real
    requires groups <= Groups(|x|) && at + groups <= |image|
  {
    if groups == 0 then 0.0
    else
      GroupSum(high, image, at, x, groups - 1)
      + LaneSum(high, image[at + groups - 1], x, 4 * (groups - 1), CountIn(|x|, groups - 1))
  }

  function RowStart(m: Location, r: nat): nat {
    m.codes + Times(r, m.rowBytes)
  }

  lemma RowIsMapped(image: Image, m: Location, r: nat)
    requires Mapped(image, m) && r < m.rows
    ensures RowStart(m, r) + m.rowBytes <= |image|
  {
    TimesMono(r + 1, m.rows, m.rowBytes);
  }

  /** The value of output row `r`. */
  function RowOut(value: Bf16, image: Image, m: Location, x: seq<real>, r: nat): real
    requires Mapped(image, m) && |x| == m.columns && r < m.rows
  {
    RowIsMapped(image, m, r);
    Scaled(value, image, m, r,
      GroupSum(false, image, RowStart(m, r), x, m.rowBytes),
      GroupSum(true, image, RowStart(m, r), x, m.rowBytes))
  }

  /** The two sums of a row under its two scales. */
  function Scaled(value: Bf16, image: Image, m: Location, r: nat, low: real, high: real): real
    requires Mapped(image, m) && r < m.rows
  {
    Combine(low, value(WordAt(image, m.low + 2 * r)), high, value(WordAt(image, m.high + 2 * r)))
  }

  function Combine(low: real, lowScale: real, high: real, highScale: real): real {
    low * lowScale + high * highScale
  }

  /** The whole product. */
  function Out(value: Bf16, image: Image, m: Location, x: seq<real>): (y: seq<real>)
    requires Mapped(image, m) && |x| == m.columns
    ensures |y| == m.rows
  {
    seq(m.rows, r requires 0 <= r < m.rows && Mapped(image, m) && |x| == m.columns => RowOut(value, image, m, x, r))
  }

  // ---------------------------------------------------------------- the regular loop

  method DotGroupRegular(packed: Byte, x: seq<real>, first: nat, count: nat, low: real, high: real)
    returns (lowSum: real, highSum: real)
    requires first + count <= |x| && count <= LANES
    ensures lowSum == low + LaneSum(false, packed, x, first, count)
    ensures highSum == high + LaneSum(true, packed, x, first, count)
  {
    lowSum, highSum := low, high;
    for lane := 0 to count
      invariant lowSum == low + LaneSum(false, packed, x, first, lane)
      invariant highSum == high + LaneSum(true, packed, x, first, lane)
    {
      var code := Lane(packed, lane);
      if code == 0 {
        highSum := highSum - x[first + lane];
      } else if code == 1 {
        lowSum := lowSum - x[first + lane];
      } else if code == 2 {
        lowSum := lowSum + x[first + lane];
      } else {
        highSum := highSum + x[first + lane];
      }
    }
  }

  /** The two sums of the row whose codes start at `at`. */
  method SumsRegular(image: Image, at: nat, x: seq<real>) returns (lowSum: real, highSum: real)
    requires at + Groups(|x|) <= |image|
    ensures lowSum == GroupSum(false, image, at, x, Groups(|x|))
    ensures highSum == GroupSum(true, image, at, x, Groups(|x|))
  {
    var groups := (|x| + LANES - 1) / LANES;
    lowSum, highSum := 0.0, 0.0;
    for group := 0 to groups
      invariant lowSum == GroupSum(false, image, at, x, group)
      invariant highSum == GroupSum(true, image, at, x, group)
    {
      var first := group * LANES;
      var remaining := |x| - first;
      var count := if remaining < LANES then remaining else LANES;
      lowSum, highSum := DotGroupRegular(image[at + group], x, first, count, lowSum, highSum);
    }
  }

  method RowRegular(value: Bf16, image: Image, m: Location, x: seq<real>, row: nat) returns (y: real)
    requires Mapped(image, m) && |x| == m.columns && row < m.rows
    ensures y == RowOut(value, image, m, x, row)
  {
    RowIsMapped(image, m, row);
    TimesIs(row, m.rowBytes);
    var lowSum, highSum := SumsRegular(image, m.codes + row * m.rowBytes, x);
    y := Scaled(value, image, m, row, lowSum, highSum);
  }

  method MatvecRegularRows(value: Bf16, image: Image, m: Location, x: seq<real>, output: array<real>, begin: nat,
                           end: nat)
    requires Mapped(image, m) && |x| == m.columns && m.rows <= output.Length
    modifies output
    ensures forall r | 0 <= r < m.rows && begin <= r < end :: output[r] == RowOut(value, image, m, x, r)
    ensures forall r | 0 <= r < output.Length && !(begin <= r < end && r < m.rows) :: output[r] == old(output[r])
  {
    var last := if end > m.rows then m.rows else end;
    var row := begin;
    while row < last
      invariant begin <= row && (row <= last || row == begin)
      invariant forall r | begin <= r < row && r < m.rows :: output[r] == RowOut(value, image, m, x, r)
      invariant forall r | 0 <= r < output.Length && !(begin <= r < row && r < m.rows) :: output[r] == old(output[r])
    {
      output[row] := RowRegular(value, image, m, x, row);
      row := row + 1;
    }
  }

  method MatvecRegular(value: Bf16, image: Image, m: Location, x: seq<real>, output: array<real>)
    requires Mapped(image, m) && |x| == m.columns && m.rows <= output.Length
    modifies output
    ensures output[..m.rows] == Out(value, image, m, x)
    ensures output[m.rows..] == old(output[m.rows..])
  {
    MatvecRegularRows(value, image, m, x, output, 0, m.rows);
  }

  ghost predicate Covered(ranges: seq<(nat, nat)>, r: nat) {
    exists k :: 0 <= k < |ranges| && ranges[k].0 <= r < ranges[k].1
  }

  /** An executor that hands out row ranges, in any order and with any overlap, as long as they
      cover the rows. */
  method MatvecRanges(value: Bf16, image: Image, m: Location, x: seq<real>, output: array<real>,
                      ranges: seq<(nat, nat)>)
    requires Mapped(image, m) && |x| == m.columns && m.rows <= output.Length
    requires forall r: nat | r < m.rows :: Covered(ranges, r)
    modifies output
    ensures output[..m.rows] == Out(value, image, m, x)
  {
    ghost var y := Out(value, image, m, x);
    for i := 0 to |ranges|
      invariant forall r: nat | r < m.rows && Covered(ranges[..i], r) :: output[r] == y[r]
    {
      ghost var before := output[..];
      MatvecRegularRows(value, image, m, x, output, ranges[i].0, ranges[i].1);
      forall r: nat | r < m.rows && Covered(ranges[..i + 1], r) ensures output[r] == y[r] {
        CoveredBefore(ranges, i, r);
        assert before[r] == y[r] || ranges[i].0 <= r < ranges[i].1;
      }
    }
    assert ranges[..|ranges|] == ranges;
  }

  lemma CoveredBefore(ranges: seq<(nat, nat)>, i: nat, r: nat)
    requires i < |ranges| && Covered(ranges[..i + 1], r)
    ensures Covered(ranges[..i], r) || ranges[i].0 <= r < ranges[i].1
  {
    var k :| 0 <= k < i + 1 && ranges[..i + 1][k].0 <= r < ranges[..i + 1][k].1;
    if k < i {
      assert ranges[..i][k] == ranges[k];
    }
  }

  // ---------------------------------------------------------------- the table

  /** Entry `i` of the table: group, code and scale are packed into the index. */
  function Entry(x: seq<real>, i: nat): real
    requires i / 512 < Groups(|x|)
  {
    LaneSum(i % 2 == 1, i / 2 % CODES, x, 4 * (i / 512), CountIn(|x|, i / 512))
  }

  ghost predicate IsTable(x: seq<real>, table: seq<real>) {
    512 * Groups(|x|) <= |table| && forall i | 0 <= i < 512 * Groups(|x|) :: table[i] == Entry(x, i)
  }

  lemma IndexParts(group: nat, code: nat, high: nat)
    requires code < CODES && high < 2
    ensures var i := (group * CODES + code) * 2 + high;
            i / 512 == group && i / 2 % CODES == code && i % 2 == high
  {
    var i := (group * CODES + code) * 2 + high;
    assert i / 2 == group * CODES + code;
  }

  lemma EntryIs(x: seq<real>, group: nat, code: Byte)
    requires group < Groups(|x|)
    ensures var i := (group * CODES + code) * 2;
            && i / 512 < Groups(|x|) && Entry(x, i) == LaneSum(false, code, x, 4 * group, CountIn(|x|, group))
            && (i + 1) / 512 < Groups(|x|) && Entry(x, i + 1) == LaneSum(true, code, x, 4 * group, CountIn(|x|, group))
  {
    IndexParts(group, code, 0);
    IndexParts(group, code, 1);
  }

  method InitWeightLut(lut: array2<nat>)
    requires lut.Length0 == CODES && lut.Length1 == LANES
    modifies lut
    ensures forall code, lane | 0 <= code < CODES && 0 <= lane < LANES :: lut[code, lane] == Lane(code, lane)
  {
    for code := 0 to CODES
      invariant forall c, l | 0 <= c < code && 0 <= l < LANES :: lut[c, l] == Lane(c, l)
    {
      for lane := 0 to LANES
        invariant forall c, l | 0 <= c < code && 0 <= l < LANES :: lut[c, l] == Lane(c, l)
        invariant forall l | 0 <= l < lane :: lut[code, l] == Lane(code, l)
      {
        lut[code, lane] := Lane(code, lane);
      }
    }
  }

  method DotGroupLut(lut: array2<nat>, code: Byte, x: seq<real>, first: nat, count: nat)
    returns (lowSum: real, highSum: real)
    requires lut.Length0 == CODES && lut.Length1 == LANES
    requires forall lane | 0 <= lane < LANES :: lut[code, lane] == Lane(code, lane)
    requires first + count <= |x| && count <= LANES
    ensures lowSum == LaneSum(false, code, x, first, count)
    ensures highSum == LaneSum(true, code, x, first, count)
  {
    lowSum, highSum := 0.0, 0.0;
    for lane := 0 to count
      invariant lowSum == LaneSum(false, code, x, first, lane)
      invariant highSum == LaneSum(true, code, x, first, lane)
    {
      var c := lut[code, lane];
      if c == 0 {
        highSum := highSum - x[first + lane];
      } else if c == 1 {
        lowSum := lowSum - x[first + lane];
      } else if c == 2 {
        lowSum := lowSum + x[first + lane];
      } else {
        highSum := highSum + x[first + lane];
      }
    }
  }

  method BuildDotLookup(x: seq<real>, lut: array2<nat>, table: array<real>)
    requires lut.Length0 == CODES && lut.Length1 == LANES && 512 * Groups(|x|) <= table.Length
    requires forall code, lane | 0 <= code < CODES && 0 <= lane < LANES :: lut[code, lane] == Lane(code, lane)
    modifies table
    ensures IsTable(x, table[..])
  {
    var groups := Groups(|x|);
    for group := 0 to groups
      invariant forall i | 0 <= i < 512 * group :: table[i] == Entry(x, i)
    {
      var first := group * LANES;
      var remaining := |x| - first;
      var count := if remaining < LANES then remaining else LANES;
      for code := 0 to CODES
        invariant forall i | 0 <= i < 512 * group + 2 * code :: table[i] == Entry(x, i)
      {
        var lowSum, highSum := DotGroupLut(lut, code, x, first, count);
        EntryIs(x, group, code);
        table[512 * group + code * 2] := lowSum;
        table[512 * group + code * 2 + 1] := highSum;
      }
    }
  }

  method SumsFast(image: Image, at: nat, x: seq<real>, table: array<real>) returns (lowSum: real, highSum: real)
    requires at + Groups(|x|) <= |image| && IsTable(x, table[..])
    ensures lowSum == GroupSum(false, image, at, x, Groups(|x|))
    ensures highSum == GroupSum(true, image, at, x, Groups(|x|))
  {
    var groups := (|x| + LANES - 1) / LANES;
    lowSum, highSum := 0.0, 0.0;
    for group := 0 to groups
      invariant lowSum == GroupSum(false, image, at, x, group)
      invariant highSum == GroupSum(true, image, at, x, group)
    {
      var code := image[at + group];
      var index := (group * CODES + code) * 2;
      EntryIs(x, group, code);
      assert table[..][index] == Entry(x, index) && table[..][index + 1] == Entry(x, index + 1);
      lowSum := lowSum + table[index];
      highSum := highSum + table[index + 1];
    }
  }

  method RowFast(value: Bf16, image: Image, m: Location, x: seq<real>, table: array<real>, row: nat) returns (y: real)
    requires Mapped(image, m) && |x| == m.columns && row < m.rows && IsTable(x, table[..])
    ensures y == RowOut(value, image, m, x, row)
  {
    RowIsMapped(image, m, row);
    TimesIs(row, m.rowBytes);
    var lowSum, highSum := SumsFast(image, m.codes + row * m.rowBytes, x, table);
    y := Scaled(value, image, m, row, lowSum, highSum);
  }

  /** The product through the table is the product of the direct loop, for any number of columns. */
  method MatvecFast(value: Bf16, image: Image, m: Location, x: seq<real>, table: array<real>, output: array<real>)
    requires Mapped(image, m) && |x| == m.columns && m.rows <= output.Length
    requires table != output && IsTable(x, table[..])
    modifies output
    ensures output[..m.rows] == Out(value, image, m, x)
    ensures output[m.rows..] == old(output[m.rows..])
  {
    for row := 0 to m.rows
      invariant forall r | 0 <= r < row :: output[r] == RowOut(value, image, m, x, r)
      invariant forall r | row <= r < output.Length :: output[r] == old(output[r])
    {
      output[row] := RowFast(value, image, m, x, table, row);
    }
  }
}
