/** Exactly which matrix shapes survive the way from the packer, which runs on over row ends, to the
    board, which starts every row on a whole byte. */
module ParetoAlignment {
  import opened Options
  import opened Packers
  import opened Products
  import opened Reals
  import opened ShardFile
  import opened ParetoMatvec
  import opened ParetoExport

  /** A shard file with nothing but this matrix. */
  function Payloads(f: Format, w: seq<Row>): (ps: seq<seq<Byte>>)
    requires Accepted(f, w)
    ensures |ps| == 3
  {
    var p := PackMatrix(f, w).value;
    [p.codes, p.low, p.high]
  }

  function FileOf(f: Format, w: seq<Row>): Image
    requires Accepted(f, w)
  {
    WriteAll([], Payloads(f, w))
  }

  function LocationOf(f: Format, w: seq<Row>, columns: nat): Location
    requires Accepted(f, w)
  {
    var rs := Regions([], Payloads(f, w));
    Locate(rs[0], rs[1], rs[2], |w|, columns)
  }

  lemma FileHolds(f: Format, w: seq<Row>, columns: nat)
    requires Accepted(f, w)
    ensures Holds(FileOf(f, w), LocationOf(f, w, columns), PackMatrix(f, w).value, |w|, columns)
    ensures LocationOf(f, w, columns).codes == 0
  {
    var ps := Payloads(f, w);
    assert ps[0..3] == ps;
    ExportedHolds([], ps, 0, PackMatrix(f, w).value, |w|, columns);
  }

  lemma {:induction false} RowBytesFit(rows: nat, columns: nat)
    ensures 4 * Times(rows, Groups(columns)) <= Times(rows, columns) + 3 * rows
  {
    if rows != 0 {
      RowBytesFit(rows - 1, columns);
    }
  }

  /** Whatever the shape, the board stays inside the file. */
  lemma FileIsMapped(f: Format, w: seq<Row>, columns: nat)
    requires Accepted(f, w) && Shaped(w, columns) && w != []
    ensures Mapped(FileOf(f, w), LocationOf(f, w, columns))
  {
    var image, m, p := FileOf(f, w), LocationOf(f, w, columns), PackMatrix(f, w).value;
    FileHolds(f, w, columns);
    CodesLength(w, columns);
    RowBytesFit(|w|, columns);
    RegionsAreDisjoint([], Payloads(f, w));
    RegionSizes([], Payloads(f, w), 0);
    ScaleInPlace(f, w, columns, image, m, 0);
  }

  ghost predicate ExactFor(f: Format, w: seq<Row>, x: seq<real>)
    requires Shaped(w, |x|) && Accepted(f, w)
  {
    && Mapped(FileOf(f, w), LocationOf(f, w, |x|))
    && Out(f.value, FileOf(f, w), LocationOf(f, w, |x|), x) == Product(w, x)
  }

  /** The board computes the product of every accepted matrix of this shape with every input. */
  ghost predicate ProductsExact(f: Format, rows: nat, columns: nat) {
    forall w: seq<Row>, x: seq<real> | |w| == rows && |x| == columns && Shaped(w, columns) && Accepted(f, w) ::
      ExactFor(f, w, x)
  }

  lemma AlignedProduct(f: Format, w: seq<Row>, x: seq<real>)
    requires w != [] && RowsAligned(|w|, |x|) && Shaped(w, |x|) && Accepted(f, w)
    ensures ExactFor(f, w, x)
  {
    FileHolds(f, w, |x|);
    ExportComputesProduct(f, w, FileOf(f, w), LocationOf(f, w, |x|), x);
  }

  lemma AlignedIsExact(f: Format, rows: nat, columns: nat)
    requires 0 < rows && RowsAligned(rows, columns)
    ensures ProductsExact(f, rows, columns)
  {
    forall w: seq<Row>, x: seq<real> | |w| == rows && |x| == columns && Shaped(w, columns) && Accepted(f, w)
      ensures ExactFor(f, w, x)
    {
      AlignedProduct(f, w, x);
    }
  }

  // ---------------------------------------------------------------- a matrix that goes wrong

  /** Minus one everywhere but for a two, which is in column 0 of row 1 and in column 1 elsewhere. */
  function WitnessRow(columns: nat, r: nat): (row: Row)
    ensures |row| == columns
  {
    seq(columns, c => if c == (if r == 1 then 0 else 1) then 2.0 else -1.0)
  }

  function Witness(rows: nat, columns: nat): (w: seq<Row>)
    ensures |w| == rows && Shaped(w, columns)
  {
    seq(rows, r => if r >= 0 then WitnessRow(columns, r) else [])
  }

  function Unit(columns: nat): (x: seq<real>)
    ensures |x| == columns
  {
    seq(columns, c => if c == 0 then 1.0 else 0.0)
  }

  lemma WitnessLevels(columns: nat, r: nat)
    requires 2 <= columns
    ensures Low(WitnessRow(columns, r)) == 1.0 && High(WitnessRow(columns, r)) == 2.0
    ensures FourLevel(WitnessRow(columns, r))
  {
    var row := WitnessRow(columns, r);
    var c, d := Magnitudes(row);
    var two := if r == 1 then 0 else 1;
    assert Abs(row[two]) == 2.0 && Abs(row[1 - two]) == 1.0;
  }

  /** One and two are bfloat16 values. */
  predicate OneAndTwo(f: Format) {
    f.value(f.word(1.0)) == 1.0 && f.value(f.word(2.0)) == 2.0
  }

  lemma WitnessAccepted(f: Format, rows: nat, columns: nat)
    requires OneAndTwo(f) && 2 <= columns
    ensures Accepted(f, Witness(rows, columns))
  {
    var w := Witness(rows, columns);
    forall r | 0 <= r < rows ensures RowAccepted(f, w[r]) {
      WitnessLevels(columns, r);
      LosslessIff(f, w[r]);
    }
  }

  lemma {:induction false} DotUnit(row: Row, n: nat)
    requires 1 <= n <= |row|
    ensures DotTo(row, Unit(|row|), n) == row[0]
  {
    if n == 1 {
      assert DotTo(row, Unit(|row|), 0) == 0.0;
    } else {
      DotUnit(row, n - 1);
      assert Unit(|row|)[n - 1] == 0.0;
    }
  }

  /** The code read for column 0 of row 1 belongs to another entry, or to the padding. */
  lemma WrongCode(f: Format, rows: nat, columns: nat)
    requires OneAndTwo(f) && 2 <= rows && 2 <= columns && columns % 4 != 0
    requires Accepted(f, Witness(rows, columns))
    ensures Groups(columns) < |FileOf(f, Witness(rows, columns))|
    ensures ReadCode(FileOf(f, Witness(rows, columns)), Groups(columns), 0) != 3
  {
    var w := Witness(rows, columns);
    var image, packed, at := FileOf(f, w), PackMatrix(f, w).value.codes, Groups(columns);
    FileHolds(f, w, columns);
    CodesLength(w, columns);
    TimesMono(2, rows, columns);
    if at < |packed| {
      CodeBehindRow(w, image, packed, at);
      WitnessCode(rows, columns);
    } else {
      PaddingIsZero(f, w, at);
    }
  }

  lemma CodeBehindRow(w: seq<Row>, image: Image, packed: seq<Byte>, at: nat)
    requires packed == Pack2(AllCodes(w)).value && ReadSlice(image, 0, |packed|) == Some(packed) && at < |packed|
    ensures at < |image| && ReadCode(image, at, 0) == CodeAt(AllCodes(w), 4 * at)
  {
    SliceAt(image, 0, packed, at);
    PackedLane(AllCodes(w), 4 * at);
  }

  /** Up to the first alignment boundary a short first payload is followed by zeros. */
  lemma FirstGapIsZero(a: seq<Byte>, b: seq<Byte>, c: seq<Byte>, at: nat)
    requires 0 < |a| <= at < ALIGNMENT
    ensures var file := WriteAll([], [a, b, c]); at < |file| && file[at] == 0
  {
    assert Extend([], a) == a;
    var second := Extend(a, b);
    assert WriteAll([], [a, b, c]) == WriteAll(a, [b, c]) == WriteAll(second, [c]) == Extend(second, c);
    assert second[at] == 0;
    assert Extend(second, c)[..|second|][at] == second[at];
  }

  /** Behind the codes of the smallest matrices comes zero padding. */
  lemma PaddingIsZero(f: Format, w: seq<Row>, at: nat)
    requires Accepted(f, w) && 0 < |PackMatrix(f, w).value.codes| <= at < ALIGNMENT
    ensures at < |FileOf(f, w)| && FileOf(f, w)[at] == 0
  {
    var p := PackMatrix(f, w).value;
    FirstGapIsZero(p.codes, p.low, p.high, at);
  }

  /** The entry that the packer put where the board looks for row 1. */
  lemma WitnessCode(rows: nat, columns: nat)
    requires 2 <= rows && 2 <= columns && columns % 4 != 0
    ensures CodeAt(AllCodes(Witness(rows, columns)), 4 * Groups(columns)) != 3
  {
    var w := Witness(rows, columns);
    var i := 4 * Groups(columns);
    CodesLength(w, columns);
    if i < |AllCodes(w)| {
      var r, c := 1, i - columns;
      if columns == 2 {
        r, c := 2, 0;
      }
      WitnessLevels(columns, r);
      CodeOfEntry(w, columns, r, c);
      assert Times(1, columns) == columns && Times(2, columns) == columns + columns;
      assert w[r][c] == -1.0;
    }
  }

  lemma WitnessNotExact(f: Format, w: seq<Row>, x: seq<real>)
    requires OneAndTwo(f) && 2 <= |w| && 2 <= |x| && |x| % 4 != 0
    requires w == Witness(|w|, |x|) && x == Unit(|x|) && Accepted(f, w)
    ensures !ExactFor(f, w, x)
  {
    var image, m := FileOf(f, w), LocationOf(f, w, |x|);
    FileIsMapped(f, w, |x|);
    WitnessOut(f, w, image, m, x);
    DotUnit(w[1], |x|);
    assert Product(w, x)[1] == 2.0;
    assert Out(f.value, image, m, x)[1] != Product(w, x)[1];
  }

  lemma WitnessFails(f: Format, rows: nat, columns: nat)
    requires OneAndTwo(f) && 2 <= rows && 2 <= columns && columns % 4 != 0
    ensures !ProductsExact(f, rows, columns)
  {
    var w, x := Witness(rows, columns), Unit(columns);
    WitnessAccepted(f, rows, columns);
    WitnessNotExact(f, w, x);
  }

  /** The first unit vector picks out the code of column 0. */
  lemma SumOfUnit(high: bool, image: Image, at: nat, x: seq<real>)
    requires at + Groups(|x|) <= |image| && 1 <= |x| && x == Unit(|x|)
    ensures GroupSum(high, image, at, x, Groups(|x|)) == Coef(high, ReadCode(image, at, 0))
  {
    SumIsDot(high, image, at, x);
    DotUnit(CoefRow(high, image, at, |x|), |x|);
  }

  lemma RowOfUnit(value: Bf16, image: Image, m: Location, r: nat, x: seq<real>)
    requires Mapped(image, m) && r < m.rows && 1 <= m.columns == |x| && x == Unit(|x|)
    ensures RowStart(m, r) < |image|
    ensures RowOut(value, image, m, x, r)
         == Combine(Coef(false, ReadCode(image, RowStart(m, r), 0)), value(WordAt(image, m.low + 2 * r)),
                    Coef(true, ReadCode(image, RowStart(m, r), 0)), value(WordAt(image, m.high + 2 * r)))
  {
    RowIsMapped(image, m, r);
    SumOfUnit(false, image, RowStart(m, r), x);
    SumOfUnit(true, image, RowStart(m, r), x);
  }

  lemma NotTwo(value: Bf16, image: Image, m: Location, x: seq<real>)
    requires Mapped(image, m) && 1 < m.rows && 1 <= m.columns == |x| && x == Unit(|x|)
    requires value(WordAt(image, m.low + 2)) == 1.0 && value(WordAt(image, m.high + 2)) == 2.0
    requires RowStart(m, 1) < |image| && ReadCode(image, RowStart(m, 1), 0) != 3
    ensures RowOut(value, image, m, x, 1) != 2.0
  {
    RowOfUnit(value, image, m, 1, x);
  }

  lemma ScalesOfRowOne(f: Format, w: seq<Row>, columns: nat, image: Image, m: Location)
    requires OneAndTwo(f) && Accepted(f, w) && 2 <= |w| && w[1] != [] && Low(w[1]) == 1.0 && High(w[1]) == 2.0
    requires Holds(image, m, PackMatrix(f, w).value, |w|, columns) && Mapped(image, m) && m.rows == |w|
    ensures f.value(WordAt(image, m.low + 2)) == 1.0 && f.value(WordAt(image, m.high + 2)) == 2.0
  {
    ScaleInPlace(f, w, columns, image, m, 1);
  }

  lemma StartOfRowOne(m: Location)
    requires m.codes == 0
    ensures RowStart(m, 1) == m.rowBytes
  {
    assert Times(1, m.rowBytes) == m.rowBytes;
  }

  lemma WitnessScales(f: Format, w: seq<Row>, columns: nat, image: Image, m: Location)
    requires OneAndTwo(f) && 2 <= |w| && 2 <= columns && w == Witness(|w|, columns) && Accepted(f, w)
    requires image == FileOf(f, w) && m == LocationOf(f, w, columns) && Mapped(image, m)
    ensures f.value(WordAt(image, m.low + 2)) == 1.0 && f.value(WordAt(image, m.high + 2)) == 2.0
    ensures RowStart(m, 1) == Groups(columns)
  {
    FileHolds(f, w, columns);
    WitnessLevels(columns, 1);
    assert w[1] == WitnessRow(columns, 1);
    ScalesOfRowOne(f, w, columns, image, m);
    StartOfRowOne(m);
  }

  lemma WitnessOut(f: Format, w: seq<Row>, image: Image, m: Location, x: seq<real>)
    requires OneAndTwo(f) && 2 <= |w| && 2 <= |x| && |x| % 4 != 0
    requires w == Witness(|w|, |x|) && x == Unit(|x|) && Accepted(f, w)
    requires image == FileOf(f, w) && m == LocationOf(f, w, |x|) && Mapped(image, m)
    ensures RowOut(f.value, image, m, x, 1) != 2.0
  {
    WitnessScales(f, w, |x|, image, m);
    WrongCode(f, |w|, |x|);
    NotTwo(f.value, image, m, x);
  }

  /** The board computes every accepted matrix of a shape exactly if and only if the matrix has one
      row or its rows fill whole bytes. The model's matrices have 576 or 1536 columns. */
  lemma ExactIffAligned(f: Format, rows: nat, columns: nat)
    requires OneAndTwo(f) && 0 < rows && 2 <= columns
    ensures ProductsExact(f, rows, columns) <==> rows == 1 || columns % 4 == 0
  {
    if rows == 1 || columns % 4 == 0 {
      AlignedIsExact(f, rows, columns);
    } else {
      WitnessFails(f, rows, columns);
    }
  }
}
