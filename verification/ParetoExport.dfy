/** From a BF16 matrix through the exporter's packing and the shard file to the product that the
    board computes. */
module ParetoExport {
  import opened Options
  import opened Packers
  import opened Products
  import opened Reals
  import opened ShardFile
  import opened ParetoMatvec

  type Row = seq<real>

  /** Reading and writing a bfloat16 word; only finite values matter here. */
  datatype Format = Format(value: Bf16, word: real -> Word16)

  predicate Shaped(w: seq<Row>, columns: nat) {
    forall r | 0 <= r < |w| :: |w[r]| == columns
  }

  function High(row: Row): real
    requires row != []
  {
    if |row| == 1 then Abs(row[0])
    else if Abs(row[0]) > High(row[1..]) then Abs(row[0]) else High(row[1..])
  }

  function Low(row: Row): real
    requires row != []
  {
    if |row| == 1 then Abs(row[0])
    else if Abs(row[0]) < Low(row[1..]) then Abs(row[0]) else Low(row[1..])
  }

  /** The largest and the smallest magnitude, and where they are. */
  lemma {:induction false} Magnitudes(row: Row) returns (c: nat, d: nat)
    requires row != []
    ensures c < |row| && Abs(row[c]) == Low(row) && d < |row| && Abs(row[d]) == High(row)
    ensures forall k | 0 <= k < |row| :: Low(row) <= Abs(row[k]) <= High(row)
  {
    c, d := 0, 0;
    if 1 < |row| {
      var e, g := Magnitudes(row[1..]);
      assert forall k | 1 <= k < |row| :: row[k] == row[1..][k - 1];
      c := if Abs(row[0]) < Low(row[1..]) then 0 else e + 1;
      d := if Abs(row[0]) > High(row[1..]) then 0 else g + 1;
    }
  }

  // ---------------------------------------------------------------- packing

  /** A row of exactly two nonzero magnitudes. */
  predicate FourLevel(row: Row) {
    && row != [] && 0.0 < Low(row) && Low(row) != High(row)
    && forall c | 0 <= c < |row| :: Abs(row[c]) == Low(row) || Abs(row[c]) == High(row)
  }

  /** 0 is minus high, 1 minus low, 2 plus low, 3 plus high. */
  function CodeOf(row: Row, v: real): (code: nat)
    requires row != []
    ensures code < 4
  {
    if v < 0.0 then (if Abs(v) == High(row) then 0 else 1) else (if Abs(v) == High(row) then 3 else 2)
  }

  function Level(code: nat, low: real, high: real): real {
    if code == 0 then -high else if code == 1 then -low else if code == 2 then low else high
  }

  /** The reconstruction check: every entry comes back from its code and the rounded scales. */
  predicate Lossless(f: Format, row: Row)
    requires row != []
  {
    var low, high := f.value(f.word(Low(row))), f.value(f.word(High(row)));
    forall c | 0 <= c < |row| :: Level(CodeOf(row, row[c]), low, high) == row[c]
  }

  predicate RowAccepted(f: Format, row: Row) {
    FourLevel(row) && Lossless(f, row)
  }

  predicate Accepted(f: Format, w: seq<Row>) {
    forall r | 0 <= r < |w| :: RowAccepted(f, w[r])
  }

  /** A four-level row passes the check exactly when its two magnitudes are bfloat16 values. */
  lemma LosslessIff(f: Format, row: Row)
    requires FourLevel(row)
    ensures Lossless(f, row) <==> f.value(f.word(Low(row))) == Low(row) && f.value(f.word(High(row))) == High(row)
  {
    var low, high := f.value(f.word(Low(row))), f.value(f.word(High(row)));
    var c, d := Magnitudes(row);
    if Lossless(f, row) {
      assert Level(CodeOf(row, row[c]), low, high) == row[c];
      assert Level(CodeOf(row, row[d]), low, high) == row[d];
    }
  }

  /** No entry of the row has a greater magnitude. */
  predicate Largest(row: Row, c: nat)
    requires c < |row|
  {
    forall k | 0 <= k < |row| :: Abs(row[k]) <= Abs(row[c])
  }

  lemma LargestIsHigh(row: Row, c: nat)
    requires c < |row|
    ensures Largest(row, c) <==> Abs(row[c]) == High(row)
  {
    var a, d := Magnitudes(row);
    if Largest(row, c) {
      assert Abs(row[d]) <= Abs(row[c]);
    }
  }

  /** The codes: 0 and 3 for the large magnitude, 1 and 2 for the small one, the negative one first. */
  lemma CodesAre(row: Row, c: nat)
    requires FourLevel(row) && c < |row|
    ensures RowCodes(row)[c] == 0 <==> row[c] < 0.0 && Largest(row, c)
    ensures RowCodes(row)[c] == 1 <==> row[c] < 0.0 && !Largest(row, c)
    ensures RowCodes(row)[c] == 2 <==> 0.0 < row[c] && !Largest(row, c)
    ensures RowCodes(row)[c] == 3 <==> 0.0 < row[c] && Largest(row, c)
  {
    LargestIsHigh(row, c);
    assert Abs(row[c]) == Low(row) || Abs(row[c]) == High(row);
  }

  function RowCodes(row: Row): (codes: seq<nat>)
    ensures |codes| == |row|
    ensures TwoBit(codes)
  {
    seq(|row|, c requires 0 <= c < |row| => CodeOf(row, row[c]))
  }

  function AllCodes(w: seq<Row>): (codes: seq<nat>)
    ensures TwoBit(codes)
  {
    if w == [] then [] else RowCodes(w[0]) + AllCodes(w[1..])
  }

  function Scales(f: Format, w: seq<Row>, high: bool): (words: seq<Word16>)
    requires forall r | 0 <= r < |w| :: w[r] != []
    ensures |words| == |w|
  {
    seq(|w|, r requires 0 <= r < |w| && w[r] != [] => f.word(if high then High(w[r]) else Low(w[r])))
  }

  datatype PackedMatrix = PackedMatrix(codes: seq<Byte>, low: seq<Byte>, high: seq<Byte>)

  /** None stands for the exporter's refusals. */
  function PackMatrix(f: Format, w: seq<Row>): (p: Option<PackedMatrix>)
    ensures p.Some? <==> Accepted(f, w)
  {
    if !Accepted(f, w) then None
    else Some(PackedMatrix(Pack2(AllCodes(w)).value, WordBytes(Scales(f, w, false)), WordBytes(Scales(f, w, true))))
  }

  lemma {:induction false} CodeOfEntry(w: seq<Row>, columns: nat, r: nat, c: nat)
    requires Shaped(w, columns) && r < |w| && c < columns
    ensures |AllCodes(w)| == Times(|w|, columns) && Times(r, columns) + c < |AllCodes(w)|
    ensures AllCodes(w)[Times(r, columns) + c] == CodeOf(w[r], w[r][c])
  {
    CodesLength(w, columns);
    TimesMono(r + 1, |w|, columns);
    var front, rest := RowCodes(w[0]), AllCodes(w[1..]);
    if r == 0 {
      assert AllCodes(w)[c] == front[c];
    } else {
      CodeOfEntry(w[1..], columns, r - 1, c);
      assert AllCodes(w)[Times(r, columns) + c] == rest[Times(r - 1, columns) + c];
    }
  }

  lemma {:induction false} CodesLength(w: seq<Row>, columns: nat)
    requires Shaped(w, columns)
    ensures |AllCodes(w)| == Times(|w|, columns)
  {
    if w != [] {
      CodesLength(w[1..], columns);
    }
  }

  // ---------------------------------------------------------------- the file and its offsets

  /** Three regions of the image hold the packed matrix, and the location names them. */
  ghost predicate Holds(image: Image, m: Location, p: PackedMatrix, rows: nat, columns: nat) {
    && m.rows == rows && m.columns == columns && m.rowBytes == Groups(columns)
    && ReadSlice(image, m.codes, |p.codes|) == Some(p.codes)
    && ReadSlice(image, m.low, |p.low|) == Some(p.low)
    && ReadSlice(image, m.high, |p.high|) == Some(p.high)
  }

  /** The location that the header generator writes for a record. */
  function Locate(codes: Region, low: Region, high: Region, rows: nat, columns: nat): Location {
    Location(codes.offset, low.offset, high.offset, rows, columns, Groups(columns))
  }

  /** Whatever else is exported before and behind it, a matrix is found where its record says. */
  lemma ExportedHolds(file: Contents, payloads: seq<seq<Byte>>, i: nat, p: PackedMatrix, rows: nat, columns: nat)
    requires i + 3 <= |payloads| && payloads[i..i + 3] == [p.codes, p.low, p.high]
    ensures var rs := Regions(file, payloads);
            Holds(WriteAll(file, payloads), Locate(rs[i], rs[i + 1], rs[i + 2], rows, columns), p, rows, columns)
  {
    assert payloads[i..i + 3][0] == payloads[i];
    assert payloads[i..i + 3][1] == payloads[i + 1];
    assert payloads[i..i + 3][2] == payloads[i + 2];
    RegionsReadBack(file, payloads, i);
    RegionsReadBack(file, payloads, i + 1);
    RegionsReadBack(file, payloads, i + 2);
    RegionSizes(file, payloads, i);
    RegionSizes(file, payloads, i + 1);
    RegionSizes(file, payloads, i + 2);
  }

  lemma {:induction false} RegionSizes(file: Contents, payloads: seq<seq<Byte>>, i: nat)
    requires i < |payloads|
    ensures Regions(file, payloads)[i].size == |payloads[i]|
    decreases i
  {
    if i != 0 {
      RegionSizes(Extend(file, payloads[0]), payloads[1..], i - 1);
    }
  }

  // ---------------------------------------------------------------- the product

  function DotTo(row: Row, x: seq<real>, n: nat): real
    requires n <= |row| && n <= |x|
  {
    if n == 0 then 0.0 else DotTo(row, x, n - 1) + Mul(row[n - 1], x[n - 1])
  }

  function Product(w: seq<Row>, x: seq<real>): (y: seq<real>)
    requires Shaped(w, |x|)
    ensures |y| == |w|
  {
    seq(|w|, r requires 0 <= r < |w| && Shaped(w, |x|) => DotTo(w[r], x, |x|))
  }

  /** The code that the board reads for column `c`. */
  function ReadCode(image: Image, at: nat, c: nat): nat
    requires at + c / 4 < |image|
  {
    Lane(image[at + c / 4], c % 4)
  }

  function ColumnSum(high: bool, image: Image, at: nat, x: seq<real>, n: nat): real
    requires n <= |x| && at + Groups(n) <= |image|
  {
    if n == 0 then 0.0
    else ColumnSum(high, image, at, x, n - 1) + Mul(Coef(high, ReadCode(image, at, n - 1)), x[n - 1])
  }

  lemma {:induction false} LanesAreColumns(high: bool, image: Image, at: nat, x: seq<real>, g: nat, k: nat)
    requires at + Groups(|x|) <= |image| && k <= LANES && 4 * g + k <= |x| && g < Groups(|x|)
    ensures ColumnSum(high, image, at, x, 4 * g + k)
         == ColumnSum(high, image, at, x, 4 * g) + LaneSum(high, image[at + g], x, 4 * g, k)
  {
    if k != 0 {
      LanesAreColumns(high, image, at, x, g, k - 1);
      var c := 4 * g + k - 1;
      assert c / 4 == g && c % 4 == k - 1;
    }
  }

  lemma {:induction false} GroupsAreColumns(high: bool, image: Image, at: nat, x: seq<real>, g: nat)
    requires at + Groups(|x|) <= |image| && g <= Groups(|x|)
    ensures GroupSum(high, image, at, x, g) == ColumnSum(high, image, at, x, if 4 * g <= |x| then 4 * g else |x|)
  {
    if g != 0 {
      GroupsAreColumns(high, image, at, x, g - 1);
      LanesAreColumns(high, image, at, x, g - 1, CountIn(|x|, g - 1));
    }
  }

  lemma OneColumn(a: real, b: real, d: real, s: real, t: real, e: real, low: real, high: real, j: real, k: real,
                  x: real)
    requires Combine(a, low, b, high) == d
    requires s == a + j * x && t == b + k * x && e == d + (j * low + k * high) * x
    ensures Combine(s, low, t, high) == e
  {
    assert s * low == a * low + (j * x) * low && t * high == b * high + (k * x) * high;
    assert (j * x) * low == (j * low) * x && (k * x) * high == (k * high) * x;
  }

  /** Two dot products under two scales are the dot product of the combined row. */
  lemma {:induction false} ScaledDots(j: Row, k: Row, w: Row, low: real, high: real, x: seq<real>, n: nat, s: real,
                                      t: real)
    requires |j| == |k| == |w| == |x| && n <= |x| && s == DotTo(j, x, n) && t == DotTo(k, x, n)
    requires forall c | 0 <= c < |x| :: w[c] == j[c] * low + k[c] * high
    ensures Combine(s, low, t, high) == DotTo(w, x, n)
    decreases n
  {
    if n != 0 {
      var a, b := DotTo(j, x, n - 1), DotTo(k, x, n - 1);
      ScaledDots(j, k, w, low, high, x, n - 1, a, b);
      OneColumn(a, b, DotTo(w, x, n - 1), s, t, DotTo(w, x, n), low, high, j[n - 1], k[n - 1], x[n - 1]);
    }
  }

  /** What the codes read for a row contribute under one scale. */
  function CoefRow(high: bool, image: Image, at: nat, columns: nat): (row: Row)
    requires at + Groups(columns) <= |image|
    ensures |row| == columns
  {
    seq(columns, c requires 0 <= c < columns && at + Groups(columns) <= |image| => Coef(high, ReadCode(image, at, c)))
  }

  lemma {:induction false} ColumnsAreDot(high: bool, image: Image, at: nat, x: seq<real>, n: nat)
    requires n <= |x| && at + Groups(|x|) <= |image|
    ensures ColumnSum(high, image, at, x, n) == DotTo(CoefRow(high, image, at, |x|), x, n)
  {
    if n != 0 {
      ColumnsAreDot(high, image, at, x, n - 1);
    }
  }

  lemma SumsAreDot(row: Row, low: real, high: real, image: Image, at: nat, x: seq<real>, s: real, t: real)
    requires |row| == |x| && at + Groups(|x|) <= |image|
    requires s == GroupSum(false, image, at, x, Groups(|x|)) && t == GroupSum(true, image, at, x, Groups(|x|))
    requires forall c | 0 <= c < |x| :: Level(ReadCode(image, at, c), low, high) == row[c]
    ensures Combine(s, low, t, high) == DotTo(row, x, |x|)
  {
    SumIsDot(false, image, at, x);
    SumIsDot(true, image, at, x);
    ScaledDots(CoefRow(false, image, at, |x|), CoefRow(true, image, at, |x|), row, low, high, x, |x|, s, t);
  }

  lemma SumIsDot(high: bool, image: Image, at: nat, x: seq<real>)
    requires at + Groups(|x|) <= |image|
    ensures GroupSum(high, image, at, x, Groups(|x|)) == DotTo(CoefRow(high, image, at, |x|), x, |x|)
  {
    GroupsAreColumns(high, image, at, x, Groups(|x|));
    ColumnsAreDot(high, image, at, x, |x|);
  }

  /** The packer runs on over row ends and the board starts every row on a whole byte; the two agree
      when there is one row or rows are whole bytes. */
  predicate RowsAligned(rows: nat, columns: nat) {
    rows <= 1 || columns % 4 == 0
  }

  lemma AlignedStart(rows: nat, columns: nat, r: nat)
    requires RowsAligned(rows, columns) && r < rows
    ensures Times(r, columns) == 4 * Times(r, Groups(columns))
  {
    if 1 < rows {
      TimesFour(r, Groups(columns));
    }
  }

  lemma Quarter(q: nat, c: nat)
    ensures (4 * q + c) / 4 == q + c / 4 && (4 * q + c) % 4 == c % 4
  {
  }

  lemma SliceAt(image: Image, at: nat, payload: seq<Byte>, i: nat)
    requires ReadSlice(image, at, |payload|) == Some(payload) && i < |payload|
    ensures at + |payload| <= |image| && image[at + i] == payload[i]
  {
    assert image[at..at + |payload|] == payload;
  }

  lemma PackedAt(w: seq<Row>, columns: nat, r: nat, c: nat, start: nat)
    requires Shaped(w, columns) && r < |w| && c < columns && Times(r, columns) == 4 * start
    ensures var packed := Pack2(AllCodes(w)).value;
            start + c / 4 < |packed| && Lane(packed[start + c / 4], c % 4) == CodeOf(w[r], w[r][c])
  {
    CodeOfEntry(w, columns, r, c);
    WholeStart(AllCodes(w), start, c);
  }

  lemma WholeStart(codes: seq<nat>, start: nat, c: nat)
    requires TwoBit(codes) && 4 * start + c < |codes|
    ensures start + c / 4 < |Pack2(codes).value|
    ensures Lane(Pack2(codes).value[start + c / 4], c % 4) == codes[4 * start + c]
  {
    Quarter(start, c);
    PackedLane(codes, 4 * start + c);
  }

  lemma CodesInPlace(w: seq<Row>, columns: nat, image: Image, base: nat, packed: seq<Byte>, r: nat, c: nat, start: nat)
    requires Shaped(w, columns) && r < |w| && c < columns && Times(r, columns) == 4 * start
    requires packed == Pack2(AllCodes(w)).value && ReadSlice(image, base, |packed|) == Some(packed)
    ensures base + start + c / 4 < |image| && ReadCode(image, base + start, c) == CodeOf(w[r], w[r][c])
  {
    PackedAt(w, columns, r, c, start);
    ReadsLane(image, base, packed, start, c);
  }

  lemma ReadsLane(image: Image, base: nat, packed: seq<Byte>, start: nat, c: nat)
    requires ReadSlice(image, base, |packed|) == Some(packed) && start + c / 4 < |packed|
    ensures base + start + c / 4 < |image| && ReadCode(image, base + start, c) == Lane(packed[start + c / 4], c % 4)
  {
    SliceAt(image, base, packed, start + c / 4);
  }

  lemma ScaleInPlace(f: Format, w: seq<Row>, columns: nat, image: Image, m: Location, r: nat)
    requires Accepted(f, w) && Holds(image, m, PackMatrix(f, w).value, |w|, columns) && r < |w|
    ensures m.low + 2 * |w| <= |image| && m.high + 2 * |w| <= |image|
    ensures WordAt(image, m.low + 2 * r) == f.word(Low(w[r])) && WordAt(image, m.high + 2 * r) == f.word(High(w[r]))
  {
    var p := PackMatrix(f, w).value;
    WordInPlace(image, m.low, Scales(f, w, false), r);
    WordInPlace(image, m.high, Scales(f, w, true), r);
  }

  lemma WordInPlace(image: Image, at: nat, words: seq<Word16>, r: nat)
    requires r < |words| && ReadSlice(image, at, |WordBytes(words)|) == Some(WordBytes(words))
    ensures at + 2 * |words| <= |image| && WordAt(image, at + 2 * r) == words[r]
  {
    WordReads(words, r);
    SliceAt(image, at, WordBytes(words), 2 * r);
    SliceAt(image, at, WordBytes(words), 2 * r + 1);
  }

  /** Aligned rows leave no gap: the packed codes are as long as the board's rows together. */
  lemma PackedLength(w: seq<Row>, columns: nat)
    requires Shaped(w, columns) && RowsAligned(|w|, columns)
    ensures |Pack2(AllCodes(w)).value| == Times(|w|, Groups(columns))
  {
    CodesLength(w, columns);
    if columns % 4 == 0 {
      TimesFour(|w|, Groups(columns));
    } else if |w| == 1 {
      assert Times(1, columns) == columns && Times(1, Groups(columns)) == Groups(columns);
    }
  }

  lemma MatrixIsMapped(f: Format, w: seq<Row>, columns: nat, image: Image, m: Location)
    requires Accepted(f, w) && Shaped(w, columns) && RowsAligned(|w|, columns) && w != []
    requires Holds(image, m, PackMatrix(f, w).value, |w|, columns)
    ensures Mapped(image, m)
  {
    ScaleInPlace(f, w, columns, image, m, 0);
    assert RowAccepted(f, w[0]) && FourLevel(w[0]);
    AlignedStart(|w|, columns, 0);
    CodesInPlace(w, columns, image, m.codes, PackMatrix(f, w).value.codes, 0, 0, 0);
    PackedLength(w, columns);
  }

  /** The board reads the scales and the codes of row `r`. */
  ghost predicate RowRead(f: Format, row: Row, image: Image, m: Location, r: nat)
    requires Mapped(image, m) && r < m.rows && |row| == m.columns && row != []
  {
    RowIsMapped(image, m, r);
    && WordAt(image, m.low + 2 * r) == f.word(Low(row)) && WordAt(image, m.high + 2 * r) == f.word(High(row))
    && forall c | 0 <= c < |row| :: ReadCode(image, RowStart(m, r), c) == CodeOf(row, row[c])
  }

  lemma HeldIsRead(f: Format, w: seq<Row>, columns: nat, image: Image, m: Location, r: nat)
    requires Accepted(f, w) && Shaped(w, columns) && RowsAligned(|w|, columns) && r < |w|
    requires Holds(image, m, PackMatrix(f, w).value, |w|, columns) && Mapped(image, m)
    ensures RowAccepted(f, w[r]) && RowRead(f, w[r], image, m, r)
  {
    var packed := PackMatrix(f, w).value.codes;
    assert RowAccepted(f, w[r]);
    RowIsMapped(image, m, r);
    ScaleInPlace(f, w, columns, image, m, r);
    AlignedStart(|w|, columns, r);
    forall c | 0 <= c < columns ensures ReadCode(image, RowStart(m, r), c) == CodeOf(w[r], w[r][c]) {
      CodesInPlace(w, columns, image, m.codes, packed, r, c, Times(r, m.rowBytes));
    }
  }

  lemma LevelsRead(f: Format, row: Row, image: Image, at: nat)
    requires RowAccepted(f, row) && at + Groups(|row|) <= |image|
    requires forall c | 0 <= c < |row| :: ReadCode(image, at, c) == CodeOf(row, row[c])
    ensures forall c | 0 <= c < |row| ::
              Level(ReadCode(image, at, c), f.value(f.word(Low(row))), f.value(f.word(High(row)))) == row[c]
  {
  }

  lemma RowComputesDot(f: Format, row: Row, image: Image, m: Location, x: seq<real>, r: nat)
    requires Mapped(image, m) && r < m.rows && |row| == |x| == m.columns
    requires RowAccepted(f, row) && RowRead(f, row, image, m, r)
    ensures RowOut(f.value, image, m, x, r) == DotTo(row, x, |x|)
  {
    var at := RowStart(m, r);
    RowIsMapped(image, m, r);
    LevelsRead(f, row, image, at);
    SumsAreDot(row, f.value(WordAt(image, m.low + 2 * r)), f.value(WordAt(image, m.high + 2 * r)), image, at, x,
      GroupSum(false, image, at, x, m.rowBytes), GroupSum(true, image, at, x, m.rowBytes));
  }

  /** Every accepted matrix whose rows fill whole bytes, exported and located through its record,
      makes the board compute exactly the matrix-vector product. */
  lemma ExportComputesProduct(f: Format, w: seq<Row>, image: Image, m: Location, x: seq<real>)
    requires Accepted(f, w) && Shaped(w, |x|) && RowsAligned(|w|, |x|) && w != []
    requires Holds(image, m, PackMatrix(f, w).value, |w|, |x|)
    ensures Mapped(image, m) && Out(f.value, image, m, x) == Product(w, x)
  {
    MatrixIsMapped(f, w, |x|, image, m);
    forall r | 0 <= r < |w| ensures RowOut(f.value, image, m, x, r) == DotTo(w[r], x, |x|) {
      HeldIsRead(f, w, |x|, image, m, r);
      RowComputesDot(f, w[r], image, m, x, r);
    }
  }
}
