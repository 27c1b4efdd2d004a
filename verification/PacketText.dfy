/** The text protocol of the packet controller: numbers, coordinates, PKT lines, and the DUMP tape.
    A C string is the sequence of its characters; a cursor is the suffix it points at. */
module PacketText {
  import opened Options
  import opened Packets

  // ---------------------------------------------------------------- numbers

  predicate Space(c: char) {
    c == ' ' || '\t' <= c <= '\r'
  }

  predicate Digit(c: char) {
    '0' <= c <= '9'
  }

  function SkipSpace(s: string): string {
    if s != "" && Space(s[0]) then SkipSpace(s[1..]) else s
  }

  datatype Number = Number(matched: bool, value: int, rest: string)

  function Accumulate(s: string, acc: nat): (n: Number)
    ensures |n.rest| <= |s|
  {
    if s != "" && Digit(s[0]) then Accumulate(s[1..], acc * 10 + (s[0] - '0') as nat) else Number(true, acc, s)
  }

  const LONG_MAX := 0x7FFF_FFFF
  const LONG_MIN := -0x8000_0000

  function Saturate(v: int): int {
    if v > LONG_MAX then LONG_MAX else if v < LONG_MIN then LONG_MIN else v
  }

  /** `strtol` in base ten with a 32-bit `long`; `atoi` is its value. */
  function Strtol(s: string): Number {
    var t := SkipSpace(s);
    var n := if t != "" && t[0] == '-' then Unsigned(t[1..], true)
             else if t != "" && t[0] == '+' then Unsigned(t[1..], false)
             else Unsigned(t, false);
    if n.matched then n else Number(false, 0, s)
  }

  function Unsigned(u: string, negative: bool): Number {
    if u == "" || !Digit(u[0]) then Number(false, 0, u)
    else
      var n := Accumulate(u, 0);
      Number(true, Saturate(if negative then -n.value else n.value), n.rest)
  }

  function Decimal(n: int): (s: string)
    ensures s != "" && (s[0] == '-' || Digit(s[0]))
  {
    if n < 0 then "-" + Digits(-n) else Digits(n)
  }

  function Digits(n: nat): (s: string)
    ensures s != "" && forall i | 0 <= i < |s| :: Digit(s[i])
  {
    if n < 10 then ['0' + n as char] else Digits(n / 10) + ['0' + (n % 10) as char]
  }

  /** The text behind a number does not extend it. */
  predicate Ends(rest: string) {
    rest == "" || !Digit(rest[0])
  }

  lemma {:induction false} AccumulateDigits(n: nat, rest: string)
    ensures Accumulate(Digits(n) + rest, 0) == Accumulate(rest, n)
    decreases n
  {
    if n < 10 {
      assert (Digits(n) + rest)[1..] == rest;
    } else {
      var c := '0' + (n % 10) as char;
      AccumulateDigits(n / 10, [c] + rest);
      assert Digits(n) + rest == Digits(n / 10) + ([c] + rest);
      assert ([c] + rest)[1..] == rest && (c - '0') as nat == n % 10;
    }
  }

  lemma UnsignedReads(n: int, rest: string, negative: bool)
    requires 0 <= n && Ends(rest)
    ensures Unsigned(Digits(n) + rest, negative) == Number(true, Saturate(if negative then -n else n), rest)
  {
    assert (Digits(n) + rest)[0] == Digits(n)[0];
    AccumulateDigits(n, rest);
  }

  lemma StrtolMinus(u: string)
    requires Unsigned(u, true).matched
    ensures Strtol("-" + u) == Unsigned(u, true)
  {
    assert ("-" + u)[1..] == u;
  }

  lemma StrtolPlain(u: string)
    requires Unsigned(u, false).matched
    ensures Strtol(u) == Unsigned(u, false)
  {
  }

  lemma SaturateIs(v: int)
    ensures -2147483648 <= v <= 2147483647 ==> Saturate(v) == v
    ensures (v > 2147483647 ==> Saturate(v) == 2147483647) && (v < -2147483648 ==> Saturate(v) == -2147483648)
  {
  }

  /** What `%d` prints, `strtol` reads back, and it stops there. */
  lemma StrtolReads(n: int, rest: string)
    requires Ends(rest)
    ensures Strtol(Decimal(n) + rest) == Number(true, Saturate(n), rest)
  {
    if n < 0 {
      UnsignedReads(-n, rest, true);
      StrtolMinus(Digits(-n) + rest);
      assert ("-" + Digits(-n)) + rest == "-" + (Digits(-n) + rest);
    } else {
      UnsignedReads(n, rest, false);
      StrtolPlain(Digits(n) + rest);
    }
  }

  function Listed(ns: seq<int>): string {
    if ns == [] then "" else if |ns| == 1 then Decimal(ns[0]) else Decimal(ns[0]) + ("," + Listed(ns[1..]))
  }

  // ---------------------------------------------------------------- model rows

  const ROW := 9
  const Q10_MAX := 8192

  function RowFrom(s: string, i: nat): (row: Option<seq<real>>)
    requires i < ROW
    ensures row.Some? ==> |row.value| == ROW - i
    decreases ROW - i
  {
    var n := Strtol(s);
    if !n.matched || n.value < -Q10_MAX || n.value > Q10_MAX then None
    else if i < 8 then
      if n.rest == "" || n.rest[0] != ',' then None
      else
        var more := RowFrom(n.rest[1..], i + 1);
        if more.None? then None else Some([n.value as real / 1024.0] + more.value)
    else if n.rest == "" then Some([n.value as real / 1024.0])
    else None
  }

  /** The weights of one model row, or None when the body is not nine Q10 numbers. */
  function Row(body: string): (row: Option<seq<real>>)
    ensures row.Some? ==> |row.value| == ROW
  {
    RowFrom(body, 0)
  }

  function Weights(ns: seq<int>): seq<real> {
    seq(|ns|, i requires 0 <= i < |ns| => ns[i] as real / 1024.0)
  }

  predicate Q10(ns: seq<int>) {
    forall i | 0 <= i < |ns| :: -8192 <= ns[i] <= 8192
  }

  lemma FirstOfRow(ns: seq<int>)
    requires ns != []
    ensures Q10(ns) <==> -Q10_MAX <= ns[0] <= Q10_MAX && Q10(ns[1..])
    ensures Weights(ns) == [ns[0] as real / 1024.0] + Weights(ns[1..])
  {
    if -Q10_MAX <= ns[0] <= Q10_MAX && Q10(ns[1..]) {
      assert forall i | 1 <= i < |ns| :: ns[i] == ns[1..][i - 1];
    }
  }

  lemma RowLast(n: int)
    ensures RowFrom(Decimal(n), 8) == if -Q10_MAX <= n <= Q10_MAX then Some([n as real / 1024.0]) else None
  {
    StrtolReads(n, "");
    assert Decimal(n) + "" == Decimal(n);
  }

  lemma RowStep(n: int, rest: string, i: nat, more: Option<seq<real>>)
    requires i < 8 && more == RowFrom(rest, i + 1)
    ensures RowFrom(Decimal(n) + ("," + rest), i)
         == if -Q10_MAX <= n <= Q10_MAX && more.Some? then Some([n as real / 1024.0] + more.value) else None
  {
    StrtolReads(n, "," + rest);
    assert ("," + rest)[1..] == rest;
  }

  function Decoded(ns: seq<int>): Option<seq<real>> {
    if Q10(ns) then Some(Weights(ns)) else None
  }

  lemma DecodedStep(ns: seq<int>, more: Option<seq<real>>)
    requires ns != [] && more == Decoded(ns[1..])
    ensures Decoded(ns)
         == if -Q10_MAX <= ns[0] <= Q10_MAX && more.Some? then Some([ns[0] as real / 1024.0] + more.value) else None
  {
    FirstOfRow(ns);
  }

  lemma DecodedLast(n: int)
    ensures Decoded([n]) == if -Q10_MAX <= n <= Q10_MAX then Some([n as real / 1024.0]) else None
  {
    FirstOfRow([n]);
    assert Weights([n]) == [n as real / 1024.0];
  }

  lemma ListedOne(n: int)
    ensures Listed([n]) == Decimal(n)
  {
  }

  lemma RowEnds(n: int, last: string)
    requires last == Decimal(n)
    ensures RowFrom(last, ROW - 1) == Decoded([n])
  {
    RowLast(n);
    DecodedLast(n);
  }

  lemma RowGoesOn(ns: seq<int>, rest: string, i: nat, more: Option<seq<real>>)
    requires 1 < |ns| && i + 1 < ROW && rest == Listed(ns[1..]) && more == RowFrom(rest, i + 1) == Decoded(ns[1..])
    ensures RowFrom(Listed(ns), i) == Decoded(ns)
  {
    RowStep(ns[0], rest, i, more);
    DecodedStep(ns, more);
  }

  lemma {:induction false} RowReads(ns: seq<int>, i: nat)
    requires i < ROW && |ns| == ROW - i
    ensures RowFrom(Listed(ns), i) == Decoded(ns)
    decreases |ns|
  {
    if |ns| == 1 {
      ListedOne(ns[0]);
      assert ns == [ns[0]];
      RowEnds(ns[0], Listed(ns));
    } else {
      RowReads(ns[1..], i + 1);
      RowGoesOn(ns, Listed(ns[1..]), i, Decoded(ns[1..]));
    }
  }

  /** A printed row decodes to its nine weights, exactly when all nine are in range. */
  lemma RowRoundTrip(ns: seq<int>)
    requires |ns| == ROW
    ensures Row(Listed(ns)) == if Q10(ns) then Some(Weights(ns)) else None
  {
    RowReads(ns, 0);
  }

  // ---------------------------------------------------------------- coordinates

  /** The cast to a signed 16-bit dimension. */
  function Wrap16(v: int): (w: int)
    ensures -0x8000 <= w < 0x8000
  {
    (v + 0x8000) % 0x1_0000 - 0x8000
  }

  /** The suffix behind the first occurrence of `pattern`. */
  function After(s: string, pattern: string): (t: Option<string>)
    ensures t.Some? ==> |t.value| + |pattern| <= |s|
  {
    if pattern <= s then Some(s[|pattern|..]) else if s == "" then None else After(s[1..], pattern)
  }

  function FromColon(s: string): (t: string)
    ensures |t| <= |s|
  {
    if s == "" || s[0] == ':' then s else FromColon(s[1..])
  }

  function Axis(s: string, pattern: string): int {
    match After(s, pattern)
    case None => 0
    case Some(t) => Wrap16(Strtol(t).value)
  }

  function Zeros(n: nat): (d: seq<int>)
    ensures |d| == n
  {
    seq(n, _ => 0)
  }

  function GridFrom(s: string, extra: nat): (d: seq<int>)
    requires extra <= DIMS
    ensures |d| == DIMS - extra
    decreases |s|
  {
    if extra == DIMS then []
    else
      match After(s, "/d")
      case None => Zeros(DIMS - extra)
      case Some(t) =>
        var u := FromColon(t);
        if u == "" then Zeros(DIMS - extra) else [Wrap16(Strtol(u[1..]).value)] + GridFrom(u, extra + 1)
  }

  function ListFrom(s: string, n: nat): (d: seq<int>)
    requires n <= DIMS
    ensures |d| == DIMS - n
    decreases DIMS - n
  {
    if n == DIMS then []
    else if s == "" then Zeros(DIMS - n)
    else
      match After(s, ",")
      case None => [Wrap16(Strtol(s).value)] + Zeros(DIMS - n - 1)
      case Some(t) => [Wrap16(Strtol(s).value)] + ListFrom(t, n + 1)
  }

  const GRID := "grid://"

  function ParseDims(s: string): Option<Coord> {
    if GRID <= s then Some([Axis(s, "/x"), Axis(s, "/y"), Axis(s, "/z")] + GridFrom(s, 3))
    else if s == "" then None
    else Some(ListFrom(s, 0))
  }

  predicate Short(ns: seq<int>) {
    forall i | 0 <= i < |ns| :: -0x8000 <= ns[i] < 0x8000
  }

  lemma {:induction false} NoComma(digits: string, rest: string)
    requires forall i | 0 <= i < |digits| :: digits[i] != ','
    ensures After(digits + ("," + rest), ",") == Some(rest)
    ensures After(digits, ",") == None
  {
    var s := digits + ("," + rest);
    if digits == "" {
      assert s[1..] == rest;
    } else {
      NoComma(digits[1..], rest);
      assert s[0] != ',' && s[1..] == digits[1..] + ("," + rest);
    }
  }

  lemma ListStep(v: int, rest: string, n: nat)
    requires n < DIMS && -0x8000 <= v < 0x8000
    ensures ListFrom(Decimal(v) + ("," + rest), n) == [v] + ListFrom(rest, n + 1)
  {
    StrtolReads(v, "," + rest);
    NoComma(Decimal(v), rest);
  }

  lemma ListLast(v: int)
    requires -0x8000 <= v < 0x8000
    ensures ListFrom(Decimal(v), DIMS - 1) == [v]
  {
    StrtolReads(v, "");
    NoComma(Decimal(v), "");
    assert Decimal(v) + "" == Decimal(v);
    assert [v] + Zeros(0) == [v];
  }

  lemma {:induction false} ListReads(ns: seq<int>, n: nat)
    requires n < DIMS && |ns| == DIMS - n && Short(ns)
    ensures Listed(ns) != "" && ListFrom(Listed(ns), n) == ns
    decreases |ns|
  {
    if |ns| == 1 {
      ListLast(ns[0]);
    } else {
      ListStep(ns[0], Listed(ns[1..]), n);
      ListReads(ns[1..], n + 1);
    }
  }

  /** The nine numbers that are printed are the coordinate that is parsed. */
  lemma DimsRoundTrip(d: Coord)
    requires Short(d)
    ensures ParseDims(Listed(d)) == Some(d)
  {
    ListReads(d, 0);
    assert Listed(d)[0] == Decimal(d[0])[0];
  }
}
