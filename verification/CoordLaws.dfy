/** Coordinates as text: lists of numbers of any length, and the `grid://` form that the firmware prints. */
module CoordLaws {
  import opened Options
  import opened Packets
  import opened PacketText

  /** The 16-bit value of a number that is read: saturated by `strtol`, then cut to 16 bits. */
  predicate IsDim(w: int, v: int) {
    -0x8000 <= w < 0x8000 && (v - w) % 0x1_0000 == 0
  }

  lemma WrapIs(v: int)
    ensures IsDim(Wrap16(v), v)
    ensures -0x8000 <= v < 0x8000 ==> Wrap16(v) == v
  {
  }

  // ---------------------------------------------------------------- lists

  lemma NoMore(v: int, n: nat)
    requires n < DIMS && -0x8000 <= v < 0x8000
    ensures ListFrom(Decimal(v), n) == [v] + Zeros(DIMS - n - 1)
  {
    StrtolReads(v, "");
    NoComma(Decimal(v), "");
    assert Decimal(v) + "" == Decimal(v);
  }

  /** The first numbers of a list, and zeros when there are fewer than nine. */
  function Padded(ns: seq<int>, n: nat): (d: seq<int>)
    ensures |d| == n
  {
    if |ns| <= n then ns + Zeros(n - |ns|) else ns[..n]
  }

  lemma PaddedStep(v: int, rest: seq<int>, n: nat)
    ensures [v] + Padded(rest, n) == Padded([v] + rest, n + 1)
  {
  }

  lemma ListReadsOne(ns: seq<int>, n: nat, m: nat, more: seq<int>)
    requires n < DIMS && 1 < |ns| && -0x8000 <= ns[0] < 0x8000 && m == n + 1
    requires ListFrom(Listed(ns[1..]), m) == more == Padded(ns[1..], DIMS - m)
    ensures ListFrom(Listed(ns), n) == Padded(ns, DIMS - n)
  {
    ListStep(ns[0], Listed(ns[1..]), n);
    PaddedStep(ns[0], ns[1..], DIMS - m);
    assert [ns[0]] + ns[1..] == ns;
  }

  lemma RestIsShort(ns: seq<int>)
    requires ns != [] && Short(ns)
    ensures Short(ns[1..]) && -0x8000 <= ns[0] < 0x8000
  {
  }

  lemma ListReadsLast(ns: seq<int>, n: nat)
    requires n < DIMS && |ns| == 1 && -0x8000 <= ns[0] < 0x8000
    ensures ListFrom(Listed(ns), n) == Padded(ns, DIMS - n)
  {
    NoMore(ns[0], n);
    assert ns == [ns[0]];
  }

  lemma NothingMore(s: string, ns: seq<int>)
    ensures ListFrom(s, DIMS) == Padded(ns, 0)
  {
  }

  lemma {:induction false} ListReadsAny(ns: seq<int>, n: nat)
    requires n <= DIMS && ns != [] && Short(ns)
    ensures ListFrom(Listed(ns), n) == Padded(ns, DIMS - n)
    decreases |ns|
  {
    RestIsShort(ns);
    if n == DIMS {
      NothingMore(Listed(ns), ns);
    } else if |ns| == 1 {
      ListReadsLast(ns, n);
    } else {
      var m := n + 1;
      ListReadsAny(ns[1..], m);
      ListReadsOne(ns, n, m, Padded(ns[1..], DIMS - m));
    }
  }

  lemma ListedStarts(ns: seq<int>)
    requires ns != []
    ensures Listed(ns) != "" && Listed(ns)[0] == Decimal(ns[0])[0]
  {
  }

  /** A list of any length is a coordinate: missing numbers are zero, and numbers behind the ninth are
      not looked at. */
  lemma AnyListReads(ns: seq<int>)
    requires ns != [] && Short(ns)
    ensures ParseDims(Listed(ns)) == Some(if |ns| <= 9 then ns + Zeros(9 - |ns|) else ns[..9])
  {
    ListReadsAny(ns, 0);
    ListedStarts(ns);
    assert Listed(ns)[0] != 'g';
  }

  // ---------------------------------------------------------------- the grid form

  /** No slash in front of `c`, and none at the end. */
  predicate NoSlash(s: string, c: char) {
    forall i | 0 <= i < |s| && s[i] == '/' :: i + 1 < |s| && s[i + 1] != c
  }

  lemma {:induction false} FirstSlash(s: string, c: char, rest: string)
    requires NoSlash(s, c)
    ensures After(s + (['/', c] + rest), ['/', c]) == Some(rest)
    decreases |s|
  {
    var all := s + (['/', c] + rest);
    if s == "" {
      assert all[2..] == rest;
    } else {
      var tail := s[1..];
      forall i | 0 <= i < |tail| && tail[i] == '/' ensures i + 1 < |tail| && tail[i + 1] != c {
        assert s[i + 1] == '/';
      }
      FirstSlash(tail, c, rest);
      assert all[1..] == tail + (['/', c] + rest);
      assert !(['/', c] <= all) by {
        if all[0] == '/' {
          assert all[1] == s[1] != c;
        }
      }
    }
  }

  lemma {:induction false} NoSlashLeft(s: string, c: char)
    requires NoSlash(s, c)
    ensures After(s, ['/', c]) == None
    decreases |s|
  {
    if s != "" {
      var tail := s[1..];
      forall i | 0 <= i < |tail| && tail[i] == '/' ensures i + 1 < |tail| && tail[i + 1] != c {
        assert s[i + 1] == '/';
      }
      NoSlashLeft(tail, c);
      assert !(['/', c] <= s) by {
        if s[0] == '/' {
          assert s[1] != c;
        }
      }
    }
  }

  lemma NumberHasNoSlash(n: int)
    ensures forall i | 0 <= i < |Decimal(n)| :: Decimal(n)[i] != '/' && Decimal(n)[i] != ':'
  {
    var digits := if n < 0 then Digits(-n) else Digits(n);
    assert forall i | 0 <= i < |digits| :: Digit(digits[i]);
  }

  /** One part of the printed form: a slash, a letter and a number. */
  function Part(c: char, n: int): string {
    ['/', c] + Decimal(n)
  }

  lemma PartPasses(s: string, b: char, n: int, c: char)
    requires NoSlash(s, c) && b != c && b != '/'
    ensures NoSlash(s + Part(b, n), c)
  {
    var all, d := s + Part(b, n), Decimal(n);
    NumberHasNoSlash(n);
    forall i | |s| + 2 <= i < |all| ensures all[i] != '/' {
      assert all[i] == d[i - |s| - 2];
    }
    forall i | 0 <= i < |all| && all[i] == '/' ensures i + 1 < |all| && all[i + 1] != c {
      if i < |s| {
        assert s[i] == '/';
      }
    }
  }

  lemma AxisReads(s: string, c: char, n: int, rest: string)
    requires NoSlash(s, c) && -0x8000 <= n < 0x8000 && Ends(rest)
    ensures Axis(s + (Part(c, n) + rest), ['/', c]) == n
  {
    var number := Decimal(n) + rest;
    FirstSlash(s, c, number);
    assert Part(c, n) + rest == ['/', c] + number;
    StrtolReads(n, rest);
    AxisValue(s + (['/', c] + number), ['/', c], number, n);
  }

  lemma AxisValue(s: string, pattern: string, number: string, n: int)
    requires After(s, pattern) == Some(number) && Strtol(number).value == n && -0x8000 <= n < 0x8000
    ensures Axis(s, pattern) == n
  {
  }

  /** The parts for the dimensions from `k` on. */
  function GridTail(ns: seq<int>, k: nat): string
    requires |ns| + k == 9
  {
    if ns == [] then "" else "/d" + (['0' + k as char] + (":" + (Decimal(ns[0]) + GridTail(ns[1..], k + 1))))
  }

  lemma TailEnds(ns: seq<int>, k: nat)
    requires |ns| + k == 9
    ensures Ends(GridTail(ns, k))
  {
  }

  lemma ColonNext(c: char, rest: string)
    requires c != ':'
    ensures FromColon([c] + (":" + rest)) == ":" + rest
  {
    assert ([c] + (":" + rest))[1..] == ":" + rest;
  }

  lemma GridStep(head: string, n: int, k: nat, rest: string)
    requires NoSlash(head, 'd') && 3 <= k < 9 && -0x8000 <= n < 0x8000 && Ends(rest)
    ensures GridFrom(head + ("/d" + (['0' + k as char] + (":" + (Decimal(n) + rest)))), k)
         == [n] + GridFrom(":" + (Decimal(n) + rest), k + 1)
  {
    var number := Decimal(n) + rest;
    FirstSlash(head, 'd', ['0' + k as char] + (":" + number));
    assert "/d" == ['/', 'd'];
    ColonNext('0' + k as char, number);
    assert (":" + number)[1..] == number;
    StrtolReads(n, rest);
  }

  lemma NumberPasses(n: int)
    ensures NoSlash(":" + Decimal(n), 'd')
  {
    NumberHasNoSlash(n);
  }

  lemma GridMore(head: string, n: int, ns: seq<int>, k: nat, rest: string)
    requires NoSlash(head, 'd') && 3 <= k < 9 && -0x8000 <= n < 0x8000 && Ends(rest)
    requires GridFrom((":" + Decimal(n)) + rest, k + 1) == ns
    ensures GridFrom(head + ("/d" + (['0' + k as char] + (":" + (Decimal(n) + rest)))), k) == [n] + ns
  {
    var number := Decimal(n);
    assert ":" + (number + rest) == (":" + number) + rest;
    GridStep(head, n, k, rest);
  }

  lemma {:induction false} GridReads(head: string, ns: seq<int>, k: nat)
    requires NoSlash(head, 'd') && 3 <= k && |ns| + k == 9 && Short(ns)
    ensures GridFrom(head + GridTail(ns, k), k) == ns
    decreases |ns|
  {
    if ns != [] {
      TailEnds(ns[1..], k + 1);
      NumberPasses(ns[0]);
      GridReads(":" + Decimal(ns[0]), ns[1..], k + 1);
      GridMore(head, ns[0], ns[1..], k, GridTail(ns[1..], k + 1));
    }
  }

  /** The printed coordinate. */
  function GridText(d: Coord): string {
    ((("grid://ssos" + Part('x', d[0])) + Part('y', d[1])) + Part('z', d[2])) + GridTail(d[3..], 3)
  }

  lemma StartPasses(c: char)
    requires c in "xyzd"
    ensures NoSlash("grid://ssos", c)
  {
  }

  lemma Reassociated(a: string, b: string, c: string)
    ensures (a + b) + c == a + (b + c)
  {
  }

  lemma GridStarts(s: string, rest: string)
    requires s == "grid://ssos"
    ensures GRID <= s + rest
  {
  }

  lemma GridParses(s: string, d: Coord)
    requires GRID <= s && Axis(s, ['/', 'x']) == d[0] && Axis(s, ['/', 'y']) == d[1] && Axis(s, ['/', 'z']) == d[2]
    requires GridFrom(s, 3) == d[3..]
    ensures ParseDims(s) == Some(d)
  {
    assert "/x" == ['/', 'x'] && "/y" == ['/', 'y'] && "/z" == ['/', 'z'];
    assert [d[0], d[1], d[2]] + d[3..] == d;
  }

  /** What the firmware prints as a coordinate parses back to it. */
  lemma GridRoundTrip(d: Coord)
    requires Short(d)
    ensures ParseDims(GridText(d)) == Some(d)
  {
    var s0, x, y, z, tail := "grid://ssos", Part('x', d[0]), Part('y', d[1]), Part('z', d[2]), GridTail(d[3..], 3);
    forall c | c in "xyzd" ensures NoSlash(s0, c) {
      StartPasses(c);
    }
    AxesRead(s0, d, tail);
    var s := GridText(d);
    Reassociated(s0 + x + y, z, tail);
    Reassociated(s0 + x, y, z + tail);
    Reassociated(s0, x, y + (z + tail));
    GridStarts(s0, x + (y + (z + tail)));
    GridReads(s0 + x + y + z, d[3..], 3);
    GridParses(s, d);
  }

  lemma AxesRead(s0: string, d: Coord, tail: string)
    requires Short(d) && tail == GridTail(d[3..], 3) && forall c | c in "xyzd" :: NoSlash(s0, c)
    ensures var x, y, z := Part('x', d[0]), Part('y', d[1]), Part('z', d[2]);
            && Axis(s0 + (x + (y + (z + tail))), ['/', 'x']) == d[0]
            && Axis((s0 + x) + (y + (z + tail)), ['/', 'y']) == d[1]
            && Axis(((s0 + x) + y) + (z + tail), ['/', 'z']) == d[2]
            && NoSlash(s0 + x + y + z, 'd')
  {
    var x, y, z := Part('x', d[0]), Part('y', d[1]), Part('z', d[2]);
    PartPasses(s0, 'x', d[0], 'y');
    PartPasses(s0, 'x', d[0], 'z');
    PartPasses(s0, 'x', d[0], 'd');
    PartPasses(s0 + x, 'y', d[1], 'z');
    PartPasses(s0 + x, 'y', d[1], 'd');
    PartPasses(s0 + x + y, 'z', d[2], 'd');
    TailEnds(d[3..], 3);
    AxisReads(s0 + x + y, 'z', d[2], tail);
    AxisReads(s0 + x, 'y', d[1], z + tail);
    AxisReads(s0, 'x', d[0], y + (z + tail));
  }
}
