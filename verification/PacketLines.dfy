/** Command lines of the packet controller, and the lines DUMP prints. */
module PacketLines {
  import opened Options
  import opened Packets
  import opened PacketText
  import opened SerialLine

  // ---------------------------------------------------------------- splitting

  /** The characters before the first blank, and the cursor behind it. */
  function Word(s: string): (w: string)
    ensures |w| <= |s|
  {
    if s == "" || s[0] == ' ' then "" else [s[0]] + Word(s[1..])
  }

  function Behind(s: string): (t: string)
    ensures |t| <= |s| && (s != "" ==> |t| < |s|)
  {
    if s == "" then "" else if s[0] == ' ' then s[1..] else Behind(s[1..])
  }

  predicate Unbroken(s: string) {
    forall i | 0 <= i < |s| :: s[i] != ' '
  }

  lemma {:induction false} SplitReads(w: string, rest: string)
    requires Unbroken(w)
    ensures Word(w + (" " + rest)) == w && Behind(w + (" " + rest)) == rest
  {
    var s := w + (" " + rest);
    if w == "" {
      assert s[1..] == rest;
    } else {
      SplitReads(w[1..], rest);
      assert s[1..] == w[1..] + (" " + rest);
    }
  }

  // ---------------------------------------------------------------- PKT fields

  datatype Fields = Fields(
    id: Option<string>,
    dims: Option<string>,
    role: Option<string>,
    hash: Option<string>,
    perm: Option<string>,
    body: Option<string>)

  const NO_FIELDS := Fields(None, None, None, None, None, None)

  datatype Name = Id | Dims | Role | Hash | Perm

  /** The keyword at the cursor, with its length; `coord=` is another spelling of `d=`. */
  function Keyword(s: string): (k: Option<(Name, nat)>)
    ensures k.Some? ==> 0 < k.value.1 <= |s|
  {
    if "id=" <= s then Some((Id, 3))
    else if "d=" <= s then Some((Dims, 2))
    else if "coord=" <= s then Some((Dims, 6))
    else if "role=" <= s then Some((Role, 5))
    else if "hash=" <= s then Some((Hash, 5))
    else if "perm=" <= s then Some((Perm, 5))
    else None
  }

  function Set(f: Fields, name: Name, value: string): Fields {
    match name
    case Id => f.(id := Some(value))
    case Dims => f.(dims := Some(value))
    case Role => f.(role := Some(value))
    case Hash => f.(hash := Some(value))
    case Perm => f.(perm := Some(value))
  }

  /** The field loop; None is an unknown field. A field may be repeated, and `body` takes the rest
      of the line. */
  function Scan(s: string, f: Fields): Option<Fields>
    decreases |s|
  {
    if s == "" then Some(f)
    else if s[0] == ' ' then Scan(s[1..], f)
    else
      match Keyword(s)
      case Some((name, n)) => Scan(Behind(s[n..]), Set(f, name, Word(s[n..])))
      case None => if "body=" <= s then Some(f.(body := Some(s[5..]))) else None
  }

  const ROLE_NAMES: seq<string> :=
    ["empty", "note", "document", "executable", "runtime", "boot", "payload", "archive", "firmware"]

  function RoleName(role: nat): string {
    if role < ROLE_COUNT then ROLE_NAMES[role] else "empty"
  }

  function Lower(s: string): string {
    seq(|s|, i requires 0 <= i < |s| => if 'A' <= s[i] <= 'Z' then s[i] - 'A' + 'a' else s[i])
  }

  function Upper(s: string): string {
    seq(|s|, i requires 0 <= i < |s| => if 'a' <= s[i] <= 'z' then s[i] - 'a' + 'A' else s[i])
  }

  const ROLE_CHARS := 15

  function RoleFrom(name: string, r: nat): (role: nat)
    requires 1 <= r <= ROLE_COUNT
    ensures role < ROLE_COUNT && (role != 0 ==> r <= role && RoleName(role) == name)
    decreases ROLE_COUNT - r
  {
    if r == ROLE_COUNT then 0 else if RoleName(r) == name then r else RoleFrom(name, r + 1)
  }

  /** The role number of a name in any case, 0 for an unknown one. */
  function ParseRole(name: string): (role: nat)
    ensures role < ROLE_COUNT
  {
    RoleFrom(Lower(Clip(name, ROLE_CHARS)), 1)
  }

  function OrEmpty(s: Option<string>): string {
    if s.Some? then s.value else ""
  }

  function ParsePkt(rest: string): (r: Option<Request>)
    ensures r.Some? ==> 0 < r.value.role < ROLE_COUNT
  {
    var f := Scan(rest, NO_FIELDS);
    if f.None? || f.value.id.None? || f.value.dims.None? || f.value.role.None? then None
    else
      var d := ParseDims(f.value.dims.value);
      var role := ParseRole(f.value.role.value);
      if d.None? || role == 0 then None
      else
        Some(Request(f.value.id.value, d.value, role,
                     OrEmpty(f.value.hash), OrEmpty(f.value.perm), OrEmpty(f.value.body)))
  }

  // ---------------------------------------------------------------- command lines

  /** What a line asks of the bank and the model cache; queries and refused lines ask nothing. */
  datatype Command = Pkt(request: Request) | Del(id: string) | Clear | MLoad | MClear | Save | Load | Nothing

  function TrimLeft(s: string): string {
    if s != "" && (s[0] == ' ' || s[0] == '\t') then TrimLeft(s[1..]) else s
  }

  function TrimRight(s: string): string {
    if s != "" && s[|s| - 1] in "\r\n " then TrimRight(s[..|s| - 1]) else s
  }

  function SkipBlanks(s: string): string {
    if s != "" && s[0] == ' ' then SkipBlanks(s[1..]) else s
  }

  function ParseLine(line: string): Command {
    ParseTrimmed(TrimRight(TrimLeft(line)))
  }

  function ParseTrimmed(s: string): Command {
    Chosen(Upper(Word(s)), Behind(s), ParsePkt(Behind(s)))
  }

  function Chosen(name: string, rest: string, pkt: Option<Request>): Command {
    if name == "PKT" then
      if pkt.Some? then Pkt(pkt.value) else Nothing
    else if name == "DEL" then
      var t := SkipBlanks(rest);
      if "id=" <= t then Del(Word(t[3..])) else Nothing
    else if name == "CLEAR" then Clear
    else if name == "MLOAD" then MLoad
    else if name == "MCLEAR" then MClear
    else if name == "SAVE" then Save
    else if name == "LOAD" then Load
    else Nothing
  }

  // ---------------------------------------------------------------- stored records

  /** What every record in the bank looks like. */
  predicate Stored(p: Packet) {
    && 0 < p.role < ROLE_COUNT && Short(p.d)
    && |p.id| <= ID_CHARS && Clean(p.id) && Unbroken(p.id)
    && 0 < |p.hash| <= HASH_CHARS && Clean(p.hash) && Unbroken(p.hash)
    && 0 < |p.perm| <= PERM_CHARS && Clean(p.perm) && Unbroken(p.perm)
    && |p.body| <= BODY_CHARS && Clean(p.body)
  }

  predicate CleanRequest(r: Request) {
    && 0 < r.role < ROLE_COUNT && Short(r.d)
    && Clean(r.id) && Unbroken(r.id) && Clean(r.hash) && Unbroken(r.hash)
    && Clean(r.perm) && Unbroken(r.perm) && Clean(r.body)
  }

  lemma RecordIsStored(r: Request, gen: nat)
    requires CleanRequest(r)
    ensures Stored(Record(r, gen))
  {
    var hash := BodyHash(r.body);
    assert forall i | 0 <= i < |hash| :: '0' <= hash[i] <= 'f';
  }

  predicate CleanField(s: Option<string>) {
    s.Some? ==> Clean(s.value) && Unbroken(s.value)
  }

  predicate CleanFields(f: Fields) {
    && CleanField(f.id) && CleanField(f.dims) && CleanField(f.role) && CleanField(f.hash) && CleanField(f.perm)
    && Clean(OrEmpty(f.body))
  }

  lemma {:induction false} WordIsClean(s: string)
    requires Clean(s)
    ensures Clean(Word(s)) && Unbroken(Word(s))
  {
    if s != "" && s[0] != ' ' {
      WordIsClean(s[1..]);
    }
  }

  lemma {:induction false} BehindIsClean(s: string)
    requires Clean(s)
    ensures Clean(Behind(s))
  {
    if s != "" && s[0] != ' ' {
      BehindIsClean(s[1..]);
    }
  }

  lemma SplitIsClean(s: string, n: nat)
    requires Clean(s) && n <= |s|
    ensures Clean(Word(s[n..])) && Unbroken(Word(s[n..])) && Clean(Behind(s[n..]))
  {
    WordIsClean(s[n..]);
    BehindIsClean(s[n..]);
  }

  lemma SetIsClean(f: Fields, name: Name, value: string)
    requires CleanFields(f) && Clean(value) && Unbroken(value)
    ensures CleanFields(Set(f, name, value))
  {
  }

  lemma {:induction false} ScanIsClean(s: string, f: Fields)
    requires Clean(s) && CleanFields(f)
    ensures var g := Scan(s, f); g.Some? ==> CleanFields(g.value)
    decreases |s|
  {
    if s != "" {
      if s[0] == ' ' {
        ScanIsClean(s[1..], f);
      } else {
        match Keyword(s)
        case Some((name, n)) =>
          SplitIsClean(s, n);
          SetIsClean(f, name, Word(s[n..]));
          ScanIsClean(Behind(s[n..]), Set(f, name, Word(s[n..])));
        case None =>
      }
    }
  }

  lemma {:induction false} GridIsShort(s: string, extra: nat)
    requires extra <= DIMS
    ensures Short(GridFrom(s, extra))
    decreases |s|
  {
    if extra < DIMS && After(s, "/d").Some? {
      var u := FromColon(After(s, "/d").value);
      if u != "" {
        GridIsShort(u, extra + 1);
      }
    }
  }

  lemma {:induction false} ListIsShort(s: string, n: nat)
    requires n <= DIMS
    ensures Short(ListFrom(s, n))
    decreases DIMS - n
  {
    if n < DIMS && s != "" && After(s, ",").Some? {
      ListIsShort(After(s, ",").value, n + 1);
    }
  }

  lemma DimsAreShort(s: string)
    ensures ParseDims(s).Some? ==> Short(ParseDims(s).value)
  {
    if GRID <= s {
      GridIsShort(s, 3);
    } else {
      ListIsShort(s, 0);
    }
  }

  lemma PktIsClean(rest: string)
    requires Clean(rest)
    ensures ParsePkt(rest).Some? ==> CleanRequest(ParsePkt(rest).value)
  {
    ScanIsClean(rest, NO_FIELDS);
    var f := Scan(rest, NO_FIELDS);
    if f.Some? && f.value.dims.Some? {
      DimsAreShort(f.value.dims.value);
    }
  }

  lemma ChosenIsClean(name: string, rest: string, pkt: Option<Request>)
    requires pkt.Some? ==> CleanRequest(pkt.value)
    ensures var c := Chosen(name, rest, pkt); c.Pkt? ==> CleanRequest(c.request)
  {
  }

  /** Whatever a clean line asks to store is fit to be stored. */
  lemma LineIsClean(line: string)
    requires Clean(line)
    ensures ParseLine(line).Pkt? ==> CleanRequest(ParseLine(line).request)
  {
    TrimIsClean(line);
    TrimmedIsClean(TrimRight(TrimLeft(line)));
  }

  lemma TrimmedIsClean(s: string)
    requires Clean(s)
    ensures ParseTrimmed(s).Pkt? ==> CleanRequest(ParseTrimmed(s).request)
  {
    BehindIsClean(s);
    PktIsClean(Behind(s));
    ChosenIsClean(Upper(Word(s)), Behind(s), ParsePkt(Behind(s)));
  }

  lemma {:induction false} TrimIsClean(line: string)
    requires Clean(line)
    ensures Clean(TrimRight(TrimLeft(line)))
  {
    TrimLeftIsClean(line);
    TrimRightIsClean(TrimLeft(line));
  }

  lemma {:induction false} TrimLeftIsClean(s: string)
    requires Clean(s)
    ensures Clean(TrimLeft(s))
  {
    if s != "" {
      TrimLeftIsClean(s[1..]);
    }
  }

  lemma {:induction false} TrimRightIsClean(s: string)
    requires Clean(s)
    ensures Clean(TrimRight(s))
  {
    if s != "" {
      TrimRightIsClean(s[..|s| - 1]);
    }
  }

  // ---------------------------------------------------------------- the DUMP tape

  /** The part of a PKT line behind the command. */
  function FieldText(p: Packet): string {
    "id=" + (p.id + (" " + DimsText(p)))
  }

  function DimsText(p: Packet): string {
    "d=" + (Listed(p.d) + (" " + RoleText(p)))
  }

  function RoleText(p: Packet): string {
    "role=" + (RoleName(p.role) + (" " + HashText(p)))
  }

  function HashText(p: Packet): string {
    "hash=" + (p.hash + (" " + PermText(p)))
  }

  function PermText(p: Packet): string {
    "perm=" + (p.perm + (" " + BodyText(p)))
  }

  function BodyText(p: Packet): string {
    "body=" + p.body
  }

  function PktLine(p: Packet): string {
    "PKT" + (" " + FieldText(p))
  }

  /** One field in front of the cursor. */
  lemma ScanOne(key: string, value: string, rest: string, name: Name, f: Fields)
    requires key != "" && key[0] != ' ' && Unbroken(value)
    requires Keyword(key + (value + (" " + rest))) == Some((name, |key|))
    ensures Scan(key + (value + (" " + rest)), f) == Scan(rest, Set(f, name, value))
  {
    var s := key + (value + (" " + rest));
    SplitReads(value, rest);
    assert s[|key|..] == value + (" " + rest);
    assert s[0] == key[0];
  }

  lemma ScanBody(body: string, f: Fields)
    ensures Scan("body=" + body, f) == Some(f.(body := Some(body)))
  {
    var s := "body=" + body;
    assert s[0] == 'b' && Keyword(s) == None && s[5..] == body;
  }

  lemma Keywords(rest: string)
    ensures Keyword("id=" + rest) == Some((Id, 3)) && Keyword("d=" + rest) == Some((Dims, 2))
    ensures Keyword("role=" + rest) == Some((Role, 5)) && Keyword("hash=" + rest) == Some((Hash, 5))
    ensures Keyword("perm=" + rest) == Some((Perm, 5))
  {
    assert ("id=" + rest)[0] == 'i' && ("d=" + rest)[0] == 'd' && ("role=" + rest)[0] == 'r';
    assert ("hash=" + rest)[0] == 'h' && ("perm=" + rest)[0] == 'p';
  }

  lemma {:induction false} ListedIsUnbroken(ns: seq<int>)
    ensures Unbroken(Listed(ns)) && Clean(Listed(ns))
  {
    if ns != [] {
      DecimalIsUnbroken(ns[0]);
      ListedIsUnbroken(ns[1..]);
    }
  }

  lemma DecimalIsUnbroken(n: int)
    ensures Unbroken(Decimal(n)) && Clean(Decimal(n))
  {
    var digits := if n < 0 then Digits(-n) else Digits(n);
    assert forall i | 0 <= i < |digits| :: Digit(digits[i]);
  }

  /** Role names differ in their first two letters. */
  lemma RolesDiffer(r: nat, role: nat)
    requires 1 <= r < role < ROLE_COUNT
    ensures RoleName(r) != RoleName(role)
  {
    assert RoleName(r)[0] != RoleName(role)[0];
  }

  lemma {:induction false} RoleFromReads(role: nat, r: nat)
    requires 1 <= r <= role < ROLE_COUNT
    ensures RoleFrom(RoleName(role), r) == role
    decreases role - r
  {
    if r < role {
      RolesDiffer(r, role);
      RoleFromReads(role, r + 1);
    }
  }

  predicate Letters(s: string) {
    forall i | 0 <= i < |s| :: 'a' <= s[i] <= 'z'
  }

  lemma RoleNameIsLetters(role: nat)
    ensures |RoleName(role)| <= ROLE_CHARS && Letters(RoleName(role))
  {
  }

  lemma LettersAreLower(s: string)
    requires Letters(s)
    ensures Lower(s) == s && Unbroken(s) && Clean(s)
  {
  }

  lemma RoleReads(role: nat)
    requires 0 < role < ROLE_COUNT
    ensures Unbroken(RoleName(role)) && ParseRole(RoleName(role)) == role
  {
    var name := RoleName(role);
    RoleNameIsLetters(role);
    LettersAreLower(name);
    RoleFromReads(role, 1);
  }

  lemma ScanFromPerm(p: Packet, f: Fields)
    requires Stored(p)
    ensures Scan(PermText(p), f) == Some(f.(perm := Some(p.perm), body := Some(p.body)))
  {
    Keywords(p.perm + (" " + BodyText(p)));
    ScanOne("perm=", p.perm, BodyText(p), Perm, f);
    ScanBody(p.body, Set(f, Perm, p.perm));
  }

  lemma ScanFromHash(p: Packet, f: Fields)
    requires Stored(p)
    ensures Scan(HashText(p), f) == Some(f.(hash := Some(p.hash), perm := Some(p.perm), body := Some(p.body)))
  {
    Keywords(p.hash + (" " + PermText(p)));
    ScanOne("hash=", p.hash, PermText(p), Hash, f);
    ScanFromPerm(p, Set(f, Hash, p.hash));
  }

  lemma ScanFromRole(p: Packet, f: Fields)
    requires Stored(p)
    ensures Scan(RoleText(p), f)
         == Some(f.(role := Some(RoleName(p.role)), hash := Some(p.hash), perm := Some(p.perm), body := Some(p.body)))
  {
    RoleReads(p.role);
    Keywords(RoleName(p.role) + (" " + HashText(p)));
    ScanOne("role=", RoleName(p.role), HashText(p), Role, f);
    ScanFromHash(p, Set(f, Role, RoleName(p.role)));
  }

  function FieldsOf(p: Packet): Fields {
    Fields(Some(p.id), Some(Listed(p.d)), Some(RoleName(p.role)), Some(p.hash), Some(p.perm), Some(p.body))
  }

  lemma ScanReads(p: Packet)
    requires Stored(p)
    ensures Scan(FieldText(p), NO_FIELDS) == Some(FieldsOf(p))
  {
    Keywords(p.id + (" " + DimsText(p)));
    ScanOne("id=", p.id, DimsText(p), Id, NO_FIELDS);
    var f := Set(NO_FIELDS, Id, p.id);
    ListedIsUnbroken(p.d);
    Keywords(Listed(p.d) + (" " + RoleText(p)));
    ScanOne("d=", Listed(p.d), RoleText(p), Dims, f);
    ScanFromRole(p, Set(f, Dims, Listed(p.d)));
  }

  function RequestOf(p: Packet): Request {
    Request(p.id, p.d, p.role, p.hash, p.perm, p.body)
  }

  predicate Replayable(p: Packet) {
    Stored(p) && (p.body != "" ==> p.body[|p.body| - 1] != ' ')
  }

  lemma TrimKeeps(s: string)
    requires s != "" && s[0] != ' ' && s[0] != '\t' && s[|s| - 1] !in "\r\n "
    ensures TrimRight(TrimLeft(s)) == s
  {
  }

  lemma PktReads(p: Packet)
    requires Stored(p)
    ensures ParsePkt(FieldText(p)) == Some(RequestOf(p))
  {
    ScanReads(p);
    DimsRoundTrip(p.d);
    RoleReads(p.role);
  }

  lemma PktSplits(p: Packet)
    ensures Upper(Word(PktLine(p))) == "PKT" && Behind(PktLine(p)) == FieldText(p)
  {
    SplitReads("PKT", FieldText(p));
    assert Upper("PKT") == "PKT";
  }

  /** The line printed for a record asks for exactly that record. */
  lemma PktLineReads(p: Packet)
    requires Replayable(p)
    ensures ParseLine(PktLine(p)) == Pkt(RequestOf(p))
  {
    assert PktLine(p)[0] == 'P';
    LastOfLine(p);
    TrimKeeps(PktLine(p));
    PktSplits(p);
    PktReads(p);
  }

  lemma LastOfLine(p: Packet)
    requires Replayable(p)
    ensures var s := PktLine(p); s[|s| - 1] !in "\r\n "
  {
    var s, body := PktLine(p), BodyText(p);
    assert s[|s| - 1] == body[|body| - 1];
    if p.body != "" {
      assert body[|body| - 1] == p.body[|p.body| - 1];
    }
  }

  /** A replayed record is the record, whatever its generation. */
  lemma ReplayedRecord(p: Packet, gen: nat)
    requires Stored(p) && p.used
    ensures Record(RequestOf(p), gen) == p.(gen := gen)
  {
  }

  // ---------------------------------------------------------------- what a printed line loses

  /** The line up to its body. */
  function Head(p: Packet): string {
    PktLine(p.(body := ""))
  }

  lemma FieldBefore(key: string, value: string, rest: string, body: string)
    ensures key + (value + (" " + (rest + body))) == (key + (value + (" " + rest))) + body
  {
  }

  lemma HeadAndBody(p: Packet)
    ensures PktLine(p) == Head(p) + p.body
  {
    var q := p.(body := "");
    assert BodyText(p) == BodyText(q) + p.body;
    FieldBefore("perm=", p.perm, BodyText(q), p.body);
    FieldBefore("hash=", p.hash, PermText(q), p.body);
    FieldBefore("role=", RoleName(p.role), HashText(q), p.body);
    FieldBefore("d=", Listed(p.d), RoleText(q), p.body);
    FieldBefore("id=", p.id, DimsText(q), p.body);
    assert "PKT" + (" " + (FieldText(q) + p.body)) == ("PKT" + (" " + FieldText(q))) + p.body;
  }

  lemma DigitsLength(n: nat)
    ensures n < 100000 ==> |Digits(n)| <= 5
  {
    if n < 100000 {
      assert n / 10 < 10000 && n / 10 / 10 < 1000 && n / 10 / 10 / 10 < 100 && n / 10 / 10 / 10 / 10 < 10;
      assert |Digits(n / 10 / 10 / 10)| <= 2;
      assert |Digits(n / 10)| <= 4;
    }
  }

  lemma {:induction false} ListedLength(ns: seq<int>)
    requires Short(ns)
    ensures |Listed(ns)| <= 7 * |ns|
  {
    if ns != [] {
      DigitsLength(if ns[0] < 0 then -ns[0] else ns[0]);
      ListedLength(ns[1..]);
    }
  }

  lemma HeadLength(p: Packet)
    requires Stored(p)
    ensures |Head(p)| < CMD_LINE_MAX
  {
    ListedLength(p.d);
    RoleNameIsLetters(p.role);
  }

  /** The record that a controller reads from a printed line: the serial loop cuts the line and the
      blanks at its end are trimmed. */
  function Shown(p: Packet): Packet {
    var room := CMD_LINE_MAX - 1 - |Head(p)|;
    p.(body := TrimRight(Clip(p.body, if room < 0 then 0 else room)))
  }

  lemma {:induction false} TrimTail(head: string, body: string)
    requires head != "" && head[|head| - 1] !in "\r\n "
    ensures TrimRight(head + body) == head + TrimRight(body)
  {
    var s := head + body;
    if body == "" {
      assert s == head;
    } else {
      assert s[|s| - 1] == body[|body| - 1];
      if body[|body| - 1] in "\r\n " {
        TrimTail(head, body[..|body| - 1]);
        assert s[..|s| - 1] == head + body[..|body| - 1];
      }
    }
  }

  lemma {:induction false} TrimRightEnds(s: string)
    ensures TrimRight(s) <= s && (TrimRight(s) != "" ==> TrimRight(s)[|TrimRight(s)| - 1] !in "\r\n ")
    ensures TrimRight(s) == s <==> s == "" || s[|s| - 1] !in "\r\n "
  {
    if s != "" {
      TrimRightEnds(s[..|s| - 1]);
    }
  }

  /** Lines that start alike and end alike up to blanks are read alike. */
  lemma TrimmedParses(x: string, y: string)
    requires x != "" && x[0] == 'P' && y != "" && y[0] == 'P'
    requires TrimRight(x) == y == TrimRight(y)
    ensures ParseLine(x) == ParseLine(y)
  {
    assert TrimLeft(x) == x && TrimLeft(y) == y;
  }

  lemma LineStarts(p: Packet)
    ensures PktLine(p) != "" && PktLine(p)[0] == 'P'
  {
  }

  lemma SameHead(p: Packet, body: string)
    ensures Head(p.(body := body)) == Head(p) && PktLine(p.(body := body)) == Head(p) + body
  {
    var q := p.(body := body);
    HeadAndBody(q);
    assert q.(body := "") == p.(body := "");
  }

  lemma LineTrims(p: Packet)
    requires Stored(p)
    ensures TrimRight(PktLine(p)) == PktLine(p.(body := TrimRight(p.body)))
  {
    LineStarts(p.(body := ""));
    LastOfLine(p.(body := ""));
    HeadAndBody(p);
    TrimTail(Head(p), p.body);
    SameHead(p, TrimRight(p.body));
  }

  lemma TrimmedIsReplayable(p: Packet)
    requires Stored(p)
    ensures Replayable(p.(body := TrimRight(p.body)))
  {
    TrimRightEnds(p.body);
  }

  /** A printed line, blanks at its end and all, asks for the record with its body trimmed. */
  lemma UntrimmedReads(p: Packet, q: Packet)
    requires Stored(p) && q == p.(body := TrimRight(p.body))
    ensures ParseLine(PktLine(p)) == Pkt(RequestOf(q))
  {
    TrimmedIsReplayable(p);
    PktLineReads(q);
    LineTrims(p);
    LineStarts(p);
    LineStarts(q);
    LastOfLine(q);
    TrimRightEnds(PktLine(q));
    TrimmedParses(PktLine(p), PktLine(q));
  }

  lemma KeptIsLine(p: Packet, room: int)
    requires Stored(p) && room == CMD_LINE_MAX - 1 - |Head(p)|
    ensures 0 <= room && Kept(PktLine(p)) == PktLine(p.(body := Clip(p.body, room)))
  {
    HeadLength(p);
    HeadAndBody(p);
    SameHead(p, Clip(p.body, room));
    KeptOfBoth(Head(p), p.body, room);
  }

  lemma KeptOfBoth(head: string, body: string, room: nat)
    requires |head| + room == CMD_LINE_MAX - 1
    ensures Kept(head + body) == head + Clip(body, room)
  {
  }

  lemma ClippedIsStored(p: Packet, room: nat)
    requires Stored(p)
    ensures Stored(p.(body := Clip(p.body, room)))
  {
  }

  /** What a controller reads from a printed line. */
  lemma KeptReads(p: Packet)
    requires Stored(p)
    ensures ParseLine(Kept(PktLine(p))) == Pkt(RequestOf(Shown(p))) && Stored(Shown(p))
  {
    var room := CMD_LINE_MAX - 1 - |Head(p)|;
    KeptIsLine(p, room);
    var q := p.(body := Clip(p.body, room));
    ClippedIsStored(p, room);
    UntrimmedReads(q, Shown(p));
    TrimmedIsReplayable(q);
  }

  lemma ClipTrimIff(body: string, room: nat)
    ensures TrimRight(Clip(body, room)) == body <==> |body| <= room && (body == "" || body[|body| - 1] !in "\r\n ")
  {
    TrimRightEnds(Clip(body, room));
  }

  lemma EndOfClean(body: string)
    requires Clean(body) && body != ""
    ensures body[|body| - 1] in "\r\n " <==> body[|body| - 1] == ' '
  {
  }

  lemma LineFits(p: Packet)
    ensures |PktLine(p)| < CMD_LINE_MAX <==> |p.body| <= CMD_LINE_MAX - 1 - |Head(p)|
  {
    HeadAndBody(p);
  }

  lemma ShownIs(p: Packet, room: nat)
    requires room == CMD_LINE_MAX - 1 - |Head(p)|
    ensures Shown(p) == p <==> TrimRight(Clip(p.body, room)) == p.body
  {
  }

  lemma ReplayableIff(p: Packet)
    requires Stored(p)
    ensures Replayable(p) <==> p.body == "" || p.body[|p.body| - 1] !in "\r\n "
  {
    if p.body != "" {
      EndOfClean(p.body);
    }
  }

  /** Nothing is lost exactly when the line fits and does not end in a blank. */
  lemma ShownIff(p: Packet)
    requires Stored(p)
    ensures Shown(p) == p <==> |PktLine(p)| < CMD_LINE_MAX && Replayable(p)
  {
    HeadLength(p);
    LineFits(p);
    ShownIs(p, CMD_LINE_MAX - 1 - |Head(p)|);
    ClipTrimIff(p.body, CMD_LINE_MAX - 1 - |Head(p)|);
    ReplayableIff(p);
  }
}
