/** What command lines ask for, word by word, in any case and with any blanks around it. */
module LineLaws {
  import opened Options
  import opened Packets
  import opened PacketText
  import opened PacketLines
  import opened SerialLine

  /** The same letters, each in either case; `name` is in upper case. */
  predicate Spells(typed: string, name: string) {
    |typed| == |name| && forall i | 0 <= i < |name| ::
      'A' <= name[i] <= 'Z' && (typed[i] == name[i] || typed[i] as int == name[i] as int + 32)
  }

  lemma SpelledIsUpper(typed: string, name: string)
    requires Spells(typed, name)
    ensures Upper(typed) == name && Unbroken(typed)
    ensures forall i | 0 <= i < |typed| :: typed[i] !in "\r\n \t"
  {
    forall i | 0 <= i < |typed| ensures Upper(typed)[i] == name[i] && typed[i] !in "\r\n \t" {
      var c := typed[i];
      if c != name[i] {
        assert c - 'a' + 'A' == name[i];
      }
    }
  }

  /** Blanks and tabs, as a line may begin with. */
  predicate Indent(s: string) {
    forall i | 0 <= i < |s| :: s[i] == ' ' || s[i] == '\t'
  }

  lemma {:induction false} IndentGoes(indent: string, s: string)
    requires Indent(indent) && s != "" && s[0] != ' ' && s[0] != '\t'
    ensures TrimLeft(indent + s) == s
  {
    if indent == "" {
      assert indent + s == s;
    } else {
      IndentGoes(indent[1..], s);
      assert (indent + s)[1..] == indent[1..] + s;
    }
  }

  lemma WordAlone(w: string)
    requires Unbroken(w)
    ensures Word(w) == w && Behind(w) == ""
    decreases w
  {
    if w != "" {
      WordAlone(w[1..]);
    }
  }

  /** What is left behind the first word and its blank, when the end of the line is trimmed. */
  function RestOf(rest: string): string {
    var tail := TrimRight(rest);
    if tail == "" then "" else tail[1..]
  }

  /** A line splits into its first word, in upper case, and what follows the blank behind it. */
  lemma LineSplits(indent: string, typed: string, name: string, rest: string, behind: string)
    requires Indent(indent) && Spells(typed, name) && name != "" && (rest == "" || rest[0] == ' ')
    requires behind == RestOf(rest)
    ensures ParseLine(indent + typed + rest) == Chosen(name, behind, ParsePkt(behind))
  {
    var s, tail := typed + rest, TrimRight(rest);
    SpelledIsUpper(typed, name);
    assert indent + typed + rest == indent + s && s[0] == typed[0];
    IndentGoes(indent, s);
    TrimTail(typed, rest);
    TrimRightEnds(rest);
    if tail == "" {
      WordAlone(typed);
      assert typed + tail == typed;
    } else {
      assert tail == " " + behind;
      SplitReads(typed, behind);
    }
  }

  /** What is behind the first word, when it does not end in blanks but for `rest`. */
  lemma BehindIs(head: string, rest: string)
    requires head != "" && head[|head| - 1] !in "\r\n "
    ensures RestOf(head + rest) == head[1..] + TrimRight(rest)
  {
    TrimTail(head, rest);
    assert (head + TrimRight(rest))[1..] == head[1..] + TrimRight(rest);
  }

  /** The words that need nothing behind them ask for their command whatever is there. */
  lemma PlainCommands(indent: string, typed: string, name: string, rest: string)
    requires Indent(indent) && Spells(typed, name) && name != "" && (rest == "" || rest[0] == ' ')
    ensures name == "SAVE" ==> ParseLine(indent + typed + rest) == Save
    ensures name == "LOAD" ==> ParseLine(indent + typed + rest) == Load
    ensures name == "CLEAR" ==> ParseLine(indent + typed + rest) == Clear
    ensures name == "MLOAD" ==> ParseLine(indent + typed + rest) == MLoad
    ensures name == "MCLEAR" ==> ParseLine(indent + typed + rest) == MClear
    ensures name !in {"PKT", "DEL", "SAVE", "LOAD", "CLEAR", "MLOAD", "MCLEAR"} ==>
              ParseLine(indent + typed + rest) == Nothing
  {
    LineSplits(indent, typed, name, rest, RestOf(rest));
  }

  // ---------------------------------------------------------------- DEL

  predicate Blanks(s: string) {
    forall i | 0 <= i < |s| :: s[i] == ' '
  }

  lemma {:induction false} BlanksGo(gap: string, s: string)
    requires Blanks(gap) && (s == "" || s[0] != ' ')
    ensures SkipBlanks(gap + s) == s
  {
    if gap == "" {
      assert gap + s == s;
    } else {
      BlanksGo(gap[1..], s);
      assert (gap + s)[1..] == gap[1..] + s;
    }
  }

  lemma DelAsks(gap: string, id: string, rest: string, pkt: Option<Request>)
    requires Blanks(gap) && Unbroken(id) && (rest == "" || rest[0] == ' ')
    ensures Chosen("DEL", (gap + ("id=" + id)) + rest, pkt) == Del(id)
  {
    var t := ("id=" + id) + rest;
    BlanksGo(gap, t);
    assert (gap + ("id=" + id)) + rest == gap + t && t[3..] == id + rest;
    if rest == "" {
      WordAlone(id);
      assert id + rest == id;
    } else {
      SplitReads(id, rest[1..]);
      assert rest == " " + rest[1..];
    }
  }

  lemma DelHead(gap: string, id: string)
    requires Clean(id) && Unbroken(id)
    ensures var head := " " + (gap + ("id=" + id)); head[|head| - 1] !in "\r\n " && head[1..] == gap + ("id=" + id)
  {
    var key, head := "id=" + id, " " + (gap + ("id=" + id));
    assert head[|head| - 1] == key[|key| - 1];
  }

  /** `DEL id=...`, with any blanks, asks to delete the word behind `id=`. */
  lemma DelCommand(indent: string, typed: string, gap: string, id: string, rest: string)
    requires Indent(indent) && Spells(typed, "DEL") && Blanks(gap) && Clean(id) && Unbroken(id)
    requires rest == "" || rest[0] == ' '
    ensures ParseLine(indent + typed + ((" " + (gap + ("id=" + id))) + rest)) == Del(id)
  {
    var head, tail := " " + (gap + ("id=" + id)), TrimRight(rest);
    var behind := head[1..] + tail;
    DelHead(gap, id);
    TrimRightEnds(rest);
    BehindIs(head, rest);
    LineSplits(indent, typed, "DEL", head + rest, behind);
    DelAsks(gap, id, tail, ParsePkt(behind));
  }

  /** Anything else behind DEL is refused. */
  lemma DelRefused(indent: string, typed: string, gap: string, s: string)
    requires Indent(indent) && Spells(typed, "DEL") && Blanks(gap)
    requires !("id=" <= s) && (s != "" ==> s[0] != ' ' && s[|s| - 1] !in "\r\n ")
    ensures ParseLine(indent + typed + (" " + (gap + s))) == Nothing
  {
    var rest := " " + (gap + s);
    LineSplits(indent, typed, "DEL", rest, RestOf(rest));
    if s == "" {
      assert Blanks(rest);
      BlanksTrim(rest);
    } else {
      assert rest[|rest| - 1] == s[|s| - 1];
      TrimRightEnds(rest);
      assert rest[1..] == gap + s;
      BlanksGo(gap, s);
    }
  }

  lemma {:induction false} BlanksTrim(s: string)
    requires Blanks(s)
    ensures TrimRight(s) == ""
  {
    if s != "" {
      BlanksTrim(s[..|s| - 1]);
    }
  }

  // ---------------------------------------------------------------- PKT

  /** A field as it is typed: a keyword with its sign, and a value. */
  datatype Typed = Typed(key: string, value: string)

  const KEYS: set<string> := {"id=", "d=", "coord=", "role=", "hash=", "perm="}

  predicate WellTyped(fs: seq<Typed>) {
    forall x | x in fs :: x.key in KEYS && Unbroken(x.value)
  }

  /** The fields one after another, each with a blank behind it, and then `end`. */
  function FieldsText(fs: seq<Typed>, end: string): string {
    if fs == [] then end else fs[0].key + (fs[0].value + (" " + FieldsText(fs[1..], end)))
  }

  /** The value of the last field under one of the keywords. */
  function Last(fs: seq<Typed>, keys: set<string>): Option<string> {
    if fs == [] then None
    else
      var later := Last(fs[1..], keys);
      if later.Some? then later else if fs[0].key in keys then Some(fs[0].value) else None
  }

  function NameOf(key: string): Name
    requires key in KEYS
  {
    if key == "id=" then Id else if key == "role=" then Role else if key == "hash=" then Hash
    else if key == "perm=" then Perm else Dims
  }

  lemma KeywordReads(key: string, rest: string)
    requires key in KEYS
    ensures key != "" && key[0] != ' ' && Keyword(key + rest) == Some((NameOf(key), |key|))
  {
    if key == "coord=" {
      assert (key + rest)[0] == 'c';
    } else {
      Keywords(rest);
    }
  }

  function SetAll(f: Fields, fs: seq<Typed>): Fields
    requires WellTyped(fs)
    decreases |fs|
  {
    if fs == [] then f
    else
      assert fs[0] in fs && forall x | x in fs[1..] :: x in fs;
      SetAll(Set(f, NameOf(fs[0].key), fs[0].value), fs[1..])
  }

  lemma {:induction false} ScanFields(fs: seq<Typed>, end: string, f: Fields)
    requires WellTyped(fs)
    ensures Scan(FieldsText(fs, end), f) == Scan(end, SetAll(f, fs))
    decreases |fs|
  {
    if fs != [] {
      var x, rest := fs[0], FieldsText(fs[1..], end);
      assert x in fs && forall y | y in fs[1..] :: y in fs;
      KeywordReads(x.key, x.value + (" " + rest));
      ScanOne(x.key, x.value, rest, NameOf(x.key), f);
      ScanFields(fs[1..], end, Set(f, NameOf(x.key), x.value));
    }
  }

  function Or(a: Option<string>, b: Option<string>): Option<string> {
    if a.Some? then a else b
  }

  lemma {:induction false} SetAllIs(f: Fields, fs: seq<Typed>)
    requires WellTyped(fs)
    ensures SetAll(f, fs)
         == Fields(Or(Last(fs, {"id="}), f.id), Or(Last(fs, {"d=", "coord="}), f.dims), Or(Last(fs, {"role="}), f.role),
                   Or(Last(fs, {"hash="}), f.hash), Or(Last(fs, {"perm="}), f.perm), f.body)
    decreases |fs|
  {
    if fs != [] {
      assert fs[0] in fs && forall x | x in fs[1..] :: x in fs;
      SetAllIs(Set(f, NameOf(fs[0].key), fs[0].value), fs[1..]);
    }
  }

  /** What the fields of a PKT line ask for, in any order: of repeated fields the last one counts, `coord=`
      is another `d=`, and without an id, a coordinate that is one, or a role that is one, nothing. */
  function Asked(fs: seq<Typed>, body: string): Option<Request> {
    var id, dims, role := Last(fs, {"id="}), Last(fs, {"d=", "coord="}), Last(fs, {"role="});
    if id.None? || dims.None? || role.None? || ParseDims(dims.value).None? || ParseRole(role.value) == 0 then None
    else
      Some(Request(id.value, ParseDims(dims.value).value, ParseRole(role.value),
                   OrEmpty(Last(fs, {"hash="})), OrEmpty(Last(fs, {"perm="})), body))
  }

  lemma FieldsAsk(fs: seq<Typed>, body: string)
    requires WellTyped(fs)
    ensures ParsePkt(FieldsText(fs, "body=" + body)) == Asked(fs, body)
    ensures ParsePkt(FieldsText(fs, "")) == Asked(fs, "")
  {
    ScanFields(fs, "body=" + body, NO_FIELDS);
    ScanFields(fs, "", NO_FIELDS);
    ScanBody(body, SetAll(NO_FIELDS, fs));
    SetAllIs(NO_FIELDS, fs);
  }

  /** An unknown field refuses the line, whatever comes before it. */
  lemma UnknownRefused(fs: seq<Typed>, end: string)
    requires WellTyped(fs) && end != "" && end[0] != ' ' && Keyword(end).None? && !("body=" <= end)
    ensures ParsePkt(FieldsText(fs, end)) == None
  {
    ScanFields(fs, end, NO_FIELDS);
  }

  lemma {:induction false} TextEnds(fs: seq<Typed>, a: string, b: string)
    ensures FieldsText(fs, a + b) == FieldsText(fs, a) + b
    decreases |fs|
  {
    if fs != [] {
      TextEnds(fs[1..], a, b);
    }
  }

  lemma {:induction false} TextEndsIn(fs: seq<Typed>, end: string)
    requires end != ""
    ensures var s := FieldsText(fs, end); s != "" && s[|s| - 1] == end[|end| - 1]
    decreases |fs|
  {
    if fs != [] {
      TextEndsIn(fs[1..], end);
    }
  }

  lemma PktHead(fs: seq<Typed>, body: string, head: string)
    requires head == " " + FieldsText(fs, "body=")
    ensures head[|head| - 1] !in "\r\n " && head[1..] + body == FieldsText(fs, "body=" + body)
    ensures " " + FieldsText(fs, "body=" + body) == head + body
  {
    TextEndsIn(fs, "body=");
    TextEnds(fs, "body=", body);
  }

  lemma PktAsks(rest: string, pkt: Option<Request>)
    ensures Chosen("PKT", rest, pkt) == if pkt.Some? then Pkt(pkt.value) else Nothing
  {
  }

  /** A PKT line with a body: the blanks at its end are not part of the body. */
  lemma PktCommand(indent: string, typed: string, fs: seq<Typed>, body: string)
    requires Indent(indent) && Spells(typed, "PKT") && WellTyped(fs)
    ensures var r := Asked(fs, TrimRight(body));
            ParseLine(indent + typed + (" " + FieldsText(fs, "body=" + body)))
            == if r.Some? then Pkt(r.value) else Nothing
  {
    var head, tail := " " + FieldsText(fs, "body="), TrimRight(body);
    var behind := head[1..] + tail;
    PktHead(fs, body, head);
    PktHead(fs, tail, head);
    BehindIs(head, body);
    LineSplits(indent, typed, "PKT", head + body, behind);
    FieldsAsk(fs, tail);
    PktAsks(behind, ParsePkt(behind));
  }

  /** The fields of a record, in the order in which they are printed. */
  function FieldsOfRecord(p: Packet): seq<Typed> {
    [Typed("id=", p.id), Typed("d=", Listed(p.d)), Typed("role=", RoleName(p.role)), Typed("hash=", p.hash),
     Typed("perm=", p.perm)]
  }

  lemma TextNext(x: Typed, fs: seq<Typed>, end: string)
    ensures FieldsText([x] + fs, end) == x.key + (x.value + (" " + FieldsText(fs, end)))
  {
    assert ([x] + fs)[1..] == fs;
  }

  /** The printed line of a record: PKT and its fields in this order, the body last. */
  lemma PktLineIs(p: Packet)
    ensures PktLine(p) == "PKT" + (" " + FieldsText(FieldsOfRecord(p), "body=" + p.body))
  {
    var fs, end := FieldsOfRecord(p), "body=" + p.body;
    var none: seq<Typed> := [];
    assert FieldsText(none, end) == end;
    TextNext(fs[4], none, end);
    TextNext(fs[3], [fs[4]], end);
    TextNext(fs[2], [fs[3], fs[4]], end);
    TextNext(fs[1], [fs[2], fs[3], fs[4]], end);
    TextNext(fs[0], [fs[1], fs[2], fs[3], fs[4]], end);
    assert [fs[4]] + none == [fs[4]] && [fs[3]] + [fs[4]] == [fs[3], fs[4]];
    assert [fs[2]] + [fs[3], fs[4]] == [fs[2], fs[3], fs[4]];
    assert [fs[1]] + [fs[2], fs[3], fs[4]] == [fs[1], fs[2], fs[3], fs[4]];
    assert [fs[0]] + [fs[1], fs[2], fs[3], fs[4]] == fs;
  }

  // ---------------------------------------------------------------- roles

  const NAMES: seq<string> := ["note", "document", "executable", "runtime", "boot", "payload", "archive", "firmware"]

  predicate AnyCase(typed: string, name: string) {
    |typed| == |name| && forall i | 0 <= i < |name| ::
      typed[i] == name[i] || typed[i] as int == name[i] as int - 32
  }

  lemma LowerIff(typed: string, name: string)
    requires Letters(name)
    ensures Lower(typed) == name <==> AnyCase(typed, name)
  {
    if AnyCase(typed, name) {
      forall i | 0 <= i < |name| ensures Lower(typed)[i] == name[i] {
        if typed[i] != name[i] {
          assert typed[i] - 'A' + 'a' == name[i];
        }
      }
    } else if |typed| == |name| {
      var i :| 0 <= i < |name| && typed[i] != name[i] && typed[i] as int != name[i] as int - 32;
      assert Lower(typed)[i] != name[i];
    }
  }

  lemma NamesAre(role: nat)
    requires 1 <= role <= 8
    ensures RoleName(role) == NAMES[role - 1] && Letters(NAMES[role - 1]) && |NAMES[role - 1]| <= 10
  {
  }

  lemma FoundRole(name: string, role: nat)
    requires 1 <= role <= 8
    ensures RoleFrom(name, 1) == role <==> name == RoleName(role)
  {
    if name == RoleName(role) {
      RoleFromReads(role, 1);
    }
  }

  /** A role is known by its name in any mixture of cases, and by nothing else. */
  lemma RoleIff(typed: string, role: nat)
    requires 1 <= role <= 8
    ensures ParseRole(typed) == role <==> AnyCase(typed, NAMES[role - 1])
  {
    NamesAre(role);
    LowerIff(Clip(typed, ROLE_CHARS), NAMES[role - 1]);
    FoundRole(Lower(Clip(typed, ROLE_CHARS)), role);
  }
}
