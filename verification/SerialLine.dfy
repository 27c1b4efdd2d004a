/** The serial loop: characters are gathered into a line, and a newline hands the line over. What a
    line does to the device's state is a parameter. */
module SerialLine {
  const CMD_LINE_MAX := 240

  /** The device and the line gathered so far. */
  datatype Console<S> = Console(state: S, line: string)

  /** What one character does: carriage returns are dropped, a newline runs the line, and a line
      keeps no more than its first 239 characters. */
  function Take<S>(handle: (S, string) -> S, c: Console<S>, ch: char): Console<S> {
    if ch == '\r' then c
    else if ch == '\n' then Console(handle(c.state, c.line), "")
    else if |c.line| + 1 < CMD_LINE_MAX then c.(line := c.line + [ch])
    else c
  }

  function Receive<S>(handle: (S, string) -> S, c: Console<S>, input: string): Console<S>
    decreases |input|
  {
    if input == "" then c else Receive(handle, Take(handle, c, input[0]), input[1..])
  }

  lemma {:induction false} ReceiveAppend<S>(handle: (S, string) -> S, c: Console<S>, a: string, b: string)
    ensures Receive(handle, c, a + b) == Receive(handle, Receive(handle, c, a), b)
    decreases |a|
  {
    if a == "" {
      assert a + b == b;
    } else {
      ReceiveAppend(handle, Take(handle, c, a[0]), a[1..], b);
      assert (a + b)[1..] == a[1..] + b;
    }
  }

  predicate Clean(s: string) {
    forall i | 0 <= i < |s| :: s[i] != '\r' && s[i] != '\n' && s[i] != '\0'
  }

  /** What the loop keeps of a line: its first 239 characters. */
  function Kept(line: string): (kept: string)
    ensures |kept| < CMD_LINE_MAX && kept <= line
  {
    if |line| < CMD_LINE_MAX then line else line[..CMD_LINE_MAX - 1]
  }

  lemma {:induction false} ReceiveText<S>(handle: (S, string) -> S, c: Console<S>, text: string)
    requires Clean(text) && |c.line| < CMD_LINE_MAX
    ensures Receive(handle, c, text) == c.(line := Kept(c.line + text))
    decreases |text|
  {
    if text != "" {
      var next := Take(handle, c, text[0]);
      ReceiveText(handle, next, text[1..]);
      if |c.line| + 1 < CMD_LINE_MAX {
        assert (c.line + [text[0]]) + text[1..] == c.line + text;
      } else {
        assert Kept(c.line + text) == c.line == Kept(c.line + text[1..]);
      }
    } else {
      assert c.line + text == c.line;
    }
  }

  /** A clean line is handed over, as far as it is kept. */
  lemma ReceiveLine<S>(handle: (S, string) -> S, s: S, line: string)
    requires Clean(line)
    ensures Receive(handle, Console(s, ""), line + "\n") == Console(handle(s, Kept(line)), "")
    ensures Receive(handle, Console(s, ""), line + "\r\n") == Console(handle(s, Kept(line)), "")
  {
    var c := Console(s, "");
    ReceiveText(handle, c, line);
    assert "" + line == line && "\n"[1..] == "" && "\r\n"[1..] == "\n";
    ReceiveAppend(handle, c, line, "\n");
    ReceiveAppend(handle, c, line, "\r\n");
  }

  /** What is handed over are the first 239 characters of the line. */
  lemma LineIsCut<S>(handle: (S, string) -> S, s: S, line: string)
    requires Clean(line)
    ensures Receive(handle, Console(s, ""), line + "\n")
         == Console(handle(s, if |line| < 240 then line else line[..239]), "")
  {
    ReceiveLine(handle, s, line);
  }

  /** Every line with a newline behind it. */
  function Joined(lines: seq<string>): string {
    if lines == [] then "" else Joined(lines[..|lines| - 1]) + (lines[|lines| - 1] + "\n")
  }

  function HandleAll<S>(handle: (S, string) -> S, s: S, lines: seq<string>): S {
    if lines == [] then s else handle(HandleAll(handle, s, lines[..|lines| - 1]), Kept(lines[|lines| - 1]))
  }

  /** Lines are handled one after the other. */
  lemma {:induction false} ReceiveLines<S>(handle: (S, string) -> S, s: S, lines: seq<string>)
    requires forall i | 0 <= i < |lines| :: Clean(lines[i])
    ensures Receive(handle, Console(s, ""), Joined(lines)) == Console(HandleAll(handle, s, lines), "")
  {
    if lines != [] {
      var n := |lines| - 1;
      ReceiveLines(handle, s, lines[..n]);
      ReceiveLine(handle, HandleAll(handle, s, lines[..n]), lines[n]);
      ReceiveAppend(handle, Console(s, ""), Joined(lines[..n]), lines[n] + "\n");
    }
  }

  /** A listing between a header and a footer that do nothing. */
  lemma ReceiveListing<S>(handle: (S, string) -> S, s: S, header: string, lines: seq<string>, footer: string)
    requires Clean(header) && Clean(footer) && forall i | 0 <= i < |lines| :: Clean(lines[i])
    requires handle(s, Kept(header)) == s
    requires var t := HandleAll(handle, s, lines); handle(t, Kept(footer)) == t
    ensures Receive(handle, Console(s, ""), (header + "\n") + (Joined(lines) + (footer + "\r\n")))
         == Console(HandleAll(handle, s, lines), "")
  {
    var c, t := Console(s, ""), HandleAll(handle, s, lines);
    ReceiveLine(handle, s, header);
    ReceiveLines(handle, s, lines);
    ReceiveLine(handle, t, footer);
    ReceiveAppend(handle, c, header + "\n", Joined(lines) + (footer + "\r\n"));
    ReceiveAppend(handle, c, Joined(lines), footer + "\r\n");
  }
}
