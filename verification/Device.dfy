/** The main loop: what a line does to the device, and the saves that the loop makes by itself. */
module Device {
  import opened Options
  import opened Packets
  import opened PacketLines
  import opened Kernel
  import opened SerialLine

  // ---------------------------------------------------------------- a line

  /** A C string ends at its first NUL. */
  function CString(s: string): string {
    if s == "" || s[0] == '\0' then "" else [s[0]] + CString(s[1..])
  }

  lemma {:induction false} CleanIsCString(s: string)
    requires Clean(s)
    ensures CString(s) == s
  {
    if s != "" {
      CleanIsCString(s[1..]);
    }
  }

  function Handle(s: State, line: string, ok: bool): State {
    Apply(s, ParseLine(CString(line)), ok)
  }

  /** What the serial loop does with a line, with a flash that answers or not. */
  function Handler(ok: bool): (State, string) -> State {
    (s, line) => Handle(s, line, ok)
  }

  // ---------------------------------------------------------------- passes of the loop

  /** One pass: whether a save is due, whether the flash answers, and the characters that have come in.
      When a save is due is the affair of the scheduling tensor. */
  datatype Pass = Pass(due: bool, ok: bool, input: string)

  function Settle(s: State, pass: Pass): State {
    if pass.due then Apply(s, Save, pass.ok) else s
  }

  function LoopOnce(c: Console<State>, pass: Pass): Console<State> {
    Receive(Handler(pass.ok), c.(state := Settle(c.state, pass)), pass.input)
  }

  function Loops(c: Console<State>, passes: seq<Pass>): Console<State>
    decreases |passes|
  {
    if passes == [] then c else Loops(LoopOnce(c, passes[0]), passes[1..])
  }

  /** All that comes in, in order. */
  function Inputs(passes: seq<Pass>): string {
    if passes == [] then "" else passes[0].input + Inputs(passes[1..])
  }

  // ---------------------------------------------------------------- lines that leave the flash alone

  predicate Quiet(line: string) {
    var c := ParseLine(CString(line));
    !c.Save? && !c.Load?
  }

  /** Whether all lines so far were quiet. */
  function Listen(calm: bool, line: string): bool {
    calm && Quiet(line)
  }

  predicate AllQuiet(line: string, input: string) {
    Receive(Listen, Console(true, line), input).state
  }

  lemma {:induction false} NoiseStays(line: string, input: string)
    ensures !Receive(Listen, Console(false, line), input).state
    decreases |input|
  {
    if input != "" {
      NoiseStays(Take(Listen, Console(false, line), input[0]).line, input[1..]);
    }
  }

  /** The device without its flash. */
  function Bare(c: Console<State>): Console<State> {
    c.(state := c.state.(flash := None))
  }

  lemma QuietIsBare(s: State, t: State, line: string, ok: bool, other: bool)
    requires s.(flash := None) == t.(flash := None) && Quiet(line)
    ensures Handler(ok)(s, line).(flash := None) == Handler(other)(t, line).(flash := None)
  {
    CommandIsBare(s, t, ParseLine(CString(line)), ok, other);
  }

  lemma CommandIsBare(s: State, t: State, c: Command, ok: bool, other: bool)
    requires s.(flash := None) == t.(flash := None) && !c.Save? && !c.Load?
    ensures Apply(s, c, ok).(flash := None) == Apply(t, c, other).(flash := None)
  {
    match c
    case Clear => SeedIsBare(s, t);
    case _ =>
  }

  lemma StoreIsBare(s: State, t: State, r: Request)
    requires s.(flash := None) == t.(flash := None)
    ensures Store(s, r).(flash := None) == Store(t, r).(flash := None)
  {
  }

  lemma SeedIsBare(s: State, t: State)
    requires s.(flash := None) == t.(flash := None)
    ensures Seed(s).(flash := None) == Seed(t).(flash := None)
  {
    var u, v := s.(bank := EmptyBank(), nextGen := 1), t.(bank := EmptyBank(), nextGen := 1);
    StoreIsBare(u, v, SEED_KERNEL);
    StoreIsBare(Store(u, SEED_KERNEL), Store(v, SEED_KERNEL), SEED_USB);
  }

  /** Quiet input has the same effect whatever is in the flash and whether it answers or not. */
  lemma {:induction false} ReceiveIsBare(c: Console<State>, d: Console<State>, input: string, ok: bool, other: bool)
    requires Bare(c) == Bare(d) && AllQuiet(c.line, input)
    ensures Bare(Receive(Handler(ok), c, input)) == Bare(Receive(Handler(other), d, input))
    decreases |input|
  {
    if input != "" {
      var rest := input[1..];
      if input[0] == '\n' {
        if !Quiet(c.line) {
          NoiseStays("", rest);
        }
        QuietIsBare(c.state, d.state, c.line, ok, other);
      }
      ReceiveIsBare(Take(Handler(ok), c, input[0]), Take(Handler(other), d, input[0]), rest, ok, other);
    }
  }

  lemma QuietParts(line: string, a: string, b: string)
    requires AllQuiet(line, a + b)
    ensures AllQuiet(line, a) && AllQuiet(Receive(Listen, Console(true, line), a).line, b)
  {
    var heard := Receive(Listen, Console(true, line), a);
    ReceiveAppend(Listen, Console(true, line), a, b);
    if !heard.state {
      NoiseStays(heard.line, b);
    }
  }

  /** The line gathered does not depend on what lines do. */
  lemma {:induction false} SameLine<S, T>(f: (S, string) -> S, g: (T, string) -> T, c: Console<S>, d: Console<T>,
                                          input: string)
    requires c.line == d.line
    ensures Receive(f, c, input).line == Receive(g, d, input).line
    decreases |input|
  {
    if input != "" {
      SameLine(f, g, Take(f, c, input[0]), Take(g, d, input[0]), input[1..]);
    }
  }

  /** Saves made by the loop between any two characters, with a flash that answers or not, change
      nothing but the flash as long as the input is quiet. */
  lemma {:induction false} LoopsAreBare(c: Console<State>, d: Console<State>, passes: seq<Pass>)
    requires Bare(c) == Bare(d) && AllQuiet(c.line, Inputs(passes))
    ensures Bare(Loops(c, passes)) == Bare(Receive(Handler(true), d, Inputs(passes)))
    decreases |passes|
  {
    if passes != [] {
      var first, rest := passes[0], Inputs(passes[1..]);
      var settled := c.(state := Settle(c.state, first));
      QuietParts(c.line, first.input, rest);
      ReceiveIsBare(settled, d, first.input, first.ok, true);
      SameLine(Handler(first.ok), Listen, settled, Console(true, c.line), first.input);
      LoopsAreBare(LoopOnce(c, first), Receive(Handler(true), d, first.input), passes[1..]);
      ReceiveAppend(Handler(true), d, first.input, rest);
    }
  }
}
