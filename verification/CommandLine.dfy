/**
 Splitting a configured command into arguments (internal/commands/commands.go). The
 parser reads bytes and starts as if it had just read a backslash.
 */
module CommandLine {
  type Byte = n: nat | n < 256

  const TAB: Byte := 9
  const SPACE: Byte := 32
  const DOUBLE_QUOTE: Byte := 34
  const SINGLE_QUOTE: Byte := 39
  const BACKSLASH: Byte := 92

  datatype Mode = Start | Quotes | Arg

  datatype Machine = Machine(mode: Mode, current: seq<Byte>, quote: Byte, escapeNext: bool, args: seq<seq<Byte>>)

  datatype Result = Parsed(args: seq<seq<Byte>>) | UnclosedQuote

  /** A byte is read as the rune of that number: beyond ASCII it takes two bytes. */
  function Rune(c: Byte): seq<Byte> {
    if c < 128 then [c] else [192 + c / 64, 128 + c % 64]
  }

  /** Those two are the UTF-8 encoding of the number (section 3 of RFC 3629). */
  lemma RuneIsUtf8(c: Byte)
    ensures c < 128 ==> Rune(c) == [c]
    ensures c >= 128 ==>
              var r := Rune(c);
              && |r| == 2 && 0xC0 <= r[0] < 0xE0 && 0x80 <= r[1] < 0xC0
              && (r[0] - 0xC0) * 64 + (r[1] - 0x80) == c
  {
  }

  predicate IsAscii(text: seq<Byte>) {
    forall i :: 0 <= i < |text| ==> text[i] < 128
  }

  function Runes(text: seq<Byte>): seq<Byte> {
    if text == [] then [] else Rune(text[0]) + Runes(text[1..])
  }

  function Step(m: Machine, c: Byte): Machine {
    if m.mode == Quotes then
      if c != m.quote then m.(current := m.current + Rune(c))
      else m.(args := m.args + [m.current], current := [], mode := Start)
    else if m.escapeNext then m.(current := m.current + Rune(c), escapeNext := false)
    else if c == BACKSLASH then m.(escapeNext := true)
    else if c == DOUBLE_QUOTE || c == SINGLE_QUOTE then m.(mode := Quotes, quote := c)
    else if m.mode == Arg then
      if c == SPACE || c == TAB then m.(args := m.args + [m.current], current := [], mode := Start)
      else m.(current := m.current + Rune(c))
    else if c != SPACE && c != TAB then m.(mode := Arg, current := m.current + Rune(c))
    else m
  }

  function Run(m: Machine, command: seq<Byte>): Machine
    decreases |command|
  {
    if command == [] then m else Run(Step(m, command[0]), command[1..])
  }

  const INITIAL := Machine(Start, [], DOUBLE_QUOTE, true, [])

  function Finish(m: Machine): Result {
    if m.mode == Quotes then UnclosedQuote
    else if m.current != [] then Parsed(m.args + [m.current])
    else Parsed(m.args)
  }

  function Parse(command: seq<Byte>): Result {
    Finish(Run(INITIAL, command))
  }

  // ----- the parser

  method ParseCommandLine(command: seq<Byte>) returns (r: Result)
    ensures r == Parse(command)
  {
    var args: seq<seq<Byte>> := [];
    var state := Start;
    var current: seq<Byte> := [];
    var quote := DOUBLE_QUOTE;
    var escapeNext := true;
    for i := 0 to |command|
      invariant Run(Machine(state, current, quote, escapeNext, args), command[i..]) == Run(INITIAL, command)
    {
      assert command[i..][1..] == command[i + 1..];
      var c := command[i];
      if state == Quotes {
        if c != quote {
          current := current + Rune(c);
        } else {
          args := args + [current];
          current := [];
          state := Start;
        }
        continue;
      }
      if escapeNext {
        current := current + Rune(c);
        escapeNext := false;
        continue;
      }
      if c == BACKSLASH {
        escapeNext := true;
        continue;
      }
      if c == DOUBLE_QUOTE || c == SINGLE_QUOTE {
        state := Quotes;
        quote := c;
        continue;
      }
      if state == Arg {
        if c == SPACE || c == TAB {
          args := args + [current];
          current := [];
          state := Start;
        } else {
          current := current + Rune(c);
        }
        continue;
      }
      if c != SPACE && c != TAB {
        state := Arg;
        current := current + Rune(c);
      }
    }
    if state == Quotes {
      return UnclosedQuote;
    }
    if current != [] {
      args := args + [current];
    }
    return Parsed(args);
  }

  // ----- writing a command line

  /** An argument as written, with the blanks before it: bare, with a backslash before
      every byte that means something to the parser, or between quotes. */
  datatype Argument =
    | Plain(before: seq<Byte>, text: seq<Byte>)
    | Quoted(before: seq<Byte>, text: seq<Byte>, quote: Byte)

  predicate IsBlank(c: Byte) {
    c == SPACE || c == TAB
  }

  predicate IsPlain(c: Byte) {
    c != SPACE && c != TAB && c != DOUBLE_QUOTE && c != SINGLE_QUOTE && c != BACKSLASH
  }

  predicate Blank(text: seq<Byte>) {
    forall i :: 0 <= i < |text| ==> IsBlank(text[i])
  }

  predicate HasPlain(text: seq<Byte>) {
    exists i :: 0 <= i < |text| && IsPlain(text[i])
  }

  predicate Lacks(text: seq<Byte>, c: Byte) {
    forall i :: 0 <= i < |text| ==> text[i] != c
  }

  predicate Writable(a: Argument) {
    && Blank(a.before)
    && match a
       case Plain(_, text) => text != []
       case Quoted(_, text, quote) => (quote == DOUBLE_QUOTE || quote == SINGLE_QUOTE) && Lacks(text, quote)
  }

  /** The arguments after the first are set apart by blanks. */
  predicate Following(arguments: seq<Argument>) {
    forall i :: 0 <= i < |arguments| ==> Writable(arguments[i]) && arguments[i].before != []
  }

  predicate AllWritable(arguments: seq<Argument>) {
    arguments != [] ==> Writable(arguments[0]) && arguments[0].before == [] && Following(arguments[1..])
  }

  function Escaped(text: seq<Byte>): seq<Byte> {
    if text == [] then []
    else (if IsPlain(text[0]) then [text[0]] else [BACKSLASH, text[0]]) + Escaped(text[1..])
  }

  function Written(a: Argument): seq<Byte> {
    match a
    case Plain(_, text) => Escaped(text)
    case Quoted(_, text, quote) => [quote] + text + [quote]
  }

  function Line(arguments: seq<Argument>): seq<Byte> {
    if arguments == [] then [] else arguments[0].before + (Written(arguments[0]) + Line(arguments[1..]))
  }

  function Texts(arguments: seq<Argument>): (r: seq<seq<Byte>>)
    ensures |r| == |arguments| && forall i :: 0 <= i < |r| ==> r[i] == arguments[i].text
  {
    seq(|arguments|, i requires 0 <= i < |arguments| => arguments[i].text)
  }

  /** The texts as the parser reads them. */
  function Read(arguments: seq<Argument>): (r: seq<seq<Byte>>)
    ensures |r| == |arguments| && forall i :: 0 <= i < |r| ==> r[i] == Runes(arguments[i].text)
  {
    seq(|arguments|, i requires 0 <= i < |arguments| => Runes(arguments[i].text))
  }

  predicate Ascii(arguments: seq<Argument>) {
    forall i :: 0 <= i < |arguments| ==> IsAscii(arguments[i].text)
  }

  /** Only plain bytes and quotes make the parser see an argument: a bare one without any
      becomes the beginning of the next. */
  predicate Sticks(a: Argument) {
    a.Plain? && !HasPlain(a.text)
  }

  /** An argument other than the last sticks to the one after it. */
  predicate SomeStick(arguments: seq<Argument>) {
    exists i :: 0 <= i < |arguments| - 1 && Sticks(arguments[i])
  }

  /** What the parser makes of arguments when `current` has been read already. */
  function Glued(current: seq<Byte>, arguments: seq<Argument>): seq<seq<Byte>>
    decreases |arguments|
  {
    if arguments == [] then if current == [] then [] else [current]
    else
      var a, rest := arguments[0], arguments[1..];
      if Sticks(a) then Glued(current + Runes(a.text), rest)
      else [current + Runes(a.text)] + Glued([], rest)
  }

  // ----- running the parser over written arguments

  lemma {:induction false} RunAppend(m: Machine, a: seq<Byte>, b: seq<Byte>)
    ensures Run(m, a + b) == Run(Run(m, a), b)
    decreases |a|
  {
    if a == [] {
      assert a + b == b;
    } else {
      assert (a + b)[1..] == a[1..] + b;
      RunAppend(Step(m, a[0]), a[1..], b);
    }
  }

  lemma RunOne(m: Machine, c: Byte, rest: seq<Byte>)
    ensures Run(m, [c] + rest) == Run(Step(m, c), rest)
  {
    assert ([c] + rest)[1..] == rest;
  }

  lemma RunesOne(c: Byte, rest: seq<Byte>)
    ensures Runes([c] + rest) == Rune(c) + Runes(rest)
  {
    assert ([c] + rest)[1..] == rest;
  }

  lemma Grown(current: seq<Byte>, first: seq<Byte>, more: seq<Byte>)
    ensures current + (first + more) == (current + first) + more
    ensures current + first == current + (first + [])
  {
  }

  lemma HasPlainSplits(text: seq<Byte>)
    requires text != []
    ensures HasPlain(text) <==> IsPlain(text[0]) || HasPlain(text[1..])
  {
    assert forall i :: 0 < i < |text| ==> text[i] == text[1..][i - 1];
    assert forall i :: 0 <= i < |text| - 1 ==> text[1..][i] == text[i + 1];
  }

  /** Escaped bytes are read as themselves, and only plain ones end the search for an argument. */
  lemma {:induction false} RunEscaped(m: Machine, text: seq<Byte>)
    requires m.mode != Quotes && !m.escapeNext
    ensures Run(m, Escaped(text)) ==
            m.(current := m.current + Runes(text), mode := if HasPlain(text) then Arg else m.mode)
    decreases |text|
  {
    if text == [] {
      assert m.current + [] == m.current;
    } else {
      var c, rest := text[0], Escaped(text[1..]);
      HasPlainSplits(text);
      Grown(m.current, Rune(c), Runes(text[1..]));
      if IsPlain(c) {
        RunOne(m, c, rest);
        RunEscaped(Step(m, c), text[1..]);
      } else {
        assert [BACKSLASH, c] + rest == [BACKSLASH] + ([c] + rest);
        RunOne(m, BACKSLASH, [c] + rest);
        RunOne(Step(m, BACKSLASH), c, rest);
        RunEscaped(Step(Step(m, BACKSLASH), c), text[1..]);
      }
    }
  }

  lemma {:induction false} RunQuoted(m: Machine, text: seq<Byte>)
    requires m.mode == Quotes && Lacks(text, m.quote)
    ensures Run(m, text) == m.(current := m.current + Runes(text))
    decreases |text|
  {
    if text == [] {
      assert m.current + [] == m.current;
    } else {
      RunQuoted(Step(m, text[0]), text[1..]);
      Grown(m.current, Rune(text[0]), Runes(text[1..]));
    }
  }

  /** Between arguments: what has been read already becomes part of the next one. */
  predicate Ready(m: Machine) {
    m.mode == Start && !m.escapeNext
  }

  lemma {:induction false} RunBlanks(m: Machine, blanks: seq<Byte>)
    requires Ready(m) && Blank(blanks)
    ensures Run(m, blanks) == m
    decreases |blanks|
  {
    if blanks != [] {
      assert IsBlank(blanks[0]);
      RunBlanks(m, blanks[1..]);
    }
  }

  lemma RunClosed(m: Machine, a: Argument)
    requires Ready(m) && a.Quoted? && Writable(a)
    ensures Run(m, Written(a)) == m.(args := m.args + [m.current + Runes(a.text)], current := [], quote := a.quote)
  {
    var inside := Step(m, a.quote);
    assert Written(a) == [a.quote] + (a.text + [a.quote]);
    RunOne(m, a.quote, a.text + [a.quote]);
    RunQuoted(inside, a.text);
    RunAppend(inside, a.text, [a.quote]);
    RunOne(Run(inside, a.text), a.quote, []);
    assert [a.quote] + [] == [a.quote];
  }

  /** An argument that has been read to its end, and the machine from which it would not
      have been read yet. */
  lemma BlanksEndIt(m: Machine, rest: seq<Argument>)
    requires m.mode == Arg && !m.escapeNext && rest != [] && Following(rest)
    ensures Run(m, Line(rest)) == Run(m.(args := m.args + [m.current], current := [], mode := Start), Line(rest))
  {
    var next := m.(args := m.args + [m.current], current := [], mode := Start);
    var blanks, more := rest[0].before, Written(rest[0]) + Line(rest[1..]);
    assert IsBlank(blanks[0]) && Step(m, blanks[0]) == next && Step(next, blanks[0]) == next;
    assert blanks == [blanks[0]] + blanks[1..];
    RunOne(m, blanks[0], blanks[1..]);
    RunOne(next, blanks[0], blanks[1..]);
    RunAppend(m, blanks, more);
    RunAppend(next, blanks, more);
  }

  lemma Appended(args: seq<seq<Byte>>, first: seq<Byte>, more: seq<seq<Byte>>)
    ensures (args + [first]) + more == args + ([first] + more)
  {
  }

  /** From a machine between arguments, one argument and those that follow it. */
  lemma {:induction false} RunFrom(m: Machine, a: Argument, rest: seq<Argument>)
    requires Ready(m) && (a.Quoted? ==> Writable(a)) && (m.current != [] || a.Quoted? || a.text != [])
    requires Following(rest)
    ensures Finish(Run(m, Written(a) + Line(rest))) == Parsed(m.args + Glued(m.current, [a] + rest))
    decreases |rest|, 1
  {
    assert ([a] + rest)[1..] == rest;
    RunAppend(m, Written(a), Line(rest));
    var m', read := Run(m, Written(a)), m.current + Runes(a.text);
    Appended(m.args, read, Glued([], rest));
    if a.Quoted? {
      RunClosed(m, a);
      RunLine(m', rest);
    } else {
      RunEscaped(m, a.text);
      if Sticks(a) {
        RunLine(m', rest);
      } else if rest == [] {
        OtherTextGrows(a.text);
        assert [read] + Glued([], rest) == [read];
      } else {
        BlanksEndIt(m', rest);
        RunLine(m'.(args := m.args + [read], current := [], mode := Start), rest);
      }
    }
  }

  lemma {:induction false} RunLine(m: Machine, arguments: seq<Argument>)
    requires Ready(m) && Following(arguments)
    ensures Finish(Run(m, Line(arguments))) == Parsed(m.args + Glued(m.current, arguments))
    decreases |arguments|, 0
  {
    if arguments == [] {
      assert m.args + [] == m.args;
    } else {
      var a, rest := arguments[0], arguments[1..];
      RunAppend(m, a.before, Written(a) + Line(rest));
      RunBlanks(m, a.before);
      RunFrom(m, a, rest);
      assert [a] + rest == arguments;
    }
  }

  // ----- the first argument

  /** The machine takes the next byte literally, as it does at the start. */
  function Literally(current: seq<Byte>): Machine {
    Machine(Start, current, DOUBLE_QUOTE, true, [])
  }

  /** A bare first argument begins as it is written: with a plain byte, after any number of
      backslashes. */
  predicate Leads(text: seq<Byte>) {
    text == [] || IsPlain(text[0]) || (text[0] == BACKSLASH && Leads(text[1..]))
  }

  /** What follows these backslashes and that byte. */
  function Body(text: seq<Byte>): seq<Byte> {
    if text == [] then [] else if text[0] == BACKSLASH then Body(text[1..]) else text[1..]
  }

  predicate OnlyBackslashes(text: seq<Byte>) {
    forall i :: 0 <= i < |text| ==> text[i] == BACKSLASH
  }

  lemma ReadLiterally(current: seq<Byte>, c: Byte, rest: seq<Byte>)
    ensures Run(Literally(current), [c] + rest) == Run(Machine(Start, current + Rune(c), DOUBLE_QUOTE, false, []), rest)
  {
    RunOne(Literally(current), c, rest);
  }

  lemma ReadBackslash(current: seq<Byte>, text: seq<Byte>, more: seq<Byte>)
    requires text != [] && text[0] == BACKSLASH
    ensures Run(Literally(current), Escaped(text) + more) ==
            Run(Literally(current + [BACKSLASH]), Escaped(text[1..]) + more)
  {
    var rest := Escaped(text[1..]) + more;
    assert Escaped(text) + more == [BACKSLASH] + ([BACKSLASH] + rest);
    ReadLiterally(current, BACKSLASH, [BACKSLASH] + rest);
    RunOne(Machine(Start, current + [BACKSLASH], DOUBLE_QUOTE, false, []), BACKSLASH, rest);
  }

  /** A first argument that begins so is read like any other, but that its first plain byte
      does not count. */
  lemma {:induction false} LeadIsRead(current: seq<Byte>, text: seq<Byte>, rest: seq<Argument>)
    requires Leads(text) && !OnlyBackslashes(text) && Following(rest)
    ensures Finish(Run(Literally(current), Escaped(text) + Line(rest))) ==
            Parsed(if HasPlain(Body(text)) then [current + Runes(text)] + Glued([], rest)
                   else Glued(current + Runes(text), rest))
    decreases |text|
  {
    var c := text[0];
    Grown(current, Rune(c), Runes(text[1..]));
    if c == BACKSLASH {
      ReadBackslash(current, text, Line(rest));
      LeadIsRead(current + [BACKSLASH], text[1..], rest);
    } else {
      var a, m := Plain([], text[1..]), Machine(Start, current + Rune(c), DOUBLE_QUOTE, false, []);
      EscapedFirst(text, Line(rest));
      ReadLiterally(current, c, Written(a) + Line(rest));
      RunFrom(m, a, rest);
      assert ([a] + rest)[1..] == rest && [] + Glued(m.current, [a] + rest) == Glued(m.current, [a] + rest);
    }
  }

  /** Backslashes alone are read as they are when nothing follows. */
  lemma {:induction false} BackslashesAreRead(current: seq<Byte>, text: seq<Byte>)
    requires OnlyBackslashes(text) && current + text != []
    ensures Finish(Run(Literally(current), Escaped(text))) == Parsed([current + text])
    ensures Runes(text) == text && Body(text) == []
    decreases |text|
  {
    if text == [] {
      assert current + text == current && [] + [current] == [current];
    } else {
      assert Escaped(text) + [] == Escaped(text) && Escaped(text[1..]) + [] == Escaped(text[1..]);
      ReadBackslash(current, text, []);
      BackslashesAreRead(current + [BACKSLASH], text[1..]);
      assert current + [BACKSLASH] + text[1..] == current + text;
    }
  }

  /** What has been read first stays the beginning of the first argument. */
  ghost predicate BeginsWith(m: Machine, p: seq<Byte>) {
    if m.args == [] then p <= m.current else p <= m.args[0]
  }

  lemma {:induction false} BeginningStays(m: Machine, command: seq<Byte>, p: seq<Byte>)
    requires BeginsWith(m, p)
    ensures BeginsWith(Run(m, command), p)
    decreases |command|
  {
    if command != [] {
      BeginningStays(Step(m, command[0]), command[1..], p);
    }
  }

  lemma TakenFirst(current: seq<Byte>, c: Byte, rest: seq<Byte>)
    ensures var r := Finish(Run(Literally(current), [c] + rest));
            r.Parsed? ==> r.args != [] && current + Rune(c) <= r.args[0]
  {
    var m := Machine(Start, current + Rune(c), DOUBLE_QUOTE, false, []);
    ReadLiterally(current, c, rest);
    BeginningStays(m, rest, m.current);
  }

  /** The first argument, if there is a result, is not this one. */
  ghost predicate Spoiled(r: Result, text: seq<Byte>) {
    r.Parsed? ==> r.args != [] && r.args[0] != text
  }

  lemma SpoiledBy(current: seq<Byte>, c: Byte, rest: seq<Byte>, text: seq<Byte>)
    requires c < 128 && (text == [] || text[0] != c)
    ensures Spoiled(Finish(Run(Literally(current), [c] + rest)), current + text)
  {
    TakenFirst(current, c, rest);
    var r := Finish(Run(Literally(current), [c] + rest));
    if r.Parsed? {
      assert (current + [c])[|current|] == r.args[0][|current|];
    }
  }

  lemma BlankIsTaken(current: seq<Byte>, rest: seq<Argument>)
    requires rest != [] && Following(rest)
    ensures Spoiled(Finish(Run(Literally(current), Line(rest))), current + [])
  {
    var line := Line(rest);
    assert line[0] == rest[0].before[0] && IsBlank(rest[0].before[0]);
    assert line == [line[0]] + line[1..];
    SpoiledBy(current, line[0], line[1..], []);
  }

  lemma BackslashIsTaken(current: seq<Byte>, text: seq<Byte>, more: seq<Byte>)
    requires text != [] && !IsPlain(text[0]) && text[0] != BACKSLASH
    ensures Spoiled(Finish(Run(Literally(current), Escaped(text) + more)), current + text)
  {
    var line := Escaped(text) + more;
    assert line[0] == BACKSLASH && line == [line[0]] + line[1..];
    SpoiledBy(current, BACKSLASH, line[1..], text);
  }

  /** Any other first argument comes out with a backslash or a blank that was not in it. */
  lemma {:induction false} LeadIsSpoiled(current: seq<Byte>, text: seq<Byte>, rest: seq<Argument>)
    requires !Leads(text) || (OnlyBackslashes(text) && rest != [])
    requires Following(rest)
    ensures Spoiled(Finish(Run(Literally(current), Escaped(text) + Line(rest))), current + text)
    decreases |text|
  {
    if text == [] {
      BlankIsTaken(current, rest);
      assert Escaped(text) + Line(rest) == Line(rest);
    } else if text[0] == BACKSLASH {
      ReadBackslash(current, text, Line(rest));
      LeadIsSpoiled(current + [BACKSLASH], text[1..], rest);
      assert current + [BACKSLASH] + text[1..] == current + text;
    } else {
      BackslashIsTaken(current, text, Line(rest));
    }
  }

  // ----- what comes back

  lemma LineOfFirst(arguments: seq<Argument>)
    requires arguments != [] && arguments[0].before == []
    ensures Line(arguments) == Written(arguments[0]) + Line(arguments[1..])
  {
  }

  /** With a bare first argument that begins so, what comes back. */
  lemma LineIsRead(arguments: seq<Argument>)
    requires AllWritable(arguments) && arguments != [] && arguments[0].Plain?
    requires Leads(arguments[0].text) && !OnlyBackslashes(arguments[0].text)
    ensures var text, rest := arguments[0].text, arguments[1..];
            Parse(Line(arguments)) ==
            Parsed(if HasPlain(Body(text)) then [Runes(text)] + Glued([], rest) else Glued(Runes(text), rest))
  {
    LineOfFirst(arguments);
    LeadIsRead([], arguments[0].text, arguments[1..]);
    assert [] + Runes(arguments[0].text) == Runes(arguments[0].text);
  }

  /** A bare first argument of one byte is glued to the second. */
  lemma ShortFirstIsGlued(arguments: seq<Argument>)
    requires AllWritable(arguments) && |arguments| >= 2 && arguments[0].Plain? && |arguments[0].text| == 1
    requires IsPlain(arguments[0].text[0]) && !Sticks(arguments[1])
    ensures Parse(Line(arguments)) ==
            Parsed([Runes(arguments[0].text) + Runes(arguments[1].text)] + Glued([], arguments[2..]))
  {
    LineIsRead(arguments);
    assert arguments[1..][1..] == arguments[2..];
  }

  /** A quoted first argument never comes back: its opening quote is taken literally. */
  lemma QuotedFirstIsLost(arguments: seq<Argument>)
    requires AllWritable(arguments) && arguments != [] && arguments[0].Quoted?
    ensures var r := Parse(Line(arguments));
            r.Parsed? ==> r.args != [] && r.args[0] != [] && r.args[0][0] == arguments[0].quote
    ensures Parse(Line(arguments)) != Parsed(Texts(arguments))
  {
    var a, line := arguments[0], Line(arguments);
    assert line[0] == a.quote && line == [line[0]] + line[1..];
    TakenFirst([], a.quote, line[1..]);
    assert [] + Rune(a.quote) == [a.quote];
    assert Texts(arguments)[0] == a.text;
  }

  lemma StickSplits(arguments: seq<Argument>)
    requires |arguments| > 1
    ensures SomeStick(arguments) <==> Sticks(arguments[0]) || SomeStick(arguments[1..])
  {
    var rest := arguments[1..];
    assert forall i :: 0 < i < |arguments| ==> arguments[i] == rest[i - 1];
    assert forall i :: 0 <= i < |rest| ==> rest[i] == arguments[i + 1];
  }

  lemma EscapedFirst(text: seq<Byte>, more: seq<Byte>)
    requires text != [] && IsPlain(text[0])
    ensures Escaped(text) + more == [text[0]] + (Escaped(text[1..]) + more)
  {
  }

  lemma OpenQuoteStays(m: Machine, quote: Byte, inside: seq<Byte>)
    requires m.mode != Quotes && !m.escapeNext
    requires (quote == DOUBLE_QUOTE || quote == SINGLE_QUOTE) && Lacks(inside, quote)
    ensures Finish(Run(m, [quote] + inside)) == UnclosedQuote
  {
    RunOne(m, quote, inside);
    RunQuoted(Step(m, quote), inside);
  }

  /** A quote that is opened and not closed is an error. */
  lemma OpenQuoteFails(text: seq<Byte>, quote: Byte, inside: seq<Byte>)
    requires text != [] && IsPlain(text[0])
    requires (quote == DOUBLE_QUOTE || quote == SINGLE_QUOTE) && Lacks(inside, quote)
    ensures Parse(Escaped(text) + ([quote] + inside)) == UnclosedQuote
  {
    var m, more := Machine(Start, [] + Rune(text[0]), DOUBLE_QUOTE, false, []), [quote] + inside;
    EscapedFirst(text, more);
    ReadLiterally([], text[0], Escaped(text[1..]) + more);
    RunAppend(m, Escaped(text[1..]), more);
    RunEscaped(m, text[1..]);
    OpenQuoteStays(Run(m, Escaped(text[1..])), quote, inside);
  }

  /** Every argument that sticks to another is missing in the end. */
  lemma {:induction false} GluedIsShorter(current: seq<Byte>, arguments: seq<Argument>)
    requires arguments != []
    ensures |Glued(current, arguments)| <= |arguments|
    ensures SomeStick(arguments) ==> |Glued(current, arguments)| < |arguments|
    decreases |arguments|
  {
    var rest := arguments[1..];
    if rest == [] {
      assert Glued([], rest) == [];
    } else {
      StickSplits(arguments);
      GluedIsShorter(if Sticks(arguments[0]) then current + Runes(arguments[0].text) else [], rest);
    }
  }

  lemma ReadFront(arguments: seq<Argument>)
    requires arguments != []
    ensures Read(arguments) == [Runes(arguments[0].text)] + Read(arguments[1..])
  {
  }

  /** If none does, every argument comes back. */
  lemma {:induction false} NothingIsGlued(arguments: seq<Argument>)
    requires Following(arguments) && !SomeStick(arguments)
    ensures Glued([], arguments) == Read(arguments)
    decreases |arguments|
  {
    if arguments != [] {
      var a, rest := arguments[0], arguments[1..];
      if rest != [] {
        StickSplits(arguments);
      }
      OtherTextGrows(a.text);
      assert [] + Runes(a.text) == Runes(a.text);
      NothingIsGlued(rest);
      ReadFront(arguments);
    }
  }

  /** The round trip for any texts, with the exact condition: the first argument is bare and
      begins with a plain byte, after any number of backslashes; only the last may stick,
      where in the first that byte does not count; and everything is ASCII. */
  lemma RoundTripIff(arguments: seq<Argument>)
    requires AllWritable(arguments)
    ensures Parse(Line(arguments)) == Parsed(Texts(arguments)) <==>
            arguments == [] ||
            (arguments[0].Plain? && Leads(arguments[0].text) && Ascii(arguments) &&
             (|arguments| > 1 ==> HasPlain(Body(arguments[0].text))) && !SomeStick(arguments[1..]))
  {
    if arguments == [] {
      assert Texts(arguments) == [];
    } else if arguments[0].Quoted? {
      QuotedFirstIsLost(arguments);
    } else {
      PlainFirstIff(arguments);
    }
  }

  lemma PlainFirstIff(arguments: seq<Argument>)
    requires AllWritable(arguments) && arguments != [] && arguments[0].Plain?
    ensures Parse(Line(arguments)) == Parsed(Texts(arguments)) <==>
            && Leads(arguments[0].text) && Ascii(arguments)
            && (|arguments| > 1 ==> HasPlain(Body(arguments[0].text))) && !SomeStick(arguments[1..])
  {
    var text, rest := arguments[0].text, arguments[1..];
    if !Leads(text) {
      FirstIsSpoiled(arguments);
    } else if OnlyBackslashes(text) {
      BackslashesAreRead([], text);
      if rest == [] {
        BackslashesAlone(arguments);
      } else {
        FirstIsSpoiled(arguments);
      }
    } else {
      LineIsRead(arguments);
      LeadingIff(arguments);
    }
  }

  lemma FirstIsSpoiled(arguments: seq<Argument>)
    requires AllWritable(arguments) && arguments != [] && arguments[0].Plain?
    requires !Leads(arguments[0].text) || (OnlyBackslashes(arguments[0].text) && |arguments| > 1)
    ensures Parse(Line(arguments)) != Parsed(Texts(arguments))
  {
    LineOfFirst(arguments);
    LeadIsSpoiled([], arguments[0].text, arguments[1..]);
    assert [] + arguments[0].text == arguments[0].text == Texts(arguments)[0];
  }

  lemma WithNothing(text: seq<Byte>)
    ensures text + [] == text == [] + text
  {
  }

  lemma BackslashesAlone(arguments: seq<Argument>)
    requires AllWritable(arguments) && |arguments| == 1 && arguments[0].Plain? && OnlyBackslashes(arguments[0].text)
    ensures Parse(Line(arguments)) == Parsed(Texts(arguments)) && Ascii(arguments)
  {
    var text := arguments[0].text;
    BackslashesAreRead([], text);
    LineOfFirst(arguments);
    WithNothing(Escaped(text));
    WithNothing(text);
    assert Texts(arguments) == [text];
  }

  lemma LeadingIff(arguments: seq<Argument>)
    requires AllWritable(arguments) && arguments != [] && arguments[0].text != []
    ensures var text, rest := arguments[0].text, arguments[1..];
            var read := if HasPlain(Body(text)) then [Runes(text)] + Glued([], rest) else Glued(Runes(text), rest);
            read == Texts(arguments) <==>
            Ascii(arguments) && (|arguments| > 1 ==> HasPlain(Body(text))) && !SomeStick(rest)
  {
    var text, rest := arguments[0].text, arguments[1..];
    ReadIsTextIff(arguments);
    if rest == [] {
      OtherTextGrows(text);
      assert [Runes(text)] + Glued([], rest) == [Runes(text)] == Read(arguments);
    } else if SomeStick(rest) {
      GluedIsShorter([], rest);
      GluedIsShorter(Runes(text), rest);
    } else {
      GluedIsShorter(Runes(text), rest);
      NothingIsGlued(rest);
      ReadFront(arguments);
    }
  }

  lemma {:induction false} AsciiIsRead(text: seq<Byte>)
    requires IsAscii(text)
    ensures Runes(text) == text
  {
    if text != [] {
      AsciiIsRead(text[1..]);
    }
  }

  /** Beyond ASCII a text grows when it is read. */
  lemma {:induction false} OtherTextGrows(text: seq<Byte>)
    ensures |Runes(text)| >= |text|
    ensures !IsAscii(text) ==> |Runes(text)| > |text|
  {
    if text != [] {
      OtherTextGrows(text[1..]);
      if text[0] < 128 && IsAscii(text[1..]) {
        assert forall i :: 1 <= i < |text| ==> text[i] == text[1..][i - 1];
      }
    }
  }

  lemma ReadIsTextIff(arguments: seq<Argument>)
    ensures Read(arguments) == Texts(arguments) <==> Ascii(arguments)
  {
    if Ascii(arguments) {
      forall i | 0 <= i < |arguments|
        ensures Read(arguments)[i] == Texts(arguments)[i]
      {
        AsciiIsRead(arguments[i].text);
      }
    } else {
      var i :| 0 <= i < |arguments| && !IsAscii(arguments[i].text);
      OtherTextGrows(arguments[i].text);
      assert Read(arguments)[i] != Texts(arguments)[i];
    }
  }
}
