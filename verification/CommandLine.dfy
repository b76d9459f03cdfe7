/**
 The launcher's command line for a Windows child process, and the rules by which
 the Microsoft C runtime takes such a line apart again ("Parsing C command-line
 arguments", Microsoft C/C++ documentation).
 */
module CommandLine {

  // A UTF-16 code unit.
  type Unit = u: int | 0 <= u < 0x1_0000

  const NUL: Unit := 0
  const TAB: Unit := 9
  const SPACE: Unit := 32
  const QUOTE: Unit := 34
  const BACKSLASH: Unit := 92

  function Backslashes(n: nat): (run: seq<Unit>)
    ensures |run| == n && forall i :: 0 <= i < n ==> run[i] == BACKSLASH
  {
    seq(n, _ => BACKSLASH)
  }

  // ---------------------------------------------------------------- building the line

  // The quoted form of a value; `held` backslashes have been read but not written yet.
  function Escaped(value: seq<Unit>, held: nat): seq<Unit>
    decreases |value|
  {
    if value == [] then Backslashes(2 * held)
    else if value[0] == BACKSLASH then Escaped(value[1..], held + 1)
    else if value[0] == QUOTE then Backslashes(2 * held + 1) + [QUOTE] + Escaped(value[1..], 0)
    else Backslashes(held) + [value[0]] + Escaped(value[1..], 0)
  }

  function Quoted(value: seq<Unit>): seq<Unit> {
    [QUOTE] + Escaped(value, 0) + [QUOTE]
  }

  function Tail(arguments: seq<seq<Unit>>): seq<Unit> {
    if arguments == [] then [NUL] else [SPACE] + Quoted(arguments[0]) + Tail(arguments[1..])
  }

  function Line(executable: seq<Unit>, arguments: seq<seq<Unit>>): seq<Unit> {
    Quoted(executable) + Tail(arguments)
  }

  method AppendQuoted(output: seq<Unit>, value: seq<Unit>) returns (result: seq<Unit>)
    ensures result == output + Quoted(value)
  {
    result := output + [QUOTE];
    var backslashes := 0;
    for i := 0 to |value|
      invariant backslashes >= 0
      invariant result + Escaped(value[i..], backslashes) == output + [QUOTE] + Escaped(value, 0)
    {
      var unit := value[i];
      ghost var before := result + Escaped(value[i..], backslashes);
      assert value[i..][1..] == value[i + 1..];
      if unit == BACKSLASH {
        backslashes := backslashes + 1;
        continue;
      }
      if unit == QUOTE {
        result := result + Backslashes(backslashes * 2 + 1);
        result := result + [unit];
        backslashes := 0;
        assert result + Escaped(value[i + 1..], 0) == before;
        continue;
      }
      result := result + Backslashes(backslashes);
      backslashes := 0;
      result := result + [unit];
      assert result + Escaped(value[i + 1..], 0) == before;
    }
    result := result + Backslashes(backslashes * 2);
    assert result == output + [QUOTE] + Escaped(value, 0);
    result := result + [QUOTE];
    assert result == output + Quoted(value);
  }

  lemma TailStep(written: seq<Unit>, arguments: seq<seq<Unit>>, i: nat)
    requires i < |arguments|
    ensures written + Tail(arguments[i..])
         == written + [SPACE] + Quoted(arguments[i]) + Tail(arguments[i + 1..])
  {
    assert arguments[i..][1..] == arguments[i + 1..];
    var quoted, rest := Quoted(arguments[i]), Tail(arguments[i + 1..]);
    assert written + ([SPACE] + quoted + rest) == written + [SPACE] + quoted + rest;
  }

  method BuildCommandLine(executable: seq<Unit>, arguments: seq<seq<Unit>>) returns (result: seq<Unit>)
    ensures result == Line(executable, arguments)
  {
    result := [];
    result := AppendQuoted(result, executable);
    for i := 0 to |arguments|
      invariant result + Tail(arguments[i..]) == Line(executable, arguments)
    {
      TailStep(result, arguments, i);
      result := result + [SPACE];
      result := AppendQuoted(result, arguments[i]);
    }
    result := result + [NUL];
  }

  // ---------------------------------------------------------------- the C runtime's rules

  predicate Blank(unit: Unit) {
    unit == SPACE || unit == TAB
  }

  predicate AtEnd(text: seq<Unit>) {
    text == [] || text[0] == NUL
  }

  // The program name: quotes only group, backslashes are ordinary.
  function ProgramName(text: seq<Unit>, inQuotes: bool): (parsed: (seq<Unit>, seq<Unit>))
    ensures |parsed.1| <= |text|
    ensures QUOTE !in parsed.0 && NUL !in parsed.0
    decreases |text|
  {
    if AtEnd(text) then ([], text)
    else if text[0] == QUOTE then ProgramName(text[1..], !inQuotes)
    else if !inQuotes && Blank(text[0]) then ([], text[1..])
    else
      var (name, rest) := ProgramName(text[1..], inQuotes);
      ([text[0]] + name, rest)
  }

  // One argument: 2n backslashes before a quote give n and a quote that opens or closes a
  // group, 2n+1 give n and a literal quote; a doubled quote inside a group is one literal
  // quote; other backslashes stand for themselves.
  function Argument(text: seq<Unit>, inQuotes: bool, slashes: nat): (parsed: (seq<Unit>, seq<Unit>))
    ensures |parsed.1| <= |text|
    ensures !AtEnd(text) && !Blank(text[0]) ==> |parsed.1| < |text|
    ensures NUL !in parsed.0
    decreases |text|
  {
    if text != [] && text[0] == BACKSLASH then Argument(text[1..], inQuotes, slashes + 1)
    else if text != [] && text[0] == QUOTE then
      if slashes % 2 == 1 then
        var (more, rest) := Argument(text[1..], inQuotes, 0);
        (Backslashes(slashes / 2) + [QUOTE] + more, rest)
      else if inQuotes && |text| > 1 && text[1] == QUOTE then
        var (more, rest) := Argument(text[2..], inQuotes, 0);
        (Backslashes(slashes / 2) + [QUOTE] + more, rest)
      else
        var (more, rest) := Argument(text[1..], !inQuotes, 0);
        (Backslashes(slashes / 2) + more, rest)
    else if AtEnd(text) || (!inQuotes && Blank(text[0])) then (Backslashes(slashes), text)
    else
      var (more, rest) := Argument(text[1..], inQuotes, 0);
      (Backslashes(slashes) + [text[0]] + more, rest)
  }

  function Arguments(text: seq<Unit>): (list: seq<seq<Unit>>)
    ensures forall i :: 0 <= i < |list| ==> NUL !in list[i]
    decreases |text|
  {
    if AtEnd(text) then []
    else if Blank(text[0]) then Arguments(text[1..])
    else
      var (argument, rest) := Argument(text, false, 0);
      [argument] + Arguments(rest)
  }

  function Parse(line: seq<Unit>): seq<seq<Unit>> {
    var (name, rest) := ProgramName(line, false);
    [name] + Arguments(rest)
  }

  // ---------------------------------------------------------------- the round trip

  lemma {:induction false} ReadBackslashes(n: nat, text: seq<Unit>, inQuotes: bool, slashes: nat)
    ensures Argument(Backslashes(n) + text, inQuotes, slashes) == Argument(text, inQuotes, slashes + n)
  {
    if n == 0 {
      assert Backslashes(0) + text == text;
    } else {
      ReadBackslashes(n - 1, text, inQuotes, slashes + 1);
      assert (Backslashes(n) + text)[1..] == Backslashes(n - 1) + text;
    }
  }

  lemma ReadClosing(slashes: nat, tail: seq<Unit>)
    requires AtEnd(tail) || Blank(tail[0])
    ensures Argument([QUOTE] + tail, true, 2 * slashes) == (Backslashes(slashes), tail)
  {
    var text := [QUOTE] + tail;
    assert text[1..] == tail;
    assert Argument(tail, false, 0) == (Backslashes(0), tail);
    assert Backslashes(slashes) + Backslashes(0) == Backslashes(slashes);
    assert 2 * slashes % 2 == 0 && 2 * slashes / 2 == slashes;
  }

  lemma ReadLiteral(unit: Unit, held: nat, after: seq<Unit>)
    requires unit != BACKSLASH && unit != NUL
    ensures var n := if unit == QUOTE then 2 * held + 1 else held;
            var (more, rest) := Argument(after, true, 0);
            Argument([unit] + after, true, n) == (Backslashes(held) + [unit] + more, rest)
  {
    var text := [unit] + after;
    assert text[1..] == after;
    if unit == QUOTE {
      assert (2 * held + 1) % 2 == 1 && (2 * held + 1) / 2 == held;
    }
  }

  lemma Regroup(a: seq<Unit>, b: seq<Unit>, c: seq<Unit>, d: seq<Unit>)
    ensures (a + b) + c + d == a + (b + c + d)
  {
  }

  lemma Rejoin(run: seq<Unit>, value: seq<Unit>)
    requires value != []
    ensures run + [value[0]] + (Backslashes(0) + value[1..]) == run + value
  {
  }

  // Reading back an escaped value up to its closing quote gives the value.
  lemma {:induction false} ArgumentOfEscaped(value: seq<Unit>, held: nat, tail: seq<Unit>)
    requires NUL !in value
    requires AtEnd(tail) || Blank(tail[0])
    ensures Argument(Escaped(value, held) + [QUOTE] + tail, true, 0) == (Backslashes(held) + value, tail)
    decreases |value|
  {
    if value == [] {
      assert Escaped(value, held) + [QUOTE] + tail == Backslashes(2 * held) + ([QUOTE] + tail);
      ReadBackslashes(2 * held, [QUOTE] + tail, true, 0);
      ReadClosing(held, tail);
      assert Backslashes(held) + value == Backslashes(held);
    } else if value[0] == BACKSLASH {
      ArgumentOfEscaped(value[1..], held + 1, tail);
      assert Backslashes(held + 1) + value[1..] == Backslashes(held) + value;
    } else {
      ArgumentOfEscaped(value[1..], 0, tail);
      EscapedUnit(value, held, tail);
      Rejoin(Backslashes(held), value);
    }
  }

  function Marks(unit: Unit, held: nat): seq<Unit> {
    Backslashes(if unit == QUOTE then 2 * held + 1 else held) + [unit]
  }

  lemma ReadMarks(unit: Unit, held: nat, after: seq<Unit>)
    requires unit != BACKSLASH && unit != NUL
    ensures var (more, rest) := Argument(after, true, 0);
            Argument(Marks(unit, held) + after, true, 0) == (Backslashes(held) + [unit] + more, rest)
  {
    var n := if unit == QUOTE then 2 * held + 1 else held;
    assert Marks(unit, held) + after == Backslashes(n) + ([unit] + after);
    ReadBackslashes(n, [unit] + after, true, 0);
    ReadLiteral(unit, held, after);
  }

  lemma EscapedMarks(value: seq<Unit>, held: nat)
    requires value != [] && value[0] != BACKSLASH
    ensures Escaped(value, held) == Marks(value[0], held) + Escaped(value[1..], 0)
  {
  }

  // The held backslashes and the next unit are read back before the rest.
  lemma EscapedUnit(value: seq<Unit>, held: nat, tail: seq<Unit>)
    requires value != [] && value[0] != BACKSLASH && value[0] != NUL
    ensures var (more, rest) := Argument(Escaped(value[1..], 0) + [QUOTE] + tail, true, 0);
            Argument(Escaped(value, held) + [QUOTE] + tail, true, 0) == (Backslashes(held) + [value[0]] + more, rest)
  {
    EscapedMarks(value, held);
    Regroup(Marks(value[0], held), Escaped(value[1..], 0), [QUOTE], tail);
    ReadMarks(value[0], held, Escaped(value[1..], 0) + [QUOTE] + tail);
  }

  lemma TailStart(arguments: seq<seq<Unit>>)
    ensures AtEnd(Tail(arguments)) || Blank(Tail(arguments)[0])
  {
  }

  lemma {:induction false} ArgumentsOfTail(arguments: seq<seq<Unit>>)
    requires forall i :: 0 <= i < |arguments| ==> NUL !in arguments[i]
    ensures Arguments(Tail(arguments)) == arguments
  {
    if arguments != [] {
      var rest := Tail(arguments[1..]);
      var body := Escaped(arguments[0], 0) + [QUOTE] + rest;
      var text := [QUOTE] + body;
      assert Tail(arguments) == [SPACE] + text;
      assert Tail(arguments)[1..] == text;
      assert text[1..] == body;
      TailStart(arguments[1..]);
      ArgumentOfEscaped(arguments[0], 0, rest);
      assert Backslashes(0) + arguments[0] == arguments[0];
      assert Argument(text, false, 0) == (arguments[0], rest);
      ArgumentsOfTail(arguments[1..]);
    }
  }

  function TrailingBackslashes(value: seq<Unit>): nat {
    if value == [] || value[|value| - 1] != BACKSLASH then 0 else 1 + TrailingBackslashes(value[..|value| - 1])
  }

  // Without a quote inside, escaping only doubles the backslashes at the very end.
  lemma {:induction false} EscapedPlain(value: seq<Unit>, held: nat)
    requires QUOTE !in value
    ensures Escaped(value, held) ==
            Backslashes(held) + value + Backslashes(TrailingBackslashes(Backslashes(held) + value))
    decreases |value|
  {
    if value == [] {
      AllBackslashes(held);
      assert Backslashes(held) + value == Backslashes(held);
    } else if value[0] == BACKSLASH {
      EscapedPlain(value[1..], held + 1);
      assert Backslashes(held + 1) + value[1..] == Backslashes(held) + value;
    } else {
      EscapedPlain(value[1..], 0);
      PlainUnit(value, held);
    }
  }

  lemma PlainUnit(value: seq<Unit>, held: nat)
    requires value != [] && value[0] != BACKSLASH
    ensures Backslashes(0) + value[1..] == value[1..]
    ensures TrailingBackslashes(Backslashes(held) + value) == TrailingBackslashes(value[1..])
    ensures Backslashes(held) + [value[0]] + value[1..] == Backslashes(held) + value
  {
    var head, rest := Backslashes(held) + [value[0]], value[1..];
    assert [value[0]] + rest == value;
    assert head + rest == Backslashes(held) + ([value[0]] + rest);
    TrailingOfAppend(head, rest);
  }

  lemma {:induction false} AllBackslashes(n: nat)
    ensures TrailingBackslashes(Backslashes(n)) == n
  {
    if n > 0 {
      AllBackslashes(n - 1);
      assert Backslashes(n)[..n - 1] == Backslashes(n - 1);
    }
  }

  lemma {:induction false} TrailingOfAppend(head: seq<Unit>, value: seq<Unit>)
    requires head != [] && head[|head| - 1] != BACKSLASH
    ensures TrailingBackslashes(head + value) == TrailingBackslashes(value)
  {
    if value == [] {
      assert head + value == head;
    } else if value[|value| - 1] == BACKSLASH {
      TrailingOfAppend(head, value[..|value| - 1]);
      assert (head + value)[..|head + value| - 1] == head + value[..|value| - 1];
    }
  }

  lemma {:induction false} ProgramNameInQuotes(text: seq<Unit>, tail: seq<Unit>)
    requires QUOTE !in text && NUL !in text
    requires tail != [] && (AtEnd(tail) || Blank(tail[0]))
    ensures ProgramName(text + [QUOTE] + tail, true)
         == (text, if AtEnd(tail) then tail else tail[1..])
  {
    var whole := text + [QUOTE] + tail;
    if text == [] {
      assert whole[0] == QUOTE;
      assert whole[1..] == tail;
      assert ProgramName(tail, false) == ([], if AtEnd(tail) then tail else tail[1..]);
    } else {
      assert whole[0] == text[0] && text == [text[0]] + text[1..];
      ProgramNameInQuotes(text[1..], tail);
      assert whole[1..] == text[1..] + [QUOTE] + tail;
    }
  }

  lemma LineOfPlain(executable: seq<Unit>, arguments: seq<seq<Unit>>)
    requires QUOTE !in executable
    ensures var name := executable + Backslashes(TrailingBackslashes(executable));
            Line(executable, arguments) == [QUOTE] + (name + [QUOTE] + Tail(arguments))
  {
    EscapedPlain(executable, 0);
    assert Backslashes(0) + executable == executable;
  }

  lemma ProgramNameOpens(text: seq<Unit>)
    ensures ProgramName([QUOTE] + text, false) == ProgramName(text, true)
  {
    assert ([QUOTE] + text)[1..] == text;
  }

  lemma ArgumentsAfterName(arguments: seq<seq<Unit>>)
    ensures var tail := Tail(arguments);
            Arguments(if AtEnd(tail) then tail else tail[1..]) == Arguments(tail)
  {
    TailStart(arguments);
  }

  // For an executable path without quotes the arguments always come back; the path
  // itself gains a copy of its trailing backslashes.
  lemma ParsePlainExecutable(executable: seq<Unit>, arguments: seq<seq<Unit>>)
    requires QUOTE !in executable && NUL !in executable
    requires forall i :: 0 <= i < |arguments| ==> NUL !in arguments[i]
    ensures Parse(Line(executable, arguments))
         == [executable + Backslashes(TrailingBackslashes(executable))] + arguments
  {
    var name := executable + Backslashes(TrailingBackslashes(executable));
    var tail := Tail(arguments);
    LineOfPlain(executable, arguments);
    ProgramNameOpens(name + [QUOTE] + tail);
    TailStart(arguments);
    ProgramNameInQuotes(name, tail);
    ArgumentsAfterName(arguments);
    ArgumentsOfTail(arguments);
  }

  // The child sees exactly the intended list if and only if nothing contains a NUL and
  // the executable path neither contains a quote nor ends in a backslash.
  lemma RoundTrip(executable: seq<Unit>, arguments: seq<seq<Unit>>)
    ensures Parse(Line(executable, arguments)) == [executable] + arguments <==>
            && QUOTE !in executable && NUL !in executable
            && (executable == [] || executable[|executable| - 1] != BACKSLASH)
            && forall i :: 0 <= i < |arguments| ==> NUL !in arguments[i]
  {
    var parsed := Parse(Line(executable, arguments));
    if parsed == [executable] + arguments {
      assert parsed[0] == executable;
      forall i | 0 <= i < |arguments| ensures NUL !in arguments[i] {
        assert parsed[i + 1] == arguments[i];
      }
    }
    if QUOTE !in executable && NUL !in executable
       && forall i :: 0 <= i < |arguments| ==> NUL !in arguments[i] {
      ParsePlainExecutable(executable, arguments);
      assert parsed[0] == executable + Backslashes(TrailingBackslashes(executable));
      assert parsed[0] == executable ==> TrailingBackslashes(executable) == 0;
      if TrailingBackslashes(executable) == 0 {
        assert executable + Backslashes(0) == executable;
      }
    }
  }
}
