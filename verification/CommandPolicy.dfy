/**
 The literal scanner that decides which commands may run without approval, and
 what a POSIX shell makes of the commands it accepts (POSIX.1-2017, Shell Command
 Language, sections 2.2.2, 2.3, 2.6 and 2.6.7).

 `letters` stands for the Unicode letters and digits beyond ASCII, `dangerous` for
 the fixed pattern of directly dangerous commands.
 */
module CommandPolicy {
  import opened Wrappers
  import opened PosixShell

  // ---------------------------------------------------------------- the scanner

  predicate AsciiAlnum(c: char) {
    'a' <= c <= 'z' || 'A' <= c <= 'Z' || '0' <= c <= '9'
  }

  predicate Punctuation(c: char) {
    || c == '_' || c == '.' || c == '/' || c == ':' || c == '@'
    || c == '%' || c == '+' || c == '=' || c == ',' || c == '-'
  }

  predicate Literal(c: char, quoted: bool, letters: char -> bool) {
    || Punctuation(c)
    || AsciiAlnum(c)
    || (quoted && c >= '\U{80}' && letters(c))
    || (quoted && c == ' ')
  }

  // Length of the longest prefix made of literal characters.
  function RunLength(text: string, quoted: bool, letters: char -> bool): (n: nat)
    ensures n <= |text|
    ensures forall i :: 0 <= i < n ==> Literal(text[i], quoted, letters)
    ensures n < |text| ==> !Literal(text[n], quoted, letters)
  {
    if text == [] || !Literal(text[0], quoted, letters) then 0
    else 1 + RunLength(text[1..], quoted, letters)
  }

  function TakeBare(text: string, letters: char -> bool): Option<(string, string)> {
    var n := RunLength(text, false, letters);
    if n == 0 || (n < |text| && text[n] != ' ') then None else Some((text[..n], text[n..]))
  }

  // `body` is what follows the opening quote.
  function TakeQuoted(body: string, letters: char -> bool): Option<(string, string)> {
    var n := RunLength(body, true, letters);
    if n == 0 || n == |body| || body[n] != '\'' then None
    else if n + 1 < |body| && body[n + 1] != ' ' then None
    else Some((body[..n], body[n + 1..]))
  }

  // The token that starts at the beginning of `text`, and what follows it.
  function TakeToken(text: string, first: bool, letters: char -> bool): (taken: Option<(string, string)>)
    requires text != [] && text[0] != ' '
    ensures taken.Some? ==> |taken.value.1| < |text|
  {
    if text[0] != '\'' then TakeBare(text, letters)
    else if first then None
    else TakeQuoted(text[1..], letters)
  }

  function ScanFrom(text: string, first: bool, letters: char -> bool): Option<seq<string>>
    decreases |text|
  {
    if text == [] then Some([])
    else if text[0] == ' ' then ScanFrom(text[1..], first, letters)
    else
      match TakeToken(text, first, letters)
      case None => None
      case Some((token, rest)) =>
        match ScanFrom(rest, false, letters)
        case None => None
        case Some(tokens) => Some([token] + tokens)
  }

  function Scan(command: string, letters: char -> bool): Option<seq<string>> {
    match ScanFrom(command, true, letters)
    case None => None
    case Some(tokens) => if tokens == [] then None else Some(tokens)
  }

  function Prepend(tokens: seq<string>, rest: Option<seq<string>>): Option<seq<string>> {
    match rest case None => None case Some(more) => Some(tokens + more)
  }

  // The inner loop: literal characters up to the closing character, or up to one that is neither.
  method ReadRun(command: string, start: nat, quoted: bool, letters: char -> bool)
    returns (index: nat, rejected: bool)
    requires start <= |command|
    ensures start <= index <= |command| && index - start == RunLength(command[start..], quoted, letters)
    ensures rejected <==> index < |command| && command[index] != (if quoted then '\'' else ' ')
  {
    index := start;
    ghost var body := command[start..];
    while index < |command|
      invariant start <= index <= |command| && index - start <= RunLength(body, quoted, letters)
    {
      var c := command[index];
      assert c == body[index - start];
      if (quoted && c == '\'') || (!quoted && c == ' ') {
        return index, false;
      }
      if !Literal(c, quoted, letters) {
        return index, true;
      }
      index := index + 1;
    }
    rejected := false;
  }

  lemma BareAt(command: string, from: nat, index: nat, first: bool, letters: char -> bool)
    requires from < |command| && command[from] != ' ' && command[from] != '\''
    requires from <= index <= |command| && index - from == RunLength(command[from..], false, letters)
    ensures TakeToken(command[from..], first, letters) ==
            if index == from || (index < |command| && command[index] != ' ') then None
            else Some((command[from..index], command[index..]))
  {
    var text := command[from..];
    assert text[..index - from] == command[from..index] && text[index - from..] == command[index..];
  }

  lemma QuotedAt(command: string, from: nat, index: nat, letters: char -> bool)
    requires from < |command| && command[from] == '\''
    requires from < index <= |command| && index - from - 1 == RunLength(command[from + 1..], true, letters)
    ensures TakeToken(command[from..], false, letters) ==
            if index == from + 1 || index == |command| || command[index] != '\''
               || (index + 1 < |command| && command[index + 1] != ' ') then None
            else Some((command[from + 1..index], command[index + 1..]))
  {
    var body := command[from + 1..];
    assert command[from..][1..] == body;
    var n := index - from - 1;
    assert body[..n] == command[from + 1..index];
    assert n < |body| ==> body[n + 1..] == command[index + 1..];
  }

  // One round of the outer loop: from the start of a token to just behind it.
  method ReadToken(command: string, from: nat, first: bool, letters: char -> bool)
    returns (taken: Option<(string, nat)>)
    requires from < |command| && command[from] != ' '
    ensures TakenAt(command, TakeToken(command[from..], first, letters), taken)
    ensures taken.Some? ==> taken.value.1 > from
  {
    var quoted := command[from] == '\'';
    if quoted && first {
      return None;
    }
    var start := if quoted then from + 1 else from;
    var index, rejected := ReadRun(command, start, quoted, letters);
    if quoted {
      QuotedAt(command, from, index, letters);
    } else {
      BareAt(command, from, index, first, letters);
    }
    var token := command[start..index];
    if rejected || token == [] {
      return None;
    }
    if quoted {
      if index == |command| {
        return None;
      }
      index := index + 1;
      if index < |command| && command[index] != ' ' {
        return None;
      }
    }
    taken := Some((token, index));
  }

  predicate TakenAt(command: string, expected: Option<(string, string)>, taken: Option<(string, nat)>) {
    match expected
    case None => taken.None?
    case Some((token, rest)) =>
      taken.Some? && taken.value.0 == token && taken.value.1 <= |command| && command[taken.value.1..] == rest
  }

  method ScanLiterals(command: string, letters: char -> bool) returns (result: Option<seq<string>>)
    ensures result == Scan(command, letters)
  {
    var tokens: seq<string> := [];
    var index := 0;
    assert command[0..] == command;
    PrependNothing(ScanFrom(command, true, letters));
    while index < |command|
      invariant 0 <= index <= |command|
      invariant ScanFrom(command, true, letters) == Prepend(tokens, ScanFrom(command[index..], tokens == [], letters))
    {
      if command[index] == ' ' {
        assert command[index..][1..] == command[index + 1..];
        index := index + 1;
        continue;
      }
      var taken := ReadToken(command, index, tokens == [], letters);
      if taken.None? {
        return None;
      }
      var token := taken.value.0;
      index := taken.value.1;
      PrependStep(tokens, token, ScanFrom(command[index..], false, letters));
      tokens := tokens + [token];
    }
    assert command[index..] == [] && tokens + [] == tokens;
    result := if tokens == [] then None else Some(tokens);
  }

  lemma PrependNothing(rest: Option<seq<string>>)
    ensures Prepend([], rest) == rest
  {
    if rest.Some? {
      assert [] + rest.value == rest.value;
    }
  }

  lemma PrependStep(tokens: seq<string>, token: string, rest: Option<seq<string>>)
    ensures Prepend(tokens, Prepend([token], rest)) == Prepend(tokens + [token], rest)
  {
    if rest.Some? {
      assert tokens + ([token] + rest.value) == tokens + [token] + rest.value;
    }
  }

  // ---------------------------------------------------------------- the accepted language

  // How one token is written: the spaces before it and whether it is quoted.
  datatype Piece = Piece(gap: nat, quoted: bool)

  function Spaces(n: nat): (run: string)
    ensures |run| == n && forall i :: 0 <= i < n ==> run[i] == ' '
  {
    seq(n, _ => ' ')
  }

  function Written(token: string, quoted: bool): string {
    if quoted then "'" + token + "'" else token
  }

  function Render(tokens: seq<string>, layout: seq<Piece>, trailing: nat): string
    requires |tokens| == |layout|
  {
    if tokens == [] then Spaces(trailing)
    else Spaces(layout[0].gap) + Written(tokens[0], layout[0].quoted) + Render(tokens[1..], layout[1..], trailing)
  }

  predicate LiteralToken(token: string, quoted: bool, letters: char -> bool) {
    token != [] && forall i :: 0 <= i < |token| ==> Literal(token[i], quoted, letters)
  }

  // The command name is bare, later tokens may be quoted, tokens are separated by spaces.
  predicate ValidLayout(tokens: seq<string>, layout: seq<Piece>, first: bool, letters: char -> bool) {
    && |tokens| == |layout|
    && (forall i :: 0 <= i < |tokens| ==> LiteralToken(tokens[i], layout[i].quoted, letters))
    && (forall i :: 0 <= i < |tokens| && (first ==> i > 0) ==> layout[i].gap > 0)
    && (first && tokens != [] ==> !layout[0].quoted)
  }

  lemma {:induction false} RunOf(token: string, rest: string, quoted: bool, letters: char -> bool)
    requires forall i :: 0 <= i < |token| ==> Literal(token[i], quoted, letters)
    requires rest == [] || !Literal(rest[0], quoted, letters)
    ensures RunLength(token + rest, quoted, letters) == |token|
  {
    if token == [] {
      assert token + rest == rest;
    } else {
      RunOf(token[1..], rest, quoted, letters);
      assert (token + rest)[1..] == token[1..] + rest;
    }
  }

  lemma TakeWritten(token: string, quoted: bool, rest: string, first: bool, letters: char -> bool)
    requires LiteralToken(token, quoted, letters) && !(first && quoted)
    requires rest == [] || rest[0] == ' '
    ensures Written(token, quoted) + rest != [] && (Written(token, quoted) + rest)[0] != ' '
    ensures TakeToken(Written(token, quoted) + rest, first, letters) == Some((token, rest))
  {
    if quoted {
      assert (Written(token, true) + rest)[1..] == token + ("'" + rest);
      TakeWrittenQuoted(token, rest, letters);
    } else {
      assert Literal(token[0], false, letters);
      TakeWrittenBare(token, rest, letters);
    }
  }

  lemma TakeWrittenQuoted(token: string, rest: string, letters: char -> bool)
    requires LiteralToken(token, true, letters) && (rest == [] || rest[0] == ' ')
    ensures TakeQuoted(token + ("'" + rest), letters) == Some((token, rest))
  {
    RunOf(token, "'" + rest, true, letters);
    assert (token + ("'" + rest))[|token| + 1..] == rest;
  }

  lemma TakeWrittenBare(token: string, rest: string, letters: char -> bool)
    requires LiteralToken(token, false, letters) && (rest == [] || rest[0] == ' ')
    ensures TakeBare(token + rest, letters) == Some((token, rest))
  {
    RunOf(token, rest, false, letters);
  }

  lemma {:induction false} SkipSpaces(n: nat, rest: string, first: bool, letters: char -> bool)
    ensures ScanFrom(Spaces(n) + rest, first, letters) == ScanFrom(rest, first, letters)
  {
    if n == 0 {
      assert Spaces(0) + rest == rest;
    } else {
      SkipSpaces(n - 1, rest, first, letters);
      assert (Spaces(n) + rest)[1..] == Spaces(n - 1) + rest;
    }
  }

  // Whatever is written in the accepted syntax is read back unchanged.
  lemma {:induction false} ScanOfRender(tokens: seq<string>, layout: seq<Piece>, trailing: nat, first: bool, letters: char -> bool)
    requires ValidLayout(tokens, layout, first, letters)
    ensures ScanFrom(Render(tokens, layout, trailing), first, letters) == Some(tokens)
    ensures !first && tokens != [] ==> Render(tokens, layout, trailing)[0] == ' '
  {
    if tokens == [] {
      SkipSpaces(trailing, "", first, letters);
      assert Spaces(trailing) + "" == Spaces(trailing);
    } else {
      var rest := Render(tokens[1..], layout[1..], trailing);
      ValidRest(tokens, layout, first, letters);
      ScanOfRender(tokens[1..], layout[1..], trailing, false, letters);
      ScanWritten(layout[0].gap, tokens[0], layout[0].quoted, rest, first, letters);
      assert [tokens[0]] + tokens[1..] == tokens;
    }
  }

  lemma ValidRest(tokens: seq<string>, layout: seq<Piece>, first: bool, letters: char -> bool)
    requires tokens != [] && ValidLayout(tokens, layout, first, letters)
    ensures ValidLayout(tokens[1..], layout[1..], false, letters)
    ensures LiteralToken(tokens[0], layout[0].quoted, letters)
  {
  }

  lemma ScanWritten(gap: nat, token: string, quoted: bool, rest: string, first: bool, letters: char -> bool)
    requires LiteralToken(token, quoted, letters) && !(first && quoted)
    requires rest == [] || rest[0] == ' '
    ensures ScanFrom(Spaces(gap) + Written(token, quoted) + rest, first, letters)
         == Prepend([token], ScanFrom(rest, false, letters))
  {
    var text := Written(token, quoted) + rest;
    TakeWritten(token, quoted, rest, first, letters);
    SkipSpaces(gap, text, first, letters);
    assert Spaces(gap) + Written(token, quoted) + rest == Spaces(gap) + text;
  }

  // Whatever is accepted was written in that syntax.
  lemma {:induction false} RenderOfScan(text: string, first: bool, letters: char -> bool)
    returns (layout: seq<Piece>, trailing: nat)
    requires ScanFrom(text, first, letters).Some?
    requires !first && text != [] ==> text[0] == ' '
    ensures var tokens := ScanFrom(text, first, letters).value;
            ValidLayout(tokens, layout, first, letters) && Render(tokens, layout, trailing) == text
    decreases |text|
  {
    layout, trailing := LayoutOf(text, first, letters);
  }

  // The same without the separating space in front, which then must be supplied.
  lemma {:induction false} LayoutOf(text: string, first: bool, letters: char -> bool)
    returns (layout: seq<Piece>, trailing: nat)
    requires ScanFrom(text, first, letters).Some?
    ensures var tokens := ScanFrom(text, first, letters).value;
            && |layout| == |tokens|
            && (forall i :: 0 <= i < |tokens| ==> LiteralToken(tokens[i], layout[i].quoted, letters))
            && (forall i :: 0 < i < |tokens| ==> layout[i].gap > 0)
            && (first && tokens != [] ==> !layout[0].quoted)
            && (tokens != [] && text[0] == ' ' ==> layout[0].gap > 0)
            && Render(tokens, layout, trailing) == text
    decreases |text|
  {
    var tokens := ScanFrom(text, first, letters).value;
    if text == [] {
      layout, trailing := [], 0;
    } else if text[0] == ' ' {
      layout, trailing := LayoutOf(text[1..], first, letters);
      assert text == " " + text[1..];
      if tokens == [] {
        trailing := trailing + 1;
      } else {
        WiderGap(tokens, layout, trailing);
        layout := layout[0 := Piece(layout[0].gap + 1, layout[0].quoted)];
      }
    } else {
      var (token, rest) := TakeToken(text, first, letters).value;
      TakenIsWritten(text, first, letters);
      var more;
      more, trailing := LayoutOf(rest, false, letters);
      layout := [Piece(0, text[0] == '\'')] + more;
      FrontPiece(token, text[0] == '\'', tokens[1..], more, trailing);
      FrontLayout(token, tokens[1..], Piece(0, text[0] == '\''), more, letters);
      assert [token] + tokens[1..] == tokens;
    }
  }

  lemma FrontLayout(token: string, tokens: seq<string>, piece: Piece, layout: seq<Piece>, letters: char -> bool)
    requires |layout| == |tokens| && LiteralToken(token, piece.quoted, letters)
    requires forall i :: 0 <= i < |tokens| ==> LiteralToken(tokens[i], layout[i].quoted, letters)
    requires forall i :: 0 < i < |tokens| ==> layout[i].gap > 0
    requires tokens != [] ==> layout[0].gap > 0
    ensures forall i :: 0 <= i <= |tokens| ==>
              LiteralToken(([token] + tokens)[i], ([piece] + layout)[i].quoted, letters)
    ensures forall i :: 0 < i <= |tokens| ==> ([piece] + layout)[i].gap > 0
  {
  }

  lemma WiderGap(tokens: seq<string>, layout: seq<Piece>, trailing: nat)
    requires tokens != [] && |tokens| == |layout|
    ensures Render(tokens, layout[0 := Piece(layout[0].gap + 1, layout[0].quoted)], trailing)
         == " " + Render(tokens, layout, trailing)
  {
    var wider := layout[0 := Piece(layout[0].gap + 1, layout[0].quoted)];
    assert wider[1..] == layout[1..];
    assert Spaces(layout[0].gap + 1) == " " + Spaces(layout[0].gap);
    Regroup(" ", Spaces(layout[0].gap), Written(tokens[0], layout[0].quoted),
            Render(tokens[1..], layout[1..], trailing));
  }

  lemma Regroup(a: string, b: string, c: string, d: string)
    ensures (a + b) + c + d == a + (b + c + d)
  {
  }

  lemma FrontPiece(token: string, quoted: bool, tokens: seq<string>, layout: seq<Piece>, trailing: nat)
    requires |tokens| == |layout|
    ensures Render([token] + tokens, [Piece(0, quoted)] + layout, trailing)
         == Written(token, quoted) + Render(tokens, layout, trailing)
  {
    assert ([token] + tokens)[1..] == tokens;
    assert ([Piece(0, quoted)] + layout)[1..] == layout;
    assert Spaces(0) + Written(token, quoted) == Written(token, quoted);
  }

  lemma TakenIsWritten(text: string, first: bool, letters: char -> bool)
    requires text != [] && text[0] != ' ' && TakeToken(text, first, letters).Some?
    ensures var (token, rest) := TakeToken(text, first, letters).value;
            && LiteralToken(token, text[0] == '\'', letters)
            && text == Written(token, text[0] == '\'') + rest
            && (rest == [] || rest[0] == ' ')
            && !(first && text[0] == '\'')
  {
    var quoted := text[0] == '\'';
    var body := if quoted then text[1..] else text;
    var n := RunLength(body, quoted, letters);
    assert LiteralToken(body[..n], quoted, letters);
    if quoted {
      Quotation(text, n);
    } else {
      assert body == body[..n] + body[n..];
    }
  }

  lemma Quotation(text: string, n: nat)
    requires n + 1 < |text| && text[0] == '\'' && text[n + 1] == '\''
    ensures text == "'" + text[1..][..n] + "'" + text[1..][n + 1..]
  {
  }

  // The scanner accepts exactly the commands of this form, and reads exactly their tokens.
  lemma ScanIff(command: string, tokens: seq<string>, letters: char -> bool)
    ensures Scan(command, letters) == Some(tokens) <==>
            tokens != [] && exists layout, trailing: nat ::
              ValidLayout(tokens, layout, true, letters) && Render(tokens, layout, trailing) == command
  {
    if Scan(command, letters) == Some(tokens) {
      var layout, trailing := RenderOfScan(command, true, letters);
      assert ValidLayout(tokens, layout, true, letters) && Render(tokens, layout, trailing) == command;
    }
    forall layout, trailing: nat |
      ValidLayout(tokens, layout, true, letters) && Render(tokens, layout, trailing) == command
      ensures ScanFrom(command, true, letters) == Some(tokens)
    {
      ScanOfRender(tokens, layout, trailing, true, letters);
    }
  }

  // ---------------------------------------------------------------- what the shell reads

  function Words(tokens: seq<string>, layout: seq<Piece>): (words: seq<string>)
    requires |tokens| == |layout|
    ensures |words| == |tokens|
    ensures forall i :: 0 <= i < |tokens| ==> words[i] == Written(tokens[i], layout[i].quoted)
  {
    seq(|tokens|, i requires 0 <= i < |tokens| => Written(tokens[i], layout[i].quoted))
  }

  lemma {:induction false} RecogniseBare(token: string, rest: string, begun: string, letters: char -> bool)
    requires forall i :: 0 <= i < |token| ==> Literal(token[i], false, letters)
    ensures Recognise(token + rest, Some(begun), Bare) == Recognise(rest, Some(begun + token), Bare)
  {
    if token == [] {
      assert token + rest == rest && begun + token == begun;
    } else {
      RecogniseBare(token[1..], rest, begun + [token[0]], letters);
      assert Literal(token[0], false, letters);
      assert (token + rest)[1..] == token[1..] + rest;
      assert begun + [token[0]] + token[1..] == begun + token;
    }
  }

  lemma {:induction false} RecogniseSingle(token: string, rest: string, begun: string)
    requires '\'' !in token
    ensures Recognise(token + ("'" + rest), Some(begun), Single) == Recognise(rest, Some(begun + token + "'"), Bare)
  {
    var text := token + ("'" + rest);
    if token == [] {
      assert text[1..] == rest && begun + token + "'" == begun + "'";
    } else {
      RecogniseSingle(token[1..], rest, begun + [token[0]]);
      assert text[1..] == token[1..] + ("'" + rest);
      assert begun + [token[0]] + token[1..] + "'" == begun + token + "'";
    }
  }

  lemma {:induction false} RecogniseSpaces(n: nat, rest: string)
    ensures Recognise(Spaces(n) + rest, None, Bare) == Recognise(rest, None, Bare)
  {
    if n == 0 {
      assert Spaces(0) + rest == rest;
    } else {
      RecogniseSpaces(n - 1, rest);
      assert (Spaces(n) + rest)[1..] == Spaces(n - 1) + rest;
      var more := Recognise(rest, None, Bare);
      if more.Some? { assert [] + more.value == more.value; }
    }
  }

  lemma RecogniseStart(text: string, letters: char -> bool)
    requires text != [] && (text[0] == '\'' || Literal(text[0], false, letters))
    ensures Recognise(text, None, Bare)
         == Recognise(text[1..], Some([text[0]]), if text[0] == '\'' then Single else Bare)
  {
    assert "" + [text[0]] == [text[0]];
  }

  lemma NoQuoteInside(token: string, letters: char -> bool)
    requires LiteralToken(token, true, letters)
    ensures '\'' !in token
  {
    forall i | 0 <= i < |token| ensures token[i] != '\'' { assert Literal(token[i], true, letters); }
  }

  lemma RecogniseWritten(token: string, quoted: bool, rest: string, letters: char -> bool)
    requires LiteralToken(token, quoted, letters)
    ensures Recognise(Written(token, quoted) + rest, None, Bare)
         == Recognise(rest, Some(Written(token, quoted)), Bare)
  {
    var text := Written(token, quoted) + rest;
    if quoted {
      NoQuoteInside(token, letters);
      RecogniseStart(text, letters);
      assert text[1..] == token + ("'" + rest);
      RecogniseSingle(token, rest, "'");
    } else {
      assert Literal(token[0], false, letters) && token[0] != '\'';
      RecogniseStart(text, letters);
      assert text[1..] == token[1..] + rest;
      RecogniseBare(token[1..], rest, [token[0]], letters);
      assert [token[0]] + token[1..] == token;
    }
  }

  lemma {:induction false} RecogniseRender(tokens: seq<string>, layout: seq<Piece>, trailing: nat, first: bool, letters: char -> bool)
    requires ValidLayout(tokens, layout, first, letters)
    ensures Recognise(Render(tokens, layout, trailing), None, Bare) == Some(Words(tokens, layout))
  {
    hide Recognise, LiteralToken, Spaces, Written;
    if tokens == [] {
      RecogniseNothing();
      RecogniseSpaces(trailing, "");
      assert Spaces(trailing) + "" == Spaces(trailing);
    } else {
      ValidRest(tokens, layout, first, letters);
      RecogniseRender(tokens[1..], layout[1..], trailing, false, letters);
      ScanOfRender(tokens[1..], layout[1..], trailing, false, letters);
      RecogniseOne(layout[0].gap, tokens[0], layout[0].quoted, Render(tokens[1..], layout[1..], trailing), letters);
      assert [Written(tokens[0], layout[0].quoted)] + Words(tokens[1..], layout[1..]) == Words(tokens, layout);
    }
  }

  lemma RecogniseNothing()
    ensures Recognise("", None, Bare) == Some([])
  {
  }

  lemma RecogniseOne(gap: nat, token: string, quoted: bool, rest: string, letters: char -> bool)
    requires LiteralToken(token, quoted, letters) && (rest == [] || rest[0] == ' ')
    requires Recognise(rest, None, Bare).Some?
    ensures Recognise(Spaces(gap) + Written(token, quoted) + rest, None, Bare)
         == Some([Written(token, quoted)] + Recognise(rest, None, Bare).value)
  {
    RecogniseSpaces(gap, Written(token, quoted) + rest);
    assert Spaces(gap) + Written(token, quoted) + rest == Spaces(gap) + (Written(token, quoted) + rest);
    RecogniseWritten(token, quoted, rest, letters);
    RecogniseEnd(Written(token, quoted), rest);
  }

  // A blank or the end of the input ends a word.
  lemma RecogniseEnd(word: string, rest: string)
    requires rest == [] || rest[0] == ' '
    requires Recognise(rest, None, Bare).Some?
    ensures Recognise(rest, Some(word), Bare) == Some([word] + Recognise(rest, None, Bare).value)
  {
    if rest == [] {
      assert [word] + [] == [word];
    } else {
      var more := Recognise(rest[1..], None, Bare).value;
      assert [] + more == more;
    }
  }

  lemma {:induction false} UnquoteSingle(token: string)
    requires '\'' !in token
    ensures RemoveQuotes(token + "'", Single) == token && NoExpansion(token + "'", Single)
  {
    if token != [] {
      UnquoteSingle(token[1..]);
      assert (token + "'")[1..] == token[1..] + "'";
    }
  }

  lemma {:induction false} UnquoteBare(token: string, letters: char -> bool)
    requires forall i :: 0 <= i < |token| ==> Literal(token[i], false, letters)
    ensures RemoveQuotes(token, Bare) == token && NoExpansion(token, Bare)
  {
    if token != [] {
      assert Literal(token[0], false, letters);
      UnquoteBare(token[1..], letters);
    }
  }

  lemma UnquoteWritten(token: string, quoted: bool, letters: char -> bool)
    requires LiteralToken(token, quoted, letters)
    ensures RemoveQuotes(Written(token, quoted), Bare) == token
    ensures NoExpansion(Written(token, quoted), Bare)
  {
    if quoted {
      NoQuoteInside(token, letters);
      assert Written(token, true)[1..] == token + "'";
      UnquoteSingle(token);
    } else {
      UnquoteBare(token, letters);
    }
  }

  // The shell reads every accepted command as exactly the scanned tokens: no operator,
  // no expansion, and quote removal gives the tokens back.
  lemma ShellReadsTokens(command: string, tokens: seq<string>, letters: char -> bool)
    requires Scan(command, letters) == Some(tokens)
    ensures exists words ::
              && Recognise(command, None, Bare) == Some(words)
              && |words| == |tokens|
              && forall i :: 0 <= i < |words| ==> RemoveQuotes(words[i], Bare) == tokens[i] && NoExpansion(words[i], Bare)
  {
    var layout, trailing := RenderOfScan(command, true, letters);
    RecogniseRender(tokens, layout, trailing, true, letters);
    var words := Words(tokens, layout);
    forall i | 0 <= i < |words|
      ensures RemoveQuotes(words[i], Bare) == tokens[i] && NoExpansion(words[i], Bare)
    {
      UnquoteWritten(tokens[i], layout[i].quoted, letters);
    }
  }

  // ---------------------------------------------------------------- classification

  datatype Disposition = AutoReadOnly | RequireApproval | Blocked

  const SIMPLE_OPTIONS: map<string, set<seq<string>>> := map[
    "pwd" := {[], ["-L"], ["-P"]},
    "whoami" := {[]},
    "id" := {[], ["-u"], ["-g"], ["-G"], ["-un"], ["-gn"]},
    "uname" := {[], ["-a"], ["-s"], ["-r"], ["-m"], ["-n"]},
    "uptime" := {[]}
  ]

  predicate StartsWithDash(value: string) {
    value != [] && value[0] == '-'
  }

  predicate IsPath(value: string) {
    value != [] && !StartsWithDash(value)
  }

  predicate Flags(flags: string) {
    && flags != []
    && (forall i :: 0 <= i < |flags| ==> flags[i] in {'a', 'A', 'l', 'h', 'n', 'd'})
    && (forall i, j :: 0 <= i < j < |flags| ==> flags[i] != flags[j])
  }

  predicate Digits(value: string) {
    value != [] && forall i :: 0 <= i < |value| ==> '0' <= value[i] <= '9'
  }

  function Number(digits: string): int {
    if digits == [] then 0
    else 10 * Number(digits[..|digits| - 1]) + (digits[|digits| - 1] as int - '0' as int)
  }

  predicate ReadOnlyForm(tokens: seq<string>)
    requires tokens != []
  {
    var name, values := tokens[0], tokens[1..];
    if name in SIMPLE_OPTIONS then values in SIMPLE_OPTIONS[name]
    else if name == "ls" then
      if values != [] && StartsWithDash(values[0]) then
        Flags(values[0][1..]) && (|values| == 1 || (|values| == 2 && IsPath(values[1])))
      else values == [] || (|values| == 1 && IsPath(values[0]))
    else if name == "cat" then
      var rest := if values != [] && values[0] == "--" then values[1..] else values;
      |rest| == 1 && IsPath(rest[0])
    else if name == "head" || name == "tail" then
      if |values| == 1 then IsPath(values[0])
      else
        && |values| == 3 && values[0] == "-n" && Digits(values[1])
        && 1 <= Number(values[1]) <= 1000 && IsPath(values[2])
    else false
  }

  function Classify(command: string, dangerous: string -> bool, letters: char -> bool): Disposition {
    if dangerous(command) then Blocked
    else
      match Scan(command, letters)
      case None => RequireApproval
      case Some(tokens) => if ReadOnlyForm(tokens) then AutoReadOnly else RequireApproval
  }

  predicate ReadOnlyName(name: string) {
    name in {"pwd", "whoami", "id", "uname", "uptime", "ls", "cat", "head", "tail"}
  }

  predicate AllowedOption(name: string, option: string) {
    || (name == "pwd" && option in {"-L", "-P"})
    || (name == "id" && option in {"-u", "-g", "-G", "-un", "-gn"})
    || (name == "uname" && option in {"-a", "-s", "-r", "-m", "-n"})
    || (name == "ls" && StartsWithDash(option) && Flags(option[1..]))
    || (name == "cat" && option == "--")
    || ((name == "head" || name == "tail") && option == "-n")
  }

  // A command that runs without approval is one the shell reads as a single simple
  // command with a read-only name, whose only option words are allowed ones.
  lemma AutoReadOnlyCommand(command: string, dangerous: string -> bool, letters: char -> bool)
    requires Classify(command, dangerous, letters) == AutoReadOnly
    ensures !dangerous(command)
    ensures exists words: seq<string> ::
              && Recognise(command, None, Bare) == Some(words)
              && words != []
              && ReadOnlyName(RemoveQuotes(words[0], Bare))
              && (forall i :: 0 <= i < |words| ==> NoExpansion(words[i], Bare))
              && (forall i :: 0 < i < |words| && StartsWithDash(RemoveQuotes(words[i], Bare)) ==>
                    AllowedOption(RemoveQuotes(words[0], Bare), RemoveQuotes(words[i], Bare)))
  {
    var tokens := Scan(command, letters).value;
    ShellReadsTokens(command, tokens, letters);
    FormAllows(tokens);
  }

  lemma FormAllows(tokens: seq<string>)
    requires tokens != [] && ReadOnlyForm(tokens)
    ensures ReadOnlyName(tokens[0])
    ensures forall i :: 0 < i < |tokens| && StartsWithDash(tokens[i]) ==> AllowedOption(tokens[0], tokens[i])
  {
    var values := tokens[1..];
    forall i | 0 < i < |tokens| && StartsWithDash(tokens[i]) ensures AllowedOption(tokens[0], tokens[i]) {
      assert tokens[i] == values[i - 1];
    }
  }

  // ---------------------------------------------------------------- the allowed forms, listed

  const FIXED: set<seq<string>> := {
    ["pwd"], ["pwd", "-L"], ["pwd", "-P"], ["whoami"], ["uptime"],
    ["id"], ["id", "-u"], ["id", "-g"], ["id", "-G"], ["id", "-un"], ["id", "-gn"],
    ["uname"], ["uname", "-a"], ["uname", "-s"], ["uname", "-r"], ["uname", "-m"], ["uname", "-n"]}

  predicate Operand(word: string) {
    word != "" && word[0] != '-'
  }

  // A dash and at least one of six letters, none of them twice.
  predicate ListFlags(word: string) {
    && |word| >= 2 && word[0] == '-'
    && (forall i :: 1 <= i < |word| ==>
          word[i] == 'a' || word[i] == 'A' || word[i] == 'l' || word[i] == 'h' || word[i] == 'n' || word[i] == 'd')
    && forall i, j :: 1 <= i < j < |word| ==> word[i] != word[j]
  }

  function Numeral(n: nat): string {
    (if n < 10 then "" else Numeral(n / 10)) + [('0' as int + n % 10) as char]
  }

  function Zeros(k: nat): string {
    if k == 0 then "" else "0" + Zeros(k - 1)
  }

  // A number from 1 to 1000, possibly after zeros.
  predicate Lines(word: string) {
    exists k, n {:trigger Zeros(k), Numeral(n)} :: 0 <= k <= |word| && 1 <= n <= 1000 && word == Zeros(k) + Numeral(n)
  }

  predicate AllowedForm(tokens: seq<string>) {
    || tokens in FIXED
    || (tokens != [] && tokens[0] == "ls"
        && (|tokens| == 1 || (|tokens| == 2 && (Operand(tokens[1]) || ListFlags(tokens[1])))
            || (|tokens| == 3 && ListFlags(tokens[1]) && Operand(tokens[2]))))
    || (tokens != [] && tokens[0] == "cat"
        && ((|tokens| == 2 && Operand(tokens[1])) || (|tokens| == 3 && tokens[1] == "--" && Operand(tokens[2]))))
    || (tokens != [] && (tokens[0] == "head" || tokens[0] == "tail")
        && ((|tokens| == 2 && Operand(tokens[1]))
            || (|tokens| == 4 && tokens[1] == "-n" && Lines(tokens[2]) && Operand(tokens[3]))))
  }

  // Enough of a command's name to tell it from the others.
  function NameCode(s: string): int {
    if s == "" then 0 else 256 * |s| + s[0] as int
  }

  lemma NameCodes()
    ensures NameCode("pwd") == 880 && NameCode("whoami") == 1655 && NameCode("uptime") == 1653
    ensures NameCode("id") == 617 && NameCode("uname") == 1397 && NameCode("ls") == 620
    ensures NameCode("cat") == 867 && NameCode("head") == 1128 && NameCode("tail") == 1140
  {
  }

  lemma OptionsOf()
    ensures SIMPLE_OPTIONS.Keys == {"pwd", "whoami", "id", "uname", "uptime"}
    ensures SIMPLE_OPTIONS["pwd"] == {[], ["-L"], ["-P"]} && SIMPLE_OPTIONS["whoami"] == {[]} && SIMPLE_OPTIONS["uptime"] == {[]}
    ensures SIMPLE_OPTIONS["id"] == {[], ["-u"], ["-g"], ["-G"], ["-un"], ["-gn"]}
    ensures SIMPLE_OPTIONS["uname"] == {[], ["-a"], ["-s"], ["-r"], ["-m"], ["-n"]}
  {
    NameCodes();
    hide NameCode;
  }

  lemma OneWord(tokens: seq<string>, name: string, option: string)
    ensures tokens == [name] <==> tokens != [] && tokens[0] == name && tokens[1..] == []
    ensures tokens == [name, option] <==> tokens != [] && tokens[0] == name && tokens[1..] == [option]
  {
    if tokens != [] {
      assert tokens == [tokens[0]] + tokens[1..];
    }
  }

  lemma FixedIff(tokens: seq<string>)
    requires tokens != []
    ensures tokens in FIXED <==> tokens[0] in SIMPLE_OPTIONS && tokens[1..] in SIMPLE_OPTIONS[tokens[0]]
  {
    OptionsOf();
    hide SIMPLE_OPTIONS;
    NoOptions(tokens);
    SomeOptions(tokens);
    NameCodes();
    hide NameCode;
  }

  lemma NoOptions(tokens: seq<string>)
    requires tokens != []
    ensures forall name :: tokens == [name] <==> tokens[0] == name && tokens[1..] == []
  {
    forall name ensures tokens == [name] <==> tokens[0] == name && tokens[1..] == [] {
      OneWord(tokens, name, "");
    }
  }

  lemma SomeOptions(tokens: seq<string>)
    requires tokens != []
    ensures forall name, option :: tokens == [name, option] <==> tokens[0] == name && tokens[1..] == [option]
  {
    forall name, option ensures tokens == [name, option] <==> tokens[0] == name && tokens[1..] == [option] {
      OneWord(tokens, name, option);
    }
  }

  lemma NumberStep(init: string, c: char)
    requires '0' <= c <= '9'
    ensures Number(init + [c]) == 10 * Number(init) + (c as int - '0' as int)
    ensures Digits(init + [c]) <==> init == "" || Digits(init)
  {
    assert (init + [c])[..|init|] == init;
    if init != "" && Digits(init + [c]) {
      assert forall i :: 0 <= i < |init| ==> (init + [c])[i] == init[i];
    }
  }

  function DigitOf(n: nat): char
    requires n < 10
  {
    ('0' as int + n) as char
  }

  lemma NumeralStep(n: nat)
    ensures Numeral(n) == (if n < 10 then "" else Numeral(n / 10)) + [DigitOf(n % 10)]
    ensures '0' <= DigitOf(n % 10) <= '9' && DigitOf(n % 10) as int - '0' as int == n % 10
  {
  }

  lemma {:induction false} NumeralBack(n: nat)
    ensures Digits(Numeral(n)) && Number(Numeral(n)) == n
  {
    NumeralStep(n);
    NumberStep(if n < 10 then "" else Numeral(n / 10), DigitOf(n % 10));
    hide Numeral, DigitOf, Digits;
    if n >= 10 {
      NumeralBack(n / 10);
    } else {
      assert Number("") == 0;
    }
    hide Number;
  }

  lemma {:induction false} ZerosThen(k: nat, digits: string)
    requires Digits(digits)
    ensures Digits(Zeros(k) + digits) && Number(Zeros(k) + digits) == Number(digits)
  {
    hide Number;
    if k == 0 {
      assert Zeros(0) + digits == digits;
    } else {
      ZerosThen(k - 1, digits);
      assert Zeros(k) + digits == "0" + (Zeros(k - 1) + digits);
      LeadingZero(Zeros(k - 1) + digits);
    }
  }

  lemma {:induction false} LeadingZero(digits: string)
    requires forall i :: 0 <= i < |digits| ==> '0' <= digits[i] <= '9'
    ensures Number("0" + digits) == Number(digits)
  {
    var whole := "0" + digits;
    if digits == "" {
      assert whole == "0" && whole[..0] == "";
    } else {
      var n := |digits| - 1;
      LeadingZero(digits[..n]);
      assert whole[..|whole| - 1] == "0" + digits[..n] && whole[|whole| - 1] == digits[n];
    }
  }

  lemma {:induction false} ZerosAre(k: nat)
    ensures |Zeros(k)| == k && Zeros(k) + "0" == Zeros(k + 1)
  {
    if k > 0 {
      ZerosAre(k - 1);
      assert Zeros(k) + "0" == "0" + (Zeros(k - 1) + "0");
    }
  }

  // The digits of a number without leading zeros; nothing for zero.
  function Significant(n: nat): string {
    if n == 0 then "" else Numeral(n)
  }

  lemma OneDigitMore(n: nat, c: char)
    requires '0' <= c <= '9'
    ensures var d := c as int - '0' as int;
            n > 0 || d > 0 ==> Significant(10 * n + d) == Significant(n) + [c]
  {
    var d: nat := c as int - '0' as int;
    NumeralStep(10 * n + d);
    assert (10 * n + d) / 10 == n && (10 * n + d) % 10 == d && DigitOf(d) == c;
    hide Numeral, DigitOf;
  }

  lemma EmptyNumber()
    ensures Number("") == 0 && Significant(0) == "" && Zeros(0) == ""
  {
  }

  // Every digit string is its number, possibly after zeros.
  lemma {:induction false} DigitsAreNumeral(digits: string) returns (k: nat)
    requires forall i :: 0 <= i < |digits| ==> '0' <= digits[i] <= '9'
    ensures Number(digits) >= 0 && k <= |digits|
    ensures digits == Zeros(k) + Significant(Number(digits))
  {
    hide Number, Digits, Zeros, Significant, Numeral;
    EmptyNumber();
    if digits == "" {
      k := 0;
    } else {
      var n := |digits| - 1;
      var init, last := digits[..n], digits[n];
      k := DigitsAreNumeral(init);
      assert digits == init + [last];
      NumberStep(init, last);
      OneDigitMore(Number(init), last);
      if Number(digits) == 0 {
        ZerosAre(k);
        k := k + 1;
      } else {
        assert Zeros(k) + Significant(Number(init)) + [last] == Zeros(k) + (Significant(Number(init)) + [last]);
      }
    }
  }

  lemma LinesIff(word: string)
    ensures Lines(word) <==> Digits(word) && 1 <= Number(word) <= 1000
  {
    hide Number, Zeros, Numeral;
    if Lines(word) {
      var k, n :| 0 <= k <= |word| && 1 <= n <= 1000 && word == Zeros(k) + Numeral(n);
      NumeralBack(n);
      ZerosThen(k, Numeral(n));
    }
    if Digits(word) && 1 <= Number(word) <= 1000 {
      var k := DigitsAreNumeral(word);
      assert word == Zeros(k) + Numeral(Number(word));
    }
  }

  lemma FlagsIff(word: string)
    ensures ListFlags(word) <==> StartsWithDash(word) && Flags(word[1..])
  {
    if StartsWithDash(word) {
      var flags := word[1..];
      assert forall i :: 1 <= i < |word| ==> word[i] == flags[i - 1];
      assert forall i :: 0 <= i < |flags| ==> flags[i] == word[i + 1];
    }
  }

  // The forms that need no approval are exactly the listed ones.
  lemma FormIff(tokens: seq<string>)
    requires tokens != []
    ensures ReadOnlyForm(tokens) <==> AllowedForm(tokens)
  {
    FixedIff(tokens);
    OptionsOf();
    NameCodes();
    if |tokens| >= 2 {
      FlagsIff(tokens[1]);
    }
    if |tokens| == 4 {
      LinesIff(tokens[2]);
    }
    hide SIMPLE_OPTIONS, FIXED, NameCode, Flags, ListFlags, Lines, Digits, Number;
  }

  // A command is blocked exactly if it is directly dangerous, and runs without approval
  // exactly if it is not and its tokens have one of the listed forms.
  lemma ClassifyIff(command: string, dangerous: string -> bool, letters: char -> bool)
    ensures Classify(command, dangerous, letters) == Blocked <==> dangerous(command)
    ensures Classify(command, dangerous, letters) == AutoReadOnly <==>
            !dangerous(command) && Scan(command, letters).Some? && AllowedForm(Scan(command, letters).value)
  {
    if Scan(command, letters).Some? {
      FormIff(Scan(command, letters).value);
    }
    hide ReadOnlyForm, AllowedForm, Scan;
  }
}
