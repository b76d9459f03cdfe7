/**
 The compact JSON the backend prints into the data line of an event, and a reader for it
 after RFC 8259: strings with the escapes of section 7, natural numbers, objects without
 blanks.
 */
module CompactJson {
  import opened Wrappers
  import opened EventFrames

  datatype Json = Null | Number(n: nat) | Text(s: string) | Object(members: Members)
  datatype Members = End | More(key: string, value: Json, rest: Members)

  // ---------------------------------------------------------------- printing

  function HexDigit(n: nat): char
    requires n < 16
  {
    if n < 10 then ('0' as int + n) as char else ('a' as int + n - 10) as char
  }

  function EscapeChar(c: char): string {
    if c == '"' then "\\\""
    else if c == '\\' then "\\\\"
    else if c == '\n' then "\\n"
    else if c == '\r' then "\\r"
    else if c == '\t' then "\\t"
    else if c == '\U{8}' then "\\b"
    else if c == '\U{C}' then "\\f"
    else if c < ' ' then "\\u00" + [HexDigit(c as int / 16), HexDigit(c as int % 16)]
    else [c]
  }

  function Escape(s: string): string {
    if s == "" then "" else EscapeChar(s[0]) + Escape(s[1..])
  }

  function PrintText(s: string): string {
    "\"" + Escape(s) + "\""
  }

  function Print(j: Json): string
    decreases j, 0
  {
    match j
    case Null => "null"
    case Number(n) => Decimal(n)
    case Text(s) => PrintText(s)
    case Object(members) => "{" + PrintMembers(members) + "}"
  }

  function PrintMembers(members: Members): string
    decreases members
  {
    match members
    case End => ""
    case More(key, value, rest) =>
      PrintText(key) + ":" + Print(value) + (if rest.End? then "" else "," + PrintMembers(rest))
  }

  // ---------------------------------------------------------------- reading

  function HexValue(c: char): Option<nat> {
    if '0' <= c <= '9' then Some(c as int - '0' as int)
    else if 'a' <= c <= 'f' then Some(c as int - 'a' as int + 10)
    else if 'A' <= c <= 'F' then Some(c as int - 'A' as int + 10)
    else None
  }

  // What follows a backslash: the character it means and how much was read.
  function Unescape(text: string): (read: Option<(char, string)>)
    ensures read.Some? ==> |read.value.1| < |text|
  {
    if text == "" then None
    else
      var c, rest := text[0], text[1..];
      if c == '"' || c == '\\' || c == '/' then Some((c, rest))
      else if c == 'b' then Some(('\U{8}', rest))
      else if c == 'f' then Some(('\U{C}', rest))
      else if c == 'n' then Some(('\n', rest))
      else if c == 'r' then Some(('\r', rest))
      else if c == 't' then Some(('\t', rest))
      else if c == 'u' && |rest| >= 4 then
        match (HexValue(rest[0]), HexValue(rest[1]), HexValue(rest[2]), HexValue(rest[3]))
        case (Some(a), Some(b), Some(d), Some(e)) =>
          var code := 4096 * a + 256 * b + 16 * d + e;
          if code < 0xD800 then Some((code as char, rest[4..])) else None
        case _ => None
      else None
  }

  // The text of a string up to its closing quote.
  function ReadText(text: string): (read: Option<(string, string)>)
    ensures read.Some? ==> |read.value.1| < |text|
    decreases |text|
  {
    if text == "" || text[0] < ' ' then None
    else if text[0] == '"' then Some(("", text[1..]))
    else if text[0] == '\\' then
      match Unescape(text[1..])
      case None => None
      case Some((c, rest)) => (
        match ReadText(rest) case None => None case Some((more, after)) => Some(([c] + more, after)))
    else
      match ReadText(text[1..]) case None => None case Some((more, after)) => Some(([text[0]] + more, after))
  }

  function Digits(text: string): (n: nat)
    ensures n <= |text|
  {
    if text == "" || !Digit(text[0]) then 0 else 1 + Digits(text[1..])
  }

  function DigitValue(c: char): nat
    requires Digit(c)
  {
    c as int - '0' as int
  }

  function Value(digits: string): nat
    requires forall i :: 0 <= i < |digits| ==> Digit(digits[i])
  {
    if digits == "" then 0 else 10 * Value(digits[..|digits| - 1]) + DigitValue(digits[|digits| - 1])
  }

  lemma {:induction false} DigitsAre(text: string)
    ensures forall i :: 0 <= i < Digits(text) ==> Digit(text[i])
    ensures Digits(text) < |text| ==> !Digit(text[Digits(text)])
  {
    if text != "" && Digit(text[0]) {
      DigitsAre(text[1..]);
    }
  }

  function ReadNumber(text: string): (read: Option<(nat, string)>)
    ensures read.Some? ==> |read.value.1| < |text|
  {
    var n := Digits(text);
    DigitsAre(text);
    if n == 0 || (text[0] == '0' && n > 1) then None else Some((Value(text[..n]), text[n..]))
  }

  function Read(text: string): (read: Option<(Json, string)>)
    ensures read.Some? ==> |read.value.1| < |text|
    decreases |text|, 0
  {
    if "null" <= text then Some((Null, text[4..]))
    else if text == "" then None
    else if text[0] == '"' then
      match ReadText(text[1..]) case None => None case Some((s, rest)) => Some((Text(s), rest))
    else if text[0] == '{' then
      if |text| > 1 && text[1] == '}' then Some((Object(End), text[2..]))
      else match ReadMembers(text[1..]) case None => None case Some((members, rest)) => Some((Object(members), rest))
    else match ReadNumber(text) case None => None case Some((n, rest)) => Some((Number(n), rest))
  }

  // One or more members and the closing brace.
  function ReadMembers(text: string): (read: Option<(Members, string)>)
    ensures read.Some? ==> |read.value.1| < |text|
    decreases |text|, 1
  {
    if text == "" || text[0] != '"' then None
    else
      match ReadText(text[1..])
      case None => None
      case Some((key, colon)) =>
        if colon == "" || colon[0] != ':' then None
        else
          match Read(colon[1..])
          case None => None
          case Some((value, rest)) =>
            if rest == "" then None
            else if rest[0] == '}' then Some((More(key, value, End), rest[1..]))
            else if rest[0] != ',' then None
            else match ReadMembers(rest[1..]) case None => None case Some((more, after)) => Some((More(key, value, more), after))
  }

  // ---------------------------------------------------------------- reading back what was printed

  lemma HexRoundTrip(n: nat)
    requires n < 16
    ensures HexValue(HexDigit(n)) == Some(n)
  {
  }

  lemma ReadControl(c: char, rest: string)
    requires c < ' ' && |EscapeChar(c)| == 6
    ensures Unescape((EscapeChar(c) + rest)[1..]) == Some((c, rest))
  {
    var code := c as int;
    var text := (EscapeChar(c) + rest)[1..];
    HexRoundTrip(code / 16);
    HexRoundTrip(code % 16);
    assert text[0] == 'u' && text[1..][4..] == rest;
    assert text[1..][0] == '0' && text[1..][1] == '0';
    assert text[1..][2] == HexDigit(code / 16) && text[1..][3] == HexDigit(code % 16);
    assert code == 16 * (code / 16) + code % 16;
    hide HexDigit;
  }

  lemma ReadShort(c: char, rest: string)
    requires |EscapeChar(c)| == 2
    ensures EscapeChar(c)[0] == '\\' && Unescape((EscapeChar(c) + rest)[1..]) == Some((c, rest))
  {
    var text := (EscapeChar(c) + rest)[1..];
    assert text[0] == EscapeChar(c)[1] && text[1..] == rest;
  }

  lemma ReadAfterBackslash(text: string, c: char, rest: string)
    requires text != "" && text[0] == '\\' && Unescape(text[1..]) == Some((c, rest))
    ensures ReadsAs(text, c, rest)
  {
    hide Unescape;
  }

  lemma ReadPlain(c: char, rest: string)
    requires EscapeChar(c) == [c]
    ensures ReadsAs([c] + rest, c, rest)
  {
    var text := [c] + rest;
    assert text[1..] == rest && text[0] == c;
    assert c != '"' && c != '\\' && c >= ' ';
  }

  lemma EscapeKinds(c: char)
    ensures EscapeChar(c) == [c] || |EscapeChar(c)| == 2 || (c < ' ' && |EscapeChar(c)| == 6 && EscapeChar(c)[0] == '\\')
  {
  }

  // An escaped character is read as that character.
  predicate ReadsAs(text: string, c: char, rest: string) {
    ReadText(text) == match ReadText(rest) case None => None case Some((more, after)) => Some(([c] + more, after))
  }

  lemma ReadEscaped(c: char, rest: string)
    ensures ReadsAs(EscapeChar(c) + rest, c, rest)
  {
    EscapeKinds(c);
    if |EscapeChar(c)| == 1 {
      ReadPlain(c, rest);
      assert EscapeChar(c) + rest == [c] + rest;
    } else if |EscapeChar(c)| == 2 {
      ReadShort(c, rest);
      ReadAfterBackslash(EscapeChar(c) + rest, c, rest);
    } else {
      ReadControl(c, rest);
      assert (EscapeChar(c) + rest)[0] == '\\';
      ReadAfterBackslash(EscapeChar(c) + rest, c, rest);
    }
  }

  lemma {:induction false} ReadBackText(s: string, rest: string)
    ensures ReadText(Escape(s) + "\"" + rest) == Some((s, rest))
  {
    if s == "" {
      assert Escape(s) + "\"" + rest == "\"" + rest && ("\"" + rest)[1..] == rest;
    } else {
      var more := Escape(s[1..]) + "\"" + rest;
      assert Escape(s) + "\"" + rest == EscapeChar(s[0]) + more;
      ReadEscaped(s[0], more);
      ReadBackText(s[1..], rest);
      assert [s[0]] + s[1..] == s;
    }
  }

  lemma {:induction false} DecimalValue(n: nat)
    ensures forall i :: 0 <= i < |Decimal(n)| ==> Digit(Decimal(n)[i])
    ensures Value(Decimal(n)) == n
  {
    DecimalCanonical(n);
    if n >= 10 {
      DecimalValue(n / 10);
      assert Decimal(n)[..|Decimal(n)| - 1] == Decimal(n / 10);
    } else {
      assert Decimal(n)[..0] == "";
    }
  }

  predicate NoDigit(rest: string) {
    rest == "" || !Digit(rest[0])
  }

  lemma {:induction false} DigitsOf(digits: string, rest: string)
    requires (forall i :: 0 <= i < |digits| ==> Digit(digits[i])) && NoDigit(rest)
    ensures Digits(digits + rest) == |digits|
  {
    if digits == "" {
      assert digits + rest == rest;
    } else {
      DigitsOf(digits[1..], rest);
      assert (digits + rest)[1..] == digits[1..] + rest;
    }
  }

  lemma ReadBackNumber(n: nat, rest: string)
    requires NoDigit(rest)
    ensures Read(Decimal(n) + rest) == Some((Number(n), rest))
  {
    DecimalCanonical(n);
    DecimalValue(n);
    DigitsOf(Decimal(n), rest);
    var text := Decimal(n) + rest;
    assert text[0] == Decimal(n)[0] && text[..|Decimal(n)|] == Decimal(n) && text[|Decimal(n)|..] == rest;
    assert !("null" <= text);
  }

  predicate ReadsBack(j: Json, rest: string) {
    Read(Print(j) + rest) == Some((j, rest))
  }

  predicate MembersReadBack(members: Members, rest: string) {
    && PrintMembers(members) != "" && PrintMembers(members)[0] == '"'
    && ReadMembers(PrintMembers(members) + "}" + rest) == Some((members, rest))
  }

  lemma NullBack(rest: string)
    ensures ReadsBack(Null, rest)
  {
    var text := "null" + rest;
    assert text[4..] == rest && text[..4] == "null";
  }

  lemma TextBack(s: string, rest: string)
    ensures ReadsBack(Text(s), rest)
  {
    hide Escape, ReadText;
    var text := PrintText(s) + rest;
    assert text[1..] == Escape(s) + "\"" + rest && text[0] == '"';
    ReadBackText(s, rest);
  }

  lemma ObjectBack(members: Members, rest: string)
    requires members.More? ==> MembersReadBack(members, rest)
    ensures ReadsBack(Object(members), rest)
  {
    var text := Print(Object(members)) + rest;
    if members.End? {
      assert text == "{}" + rest;
    } else {
      assert text[1..] == PrintMembers(members) + "}" + rest;
      assert text[1] == PrintMembers(members)[0];
    }
    hide PrintMembers, ReadMembers;
  }

  lemma {:induction false} ReadBack(j: Json, rest: string)
    requires NoDigit(rest)
    ensures ReadsBack(j, rest)
    decreases j, 0
  {
    if j.Null? {
      NullBack(rest);
    } else if j.Number? {
      ReadBackNumber(j.n, rest);
    } else if j.Text? {
      TextBack(j.s, rest);
    } else {
      if j.members.More? { ReadBackMembers(j.members, rest); }
      ObjectBack(j.members, rest);
    }
    hide Read, MembersReadBack;
  }

  // What follows the value of a member, in the printed object.
  function Following(others: Members, rest: string): string {
    if others.End? then "}" + rest else "," + (PrintMembers(others) + "}" + rest)
  }

  lemma Regroup(e: string, v: string, tail: string, rest: string)
    ensures ("\"" + e + "\"") + ":" + v + tail + "}" + rest
         == "\"" + (e + "\"" + (":" + (v + (tail + "}" + rest))))
  {
  }

  lemma FollowingIs(others: Members, rest: string)
    ensures (if others.End? then "" else "," + PrintMembers(others)) + "}" + rest == Following(others, rest)
  {
    hide PrintMembers;
  }

  lemma MemberText(key: string, value: Json, others: Members, rest: string)
    ensures PrintMembers(More(key, value, others)) + "}" + rest
         == "\"" + (Escape(key) + "\"" + (":" + (Print(value) + Following(others, rest))))
  {
    hide Escape, Print, Following;
    var tail := if others.End? then "" else "," + PrintMembers(others);
    Regroup(Escape(key), Print(value), tail, rest);
    FollowingIs(others, rest);
  }

  lemma ReadMember(key: string, value: Json, others: Members, rest: string)
    requires ReadsBack(value, Following(others, rest))
    requires others.More? ==> MembersReadBack(others, rest)
    ensures ReadMembers("\"" + (Escape(key) + "\"" + (":" + (Print(value) + Following(others, rest)))))
         == Some((More(key, value, others), rest))
  {
    var tail := Following(others, rest);
    var after := ":" + (Print(value) + tail);
    var text := "\"" + (Escape(key) + "\"" + after);
    assert text[1..] == Escape(key) + "\"" + after;
    ReadBackText(key, after);
    assert after[1..] == Print(value) + tail;
    assert others.End? ==> tail[1..] == rest;
    assert others.More? ==> tail[1..] == PrintMembers(others) + "}" + rest;
    hide Escape, ReadText, Print, PrintMembers;
  }

  lemma {:induction false} ReadBackMembers(members: Members, rest: string)
    requires members.More?
    ensures MembersReadBack(members, rest)
    decreases members, 0
  {
    hide ReadsBack, MembersReadBack, ReadMembers, Following, Print, PrintMembers;
    var More(key, value, others) := members;
    FollowingStart(others, rest);
    ReadBack(value, Following(others, rest));
    if others.More? { ReadBackMembers(others, rest); }
    ReadMember(key, value, others, rest);
    MemberText(key, value, others, rest);
    MembersDone(members, rest, "\"" + (Escape(key) + "\"" + (":" + (Print(value) + Following(others, rest)))));
  }

  lemma FollowingStart(others: Members, rest: string)
    ensures NoDigit(Following(others, rest))
  {
  }

  lemma MembersDone(members: Members, rest: string, text: string)
    requires PrintMembers(members) + "}" + rest == text && members.More?
    requires ReadMembers(text) == Some((members, rest))
    ensures MembersReadBack(members, rest)
  {
    hide ReadMembers, Print, Escape;
  }

  // A printed value reads back as itself, so no two values print alike.
  lemma PrintRoundTrip(j: Json)
    ensures Read(Print(j)) == Some((j, ""))
  {
    assert Print(j) + "" == Print(j);
    ReadBack(j, "");
    hide Print, Read;
  }

  // ---------------------------------------------------------------- what a printed value looks like

  // Some string in it contains one of the two Unicode line separators.
  predicate Separated(s: string) {
    exists i :: 0 <= i < |s| && Separator(s[i])
  }

  predicate HasSeparator(j: Json)
    decreases j, 0
  {
    match j
    case Null => false
    case Number(_) => false
    case Text(s) => Separated(s)
    case Object(members) => AnySeparator(members)
  }

  predicate AnySeparator(members: Members)
    decreases members
  {
    members.More? && (Separated(members.key) || HasSeparator(members.value) || AnySeparator(members.rest))
  }

  // An upper bound of the printed size: an escaped character takes at most six bytes.
  function Weight(j: Json): nat
    decreases j, 0
  {
    match j
    case Null => 4
    case Number(n) => |Decimal(n)|
    case Text(s) => 6 * |s| + 2
    case Object(members) => WeightOf(members) + 2
  }

  function WeightOf(members: Members): nat
    decreases members
  {
    match members
    case End => 0
    case More(key, value, rest) => 6 * |key| + 2 + 1 + Weight(value) + 1 + WeightOf(rest)
  }

  predicate Fits(text: string, separated: bool, weight: nat) {
    Clean(text) && (Separated(text) <==> separated) && Size(text) <= weight
  }

  lemma FitsAppend(a: string, b: string, inA: bool, inB: bool, m: nat, n: nat)
    requires Fits(a, inA, m) && Fits(b, inB, n)
    ensures Fits(a + b, inA || inB, m + n)
  {
    SizeAppend(a, b);
    if Separated(a) {
      var i :| 0 <= i < |a| && Separator(a[i]);
      assert Separator((a + b)[i]);
    }
    if Separated(b) {
      var i :| 0 <= i < |b| && Separator(b[i]);
      assert Separator((a + b)[|a| + i]);
    }
  }

  lemma AsciiFits(text: string)
    requires forall i :: 0 <= i < |text| ==> ' ' <= text[i] < '\U{7F}'
    ensures Fits(text, false, |text|)
  {
    AsciiSize(text);
  }

  lemma {:induction false} AsciiSize(text: string)
    requires forall i :: 0 <= i < |text| ==> ' ' <= text[i] < '\U{7F}'
    ensures Size(text) == |text|
  {
    if text != "" {
      AsciiSize(text[1..]);
    }
  }

  lemma EscapeCharFits(c: char)
    ensures Fits(EscapeChar(c), Separator(c), 6)
  {
    var text := EscapeChar(c);
    if text == [c] {
      assert Size([c]) == CharSize(c) by { assert [c][1..] == ""; }
      assert Separator(c) ==> Separator(text[0]);
    } else {
      AsciiFits(text);
    }
  }

  lemma {:induction false} EscapeFits(s: string)
    ensures Fits(Escape(s), Separated(s), 6 * |s|)
  {
    hide Fits;
    if s == "" {
      AsciiFits("");
    } else {
      EscapeCharFits(s[0]);
      EscapeFits(s[1..]);
      FitsAppend(EscapeChar(s[0]), Escape(s[1..]), Separator(s[0]), Separated(s[1..]), 6, 6 * |s[1..]|);
      SeparatedHead(s);
    }
  }

  lemma SeparatedHead(s: string)
    requires s != ""
    ensures Separated(s) <==> Separator(s[0]) || Separated(s[1..])
  {
    if Separated(s[1..]) {
      var i :| 0 <= i < |s[1..]| && Separator(s[1..][i]);
      assert Separator(s[i + 1]);
    }
    if Separated(s) {
      var i :| 0 <= i < |s| && Separator(s[i]);
      assert i > 0 ==> Separator(s[1..][i - 1]);
    }
  }

  lemma TextFits(s: string)
    ensures Fits(PrintText(s), Separated(s), 6 * |s| + 2)
  {
    hide Fits;
    EscapeFits(s);
    AsciiFits("\"");
    FitsAppend("\"", Escape(s), false, Separated(s), 1, 6 * |s|);
    FitsAppend("\"" + Escape(s), "\"", Separated(s), false, 6 * |s| + 1, 1);
  }

  lemma DecimalFits(n: nat)
    ensures Fits(Decimal(n), false, |Decimal(n)|)
  {
    DecimalCanonical(n);
    AsciiFits(Decimal(n));
  }

  lemma {:induction false} PrintFits(j: Json)
    ensures Fits(Print(j), HasSeparator(j), Weight(j))
    decreases j, 0
  {
    hide Fits;
    match j
    case Null => AsciiFits("null");
    case Number(n) => DecimalFits(n);
    case Text(s) => TextFits(s);
    case Object(members) =>
      MembersFit(members);
      AsciiFits("{");
      AsciiFits("}");
      FitsAppend("{", PrintMembers(members), false, AnySeparator(members), 1, WeightOf(members));
      FitsAppend("{" + PrintMembers(members), "}", AnySeparator(members), false, 1 + WeightOf(members), 1);
  }

  lemma {:induction false} MembersFit(members: Members)
    ensures Fits(PrintMembers(members), AnySeparator(members), WeightOf(members))
    decreases members, 0
  {
    hide Fits;
    match members
    case End => AsciiFits("");
    case More(key, value, rest) =>
      TextFits(key);
      AsciiFits(":");
      PrintFits(value);
      var k, v := Separated(key), HasSeparator(value);
      FitsAppend(PrintText(key), ":", k, false, 6 * |key| + 2, 1);
      FitsAppend(PrintText(key) + ":", Print(value), k, v, 6 * |key| + 3, Weight(value));
      var head := PrintText(key) + ":" + Print(value);
      TailFits(rest);
      FitsAppend(head, if rest.End? then "" else "," + PrintMembers(rest), k || v, AnySeparator(rest),
                 6 * |key| + 3 + Weight(value), 1 + WeightOf(rest));
  }

  lemma {:induction false} TailFits(rest: Members)
    ensures Fits(if rest.End? then "" else "," + PrintMembers(rest), AnySeparator(rest), 1 + WeightOf(rest))
    decreases rest, 1
  {
    if rest.End? {
      AsciiFits("");
    } else {
      AsciiFits(",");
      MembersFit(rest);
      FitsAppend(",", PrintMembers(rest), false, AnySeparator(rest), 1, WeightOf(rest));
    }
  }
}
