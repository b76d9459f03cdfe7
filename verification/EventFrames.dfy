/**
 Server-sent event frames: the printer of the backend, and the client's loop that takes
 frames out of a text arriving in arbitrary chunks - a strict subset of the event stream
 format of the WHATWG HTML standard, section 9.2. Everything works on characters; only
 sizes are counted in UTF-8 bytes.
 */
module EventFrames {
  import opened Wrappers
  import opened Sequences

  const FRAME_LIMIT := 65536
  const BODY_LIMIT := 4194304

  // ---------------------------------------------------------------- sizes

  function CharSize(c: char): (n: nat)
    ensures 1 <= n <= 4
  {
    if c < '\U{80}' then 1 else if c < '\U{800}' then 2 else if c < '\U{10000}' then 3 else 4
  }

  function Size(text: string): nat {
    if text == "" then 0 else CharSize(text[0]) + Size(text[1..])
  }

  // The bytes of a character after RFC 3629.
  function Utf8Char(c: char): (bytes: seq<int>)
    ensures forall i :: 0 <= i < |bytes| ==> 0 <= bytes[i] < 256
  {
    var n := c as int;
    if n < 0x80 then [n]
    else if n < 0x800 then [0xC0 + n / 64, 0x80 + n % 64]
    else if n < 0x10000 then [0xE0 + n / 4096, 0x80 + n / 64 % 64, 0x80 + n % 64]
    else [0xF0 + n / 262144, 0x80 + n / 4096 % 64, 0x80 + n / 64 % 64, 0x80 + n % 64]
  }

  function Utf8(text: string): seq<int> {
    if text == "" then [] else Utf8Char(text[0]) + Utf8(text[1..])
  }

  // The size of a text is the number of its bytes.
  lemma {:induction false} SizeIsBytes(text: string)
    ensures Size(text) == |Utf8(text)|
  {
    if text != "" {
      SizeIsBytes(text[1..]);
    }
  }

  lemma {:induction false} SizeAppend(a: string, b: string)
    ensures Size(a + b) == Size(a) + Size(b)
  {
    if a == "" {
      assert a + b == b;
    } else {
      SizeAppend(a[1..], b);
      assert (a + b)[1..] == a[1..] + b;
    }
  }

  // ---------------------------------------------------------------- the printer

  datatype Frame = Frame(event: string, id: nat, data: string)

  function Decimal(n: nat): (digits: string)
    ensures digits != ""
  {
    if n < 10 then [('0' as int + n) as char] else Decimal(n / 10) + [('0' as int + n % 10) as char]
  }

  function Raw(frame: Frame): string {
    "event: " + frame.event + "\n" + ("id: " + Decimal(frame.id)) + "\n" + ("data: " + frame.data)
  }

  function Encode(frame: Frame): string {
    Raw(frame) + "\n\n"
  }

  function EncodeAll(frames: seq<Frame>): string {
    if frames == [] then "" else Encode(frames[0]) + EncodeAll(frames[1..])
  }

  // ---------------------------------------------------------------- the client's parser

  // JavaScript's \s and the characters its dot does not match.
  predicate JsSpace(c: char) {
    || '\t' <= c <= '\r' || c == ' ' || c == '\U{A0}' || c == '\U{1680}' || '\U{2000}' <= c <= '\U{200A}'
    || c == '\U{2028}' || c == '\U{2029}' || c == '\U{202F}' || c == '\U{205F}' || c == '\U{3000}' || c == '\U{FEFF}'
  }

  predicate Separator(c: char) {
    c == '\U{2028}' || c == '\U{2029}'
  }

  predicate LineTerminator(c: char) {
    c == '\n' || c == '\r' || Separator(c)
  }

  function Find(text: string, pattern: string): Option<nat>
    decreases |text|
  {
    if pattern <= text then Some(0)
    else if text == "" then None
    else match Find(text[1..], pattern) case None => None case Some(i) => Some(i + 1)
  }

  datatype Taken = Taken(raw: string, crlf: bool, rest: string)

  lemma {:induction false} FindFits(text: string, pattern: string)
    ensures Find(text, pattern).Some? ==> Find(text, pattern).value + |pattern| <= |text|
    decreases |text|
  {
    if !(pattern <= text) && text != "" {
      FindFits(text[1..], pattern);
    }
  }

  function TakeFrame(buffer: string): (taken: Option<Taken>)
    ensures taken.Some? ==> |taken.value.rest| < |buffer|
  {
    var lf, crlf := Find(buffer, "\n\n"), Find(buffer, "\r\n\r\n");
    FindFits(buffer, "\n\n");
    FindFits(buffer, "\r\n\r\n");
    if crlf.Some? && (lf.None? || crlf.value <= lf.value) then
      Some(Taken(buffer[..crlf.value], true, buffer[crlf.value + 4..]))
    else if lf.Some? then Some(Taken(buffer[..lf.value], false, buffer[lf.value + 2..]))
    else None
  }

  function JoinCrlf(text: string): string {
    if text == "" then ""
    else if "\r\n" <= text then "\n" + JoinCrlf(text[2..])
    else [text[0]] + JoinCrlf(text[1..])
  }

  function Lines(text: string): (lines: seq<string>)
    ensures lines != []
  {
    if text == "" then [""]
    else
      var rest := Lines(text[1..]);
      if text[0] == '\n' then [""] + rest else [[text[0]] + rest[0]] + rest[1..]
  }

  predicate Token(text: string) {
    text != "" && forall i :: 0 <= i < |text| ==> !JsSpace(text[i])
  }

  predicate Digit(c: char) {
    '0' <= c <= '9'
  }

  predicate Canonical(text: string) {
    text != "" && (text[0] == '0' ==> |text| == 1) && forall i :: 0 <= i < |text| ==> Digit(text[i])
  }

  predicate Printable(text: string) {
    text != "" && forall i :: 0 <= i < |text| ==> !LineTerminator(text[i])
  }

  datatype Parsed = Parsed(event: string, id: string, data: string)

  function ParseFrame(raw: string, crlf: bool): Option<Parsed> {
    var normalized := if crlf then JoinCrlf(raw) else raw;
    var lines := Lines(normalized);
    if '\r' in normalized || |lines| != 3 then None
    else if !("event: " <= lines[0] && "id: " <= lines[1] && "data: " <= lines[2]) then None
    else
      var event, id, data := lines[0][7..], lines[1][4..], lines[2][6..];
      if Token(event) && Canonical(id) && Printable(data) then Some(Parsed(event, id, data)) else None
  }

  // ---------------------------------------------------------------- the client's loop

  datatype Outcome = Complete | Invalid | TooLarge

  datatype Drained = Drained(frames: seq<Parsed>, rest: string, failure: Option<Outcome>)

  // All the frames that can be taken from the buffer now.
  function Drain(buffer: string): Drained
    decreases |buffer|
  {
    match TakeFrame(buffer)
    case None => Drained([], buffer, None)
    case Some(Taken(raw, crlf, rest)) =>
      if Size(raw + if crlf then "\r\n\r\n" else "\n\n") > FRAME_LIMIT then Drained([], buffer, Some(TooLarge))
      else
        match ParseFrame(raw, crlf)
        case None => Drained([], rest, Some(Invalid))
        case Some(frame) =>
          var more := Drain(rest);
          Drained([frame] + more.frames, more.rest, more.failure)
  }

  // The frames yielded and how the stream ends, with `total` bytes already read.
  function Stream(buffer: string, total: nat, saw: bool, chunks: seq<string>): (seq<Parsed>, Outcome)
    decreases |chunks|
  {
    if chunks == [] then ([], if buffer == "" && saw then Complete else Invalid)
    else
      var read := total + Size(chunks[0]);
      if read > BODY_LIMIT then ([], TooLarge)
      else
        var drained := Drain(buffer + chunks[0]);
        if drained.failure.Some? then (drained.frames, drained.failure.value)
        else
          var (more, outcome) := Stream(drained.rest, read, saw || drained.frames != [], chunks[1..]);
          (drained.frames + more, outcome)
  }

  // One turn of the client's loop, as the specification takes it.
  lemma StreamStep(buffer: string, total: nat, saw: bool, chunks: seq<string>, n: nat)
    requires n < |chunks|
    ensures Stream(buffer, total, saw, chunks[n..]) ==
            var read := total + Size(chunks[n]);
            var drained := Drain(buffer + chunks[n]);
            if read > BODY_LIMIT then ([], TooLarge)
            else if drained.failure.Some? then (drained.frames, drained.failure.value)
            else Prepend(drained.frames, Stream(drained.rest, read, saw || drained.frames != [], chunks[n + 1..]))
  {
    assert chunks[n..][0] == chunks[n] && chunks[n..][1..] == chunks[n + 1..];
    StreamHead(buffer, total, saw, chunks[n..]);
    hide Drain, Size, Stream;
  }

  // `frames` have been yielded and the loop stands before chunk n.
  predicate Continues(chunks: seq<string>, frames: seq<Parsed>, buffer: string, total: nat, saw: bool, n: nat) {
    n <= |chunks| && Prepend(frames, Stream(buffer, total, saw, chunks[n..])) == Stream("", 0, false, chunks)
  }

  predicate Yields(chunks: seq<string>, frames: seq<Parsed>, outcome: Outcome) {
    Stream("", 0, false, chunks) == (frames, outcome)
  }

  lemma LoopStep(chunks: seq<string>, frames: seq<Parsed>, buffer: string, total: nat, saw: bool, n: nat)
    requires Continues(chunks, frames, buffer, total, saw, n) && n < |chunks|
    ensures var read := total + Size(chunks[n]);
            var drained := Drain(buffer + chunks[n]);
            if read > BODY_LIMIT then Yields(chunks, frames, TooLarge)
            else if drained.failure.Some? then Yields(chunks, frames + drained.frames, drained.failure.value)
            else Continues(chunks, frames + drained.frames, drained.rest, read, saw || drained.frames != [], n + 1)
  {
    hide Stream, Drain, Size;
    StreamStep(buffer, total, saw, chunks, n);
    assert frames + [] == frames;
    var drained := Drain(buffer + chunks[n]);
    PrependTwice(frames, drained.frames,
                 Stream(drained.rest, total + Size(chunks[n]), saw || drained.frames != [], chunks[n + 1..]));
  }

  lemma LoopStart(chunks: seq<string>)
    ensures Continues(chunks, [], "", 0, false, 0)
  {
    hide Stream;
    PrependNothing(Stream("", 0, false, chunks));
    assert chunks[0..] == chunks;
  }

  lemma LoopEnd(chunks: seq<string>, frames: seq<Parsed>, buffer: string, total: nat, saw: bool)
    requires Continues(chunks, frames, buffer, total, saw, |chunks|)
    ensures Yields(chunks, frames, if buffer == "" && saw then Complete else Invalid)
  {
    assert frames + [] == frames;
  }

  method ReadStream(chunks: seq<string>) returns (frames: seq<Parsed>, outcome: Outcome)
    ensures Stream("", 0, false, chunks) == (frames, outcome)
  {
    hide Continues, Stream, Drain, Size;
    var buffer, sawFrame := "", false;
    var totalBytes: nat := 0;
    frames := [];
    LoopStart(chunks);
    for n := 0 to |chunks|
      invariant Continues(chunks, frames, buffer, totalBytes, sawFrame, n)
    {
      LoopStep(chunks, frames, buffer, totalBytes, sawFrame, n);
      totalBytes := totalBytes + Size(chunks[n]);
      if totalBytes > BODY_LIMIT {
        return frames, TooLarge;
      }
      var got, rest, failure := DrainBuffer(buffer + chunks[n]);
      if failure.Some? {
        return frames + got, failure.value;
      }
      frames, buffer, sawFrame := frames + got, rest, sawFrame || got != [];
    }
    LoopEnd(chunks, frames, buffer, totalBytes, sawFrame);
    outcome := if buffer == "" && sawFrame then Complete else Invalid;
  }

  lemma PrependNothing(result: (seq<Parsed>, Outcome))
    ensures Prepend([], result) == result
  {
    assert [] + result.0 == result.0;
  }

  method DrainBuffer(text: string) returns (frames: seq<Parsed>, buffer: string, failure: Option<Outcome>)
    ensures Drained(frames, buffer, failure) == Drain(text)
  {
    buffer, frames, failure := text, [], None;
    assert [] + Drain(text).frames == Drain(text).frames;
    while true
      invariant Drain(text) == Drained(frames + Drain(buffer).frames, Drain(buffer).rest, Drain(buffer).failure)
      decreases |buffer|
    {
      var taken := TakeFrame(buffer);
      if taken.None? {
        assert frames + [] == frames;
        return;
      }
      var frame := taken.value;
      if Size(frame.raw + if frame.crlf then "\r\n\r\n" else "\n\n") > FRAME_LIMIT {
        assert frames + [] == frames;
        return frames, buffer, Some(TooLarge);
      }
      var parsed := ParseFrame(frame.raw, frame.crlf);
      if parsed.None? {
        assert frames + [] == frames;
        return frames, frame.rest, Some(Invalid);
      }
      assert frames + ([parsed.value] + Drain(frame.rest).frames) == frames + [parsed.value] + Drain(frame.rest).frames;
      buffer, frames := frame.rest, frames + [parsed.value];
    }
  }

  function Prepend(frames: seq<Parsed>, result: (seq<Parsed>, Outcome)): (seq<Parsed>, Outcome) {
    (frames + result.0, result.1)
  }

  lemma PrependTwice(a: seq<Parsed>, b: seq<Parsed>, result: (seq<Parsed>, Outcome))
    ensures Prepend(a, Prepend(b, result)) == Prepend(a + b, result)
  {
    assert a + (b + result.0) == a + b + result.0;
  }

  // ---------------------------------------------------------------- finding the delimiter

  lemma {:induction false} FindIs(text: string, pattern: string, i: nat)
    requires i <= |text| && pattern <= text[i..]
    requires forall j :: 0 <= j < i ==> !(pattern <= text[j..])
    ensures Find(text, pattern) == Some(i)
  {
    if i > 0 {
      assert !(pattern <= text[0..]) && text[0..] == text;
      assert forall j :: 0 <= j < i - 1 ==> text[1..][j..] == text[j + 1..];
      assert text[1..][i - 1..] == text[i..];
      FindIs(text[1..], pattern, i - 1);
    } else {
      assert text[0..] == text;
    }
  }

  lemma {:induction false} FindNotBefore(text: string, pattern: string, n: nat)
    requires n <= |text| && forall j :: 0 <= j < n ==> !(pattern <= text[j..])
    ensures Find(text, pattern).Some? ==> Find(text, pattern).value >= n
  {
    if n > 0 {
      assert !(pattern <= text[0..]) && text[0..] == text;
      assert forall j :: 0 <= j < n - 1 ==> text[1..][j..] == text[j + 1..];
      FindNotBefore(text[1..], pattern, n - 1);
    }
  }

  lemma FindNowhere(text: string, pattern: string)
    requires pattern != "" && forall j :: 0 <= j < |text| ==> !(pattern <= text[j..])
    ensures Find(text, pattern).None?
  {
    FindNotBefore(text, pattern, |text|);
    FindFits(text, pattern);
  }

  // No carriage return and no two line feeds in a row.
  predicate Unbroken(text: string) {
    && (forall i :: 0 <= i < |text| ==> text[i] != '\r')
    && (forall i :: 0 <= i < |text| - 1 ==> !(text[i] == '\n' && text[i + 1] == '\n'))
  }

  lemma UnbrokenFinds(text: string, j: nat)
    requires j < |text| && (text[j] != '\n' || j + 1 >= |text| || text[j + 1] != '\n') && text[j] != '\r'
    ensures !("\n\n" <= text[j..]) && !("\r\n\r\n" <= text[j..])
  {
    assert text[j..][0] == text[j];
    if j + 1 < |text| { assert text[j..][1] == text[j + 1]; }
  }

  // The delimiter is found right after a frame's text, whatever follows.
  lemma TakeWhole(raw: string, more: string)
    requires Unbroken(raw) && raw != "" && raw[|raw| - 1] != '\n'
    ensures TakeFrame(raw + "\n\n" + more) == Some(Taken(raw, false, more))
  {
    var text := raw + "\n\n" + more;
    assert text[|raw|..] == "\n\n" + more && text[|raw|] == '\n' && text[|raw| + 1] == '\n';
    forall j | 0 <= j < |raw| ensures !("\n\n" <= text[j..]) && !("\r\n\r\n" <= text[j..]) {
      assert text[j] == raw[j];
      assert j + 1 < |raw| ==> text[j + 1] == raw[j + 1];
      UnbrokenFinds(text, j);
    }
    FindIs(text, "\n\n", |raw|);
    assert text[|raw|..][0] == '\n' && text[|raw| + 1..][0] == '\n';
    FindNotBefore(text, "\r\n\r\n", |raw| + 1);
    assert text[..|raw|] == raw && text[|raw| + 2..] == more;
  }

  // ---------------------------------------------------------------- carriage returns

  // The same lines, ended by a carriage return and a line feed.
  function WithCrlf(text: string): string {
    if text == "" then "" else (if text[0] == '\n' then "\r\n" else [text[0]]) + WithCrlf(text[1..])
  }

  // Every line feed follows a carriage return and every carriage return precedes one, there
  // is no empty line, and the text does not end with a line end.
  predicate CrlfText(text: string) {
    && (forall i :: 0 <= i < |text| && text[i] == '\n' ==> i > 0 && text[i - 1] == '\r')
    && (forall i :: 0 <= i < |text| && text[i] == '\r' ==> i + 2 < |text| && text[i + 1] == '\n' && text[i + 2] != '\r')
    && text != "" && text[0] != '\n'
  }

  lemma PutLineFeed(tail: string)
    requires CrlfText(tail) && tail[0] != '\r'
    ensures CrlfText("\r\n" + tail) && JoinCrlf("\r\n" + tail) == "\n" + JoinCrlf(tail)
  {
    var w := "\r\n" + tail;
    assert w[2..] == tail && forall i :: 2 <= i < |w| ==> w[i] == tail[i - 2];
    hide JoinCrlf;
  }

  lemma PutOther(c: char, tail: string)
    requires CrlfText(tail) && c != '\r' && c != '\n'
    ensures CrlfText([c] + tail) && JoinCrlf([c] + tail) == [c] + JoinCrlf(tail)
  {
    var w := [c] + tail;
    assert w[1..] == tail && forall i :: 1 <= i < |w| ==> w[i] == tail[i - 1];
    assert w[0] != "\r\n"[0];
  }

  lemma OneChar(c: char)
    requires c != '\r' && c != '\n'
    ensures WithCrlf([c]) == [c] && CrlfText([c]) && JoinCrlf([c]) == [c]
  {
    assert [c][1..] == "" && WithCrlf("") == "" && JoinCrlf("") == "";
    assert !("\r\n" <= [c]);
  }

  lemma {:induction false} CrlfIsText(raw: string)
    requires Unbroken(raw) && raw != "" && raw[|raw| - 1] != '\n'
    ensures CrlfText(WithCrlf(raw)) && JoinCrlf(WithCrlf(raw)) == raw
    ensures WithCrlf(raw)[0] == '\r' <==> raw[0] == '\n'
  {
    if |raw| == 1 {
      OneChar(raw[0]);
      assert raw == [raw[0]];
    } else {
      var rest := raw[1..];
      assert forall i :: 0 <= i < |rest| ==> rest[i] == raw[i + 1];
      CrlfIsText(rest);
      assert raw == [raw[0]] + rest;
      if raw[0] == '\n' {
        assert rest[0] != '\n';
        PutLineFeed(WithCrlf(rest));
      } else {
        PutOther(raw[0], WithCrlf(rest));
      }
      hide CrlfText, JoinCrlf, Unbroken;
    }
  }

  // A frame with such line ends is taken and parsed like the one with plain line feeds.
  lemma CrlfFrame(raw: string, more: string)
    requires Unbroken(raw) && raw != "" && raw[|raw| - 1] != '\n'
    ensures TakeFrame(WithCrlf(raw) + "\r\n\r\n" + more) == Some(Taken(WithCrlf(raw), true, more))
    ensures ParseFrame(WithCrlf(raw), true) == ParseFrame(raw, false)
  {
    CrlfIsText(raw);
    TakeCrlf(WithCrlf(raw), more);
    hide TakeFrame, WithCrlf, Lines;
  }

  lemma TakeCrlf(w: string, more: string)
    requires CrlfText(w)
    ensures TakeFrame(w + "\r\n\r\n" + more) == Some(Taken(w, true, more))
  {
    var text, n := w + "\r\n\r\n" + more, |w|;
    assert text[n..] == "\r\n\r\n" + more;
    assert text[n] == '\r' && text[n + 1] == '\n' && text[n + 2] == '\r' && text[n + 3] == '\n';
    forall j | 0 <= j < n ensures text[j] == w[j] {}
    forall j | 0 <= j < n ensures !("\r\n\r\n" <= text[j..]) {
      assert text[j..][0] == text[j] && text[j..][2] == text[j + 2];
    }
    forall j | 0 <= j < n + 3 ensures !("\n\n" <= text[j..]) {
      assert text[j..][0] == text[j] && text[j..][1] == text[j + 1];
    }
    FindIs(text, "\r\n\r\n", n);
    FindNotBefore(text, "\n\n", n + 3);
    assert text[..n] == w && text[n + 4..] == more;
  }

  // ---------------------------------------------------------------- beginnings of a frame

  lemma TakePartial(raw: string, p: string)
    requires Unbroken(raw) && raw != "" && raw[|raw| - 1] != '\n'
    requires p <= raw + "\n\n" && |p| < |raw| + 2
    ensures TakeFrame(p) == None
  {
    var text := raw + "\n\n";
    forall j | 0 <= j < |p| ensures !("\n\n" <= p[j..]) && !("\r\n\r\n" <= p[j..]) {
      assert p[j] == text[j];
      assert j + 1 < |p| ==> p[j + 1] == text[j + 1];
      UnbrokenFinds(p, j);
    }
    FindNowhere(p, "\n\n");
    FindNowhere(p, "\r\n\r\n");
  }

  // ---------------------------------------------------------------- one frame

  predicate Clean(text: string) {
    forall i :: 0 <= i < |text| ==> text[i] != '\n' && text[i] != '\r'
  }

  // What the backend prints: an event name without blanks, and data on one line.
  predicate WellFormed(frame: Frame) {
    Token(frame.event) && frame.data != "" && Clean(frame.data)
  }

  predicate Passes(frame: Frame) {
    forall i :: 0 <= i < |frame.data| ==> !Separator(frame.data[i])
  }

  lemma {:induction false} DecimalCanonical(n: nat)
    ensures Canonical(Decimal(n))
    ensures n > 0 ==> Decimal(n)[0] != '0'
    ensures forall i :: 0 <= i < |Decimal(n)| ==> Digit(Decimal(n)[i])
  {
    if n >= 10 {
      DecimalCanonical(n / 10);
    }
  }

  lemma CleanLines(a: string, b: string, c: string)
    requires Clean(a) && Clean(b) && Clean(c) && b != "" && c != ""
    ensures var raw := a + "\n" + b + "\n" + c;
            Unbroken(raw) && raw != "" && raw[|raw| - 1] != '\n'
  {
    var raw := a + "\n" + b + "\n" + c;
    var m, n := |a|, |a| + 1 + |b|;
    assert raw[m + 1] == b[0] && raw[n + 1] == c[0] && raw[|raw| - 1] == c[|c| - 1];
    forall i | 0 <= i < |raw| ensures raw[i] != '\r' && (raw[i] == '\n' ==> i == m || i == n) {
      if i < m { assert raw[i] == a[i]; }
      else if m < i < n { assert raw[i] == b[i - m - 1]; }
      else if n < i { assert raw[i] == c[i - n - 1]; }
    }
  }

  lemma {:induction false} LinesCons(a: string, rest: string)
    requires Clean(a)
    ensures Lines(a + "\n" + rest) == [a] + Lines(rest)
  {
    var text := a + "\n" + rest;
    if a == "" {
      assert text[1..] == rest;
    } else {
      LinesCons(a[1..], rest);
      assert text[1..] == a[1..] + "\n" + rest;
      assert [a[0]] + a[1..] == a;
    }
  }

  lemma {:induction false} LinesOne(a: string)
    requires Clean(a)
    ensures Lines(a) == [a]
  {
    if a != "" {
      LinesOne(a[1..]);
      assert [a[0]] + a[1..] == a;
    }
  }

  lemma RawLines(frame: Frame)
    requires WellFormed(frame)
    ensures Unbroken(Raw(frame)) && Raw(frame) != "" && Raw(frame)[|Raw(frame)| - 1] != '\n'
    ensures Lines(Raw(frame)) == ["event: " + frame.event, "id: " + Decimal(frame.id), "data: " + frame.data]
  {
    DecimalCanonical(frame.id);
    var a, b, c := "event: " + frame.event, "id: " + Decimal(frame.id), "data: " + frame.data;
    CleanLines(a, b, c);
    assert Raw(frame) == a + "\n" + (b + "\n" + c) == a + "\n" + b + "\n" + c;
    LinesCons(a, b + "\n" + c);
    LinesCons(b, c);
    LinesOne(c);
  }

  function Result(frame: Frame): Parsed {
    Parsed(frame.event, Decimal(frame.id), frame.data)
  }

  // The client accepts a printed frame exactly when its data has no line separator.
  lemma ParseRaw(frame: Frame)
    requires WellFormed(frame)
    ensures ParseFrame(Raw(frame), false) == if Passes(frame) then Some(Result(frame)) else None
  {
    RawLines(frame);
    DecimalCanonical(frame.id);
    assert ("event: " + frame.event)[7..] == frame.event;
    assert ("id: " + Decimal(frame.id))[4..] == Decimal(frame.id);
    assert ("data: " + frame.data)[6..] == frame.data;
    assert Printable(frame.data) <==> Passes(frame);
  }

  // ---------------------------------------------------------------- the round trip

  predicate Sendable(frames: seq<Frame>) {
    forall i :: 0 <= i < |frames| ==> WellFormed(frames[i]) && Size(Encode(frames[i])) <= FRAME_LIMIT
  }

  function Results(frames: seq<Frame>): (results: seq<Parsed>)
    ensures |results| == |frames| && forall i :: 0 <= i < |frames| ==> results[i] == Result(frames[i])
  {
    seq(|frames|, i requires 0 <= i < |frames| => Result(frames[i]))
  }

  // The frames before the first one with a line separator in its data.
  function Good(frames: seq<Frame>): (n: nat)
    ensures n <= |frames|
  {
    if frames == [] || !Passes(frames[0]) then 0 else 1 + Good(frames[1..])
  }

  lemma {:induction false} GoodAll(frames: seq<Frame>)
    ensures Good(frames) == |frames| <==> forall i :: 0 <= i < |frames| ==> Passes(frames[i])
  {
    if frames != [] {
      GoodAll(frames[1..]);
      assert forall i :: 0 < i < |frames| ==> frames[i] == frames[1..][i - 1];
      hide Passes;
    }
  }

  lemma {:induction false} GoodFrames(frames: seq<Frame>)
    ensures forall i :: 0 <= i < Good(frames) ==> Passes(frames[i])
    ensures Good(frames) < |frames| ==> !Passes(frames[Good(frames)])
  {
    if frames != [] && Passes(frames[0]) {
      GoodFrames(frames[1..]);
      assert forall i :: 0 < i < |frames| ==> frames[i] == frames[1..][i - 1];
    }
  }

  lemma {:induction false} GoodSplit(frames: seq<Frame>, k: nat)
    requires k <= |frames| && forall i :: 0 <= i < k ==> Passes(frames[i])
    ensures Good(frames) == k + Good(frames[k..])
  {
    if k > 0 {
      GoodSplit(frames[1..], k - 1);
      assert frames[1..][k - 1..] == frames[k..];
    } else {
      assert frames[0..] == frames;
    }
  }

  // What is left in the buffer: the beginning of the next frame, at most.
  predicate Partial(buffer: string, frames: seq<Frame>) {
    buffer <= EncodeAll(frames) && (if frames == [] then buffer == "" else |buffer| < |Encode(frames[0])|)
  }

  lemma DrainFirst(frame: Frame, rest: string)
    requires WellFormed(frame) && Size(Encode(frame)) <= FRAME_LIMIT
    ensures Drain(Encode(frame) + rest) ==
            if Passes(frame)
            then Drained([Result(frame)] + Drain(rest).frames, Drain(rest).rest, Drain(rest).failure)
            else Drained([], rest, Some(Invalid))
  {
    RawLines(frame);
    TakeWhole(Raw(frame), rest);
    ParseRaw(frame);
    hide Raw, TakeFrame, ParseFrame, WellFormed, Size, Unbroken, Lines;
  }

  lemma DrainPartial(frame: Frame, p: string)
    requires WellFormed(frame) && p <= Encode(frame) && |p| < |Encode(frame)|
    ensures Drain(p) == Drained([], p, None)
  {
    RawLines(frame);
    TakePartial(Raw(frame), p);
  }

  lemma PrefixOfFrames(frames: seq<Frame>, p: string)
    requires frames != [] && p <= EncodeAll(frames)
    ensures |p| < |Encode(frames[0])| ==> p <= Encode(frames[0])
    ensures |p| >= |Encode(frames[0])| ==>
              var rest := p[|Encode(frames[0])|..];
              p == Encode(frames[0]) + rest && rest <= EncodeAll(frames[1..])
  {
    hide Encode;
  }

  // Where a drain of some prefix of the encoded frames stops.
  predicate DrainsTo(frames: seq<Frame>, p: string, k: nat, drained: Drained) {
    && k <= |frames| && drained.frames == Results(frames[..k])
    && (forall i :: 0 <= i < k ==> Passes(frames[i]))
    && (drained.failure.None? ==> EncodeAll(frames[..k]) + drained.rest == p && Partial(drained.rest, frames[k..]))
    && (drained.failure.Some? ==> drained.failure.value == Invalid && k < |frames| && !Passes(frames[k]))
  }

  lemma DrainsNone(frames: seq<Frame>, p: string)
    requires Partial(p, frames)
    ensures DrainsTo(frames, p, 0, Drained([], p, None))
  {
    hide Encode;
    assert frames[..0] == [] && frames[0..] == frames && EncodeAll([]) + p == p;
  }

  lemma DrainsMore(frames: seq<Frame>, n: nat, p: string, rest: string, drained: Drained)
    requires frames != [] && Passes(frames[0]) && DrainsTo(frames[1..], rest, n, drained)
    requires p == Encode(frames[0]) + rest
    ensures DrainsTo(frames, p, n + 1, Drained([Result(frames[0])] + drained.frames, drained.rest, drained.failure))
  {
    hide Encode, Passes, Partial, EncodeAll;
    AfterFirst(frames, n, rest);
    assert Encode(frames[0]) + (EncodeAll(frames[1..][..n]) + drained.rest)
        == Encode(frames[0]) + EncodeAll(frames[1..][..n]) + drained.rest;
  }

  lemma {:induction false} DrainPrefix(frames: seq<Frame>, p: string) returns (k: nat)
    requires Sendable(frames) && p <= EncodeAll(frames)
    ensures DrainsTo(frames, p, k, Drain(p))
  {
    hide Encode, WellFormed, Passes, Drain, DrainsTo;
    k := 0;
    if frames == [] {
      DrainNothing();
      DrainsNone(frames, p);
    } else {
      PrefixOfFrames(frames, p);
      hide EncodeAll;
      if |p| < |Encode(frames[0])| {
        DrainPartial(frames[0], p);
        DrainsNone(frames, p);
      } else {
        var rest := p[|Encode(frames[0])|..];
        DrainFirst(frames[0], rest);
        if Passes(frames[0]) {
          var n := DrainPrefix(frames[1..], rest);
          k := n + 1;
          DrainsMore(frames, n, p, rest, Drain(rest));
        } else {
          DrainsFail(frames, p, rest);
        }
      }
    }
  }

  lemma DrainsFail(frames: seq<Frame>, p: string, rest: string)
    requires frames != [] && !Passes(frames[0])
    ensures DrainsTo(frames, p, 0, Drained([], rest, Some(Invalid)))
  {
  }

  lemma DrainNothing()
    ensures Drain("") == Drained([], "", None)
  {
    FindNowhere("", "\n\n");
    FindNowhere("", "\r\n\r\n");
  }

  lemma AfterFirst(frames: seq<Frame>, n: nat, rest: string)
    requires frames != [] && n < |frames| && Passes(frames[0])
    requires forall i :: 0 <= i < n ==> Passes(frames[1..][i])
    ensures Results(frames[..n + 1]) == [Result(frames[0])] + Results(frames[1..][..n])
    ensures forall i :: 0 <= i < n + 1 ==> Passes(frames[i])
    ensures EncodeAll(frames[..n + 1]) == Encode(frames[0]) + EncodeAll(frames[1..][..n])
    ensures frames[n + 1..] == frames[1..][n..]
  {
    assert frames[..n + 1][1..] == frames[1..][..n];
    assert forall i :: 0 < i < n + 1 ==> frames[i] == frames[1..][i - 1];
  }

  lemma {:induction false} EncodeAllSplit(frames: seq<Frame>, k: nat)
    requires k <= |frames|
    ensures EncodeAll(frames) == EncodeAll(frames[..k]) + EncodeAll(frames[k..])
  {
    hide Encode;
    if k == 0 {
      assert frames[0..] == frames && frames[..0] == [];
    } else {
      EncodeAllSplit(frames[1..], k - 1);
      assert frames[..k][1..] == frames[1..][..k - 1] && frames[k..] == frames[1..][k - 1..];
    }
  }

  lemma {:induction false} StreamOf(frames: seq<Frame>, buffer: string, total: nat, saw: bool, chunks: seq<string>)
    requires Sendable(frames) && Partial(buffer, frames)
    requires buffer + Flatten(chunks) == EncodeAll(frames)
    requires total + Size(Flatten(chunks)) <= BODY_LIMIT
    ensures Ends(frames, saw, Stream(buffer, total, saw, chunks))
    decreases |chunks|, 1
  {
    hide Encode, WellFormed, Drain, Passes, Size;
    if chunks == [] {
      assert buffer + "" == buffer;
      PartialIsAll(buffer, frames);
    } else {
      SizeAppend(chunks[0], Flatten(chunks[1..]));
      FlattenHead(chunks);
      assert buffer + chunks[0] + Flatten(chunks[1..]) == buffer + (chunks[0] + Flatten(chunks[1..]));
      StreamChunk(frames, buffer, total, saw, chunks);
    }
  }

  lemma PartialIsAll(buffer: string, frames: seq<Frame>)
    requires Partial(buffer, frames) && buffer == EncodeAll(frames)
    ensures frames == [] && buffer == ""
  {
  }

  predicate Ends(frames: seq<Frame>, saw: bool, result: (seq<Parsed>, Outcome)) {
    result == (Results(frames[..Good(frames)]),
               if Good(frames) == |frames| && (saw || frames != []) then Complete else Invalid)
  }

  lemma EndsAfter(frames: seq<Frame>, k: nat, saw: bool, got: seq<Parsed>, result: (seq<Parsed>, Outcome))
    requires k <= |frames| && (forall i :: 0 <= i < k ==> Passes(frames[i])) && got == Results(frames[..k])
    requires Ends(frames[k..], saw || got != [], result)
    ensures Ends(frames, saw, Prepend(got, result))
  {
    hide Good, Passes;
    GoodSplit(frames, k);
    ResultsSplit(frames, k);
  }

  lemma StreamChunk(frames: seq<Frame>, buffer: string, total: nat, saw: bool, chunks: seq<string>)
    requires Sendable(frames) && chunks != []
    requires buffer + chunks[0] + Flatten(chunks[1..]) == EncodeAll(frames)
    requires total + Size(chunks[0]) + Size(Flatten(chunks[1..])) <= BODY_LIMIT
    ensures Ends(frames, saw, Stream(buffer, total, saw, chunks))
    decreases |chunks|, 0
  {
    hide Encode, WellFormed, Drain, Passes, Size, EncodeAll, Flatten, Stream, Ends, Prepend, Good;
    var p := buffer + chunks[0];
    var drained := Drain(p);
    var k := DrainPrefix(frames, p);
    StreamHead(buffer, total, saw, chunks);
    if drained.failure.None? {
      EncodeAllSplit(frames, k);
      RestOfText(EncodeAll(frames[..k]), drained.rest, Flatten(chunks[1..]), EncodeAll(frames[k..]));
      StreamOf(frames[k..], drained.rest, total + Size(chunks[0]), saw || drained.frames != [], chunks[1..]);
      EndsAfter(frames, k, saw, drained.frames,
                Stream(drained.rest, total + Size(chunks[0]), saw || drained.frames != [], chunks[1..]));
    } else {
      EndsAt(frames, k, saw);
    }
  }

  lemma EndsAt(frames: seq<Frame>, k: nat, saw: bool)
    requires k < |frames| && !Passes(frames[k]) && forall i :: 0 <= i < k ==> Passes(frames[i])
    ensures Ends(frames, saw, (Results(frames[..k]), Invalid))
  {
    GoodAt(frames, k);
  }

  lemma StreamHead(buffer: string, total: nat, saw: bool, chunks: seq<string>)
    requires chunks != []
    ensures Stream(buffer, total, saw, chunks) ==
            var read := total + Size(chunks[0]);
            var drained := Drain(buffer + chunks[0]);
            if read > BODY_LIMIT then ([], TooLarge)
            else if drained.failure.Some? then (drained.frames, drained.failure.value)
            else Prepend(drained.frames, Stream(drained.rest, read, saw || drained.frames != [], chunks[1..]))
  {
    hide Drain, Size;
  }

  lemma {:induction false} GoodAt(frames: seq<Frame>, k: nat)
    requires k < |frames| && !Passes(frames[k]) && forall i :: 0 <= i < k ==> Passes(frames[i])
    ensures Good(frames) == k
  {
    GoodSplit(frames, k);
  }

  lemma RestOfText(a: string, rest: string, more: string, b: string)
    requires a + rest + more == a + b
    ensures rest + more == b
  {
    assert (a + rest + more)[|a|..] == rest + more && (a + b)[|a|..] == b;
  }

  lemma ResultsSplit(frames: seq<Frame>, k: nat)
    requires k <= |frames| && Good(frames) == k + Good(frames[k..])
    ensures Results(frames[..Good(frames)]) == Results(frames[..k]) + Results(frames[k..][..Good(frames[k..])])
  {
  }

  // However the encoded events are cut into chunks, the client yields exactly the frames
  // before the first one whose data holds U+2028 or U+2029, in order; it completes if and
  // only if there is no such frame.
  lemma RoundTrip(frames: seq<Frame>, chunks: seq<string>)
    requires frames != [] && Sendable(frames)
    requires Flatten(chunks) == EncodeAll(frames) && Size(EncodeAll(frames)) <= BODY_LIMIT
    ensures Stream("", 0, false, chunks) ==
            (Results(frames[..Good(frames)]), if Good(frames) == |frames| then Complete else Invalid)
    ensures Stream("", 0, false, chunks) == (Results(frames), Complete) <==>
            forall i :: 0 <= i < |frames| ==> Passes(frames[i])
  {
    assert "" + Flatten(chunks) == Flatten(chunks);
    StreamOf(frames, "", 0, false, chunks);
    GoodFrames(frames);
    assert frames[..|frames|] == frames;
    if forall i :: 0 <= i < |frames| ==> Passes(frames[i]) {
      assert Good(frames) == |frames|;
    }
  }
}
