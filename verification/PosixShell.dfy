/**
 How a POSIX shell splits a command line into words and removes quoting
 (POSIX.1-2017, Shell Command Language, sections 2.2, 2.3 and 2.6.7). Input that
 needs more than words - operators, expansions, comments, unfinished quoting - has
 no reading here.
 */
module PosixShell {
  import opened Wrappers

  datatype Quoting = Bare | Single | Double

  predicate Operator(c: char) {
    c == '|' || c == '&' || c == ';' || c == '<' || c == '>' || c == '(' || c == ')' || c == '\n'
  }

  predicate Expansion(c: char) {
    c == '$' || c == '`'
  }

  // Token recognition, section 2.3: the quote characters stay in the words.
  function Recognise(text: string, word: Option<string>, quoting: Quoting): Option<seq<string>>
    decreases |text|
  {
    if text == [] then
      if quoting != Bare then None else Some(if word.Some? then [word.value] else [])
    else
      var c, rest := text[0], text[1..];
      var begun := word.GetOr("");
      match quoting
      case Single => Recognise(rest, Some(begun + [c]), if c == '\'' then Bare else Single)
      case Double =>
        if Expansion(c) then None
        else if c == '\\' then
          if rest == [] then None else Recognise(rest[1..], Some(begun + [c, rest[0]]), Double)
        else Recognise(rest, Some(begun + [c]), if c == '"' then Bare else Double)
      case Bare =>
        if Operator(c) || Expansion(c) then None
        else if c == '\'' then Recognise(rest, Some(begun + [c]), Single)
        else if c == '"' then Recognise(rest, Some(begun + [c]), Double)
        else if c == '\\' then
          if rest == [] then None else Recognise(rest[1..], Some(begun + [c, rest[0]]), Bare)
        else if c == ' ' || c == '\t' then
          match Recognise(rest, None, Bare)
          case None => None
          case Some(words) => Some((if word.Some? then [word.value] else []) + words)
        else if c == '#' && word.None? then None
        else Recognise(rest, Some(begun + [c]), Bare)
  }

  // Quote removal, section 2.6.7; within double-quotes a backslash stays before an ordinary
  // character (section 2.2.3).
  function RemoveQuotes(word: string, quoting: Quoting): string {
    if word == [] then []
    else
      var c, rest := word[0], word[1..];
      match quoting
      case Single => if c == '\'' then RemoveQuotes(rest, Bare) else [c] + RemoveQuotes(rest, Single)
      case Double =>
        if c == '"' then RemoveQuotes(rest, Bare)
        else if c == '\\' && rest != [] && rest[0] == '\n' then RemoveQuotes(rest[1..], Double)
        else if c == '\\' && rest != [] && (rest[0] == '$' || rest[0] == '`' || rest[0] == '"' || rest[0] == '\\')
        then [rest[0]] + RemoveQuotes(rest[1..], Double)
        else [c] + RemoveQuotes(rest, Double)
      case Bare =>
        if c == '\'' then RemoveQuotes(rest, Single)
        else if c == '"' then RemoveQuotes(rest, Double)
        else if c == '\\' && rest != [] then [rest[0]] + RemoveQuotes(rest[1..], Bare)
        else [c] + RemoveQuotes(rest, Bare)
  }

  // No unquoted character of the word starts a tilde, pattern or history expansion.
  predicate NoExpansion(word: string, quoting: Quoting) {
    word == [] ||
    var c, rest := word[0], word[1..];
    match quoting
    case Single => NoExpansion(rest, if c == '\'' then Bare else Single)
    case Double => !Expansion(c) && NoExpansion(rest, if c == '"' then Bare else Double)
    case Bare =>
      if c == '\'' then NoExpansion(rest, Single)
      else if c == '"' then NoExpansion(rest, Double)
      else !Expansion(c) && c != '*' && c != '?' && c != '[' && c != '~' && c != '!' && c != '{' && c != '\\'
           && NoExpansion(rest, Bare)
  }
}
