/** The character scanner: a table from character positions to line numbers
    and line texts, and the splitting of the source into tokens. */
module Tokenizer {
  import opened Encoding
  import Primitives

  /** `char::is_whitespace`: the Unicode White_Space characters. */
  predicate IsWhitespace(c: char)
  {
    || ('\U{0009}' <= c <= '\U{000D}') || c == ' '
    || c == '\U{0085}' || c == '\U{00A0}' || c == '\U{1680}'
    || ('\U{2000}' <= c <= '\U{200A}')
    || c == '\U{2028}' || c == '\U{2029}' || c == '\U{202F}' || c == '\U{205F}' || c == '\U{3000}'
  }

  predicate IsBreak(c: char) { c == '\n' || c == '\r' }

  /** The characters that always end a word. */
  predicate IsReserved(c: char)
  {
    c == ':' || c == ';' || c == '[' || c == ']' || c == '"' || c == '#'
  }

  /** The scanner's working assumption: the source is empty or ends with a line break. */
  predicate EndsWithBreak(chars: seq<char>)
  {
    |chars| == 0 || IsBreak(chars[|chars| - 1])
  }

  // -------------------------------------------------------------- line key

  /** The number of line breaks among the first i characters. */
  function BreaksBefore(chars: seq<char>, i: nat): nat
    requires i <= |chars|
  {
    if i == 0 then 0
    else BreaksBefore(chars, i - 1) + (if IsBreak(chars[i - 1]) then 1 else 0)
  }

  /** Where the line holding position i starts: just after the previous break. */
  function LineStart(chars: seq<char>, i: nat): (s: nat)
    requires i <= |chars|
    ensures s <= i
  {
    if i == 0 then 0
    else if IsBreak(chars[i - 1]) then i
    else LineStart(chars, i - 1)
  }

  /** `LineLookup`: a line index per character and the text of each finished line. */
  datatype LineKey = LineKey(lnums: seq<nat>, lines: seq<string>)

  /** The key describes chars: position i is on line BreaksBefore(i), and the
      break at position i closes line lnums[i], whose text runs from the
      line's start up to (not including) the break. */
  ghost predicate Describes(key: LineKey, chars: seq<char>)
  {
    && |key.lnums| == |chars|
    && (forall i :: 0 <= i < |chars| ==> key.lnums[i] == BreaksBefore(chars, i))
    && |key.lines| == BreaksBefore(chars, |chars|)
    && (forall i :: 0 <= i < |chars| && IsBreak(chars[i]) ==>
          key.lnums[i] < |key.lines| && key.lines[key.lnums[i]] == chars[LineStart(chars, i)..i])
  }

  /** The line numbers recorded for the first i characters. */
  ghost predicate NumbersUpTo(lnums: seq<nat>, chars: seq<char>, i: nat)
    requires i <= |chars|
  {
    |lnums| == i && forall j :: 0 <= j < i ==> lnums[j] == BreaksBefore(chars, j)
  }

  /** The texts recorded for the lines closed among the first i characters. */
  ghost predicate LinesUpTo(lnums: seq<nat>, lines: seq<string>, chars: seq<char>, i: nat)
    requires i <= |chars| && |lnums| >= i
  {
    && |lines| == BreaksBefore(chars, i)
    && forall j :: 0 <= j < i && IsBreak(chars[j]) ==>
         lnums[j] < |lines| && lines[lnums[j]] == chars[LineStart(chars, j)..j]
  }

  /** The key built from the first i characters: Describes, restricted to them. */
  ghost predicate KeyUpTo(key: LineKey, chars: seq<char>, i: nat)
    requires i <= |chars|
  {
    NumbersUpTo(key.lnums, chars, i) && LinesUpTo(key.lnums, key.lines, chars, i)
  }

  lemma NumbersStep(lnums: seq<nat>, chars: seq<char>, i: nat)
    requires i < |chars| && NumbersUpTo(lnums, chars, i)
    ensures NumbersUpTo(lnums + [BreaksBefore(chars, i)], chars, i + 1)
  {
    var longer := lnums + [BreaksBefore(chars, i)];
    forall j | 0 <= j < i + 1
      ensures longer[j] == BreaksBefore(chars, j)
    {
      if j < i {
        assert longer[j] == lnums[j];
      }
    }
  }

  lemma LinesStep(lnums: seq<nat>, lines: seq<string>, chars: seq<char>, i: nat)
    requires i < |chars| && |lnums| == i && LinesUpTo(lnums, lines, chars, i)
    ensures var longer := lnums + [BreaksBefore(chars, i)];
            LinesUpTo(longer, if IsBreak(chars[i]) then lines + [chars[LineStart(chars, i)..i]] else lines, chars, i + 1)
  {
    var longer := lnums + [BreaksBefore(chars, i)];
    var after := if IsBreak(chars[i]) then lines + [chars[LineStart(chars, i)..i]] else lines;
    forall j | 0 <= j < i + 1 && IsBreak(chars[j])
      ensures longer[j] < |after| && after[longer[j]] == chars[LineStart(chars, j)..j]
    {
      if j < i {
        assert longer[j] == lnums[j];
        assert after[lnums[j]] == lines[lnums[j]];
      }
    }
  }

  /** One step of `build_line_key`: record the line of character i and, at a
      break, the text of the line it closes. */
  lemma KeyStep(key: LineKey, chars: seq<char>, i: nat)
    requires i < |chars| && KeyUpTo(key, chars, i)
    ensures var lnums := key.lnums + [BreaksBefore(chars, i)];
            var lines := if IsBreak(chars[i]) then key.lines + [chars[LineStart(chars, i)..i]] else key.lines;
            KeyUpTo(LineKey(lnums, lines), chars, i + 1)
  {
    NumbersStep(key.lnums, chars, i);
    LinesStep(key.lnums, key.lines, chars, i);
  }

  /** The key of the first i characters, one character at a time. */
  ghost function KeyPrefix(chars: seq<char>, i: nat): (key: LineKey)
    requires i <= |chars|
    ensures KeyUpTo(key, chars, i)
  {
    if i == 0 then LineKey([], [])
    else
      var before := KeyPrefix(chars, i - 1);
      KeyStep(before, chars, i - 1);
      LineKey(before.lnums + [BreaksBefore(chars, i - 1)],
              if IsBreak(chars[i - 1]) then before.lines + [chars[LineStart(chars, i - 1)..i - 1]] else before.lines)
  }

  /** The key of the whole source: it describes the source, and covers it
      when the source ends with a break. */
  ghost function KeyOf(chars: seq<char>): (key: LineKey)
    ensures Describes(key, chars)
    ensures EndsWithBreak(chars) ==> Covers(key, chars)
  {
    var key := KeyPrefix(chars, |chars|);
    if EndsWithBreak(chars) then KeyCoversSource(key, chars); key else key
  }

  /** `build_line_key`. */
  method BuildLineKey(chars: seq<char>) returns (key: LineKey)
    ensures key == KeyOf(chars) && Describes(key, chars)
  {
    key := LineKey([], []);
    var lineNum: nat := 0;
    var start: nat := 0;
    var current: nat := 0;
    for i := 0 to |chars|
      invariant current == i
      invariant lineNum == BreaksBefore(chars, i) && start == LineStart(chars, i)
      invariant key == KeyPrefix(chars, i)
    {
      KeyStep(key, chars, i);
      key := key.(lnums := key.lnums + [lineNum]);
      if IsBreak(chars[i]) {
        key := key.(lines := key.lines + [chars[start..current]]);
        start := current + 1;
        lineNum := lineNum + 1;
      }
      current := current + 1;
    }
  }

  /** Line numbers start at 0, never decrease, and rise by exactly one after each break. */
  lemma {:induction false} LineNumbersCount(chars: seq<char>, i: nat, j: nat)
    requires i <= j <= |chars|
    ensures BreaksBefore(chars, 0) == 0
    ensures BreaksBefore(chars, i) <= BreaksBefore(chars, j)
    ensures j < |chars| ==>
              BreaksBefore(chars, j + 1) == BreaksBefore(chars, j) + (if IsBreak(chars[j]) then 1 else 0)
    ensures i < j && IsBreak(chars[i]) ==> BreaksBefore(chars, i) < BreaksBefore(chars, j)
    decreases j - i
  {
    if i < j {
      LineNumbersCount(chars, i, j - 1);
    }
  }

  /** A recorded line holds no line break. */
  lemma {:induction false} LineHasNoBreak(chars: seq<char>, i: nat)
    requires i <= |chars|
    ensures forall k :: LineStart(chars, i) <= k < i ==> !IsBreak(chars[k])
  {
    if i > 0 && !IsBreak(chars[i - 1]) {
      LineHasNoBreak(chars, i - 1);
    }
  }

  /** Every position has a line number and that line has a text in the key. */
  predicate Covers(key: LineKey, chars: seq<char>)
  {
    |key.lnums| == |chars| && forall i :: 0 <= i < |chars| ==> key.lnums[i] < |key.lines|
  }

  /** On a source that ends with a break, the key built for it covers every position. */
  lemma KeyCoversSource(key: LineKey, chars: seq<char>)
    requires Describes(key, chars) && EndsWithBreak(chars)
    ensures Covers(key, chars)
  {
    forall pos | 0 <= pos < |chars|
      ensures key.lnums[pos] < |key.lines|
    {
      BeforeLastBreak(chars, pos);
    }
  }

  /** Every position of a source ending with a break lies on a line that break closes or an earlier one. */
  lemma BeforeLastBreak(chars: seq<char>, pos: nat)
    requires EndsWithBreak(chars) && pos < |chars|
    ensures BreaksBefore(chars, pos) < BreaksBefore(chars, |chars|)
  {
    LineNumbersCount(chars, pos, |chars| - 1);
    LineNumbersCount(chars, |chars| - 1, |chars| - 1);
  }

  /** `get_lnum` and `get_line`: the 1-based line number and the line's text. */
  function TokenAt(value: TokenValue, pos: nat, key: LineKey): (t: Token)
    requires pos < |key.lnums| && key.lnums[pos] < |key.lines|
    ensures t.lnum >= 1
  {
    Token(value, key.lnums[pos] + 1, key.lines[key.lnums[pos]])
  }

  // -------------------------------------------------------------- scanning

  /** The first position at or after i that is not whitespace, or |chars| if
      the rest is whitespace (the scanner then reports EOF). */
  function SkipSpace(chars: seq<char>, i: nat): (j: nat)
    requires i < |chars|
    ensures i <= j <= |chars|
    ensures j < |chars| ==> !IsWhitespace(chars[j])
    ensures forall k :: i <= k < j ==> IsWhitespace(chars[k])
    decreases |chars| - i
  {
    if !IsWhitespace(chars[i]) then i
    else if i == |chars| - 1 then |chars|
    else SkipSpace(chars, i + 1)
  }

  /** Where a comment that starts with '#' at position j stops: at the next
      line break, or at the last character. */
  function CommentEnd(chars: seq<char>, k: nat): (e: nat)
    requires k < |chars|
    ensures k <= e < |chars|
    ensures e == |chars| - 1 || IsBreak(chars[e])
    decreases |chars| - k
  {
    if k < |chars| - 1 && !IsBreak(chars[k]) then CommentEnd(chars, k + 1) else k
  }

  /** Where a word starting at position k ends: before the first whitespace
      or reserved character, but never past the last character. */
  function WordEnd(chars: seq<char>, k: nat): (e: nat)
    requires k < |chars|
    ensures k <= e < |chars|
    ensures forall m :: k <= m < e ==> !IsWhitespace(chars[m]) && !IsReserved(chars[m])
    decreases |chars| - k
  {
    if k < |chars| - 1 && !IsWhitespace(chars[k]) && !IsReserved(chars[k]) then WordEnd(chars, k + 1)
    else k
  }

  /** Where the closing '"' of a string is looked for from position k: the
      next '"', or the last character. */
  function QuoteEnd(chars: seq<char>, k: nat): (e: nat)
    requires k < |chars|
    ensures k <= e < |chars|
    ensures forall m :: k <= m < e ==> chars[m] != '"'
    ensures e < |chars| - 1 ==> chars[e] == '"'
    decreases |chars| - k
  {
    if k < |chars| - 1 && chars[k] != '"' then QuoteEnd(chars, k + 1) else k
  }

  /** Where the next token starts once whitespace and comments are skipped
      (|chars| when only whitespace and comments remain). */
  function TokenStart(chars: seq<char>, i: nat): (t: nat)
    requires i < |chars| && EndsWithBreak(chars)
    ensures i <= t <= |chars|
    ensures t < |chars| ==> !IsWhitespace(chars[t]) && chars[t] != '#'
    decreases |chars| - i
  {
    var j := SkipSpace(chars, i);
    if j == |chars| then |chars|
    else if chars[j] == '#' then TokenStart(chars, CommentEnd(chars, j + 1))
    else j
  }

  /** Word classification: the two booleans, then a 64-bit integer, then a
      float, and otherwise an identifier. */
  function Classify(word: string, parseFloat: string -> Option<F64>): TokenValue
  {
    if word == "true" then TrueTok
    else if word == "false" then FalseTok
    else match Primitives.ParseI64(word)
      case Some(n) => IntTok(n)
      case None =>
        (match parseFloat(word)
         case Some(f) => FloatTok(f)
         case None => Id(word))
  }

  /** The token that `next_token` reads at position t, where the token
      starts, and the position after it; None for an unterminated string. */
  function TokenOf(chars: seq<char>, t: nat, parseFloat: string -> Option<F64>): Option<(TokenValue, nat)>
    requires t < |chars| - 1
  {
    var c := chars[t];
    if c == ':' then Some((Colon, t + 1))
    else if c == ';' then Some((Semicolon, t + 1))
    else if c == '[' then Some((OpenBracket, t + 1))
    else if c == ']' then Some((CloseBracket, t + 1))
    else if c == '"' then
      var e := QuoteEnd(chars, t + 1);
      if chars[e] != '"' then None else Some((StrTok(chars[t + 1..e]), e + 1))
    else
      var e := WordEnd(chars, t);
      Some((Classify(chars[t..e], parseFloat), e))
  }

  /** The result of `next_token` at position start: the token with the line
      number and line text of the position after it, EOF when only whitespace
      and comments remain, and a parse error for an unterminated string. */
  ghost function NextTokenSpec(chars: seq<char>, start: nat, key: LineKey, parseFloat: string -> Option<F64>)
    : (r: Result<(Token, nat)>)
    requires EndsWithBreak(chars) && Covers(key, chars) && start < |chars|
    ensures r.Ok? ==> start < r.value.1 <= |chars|
  {
    var t := TokenStart(chars, start);
    if t == |chars| then Ok((Token(EOF, -1, ""), |chars|))
    else ReadSpec(chars, t, key, parseFloat)
  }

  ghost function ReadSpec(chars: seq<char>, t: nat, key: LineKey, parseFloat: string -> Option<F64>)
    : (r: Result<(Token, nat)>)
    requires EndsWithBreak(chars) && Covers(key, chars) && t < |chars| - 1
    requires !IsWhitespace(chars[t]) && chars[t] != '#'
    ensures r.Ok? ==> t < r.value.1 < |chars|
  {
    match TokenOf(chars, t, parseFloat)
    case None => Fail(-1, "EOF", "unterminated string in source: " + chars[t + 1..QuoteEnd(chars, t + 1)])
    case Some((value, pos)) =>
      Ok((TokenAt(value, pos, key), pos))
  }

  /** The string loop of `next_token`: from the opening '"' at t to the
      next '"', giving up at the last character. */
  method ScanString(chars: seq<char>, t: nat) returns (index: nat)
    requires t < |chars| - 1
    ensures index == QuoteEnd(chars, t + 1)
  {
    index := t + 1;
    var c := chars[index];
    while index < |chars| - 1 && c != '"'
      invariant t < index < |chars| && c == chars[index]
      invariant QuoteEnd(chars, t + 1) == QuoteEnd(chars, index)
      decreases |chars| - index
    {
      index := index + 1;
      c := chars[index];
    }
  }

  /** The word loop of `next_token`: up to the first whitespace or reserved
      character, stopping at the last character. */
  method ScanWord(chars: seq<char>, t: nat) returns (index: nat)
    requires t < |chars|
    ensures index == WordEnd(chars, t)
  {
    index := t;
    var c := chars[index];
    while index < |chars| - 1 && !IsWhitespace(c) && !IsReserved(c)
      invariant t <= index < |chars| && c == chars[index]
      invariant WordEnd(chars, t) == WordEnd(chars, index)
      decreases |chars| - index
    {
      index := index + 1;
      c := chars[index];
    }
  }

  /** The value of the token that starts at position t and the position
      after it, read as `next_token` reads them. */
  method ScanToken(chars: seq<char>, t: nat, parseFloat: string -> Option<F64>)
    returns (r: Option<(TokenValue, nat)>)
    requires EndsWithBreak(chars) && t < |chars| - 1
    requires !IsWhitespace(chars[t]) && chars[t] != '#'
    ensures r == TokenOf(chars, t, parseFloat)
    ensures r.Some? ==> t < r.value.1 < |chars|
  {
    var c := chars[t];
    if c == ':' {
      r := Some((Colon, t + 1));
    } else if c == ';' {
      r := Some((Semicolon, t + 1));
    } else if c == '[' {
      r := Some((OpenBracket, t + 1));
    } else if c == ']' {
      r := Some((CloseBracket, t + 1));
    } else if c == '"' {
      var index := ScanString(chars, t);
      if chars[index] != '"' {
        r := None;
      } else {
        r := Some((StrTok(chars[t + 1..index]), index + 1));
      }
    } else {
      var index := ScanWord(chars, t);
      r := Some((Classify(chars[t..index], parseFloat), index));
    }
  }

  /** The token that starts at position t, with its line number and line
      text; an unterminated string is a parse error. */
  method ReadToken(chars: seq<char>, t: nat, key: LineKey, parseFloat: string -> Option<F64>)
    returns (r: Result<(Token, nat)>)
    requires EndsWithBreak(chars) && Covers(key, chars) && t < |chars| - 1
    requires !IsWhitespace(chars[t]) && chars[t] != '#'
    ensures r == ReadSpec(chars, t, key, parseFloat)
  {
    var scanned := ScanToken(chars, t, parseFloat);
    if scanned.None? {
      var index := QuoteEnd(chars, t + 1);
      return Fail(-1, "EOF", "unterminated string in source: " + chars[t + 1..index]);
    }
    var (value, pos) := scanned.value;
    r := Ok((TokenAt(value, pos, key), pos));
  }

  /** The whitespace loop of `next_token`: the first non-whitespace
      position, or |chars| when the rest of the source is whitespace. */
  method SkipWhitespace(chars: seq<char>, start: nat) returns (index: nat)
    requires start < |chars|
    ensures index == SkipSpace(chars, start)
  {
    index := start;
    var c := chars[index];
    while IsWhitespace(c)
      invariant start <= index < |chars| && c == chars[index]
      invariant SkipSpace(chars, start) == SkipSpace(chars, index)
      decreases |chars| - index
    {
      if index == |chars| - 1 {
        return index + 1;
      }
      index := index + 1;
      c := chars[index];
    }
  }

  /** The comment loop of `next_token`: from the '#' at position from to
      the end of its line. */
  method SkipComment(chars: seq<char>, from: nat) returns (index: nat)
    requires from < |chars| - 1
    ensures index == CommentEnd(chars, from + 1)
  {
    index := from + 1;
    var c := chars[index];
    while index < |chars| - 1 && !IsBreak(c)
      invariant from < index < |chars| && c == chars[index]
      invariant CommentEnd(chars, from + 1) == CommentEnd(chars, index)
      decreases |chars| - index
    {
      index := index + 1;
      c := chars[index];
    }
  }

  /** `next_token`: skips whitespace and comments, then reads one token. */
  method NextToken(chars: seq<char>, start: nat, key: LineKey, parseFloat: string -> Option<F64>)
    returns (r: Result<(Token, nat)>)
    requires EndsWithBreak(chars) && Covers(key, chars) && start < |chars|
    ensures r == NextTokenSpec(chars, start, key, parseFloat)
    decreases |chars| - start
  {
    var index := SkipWhitespace(chars, start);
    if index == |chars| {
      SpecAtEnd(chars, start, key, parseFloat);
      return Ok((Token(EOF, -1, ""), index));
    }
    if chars[index] == '#' {
      SpecAfterComment(chars, start, key, parseFloat);
      var stop := SkipComment(chars, index);
      r := NextToken(chars, stop, key, parseFloat);
      return;
    }
    SpecAtToken(chars, start, key, parseFloat);
    r := ReadToken(chars, index, key, parseFloat);
  }

  /** Only whitespace remains: the end-of-file token. */
  lemma SpecAtEnd(chars: seq<char>, start: nat, key: LineKey, parseFloat: string -> Option<F64>)
    requires EndsWithBreak(chars) && Covers(key, chars) && start < |chars|
    requires SkipSpace(chars, start) == |chars|
    ensures NextTokenSpec(chars, start, key, parseFloat) == Ok((Token(EOF, -1, ""), |chars|))
  {
  }

  /** A comment is skipped up to its line break, and scanning resumes there. */
  lemma SpecAfterComment(chars: seq<char>, start: nat, key: LineKey, parseFloat: string -> Option<F64>)
    requires EndsWithBreak(chars) && Covers(key, chars) && start < |chars|
    requires SkipSpace(chars, start) < |chars| && chars[SkipSpace(chars, start)] == '#'
    ensures var j := SkipSpace(chars, start);
            && j < |chars| - 1 && start < CommentEnd(chars, j + 1) < |chars|
            && NextTokenSpec(chars, start, key, parseFloat)
               == NextTokenSpec(chars, CommentEnd(chars, j + 1), key, parseFloat)
  {
  }

  /** Any other character begins the token that is read. */
  lemma SpecAtToken(chars: seq<char>, start: nat, key: LineKey, parseFloat: string -> Option<F64>)
    requires EndsWithBreak(chars) && Covers(key, chars) && start < |chars|
    requires SkipSpace(chars, start) < |chars| && chars[SkipSpace(chars, start)] != '#'
    ensures var j := SkipSpace(chars, start);
            && j < |chars| - 1 && !IsWhitespace(chars[j])
            && NextTokenSpec(chars, start, key, parseFloat) == ReadSpec(chars, j, key, parseFloat)
  {
  }

  /** The tokens `tokenize` collects from position i on: `next_token`
      repeatedly, up to the end of the source, stopping at the first error. */
  ghost function TokensFrom(chars: seq<char>, i: nat, key: LineKey, parseFloat: string -> Option<F64>)
    : Result<seq<Token>>
    requires EndsWithBreak(chars) && Covers(key, chars) && i <= |chars|
    decreases |chars| - i
  {
    if i == |chars| then Ok([])
    else match NextTokenSpec(chars, i, key, parseFloat)
      case Fail(lnum, line, msg) => Fail(lnum, line, msg)
      case Ok((token, j)) => PrependTokens([token], TokensFrom(chars, j, key, parseFloat))
  }

  /** ts in front of the tokens of r, or r's error. */
  function PrependTokens(ts: seq<Token>, r: Result<seq<Token>>): (p: Result<seq<Token>>)
    ensures p.Fail? <==> r.Fail?
    ensures p.Fail? ==> p == r
    ensures p.Ok? ==> |p.value| == |ts| + |r.value| && p.value[..|ts|] == ts && p.value[|ts|..] == r.value
  {
    if r.Ok? then Ok(ts + r.value) else r
  }

  lemma PrependTokensTwice(ts: seq<Token>, t: Token, r: Result<seq<Token>>)
    ensures PrependTokens(ts, PrependTokens([t], r)) == PrependTokens(ts + [t], r)
  {
    if r.Ok? {
      assert ts + ([t] + r.value) == ts + [t] + r.value;
    }
  }

  /** `tokenize`: the tokens of the whole source, read with the key of the source. */
  method Tokenize(chars: seq<char>, parseFloat: string -> Option<F64>) returns (r: Result<seq<Token>>)
    requires EndsWithBreak(chars)
    ensures r == TokensFrom(chars, 0, KeyOf(chars), parseFloat)
    ensures r.Ok? ==> |r.value| <= |chars|
    ensures r.Ok? ==> forall i :: 0 <= i < |r.value| - 1 ==> r.value[i].value != EOF
    ensures r.Ok? ==> forall i :: 0 <= i < |r.value| ==> r.value[i].value == EOF || r.value[i].lnum >= 1
    ensures r.Ok? && |chars| > 0 ==> |r.value| > 0 && r.value[|r.value| - 1].value == EOF
  {
    var key := BuildLineKey(chars);
    KeyCoversSource(key, chars);
    var tokens: seq<Token> := [];
    var index := 0;
    while index < |chars|
      invariant 0 <= index <= |chars|
      invariant TokensFrom(chars, 0, key, parseFloat) == PrependTokens(tokens, TokensFrom(chars, index, key, parseFloat))
      decreases |chars| - index
    {
      var next := NextToken(chars, index, key, parseFloat);
      if next.Fail? {
        TokensShape(chars, 0, key, parseFloat);
        return Fail(next.lnum, next.line, next.msg);
      }
      var (token, change) := next.value;
      PrependTokensTwice(tokens, token, TokensFrom(chars, change, key, parseFloat));
      index := change;
      tokens := tokens + [token];
    }
    assert tokens + [] == tokens;
    TokensShape(chars, 0, key, parseFloat);
    return Ok(tokens);
  }

  /** What `tokenize` collects from position i: at most one token per
      character, EOF only as the last token and always there when i is
      inside the source, and every other token on a line numbered from 1. */
  lemma {:induction false} TokensShape(chars: seq<char>, i: nat, key: LineKey, parseFloat: string -> Option<F64>)
    requires EndsWithBreak(chars) && Covers(key, chars) && i <= |chars|
    ensures var r := TokensFrom(chars, i, key, parseFloat);
            && (r.Ok? ==> |r.value| <= |chars| - i)
            && (r.Ok? ==> forall k :: 0 <= k < |r.value| - 1 ==> r.value[k].value != EOF)
            && (r.Ok? ==> forall k :: 0 <= k < |r.value| ==> r.value[k].value == EOF || r.value[k].lnum >= 1)
            && (r.Ok? && i < |chars| ==> |r.value| > 0 && r.value[|r.value| - 1].value == EOF)
    decreases |chars| - i
  {
    if i < |chars| {
      var next := NextTokenSpec(chars, i, key, parseFloat);
      if next.Ok? {
        var (token, j) := next.value;
        TokensShape(chars, j, key, parseFloat);
        NextTokenKinds(chars, i, key, parseFloat);
        var rest := TokensFrom(chars, j, key, parseFloat);
        if rest.Ok? {
          var ts := [token] + rest.value;
          forall k | 0 <= k < |ts| ensures ts[k].value == EOF || ts[k].lnum >= 1 {
            if k > 0 { assert ts[k] == rest.value[k - 1]; }
          }
          forall k | 0 <= k < |ts| - 1 ensures ts[k].value != EOF {
            if k > 0 { assert ts[k] == rest.value[k - 1]; }
          }
        }
      }
    }
  }

  /** `next_token` answers EOF exactly at the end of the source, and any
      other token on a line numbered from 1. */
  lemma NextTokenKinds(chars: seq<char>, start: nat, key: LineKey, parseFloat: string -> Option<F64>)
    requires EndsWithBreak(chars) && Covers(key, chars) && start < |chars|
    ensures var r := NextTokenSpec(chars, start, key, parseFloat);
            r.Ok? ==> (r.value.0.value == EOF <==> r.value.1 == |chars|) && (r.value.0.value != EOF ==> r.value.0.lnum >= 1)
  {
  }

  // ------------------------------------------------------------ properties

  /** Each of `:`, `;`, `[`, `]` is a one-character token. */
  lemma PunctuationToken(chars: seq<char>, start: nat, key: LineKey, parseFloat: string -> Option<F64>)
    requires EndsWithBreak(chars) && Covers(key, chars) && start < |chars|
    requires TokenStart(chars, start) < |chars|
    requires var c := chars[TokenStart(chars, start)]; c == ':' || c == ';' || c == '[' || c == ']'
    ensures var t := TokenStart(chars, start);
            var r := NextTokenSpec(chars, start, key, parseFloat);
            && r.Ok? && r.value.1 == t + 1
            && r.value.0.value == (match chars[t]
                                   case ':' => Colon case ';' => Semicolon
                                   case '[' => OpenBracket case _ => CloseBracket)
  {
  }

  /** A word token runs up to the first whitespace or reserved character, is
      classified by Classify, and holds no whitespace and no reserved character. */
  lemma WordToken(chars: seq<char>, start: nat, key: LineKey, parseFloat: string -> Option<F64>)
    requires EndsWithBreak(chars) && Covers(key, chars) && start < |chars|
    requires TokenStart(chars, start) < |chars| && !IsReserved(chars[TokenStart(chars, start)])
    ensures var t := TokenStart(chars, start);
            var r := NextTokenSpec(chars, start, key, parseFloat);
            && r.Ok? && t < r.value.1 < |chars|
            && r.value.0.value == Classify(chars[t..r.value.1], parseFloat)
            && (IsWhitespace(chars[r.value.1]) || IsReserved(chars[r.value.1]))
            && forall k :: t <= k < r.value.1 ==> !IsWhitespace(chars[k]) && !IsReserved(chars[k])
  {
    var t := TokenStart(chars, start);
    var e := WordEnd(chars, t);
    assert e > t;
    assert IsWhitespace(chars[e]) || IsReserved(chars[e]) by { WordStops(chars, t); }
  }

  lemma {:induction false} WordStops(chars: seq<char>, k: nat)
    requires EndsWithBreak(chars) && k < |chars|
    ensures IsWhitespace(chars[WordEnd(chars, k)]) || IsReserved(chars[WordEnd(chars, k)])
    decreases |chars| - k
  {
    if k < |chars| - 1 && !IsWhitespace(chars[k]) && !IsReserved(chars[k]) {
      WordStops(chars, k + 1);
    }
  }

  /** A string token holds exactly the characters between its quotes, with
      no escapes; with no closing quote the scan is a parse error. */
  lemma StringToken(chars: seq<char>, start: nat, key: LineKey, parseFloat: string -> Option<F64>)
    requires EndsWithBreak(chars) && Covers(key, chars) && start < |chars|
    requires TokenStart(chars, start) < |chars| && chars[TokenStart(chars, start)] == '"'
    ensures var t := TokenStart(chars, start);
            var r := NextTokenSpec(chars, start, key, parseFloat);
            && (r.Fail? <==> forall k :: t < k < |chars| ==> chars[k] != '"')
            && (r.Ok? ==> var e := r.value.1 - 1;
                  && t < e && chars[e] == '"' && r.value.0.value == StrTok(chars[t + 1..e])
                  && forall k :: t < k < e ==> chars[k] != '"')
  {
    var t := TokenStart(chars, start);
    assert t < |chars| - 1;
    var e := QuoteEnd(chars, t + 1);
    assert TokenOf(chars, t, parseFloat) ==
           if chars[e] != '"' then None else Some((StrTok(chars[t + 1..e]), e + 1));
    var r := NextTokenSpec(chars, start, key, parseFloat);
    assert r == ReadSpec(chars, t, key, parseFloat);
    if chars[e] != '"' {
      assert e == |chars| - 1;
      assert r.Fail?;
    } else {
      assert e < |chars| - 1;
      assert r.Ok? && r.value.1 == e + 1 && r.value.0.value == StrTok(chars[t + 1..e]);
    }
  }

  /** `#` comments out the rest of its line: the scanner continues after it. */
  lemma CommentSkipped(chars: seq<char>, start: nat, key: LineKey, parseFloat: string -> Option<F64>)
    requires EndsWithBreak(chars) && Covers(key, chars) && start < |chars|
    requires chars[start] == '#'
    ensures start < |chars| - 1
    ensures var e := CommentEnd(chars, start + 1);
            && IsBreak(chars[e]) && (forall k :: start < k < e ==> !IsBreak(chars[k]))
            && NextTokenSpec(chars, start, key, parseFloat) == NextTokenSpec(chars, e, key, parseFloat)
  {
    assert start < |chars| - 1;
    var e := CommentEnd(chars, start + 1);
    assert IsBreak(chars[e]);
    CommentStops(chars, start + 1);
    assert TokenStart(chars, start) == TokenStart(chars, e) by {
      assert SkipSpace(chars, start) == start;
    }
  }

  lemma {:induction false} CommentStops(chars: seq<char>, k: nat)
    requires k < |chars|
    ensures forall m :: k <= m < CommentEnd(chars, k) ==> !IsBreak(chars[m])
    decreases |chars| - k
  {
    if k < |chars| - 1 && !IsBreak(chars[k]) {
      CommentStops(chars, k + 1);
    }
  }

  /** When only whitespace is left, the scanner reports EOF with line -1 and
      moves to the end of the source. */
  lemma TrailingWhitespaceIsEOF(chars: seq<char>, start: nat, key: LineKey, parseFloat: string -> Option<F64>)
    requires EndsWithBreak(chars) && Covers(key, chars) && start < |chars|
    requires forall k :: start <= k < |chars| ==> IsWhitespace(chars[k])
    ensures NextTokenSpec(chars, start, key, parseFloat) == Ok((Token(EOF, -1, ""), |chars|))
  {
    assert SkipSpace(chars, start) == |chars| by { AllSpace(chars, start); }
  }

  lemma {:induction false} AllSpace(chars: seq<char>, i: nat)
    requires i < |chars| && forall k :: i <= k < |chars| ==> IsWhitespace(chars[k])
    ensures SkipSpace(chars, i) == |chars|
    decreases |chars| - i
  {
    if i < |chars| - 1 {
      AllSpace(chars, i + 1);
    }
  }

  /** Classification order: `true` and `false` first, then integers, then
      floats; an identifier is a word that is none of these. */
  lemma ClassificationOrder(word: string, parseFloat: string -> Option<F64>)
    ensures Classify(word, parseFloat).IntTok? <==>
              word != "true" && word != "false" && Primitives.ParseI64(word).Some?
    ensures Classify(word, parseFloat).FloatTok? <==>
              word != "true" && word != "false" && Primitives.ParseI64(word).None? && parseFloat(word).Some?
    ensures Classify(word, parseFloat) == Id(word) <==>
              word != "true" && word != "false" && Primitives.ParseI64(word).None? && parseFloat(word).None?
  {
  }

  /** A word scan that starts at the last character stops at once: without
      a final line break the word read there is empty. */
  lemma WordAtLastCharacterMakesNoProgress(chars: seq<char>)
    requires |chars| > 0
    ensures WordEnd(chars, |chars| - 1) == |chars| - 1
  {
  }

  /** Without a final line break, no line text is recorded for the last
      line: every position on it has the line index |lines|, one past the
      table `get_line` reads, so a token ending there has no line. */
  lemma UnterminatedLineHasNoText(chars: seq<char>)
    requires !EndsWithBreak(chars)
    ensures LineStart(chars, |chars|) < |chars|
    ensures forall pos :: LineStart(chars, |chars|) <= pos < |chars| ==>
              KeyOf(chars).lnums[pos] == |KeyOf(chars).lines|
  {
    var n := |chars|;
    LineHasNoBreak(chars, n);
    forall pos | LineStart(chars, n) <= pos < n
      ensures BreaksBefore(chars, pos) == BreaksBefore(chars, n)
    {
      NoBreaksBetween(chars, pos, n);
    }
  }

  /** A stretch without breaks adds nothing to the break count. */
  lemma {:induction false} NoBreaksBetween(chars: seq<char>, i: nat, j: nat)
    requires i <= j <= |chars|
    requires forall k :: i <= k < j ==> !IsBreak(chars[k])
    ensures BreaksBefore(chars, i) == BreaksBefore(chars, j)
    decreases j - i
  {
    if i < j {
      NoBreaksBetween(chars, i, j - 1);
    }
  }
}
