/** The recursive-descent parser from tokens to the syntax tree.

    Every production takes a start index and answers the node it read (if
    any) and the index after it; `parse_error`, which prints and exits, is a
    `Fail` result here.  The functions below state the grammar production by
    production; the methods are the parser's own loops, each proved to compute
    its production. */
module Parser {
  import opened Encoding

  const EndOfInput := "unexpected end of file; statement unterminated"
  const ExpectedItem := "expression or close bracket expected"
  const ExpectedDefinition := "expected function definition after colon, didn't get one"
  const ExpectedSemicolon := "semicolon expected after expression"
  const Unexpected := "syntax error, unexpected token"

  /** The token kinds at which `parse_next_expression` reads an expression. */
  predicate StartsExpression(v: TokenValue)
  {
    v.TrueTok? || v.FalseTok? || v.IntTok? || v.FloatTok? || v.StrTok?
    || v.OpenBracket? || v.Id? || v.Colon?
  }

  /** `get_token`: the token at `start`, or the end-of-input error. */
  function TokenAt(tokens: seq<Token>, start: int): (r: Result<Token>)
    requires 0 <= start
    ensures r.Ok? <==> start < |tokens|
    ensures r.Ok? ==> r.value == tokens[start]
    ensures r.Fail? ==> r.lnum == -1 && r.line == "EOF" && r.msg == EndOfInput
  {
    if start >= |tokens| then Fail(-1, "EOF", EndOfInput) else Ok(tokens[start])
  }

  // ------------------------------------------------------------ productions

  /** `parse_definition`: `: block` (anonymous) or `id : block`.  Anything else
      is no definition, answered with index 0. */
  function DefinitionAt(tokens: seq<Token>, start: int): (r: Result<(Option<Expression>, int)>)
    requires 0 <= start <= |tokens|
    ensures r.Ok? && r.value.0.Some? ==>
              r.value.0.value.Definition? && start + 1 < r.value.1 <= |tokens|
              && !StartsExpression(tokens[r.value.1 - 1].value)
    ensures r.Ok? && r.value.0.None? ==> r.value.1 == 0
    decreases |tokens| - start, 1
  {
    var t := TokenAt(tokens, start);
    if t.Fail? then Fail(t.lnum, t.line, t.msg)
    else match t.value.value
      case Colon =>
        var b := BlockRest(tokens, start + 1, []);
        if b.Fail? then Fail(b.lnum, b.line, b.msg)
        else Ok((Some(Definition("", b.value.0)), b.value.1))
      case Id(id) =>
        var u := TokenAt(tokens, start + 1);
        if u.Fail? then Fail(u.lnum, u.line, u.msg)
        else if u.value.value.Colon? then
          var b := BlockRest(tokens, start + 2, []);
          if b.Fail? then Fail(b.lnum, b.line, b.msg)
          else Ok((Some(Definition(id, b.value.0)), b.value.1))
        else Ok((None, 0))
      case _ => Ok((None, 0))
  }

  /** `parse_call`: an id, with the bracketed list after it as its arguments
      when one follows. */
  function CallAt(tokens: seq<Token>, start: int): (r: Result<(Expression, int)>)
    requires 0 <= start < |tokens| && tokens[start].value.Id?
    ensures r.Ok? ==> r.value.0.Call? && r.value.0.id == tokens[start].value.name
    ensures r.Ok? ==> start < r.value.1 <= |tokens|
    decreases |tokens| - start, 1
  {
    var id := tokens[start].value.name;
    var u := TokenAt(tokens, start + 1);
    if u.Fail? then Fail(u.lnum, u.line, u.msg)
    else if u.value.value.OpenBracket? then
      var l := ListAt(tokens, start + 1);
      if l.Fail? then Fail(l.lnum, l.line, l.msg)
      else Ok((Call(id, l.value.0), l.value.1))
    else Ok((Call(id, []), start + 1))
  }

  /** `parse_list`: the items after the token at `start`, up to the closing
      bracket, and the index one past that bracket. */
  function ListAt(tokens: seq<Token>, start: int): (r: Result<(seq<Expression>, int)>)
    requires 0 <= start < |tokens|
    ensures r.Ok? ==> start + 1 < r.value.1 <= |tokens|
                      && tokens[r.value.1 - 1].value == CloseBracket
    decreases |tokens| - start, 1
  {
    ListRest(tokens, start + 1, [])
  }

  /** The loop of `parse_list` from `index`, with `items` read so far. */
  function ListRest(tokens: seq<Token>, index: int, items: seq<Expression>)
    : (r: Result<(seq<Expression>, int)>)
    requires 0 <= index <= |tokens|
    ensures r.Ok? ==> index < r.value.1 <= |tokens|
                      && tokens[r.value.1 - 1].value == CloseBracket
    ensures r.Ok? ==> |items| <= |r.value.0| && r.value.0[..|items|] == items
    decreases |tokens| - index, 3
  {
    var t := TokenAt(tokens, index);
    if t.Fail? then Fail(t.lnum, t.line, t.msg)
    else if t.value.value.CloseBracket? then Ok((items, index + 1))
    else
      var n := NextAt(tokens, index);
      if n.Fail? then Fail(n.lnum, n.line, n.msg)
      else if n.value.0.None? then Fail(t.value.lnum, t.value.line, ExpectedItem)
      else
        var r := ListRest(tokens, n.value.1, items + [n.value.0.value]);
        assert r.Ok? ==> (items + [n.value.0.value])[..|items|] == items;
        r
  }

  /** `parse_next_expression`: a literal, a list, a definition or a call;
      `None` with index 0 at a token that starts no expression.  A definition
      answers the index of its block's terminating token, which the enclosing
      production reads again. */
  function NextAt(tokens: seq<Token>, start: int): (r: Result<(Option<Expression>, int)>)
    requires 0 <= start <= |tokens|
    ensures r.Ok? && r.value.0.Some? ==> start < r.value.1 <= |tokens|
    ensures r.Ok? && r.value.0.None? ==>
              r.value.1 == 0 && start < |tokens| && !StartsExpression(tokens[start].value)
    decreases |tokens| - start, 2
  {
    var t := TokenAt(tokens, start);
    if t.Fail? then Fail(t.lnum, t.line, t.msg)
    else match t.value.value
      case TrueTok => Ok((Some(TrueLit), start + 1))
      case FalseTok => Ok((Some(FalseLit), start + 1))
      case IntTok(x) => Ok((Some(IntLit(x)), start + 1))
      case FloatTok(x) => Ok((Some(FloatLit(x)), start + 1))
      case StrTok(s) => Ok((Some(StrLit(s)), start + 1))
      case OpenBracket =>
        var l := ListAt(tokens, start);
        if l.Fail? then Fail(l.lnum, l.line, l.msg)
        else Ok((Some(ListLit(l.value.0)), l.value.1))
      case Id(_) =>
        var d := DefinitionAt(tokens, start);
        if d.Fail? then Fail(d.lnum, d.line, d.msg)
        else if d.value.0.Some? then Ok((d.value.0, d.value.1 - 1))
        else
          var c := CallAt(tokens, start);
          if c.Fail? then Fail(c.lnum, c.line, c.msg)
          else Ok((Some(c.value.0), c.value.1))
      case Colon =>
        var d := DefinitionAt(tokens, start);
        if d.Fail? then Fail(d.lnum, d.line, d.msg)
        else if d.value.0.Some? then Ok((d.value.0, d.value.1 - 1))
        else Fail(t.value.lnum, t.value.line, ExpectedDefinition)
      case _ => Ok((None, 0))
  }

  /** The loop of `parse_block` from `index`, with `exprs` read so far: each
      expression must be followed by a semicolon, and the block ends at (and
      consumes) the first token that starts no expression. */
  function BlockRest(tokens: seq<Token>, index: int, exprs: seq<Expression>)
    : (r: Result<(Block, int)>)
    requires 0 <= index <= |tokens|
    ensures r.Ok? ==> index < r.value.1 <= |tokens|
                      && !StartsExpression(tokens[r.value.1 - 1].value)
    ensures r.Ok? ==> |exprs| <= |r.value.0.expressions|
                      && r.value.0.expressions[..|exprs|] == exprs
    decreases |tokens| - index, 3
  {
    var n := NextAt(tokens, index);
    if n.Fail? then Fail(n.lnum, n.line, n.msg)
    else if n.value.0.None? then Ok((Block(exprs), index + 1))
    else
      var c := TokenAt(tokens, n.value.1);
      if c.Fail? then Fail(c.lnum, c.line, c.msg)
      else if !c.value.value.Semicolon? then Fail(c.value.lnum, c.value.line, ExpectedSemicolon)
      else
        var r := BlockRest(tokens, n.value.1 + 1, exprs + [n.value.0.value]);
        assert r.Ok? ==> (exprs + [n.value.0.value])[..|exprs|] == exprs;
        r
  }

  /** `parse`: the top-level block, which must reach the end of the tokens. */
  function ParseTokens(tokens: seq<Token>): (r: Result<Block>)
    ensures r.Ok? ==> |tokens| > 0 && !StartsExpression(tokens[|tokens| - 1].value)
  {
    var b := BlockRest(tokens, 0, []);
    if b.Fail? then Fail(b.lnum, b.line, b.msg)
    else if b.value.1 < |tokens| then
      Fail(tokens[b.value.1].lnum, tokens[b.value.1].line, Unexpected)
    else Ok(b.value.0)
  }

  // ---------------------------------------------------------------- methods

  /* The parser of the source is a set of mutually recursive functions two
     of which, `parse_list` and `parse_block`, loop over their tokens; those
     two are methods below, proved equal to ListAt and BlockRest.  Since a
     method can only be called by methods, ParseDefinition, ParseCall and
     ParseNextExpression, which call them and are called by them, are methods
     too: each mirrors DefinitionAt, CallAt or NextAt branch for branch and
     is proved equal to it. */

  method ParseDefinition(tokens: seq<Token>, start: int) returns (r: Result<(Option<Expression>, int)>)
    requires 0 <= start <= |tokens|
    ensures r == DefinitionAt(tokens, start)
    decreases |tokens| - start, 1
  {
    var t := TokenAt(tokens, start);
    if t.Fail? {
      return Fail(t.lnum, t.line, t.msg);
    }
    match t.value.value {
      case Colon =>
        var b := ParseBlock(tokens, start + 1);
        if b.Fail? {
          return Fail(b.lnum, b.line, b.msg);
        }
        return Ok((Some(Definition("", b.value.0)), b.value.1));
      case Id(id) =>
        var index := start + 1;
        var u := TokenAt(tokens, index);
        if u.Fail? {
          return Fail(u.lnum, u.line, u.msg);
        }
        if u.value.value.Colon? {
          index := index + 1;
          var b := ParseBlock(tokens, index);
          if b.Fail? {
            return Fail(b.lnum, b.line, b.msg);
          }
          return Ok((Some(Definition(id, b.value.0)), b.value.1));
        }
        return Ok((None, 0));
      case _ =>
        return Ok((None, 0));
    }
  }

  method ParseCall(tokens: seq<Token>, start: int) returns (r: Result<(Expression, int)>)
    requires 0 <= start < |tokens| && tokens[start].value.Id?
    ensures r == CallAt(tokens, start)
    decreases |tokens| - start, 1
  {
    var id := tokens[start].value.name;
    var args: seq<Expression> := [];
    var index := start + 1;
    var u := TokenAt(tokens, index);
    if u.Fail? {
      return Fail(u.lnum, u.line, u.msg);
    }
    if u.value.value.OpenBracket? {
      var l := ParseList(tokens, index);
      if l.Fail? {
        return Fail(l.lnum, l.line, l.msg);
      }
      args, index := l.value.0, l.value.1;
    }
    return Ok((Call(id, args), index));
  }

  method ParseList(tokens: seq<Token>, start: int) returns (r: Result<(seq<Expression>, int)>)
    requires 0 <= start < |tokens|
    ensures r == ListAt(tokens, start)
    decreases |tokens| - start, 1
  {
    var index := start + 1;
    var items: seq<Expression> := [];
    while true
      invariant start < index <= |tokens|
      invariant ListRest(tokens, index, items) == ListAt(tokens, start)
      decreases |tokens| - index
    {
      var t := TokenAt(tokens, index);
      if t.Fail? {
        return Fail(t.lnum, t.line, t.msg);
      }
      if t.value.value.CloseBracket? {
        break;
      }
      var n := ParseNextExpression(tokens, index);
      if n.Fail? {
        return Fail(n.lnum, n.line, n.msg);
      }
      if n.value.0.None? {
        return Fail(t.value.lnum, t.value.line, ExpectedItem);
      }
      index := n.value.1;
      items := items + [n.value.0.value];
    }
    return Ok((items, index + 1));
  }

  method ParseNextExpression(tokens: seq<Token>, start: int) returns (r: Result<(Option<Expression>, int)>)
    requires 0 <= start <= |tokens|
    ensures r == NextAt(tokens, start)
    decreases |tokens| - start, 2
  {
    var t := TokenAt(tokens, start);
    if t.Fail? {
      return Fail(t.lnum, t.line, t.msg);
    }
    match t.value.value {
      case TrueTok => return Ok((Some(TrueLit), start + 1));
      case FalseTok => return Ok((Some(FalseLit), start + 1));
      case IntTok(x) => return Ok((Some(IntLit(x)), start + 1));
      case FloatTok(x) => return Ok((Some(FloatLit(x)), start + 1));
      case StrTok(s) => return Ok((Some(StrLit(s)), start + 1));
      case OpenBracket =>
        var l := ParseList(tokens, start);
        if l.Fail? {
          return Fail(l.lnum, l.line, l.msg);
        }
        return Ok((Some(ListLit(l.value.0)), l.value.1));
      case Id(_) =>
        var d := ParseDefinition(tokens, start);
        if d.Fail? {
          return Fail(d.lnum, d.line, d.msg);
        }
        if d.value.0.Some? {
          return Ok((d.value.0, d.value.1 - 1));
        }
        var c := ParseCall(tokens, start);
        if c.Fail? {
          return Fail(c.lnum, c.line, c.msg);
        }
        return Ok((Some(c.value.0), c.value.1));
      case Colon =>
        var d := ParseDefinition(tokens, start);
        if d.Fail? {
          return Fail(d.lnum, d.line, d.msg);
        }
        if d.value.0.Some? {
          return Ok((d.value.0, d.value.1 - 1));
        }
        return Fail(t.value.lnum, t.value.line, ExpectedDefinition);
      case _ => return Ok((None, 0));
    }
  }

  method ParseBlock(tokens: seq<Token>, start: int) returns (r: Result<(Block, int)>)
    requires 0 <= start <= |tokens|
    ensures r == BlockRest(tokens, start, [])
    decreases |tokens| - start, 3
  {
    var exprs: seq<Expression> := [];
    var index := start;
    while true
      invariant start <= index <= |tokens|
      invariant BlockRest(tokens, index, exprs) == BlockRest(tokens, start, [])
      decreases |tokens| - index
    {
      var n := ParseNextExpression(tokens, index);
      if n.Fail? {
        return Fail(n.lnum, n.line, n.msg);
      }
      if n.value.0.None? {
        index := index + 1;
        break;
      }
      var c := TokenAt(tokens, n.value.1);
      if c.Fail? {
        return Fail(c.lnum, c.line, c.msg);
      }
      if !c.value.value.Semicolon? {
        return Fail(c.value.lnum, c.value.line, ExpectedSemicolon);
      }
      exprs := exprs + [n.value.0.value];
      index := n.value.1 + 1;
    }
    return Ok((Block(exprs), index));
  }

  method Parse(tokens: seq<Token>) returns (r: Result<Block>)
    ensures r == ParseTokens(tokens)
  {
    var b := ParseBlock(tokens, 0);
    if b.Fail? {
      return Fail(b.lnum, b.line, b.msg);
    }
    var (block, index) := b.value;
    if index < |tokens| {
      return Fail(tokens[index].lnum, tokens[index].line, Unexpected);
    }
    return Ok(block);
  }
}
