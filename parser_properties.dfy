/** What the parser promises: how each token kind is read, where its errors
    arise, and that it reads back every program written out as tokens. */
module ParserProperties {
  import opened Encoding
  import opened Parser

  /** A literal token is read as the matching literal and consumes one token. */
  lemma LiteralAdvancesOne(tokens: seq<Token>, start: nat)
    requires start < |tokens|
    requires var v := tokens[start].value;
             v.TrueTok? || v.FalseTok? || v.IntTok? || v.FloatTok? || v.StrTok?
    ensures var r := NextAt(tokens, start);
            r.Ok? && r.value.1 == start + 1 && r.value.0.Some?
            && var e := r.value.0.value;
            match tokens[start].value
            case TrueTok => e == TrueLit
            case FalseTok => e == FalseLit
            case IntTok(x) => e == IntLit(x)
            case FloatTok(x) => e == FloatLit(x)
            case StrTok(s) => e == StrLit(s)
            case _ => false
  {
  }

  /** An id followed by a colon is always a definition of that id, never a
      call: its body is the block after the colon, and the index answered is
      that of the block's terminating token. */
  lemma NamedDefinition(tokens: seq<Token>, start: nat)
    requires start + 1 < |tokens|
    requires tokens[start].value.Id? && tokens[start + 1].value == Colon
    ensures var r := NextAt(tokens, start);
            var b := BlockRest(tokens, start + 2, []);
            (r.Ok? <==> b.Ok?)
            && (r.Ok? ==> r.value == (Some(Definition(tokens[start].value.name, b.value.0)), b.value.1 - 1))
  {
  }

  /** A leading colon is an anonymous definition, bound under the empty id. */
  lemma AnonymousDefinition(tokens: seq<Token>, start: nat)
    requires start < |tokens| && tokens[start].value == Colon
    ensures var r := NextAt(tokens, start);
            var b := BlockRest(tokens, start + 1, []);
            (r.Ok? <==> b.Ok?)
            && (r.Ok? ==> r.value == (Some(Definition("", b.value.0)), b.value.1 - 1))
  {
  }

  /** An id followed by neither a colon nor an open bracket is a call with no
      arguments that consumes one token. */
  lemma BareCall(tokens: seq<Token>, start: nat)
    requires start + 1 < |tokens| && tokens[start].value.Id?
    requires tokens[start + 1].value != Colon && tokens[start + 1].value != OpenBracket
    ensures NextAt(tokens, start) == Ok((Some(Call(tokens[start].value.name, [])), start + 1))
  {
  }

  /** An id followed by an open bracket is a call whose arguments are the
      bracketed list, and which ends one past the closing bracket. */
  lemma BracketedCall(tokens: seq<Token>, start: nat)
    requires start + 1 < |tokens| && tokens[start].value.Id?
    requires tokens[start + 1].value == OpenBracket
    ensures var r := NextAt(tokens, start);
            var l := ListAt(tokens, start + 1);
            (r.Ok? <==> l.Ok?)
            && (r.Ok? ==> r.value == (Some(Call(tokens[start].value.name, l.value.0)), l.value.1))
  {
  }

  /** Reading at or past the end of the tokens is the end-of-input error. */
  lemma PastTheEnd(tokens: seq<Token>, start: nat)
    requires start == |tokens|
    ensures NextAt(tokens, start) == Fail(-1, "EOF", EndOfInput)
  {
  }

  /** Inside a list, a token that is neither an expression nor the closing
      bracket is reported at its own line. */
  lemma StrayTokenInList(tokens: seq<Token>, index: nat, items: seq<Expression>)
    requires index < |tokens|
    requires !StartsExpression(tokens[index].value) && tokens[index].value != CloseBracket
    ensures ListRest(tokens, index, items) == Fail(tokens[index].lnum, tokens[index].line, ExpectedItem)
  {
  }

  /** Inside a block, an expression must be followed by a semicolon. */
  lemma MissingSemicolon(tokens: seq<Token>, index: nat, exprs: seq<Expression>, e: Expression, next: int)
    requires index <= |tokens|
    requires NextAt(tokens, index) == Ok((Some(e), next))
    requires next < |tokens| && !tokens[next].value.Semicolon?
    ensures BlockRest(tokens, index, exprs) == Fail(tokens[next].lnum, tokens[next].line, ExpectedSemicolon)
  {
  }

  /** A block ends at the first token that starts no expression, and consumes it. */
  lemma BlockEnds(tokens: seq<Token>, index: nat, exprs: seq<Expression>)
    requires index < |tokens| && !StartsExpression(tokens[index].value)
    ensures BlockRest(tokens, index, exprs) == Ok((Block(exprs), index + 1))
  {
  }

  /** A definition hands its block's terminating token back to the enclosing
      production: the index it answers is that of a token starting no expression. */
  lemma DefinitionHandsBack(tokens: seq<Token>, start: nat)
    requires start <= |tokens|
    requires var r := NextAt(tokens, start); r.Ok? && r.value.0.Some? && r.value.0.value.Definition?
    ensures var k := NextAt(tokens, start).value.1;
            k < |tokens| && !StartsExpression(tokens[k].value)
  {
    var t := tokens[start].value;
    assert t.Id? || t.Colon?;
  }

  /** `parse` succeeds exactly when the top-level block succeeds and ends at
      the end of the tokens. */
  lemma ParseNeedsWholeInput(tokens: seq<Token>)
    ensures var b := BlockRest(tokens, 0, []);
            ParseTokens(tokens).Ok? <==> b.Ok? && b.value.1 == |tokens|
    ensures var b := BlockRest(tokens, 0, []);
            ParseTokens(tokens).Ok? ==> ParseTokens(tokens).value == b.value.0
  {
  }

  // ------------------------------------------------------------- round trip

  /** Token kinds that spell an expression.  Calls are written with brackets;
      a definition leaves its block's terminating token to its context. */
  function Spell(e: Expression): seq<TokenValue>
    decreases e
  {
    match e
    case TrueLit => [TrueTok]
    case FalseLit => [FalseTok]
    case IntLit(i) => [IntTok(i)]
    case FloatLit(f) => [FloatTok(f)]
    case StrLit(s) => [StrTok(s)]
    case ListLit(items) => [OpenBracket] + SpellItems(items) + [CloseBracket]
    case Call(id, args) => [Id(id), OpenBracket] + SpellItems(args) + [CloseBracket]
    case Definition(name, body) => [Id(name), Colon] + SpellStatements(body.expressions)
  }

  function SpellItems(items: seq<Expression>): seq<TokenValue>
    decreases items
  {
    if items == [] then [] else Spell(items[0]) + SpellItems(items[1..])
  }

  function SpellStatements(es: seq<Expression>): seq<TokenValue>
    decreases es
  {
    if es == [] then [] else Spell(es[0]) + [Semicolon] + SpellStatements(es[1..])
  }

  /** A program: its statements, then the end-of-file token. */
  function SpellProgram(b: Block): seq<TokenValue>
  {
    SpellStatements(b.expressions) + [EOF]
  }

  /** Trees the grammar can express: a definition ends at the token after it,
      so in a list only the last item may be a definition (its block ends at
      the list's closing bracket). */
  predicate Printable(e: Expression)
    decreases e
  {
    match e
    case ListLit(items) => PrintableItems(items)
    case Call(_, args) => PrintableItems(args)
    case Definition(_, body) => PrintableStatements(body.expressions)
    case _ => true
  }

  predicate PrintableItems(items: seq<Expression>)
    decreases items
  {
    items == []
    || (Printable(items[0]) && (items[0].Definition? ==> |items| == 1)
        && PrintableItems(items[1..]))
  }

  predicate PrintableStatements(es: seq<Expression>)
    decreases es
  {
    es == [] || (Printable(es[0]) && PrintableStatements(es[1..]))
  }

  /** The token values from `at` on begin with `vals`. */
  predicate Spells(tokens: seq<Token>, at: int, vals: seq<TokenValue>)
  {
    0 <= at && at + |vals| <= |tokens|
    && forall i :: 0 <= i < |vals| ==> tokens[at + i].value == vals[i]
  }

  lemma SpellsSplit(tokens: seq<Token>, at: int, a: seq<TokenValue>, b: seq<TokenValue>)
    requires Spells(tokens, at, a + b)
    ensures Spells(tokens, at, a) && Spells(tokens, at + |a|, b)
  {
    forall i | 0 <= i < |a| ensures tokens[at + i].value == a[i] {
      assert (a + b)[i] == a[i];
    }
    forall i | 0 <= i < |b| ensures tokens[at + |a| + i].value == b[i] {
      assert (a + b)[|a| + i] == b[i];
    }
  }

  /** Token values a, then m, then b, are spelled piece by piece. */
  lemma SpellsAround(tokens: seq<Token>, at: int, a: seq<TokenValue>, m: TokenValue, b: seq<TokenValue>)
    requires Spells(tokens, at, a + [m] + b)
    ensures Spells(tokens, at, a) && Spells(tokens, at + |a| + 1, b)
    ensures at + |a| < |tokens| && tokens[at + |a|].value == m
  {
    var ab := a + [m] + b;
    forall i | 0 <= i < |a| ensures tokens[at + i].value == a[i] {
      assert ab[i] == a[i];
    }
    assert ab[|a|] == m;
    forall i | 0 <= i < |b| ensures tokens[at + |a| + 1 + i].value == b[i] {
      assert ab[|a| + 1 + i] == b[i];
    }
  }

  lemma SpellsAt(tokens: seq<Token>, at: int, vals: seq<TokenValue>, i: int)
    requires Spells(tokens, at, vals) && 0 <= i < |vals|
    ensures tokens[at + i].value == vals[i]
  {
  }

  /** One turn of the block loop: an expression, then its semicolon. */
  lemma BlockStep(tokens: seq<Token>, at: int, acc: seq<Expression>, e: Expression, next: int)
    requires 0 <= at <= |tokens| && NextAt(tokens, at) == Ok((Some(e), next))
    requires next < |tokens| && tokens[next].value == Semicolon
    ensures BlockRest(tokens, at, acc) == BlockRest(tokens, next + 1, acc + [e])
  {
  }

  /** The list loop ends at, and consumes, a closing bracket. */
  lemma ListEnds(tokens: seq<Token>, at: int, acc: seq<Expression>)
    requires 0 <= at < |tokens| && tokens[at].value == CloseBracket
    ensures ListRest(tokens, at, acc) == Ok((acc, at + 1))
  {
  }

  /** One turn of the list loop: an item that is not the closing bracket. */
  lemma ListStep(tokens: seq<Token>, at: int, acc: seq<Expression>, e: Expression, next: int)
    requires 0 <= at < |tokens| && tokens[at].value != CloseBracket
    requires NextAt(tokens, at) == Ok((Some(e), next))
    ensures ListRest(tokens, at, acc) == ListRest(tokens, next, acc + [e])
  {
  }

  /** Every printable expression is read back from its spelling, ending just
      after it, provided a token follows (and, for a definition, one that
      starts no expression, to end its block). */
  lemma {:induction false} ReadsBackExpression(tokens: seq<Token>, at: int, e: Expression)
    requires Printable(e) && Spells(tokens, at, Spell(e))
    requires at + |Spell(e)| < |tokens|
    requires e.Definition? ==> !StartsExpression(tokens[at + |Spell(e)|].value)
    ensures NextAt(tokens, at) == Ok((Some(e), at + |Spell(e)|))
    decreases e, 2
  {
    match e
    case ListLit(_) => ReadsBackList(tokens, at, e);
    case Call(_, _) => ReadsBackCall(tokens, at, e);
    case Definition(_, _) => ReadsBackDefinition(tokens, at, e);
    case _ => SpellsAt(tokens, at, Spell(e), 0);
  }

  lemma {:induction false} ReadsBackList(tokens: seq<Token>, at: int, e: Expression)
    requires e.ListLit? && Printable(e) && Spells(tokens, at, Spell(e))
    ensures NextAt(tokens, at) == Ok((Some(e), at + |Spell(e)|))
    decreases e, 1
  {
    var items := e.items;
    assert Spell(e) == [OpenBracket] + (SpellItems(items) + [CloseBracket]);
    SpellsSplit(tokens, at, [OpenBracket], SpellItems(items) + [CloseBracket]);
    SpellsAt(tokens, at, [OpenBracket], 0);
    ReadsBackItems(tokens, at + 1, items, []);
    assert [] + items == items;
  }

  lemma {:induction false} ReadsBackCall(tokens: seq<Token>, at: int, e: Expression)
    requires e.Call? && Printable(e) && Spells(tokens, at, Spell(e))
    ensures NextAt(tokens, at) == Ok((Some(e), at + |Spell(e)|))
    decreases e, 1
  {
    var args := e.args;
    assert Spell(e) == [Id(e.id), OpenBracket] + (SpellItems(args) + [CloseBracket]);
    SpellsSplit(tokens, at, [Id(e.id), OpenBracket], SpellItems(args) + [CloseBracket]);
    SpellsAt(tokens, at, [Id(e.id), OpenBracket], 0);
    SpellsAt(tokens, at, [Id(e.id), OpenBracket], 1);
    ReadsBackItems(tokens, at + 2, args, []);
    assert [] + args == args;
    assert ListAt(tokens, at + 1) == Ok((args, at + |Spell(e)|));
    assert DefinitionAt(tokens, at) == Ok((None, 0));
    assert CallAt(tokens, at) == Ok((e, at + |Spell(e)|));
  }

  lemma {:induction false} ReadsBackDefinition(tokens: seq<Token>, at: int, e: Expression)
    requires e.Definition? && Printable(e) && Spells(tokens, at, Spell(e))
    requires at + |Spell(e)| < |tokens| && !StartsExpression(tokens[at + |Spell(e)|].value)
    ensures NextAt(tokens, at) == Ok((Some(e), at + |Spell(e)|))
    decreases e, 1
  {
    var es := e.body.expressions;
    SpellsSplit(tokens, at, [Id(e.name), Colon], SpellStatements(es));
    SpellsAt(tokens, at, [Id(e.name), Colon], 0);
    SpellsAt(tokens, at, [Id(e.name), Colon], 1);
    ReadsBackStatements(tokens, at + 2, es, [], at + |Spell(e)|);
    assert [] + es == es;
    assert DefinitionAt(tokens, at) == Ok((Some(e), at + |Spell(e)| + 1));
  }

  /** Putting the first element back in front of the rest. */
  lemma Unfold(acc: seq<Expression>, es: seq<Expression>)
    requires es != []
    ensures acc + [es[0]] + es[1..] == acc + es
  {
  }

  /** Every spelling begins with a token that starts an expression. */
  lemma SpellStartsExpression(e: Expression)
    ensures |Spell(e)| > 0 && StartsExpression(Spell(e)[0])
  {
  }

  /** The spelling of a non-empty item list followed by `]`: the first item,
      then the spelling of the rest and the bracket. */
  lemma ItemSpelling(tokens: seq<Token>, at: int, items: seq<Expression>)
    requires items != [] && Spells(tokens, at, SpellItems(items) + [CloseBracket])
    ensures var next := at + |Spell(items[0])|;
            && Spells(tokens, at, Spell(items[0]))
            && Spells(tokens, next, SpellItems(items[1..]) + [CloseBracket])
            && next + |SpellItems(items[1..])| == at + |SpellItems(items)|
            && StartsExpression(tokens[at].value)
  {
    var e := items[0];
    assert SpellItems(items) + [CloseBracket] == Spell(e) + (SpellItems(items[1..]) + [CloseBracket]);
    SpellsSplit(tokens, at, Spell(e), SpellItems(items[1..]) + [CloseBracket]);
    SpellStartsExpression(e);
    SpellsAt(tokens, at, Spell(e), 0);
  }

  /** A printable item list: a printable first item, and a printable rest. */
  lemma PrintableCons(items: seq<Expression>)
    requires items != [] && PrintableItems(items)
    ensures Printable(items[0]) && PrintableItems(items[1..])
  {
  }

  /** A definition in a list is its last item, so the closing bracket follows it. */
  lemma DefinitionLast(tokens: seq<Token>, next: int, items: seq<Expression>)
    requires items != [] && items[0].Definition? && PrintableItems(items)
    requires Spells(tokens, next, SpellItems(items[1..]) + [CloseBracket])
    ensures next < |tokens| && tokens[next].value == CloseBracket
  {
    assert items[1..] == [];
    SpellsAt(tokens, next, SpellItems(items[1..]) + [CloseBracket], 0);
  }

  /** The items of a list are read back in order, ending one past the closing bracket. */
  lemma {:induction false} ReadsBackItems(tokens: seq<Token>, at: int, items: seq<Expression>, acc: seq<Expression>)
    requires PrintableItems(items) && Spells(tokens, at, SpellItems(items) + [CloseBracket])
    ensures ListRest(tokens, at, acc) == Ok((acc + items, at + |SpellItems(items)| + 1))
    decreases items, 1
  {
    if items == [] {
      SpellsAt(tokens, at, SpellItems(items) + [CloseBracket], 0);
      ListEnds(tokens, at, acc);
      assert acc + items == acc && |SpellItems(items)| == 0;
    } else {
      var next := ReadsBackItem(tokens, at, items, acc);
      ReadsBackItems(tokens, next, items[1..], acc + [items[0]]);
      Unfold(acc, items);
    }
  }

  /** One item of a list is read back, leaving the rest of the list and its
      closing bracket spelled from the index it ends at. */
  lemma {:induction false} ReadsBackItem(tokens: seq<Token>, at: int, items: seq<Expression>, acc: seq<Expression>)
    returns (next: int)
    requires items != [] && PrintableItems(items)
    requires Spells(tokens, at, SpellItems(items) + [CloseBracket])
    ensures next == at + |Spell(items[0])|
    ensures ListRest(tokens, at, acc) == ListRest(tokens, next, acc + [items[0]])
    ensures PrintableItems(items[1..]) && Spells(tokens, next, SpellItems(items[1..]) + [CloseBracket])
    ensures next + |SpellItems(items[1..])| == at + |SpellItems(items)|
    decreases items, 0
  {
    var e := items[0];
    next := at + |Spell(e)|;
    ItemSpelling(tokens, at, items);
    PrintableCons(items);
    if e.Definition? {
      DefinitionLast(tokens, next, items);
    }
    ReadsBackExpression(tokens, at, e);
    ListStep(tokens, at, acc, e, next);
  }

  /** The spelling of a non-empty statement list: the first statement, its
      semicolon, then the spelling of the rest. */
  lemma StatementSpelling(tokens: seq<Token>, at: int, es: seq<Expression>)
    requires es != [] && Spells(tokens, at, SpellStatements(es))
    ensures var next := at + |Spell(es[0])|;
            && Spells(tokens, at, Spell(es[0]))
            && next < |tokens| && tokens[next].value == Semicolon
            && Spells(tokens, next + 1, SpellStatements(es[1..]))
            && next + 1 + |SpellStatements(es[1..])| == at + |SpellStatements(es)|
  {
    SpellsAround(tokens, at, Spell(es[0]), Semicolon, SpellStatements(es[1..]));
  }

  /** The statements of a block are read back in order, ending one past the
      token that terminates the block. */
  lemma {:induction false} ReadsBackStatements(tokens: seq<Token>, at: int, es: seq<Expression>, acc: seq<Expression>, end: int)
    requires PrintableStatements(es) && Spells(tokens, at, SpellStatements(es))
    requires end == at + |SpellStatements(es)| && end < |tokens|
    requires !StartsExpression(tokens[end].value)
    ensures BlockRest(tokens, at, acc) == Ok((Block(acc + es), end + 1))
    decreases es, 0
  {
    if es == [] {
      assert acc + es == acc;
    } else {
      var e := es[0];
      var next := at + |Spell(e)|;
      StatementSpelling(tokens, at, es);
      assert Printable(e) && PrintableStatements(es[1..]);
      ReadsBackExpression(tokens, at, e);
      BlockStep(tokens, at, acc, e, next);
      ReadsBackStatements(tokens, next + 1, es[1..], acc + [e], end);
      Unfold(acc, es);
    }
  }

  /** `parse` reads back every printable program from its spelling, whatever
      the line numbers and line texts attached to the tokens. */
  lemma ParseReadsBack(tokens: seq<Token>, b: Block)
    requires PrintableStatements(b.expressions)
    requires |tokens| == |SpellProgram(b)| && Spells(tokens, 0, SpellProgram(b))
    ensures ParseTokens(tokens) == Ok(b)
  {
    SpellsSplit(tokens, 0, SpellStatements(b.expressions), [EOF]);
    SpellsAt(tokens, |SpellStatements(b.expressions)|, [EOF], 0);
    ReadsBackStatements(tokens, 0, b.expressions, [], |SpellStatements(b.expressions)|);
    assert [] + b.expressions == b.expressions;
  }
}
