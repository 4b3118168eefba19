/** What the built-in functions promise, stated over Primitives.Dispatch. */
module PrimitiveProperties {
  import opened Encoding
  import opened Primitives

  // ---------------------------------------------- poisoning, arity, names

  /** Every primitive except `?` and `catch` returns the leftmost exception
      argument unchanged, before checking its arity, even for unknown names. */
  lemma PoisoningComesFirst(host: Host, id: string, args: seq<Evaluation>, k: nat)
    requires !Observes(id)
    requires k < |args| && args[k].Exception?
    requires forall j :: 0 <= j < k ==> !args[j].Exception?
    ensures !Panics(id, args)
    ensures Dispatch(host, id, args) == args[k]
  {
  }

  /** With no poisoning exception, a known name given the wrong number of
      arguments gives an `ArgError`. */
  lemma WrongArityIsArgError(host: Host, id: string, args: seq<Evaluation>)
    requires Named(id).Some? && |args| != Arity(Named(id).value)
    requires Observes(id) || forall i :: 0 <= i < |args| ==> !args[i].Exception?
    ensures !Panics(id, args)
    ensures IsFault(Dispatch(host, id, args), ArgError)
  {
  }

  /** With no poisoning exception, a name that is not a primitive gives an `UndefError`. */
  lemma UnknownNameIsUndefError(host: Host, id: string, args: seq<Evaluation>)
    requires Named(id).None?
    requires forall i :: 0 <= i < |args| ==> !args[i].Exception?
    ensures !Panics(id, args)
    ensures IsFault(Dispatch(host, id, args), UndefError)
  {
  }

  // ------------------------------------------------------------ arithmetic

  /** `+`, `-`, `*`, `/`, `%` on two 64-bit integers give a 64-bit integer;
      `/` rounds toward zero and `%` keeps the sign of the dividend. */
  lemma IntegerArithmetic(host: Host, id: string, x: int, y: int)
    requires id in {"+", "-", "*", "/", "%"}
    requires IsI64(x) && IsI64(y)
    requires !Panics(id, [Integer(x), Integer(y)])
    ensures (id == "/" || id == "%") ==> y != 0
    ensures var r := Dispatch(host, id, [Integer(x), Integer(y)]);
            && r.Integer? && IsI64(r.i)
            && (id == "+" ==> r.i == x + y)
            && (id == "-" ==> r.i == x - y)
            && (id == "*" ==> r.i == x * y)
            && (id == "/" ==> r.i == TDiv(x, y) && Abs(r.i) * Abs(y) <= Abs(x))
            && (id == "%" ==> x == y * TDiv(x, y) + r.i && Abs(r.i) < Abs(y)
                              && (r.i == 0 || (r.i < 0 <==> x < 0)))
  {
    var args := [Integer(x), Integer(y)];
    assert FirstException(args).None?;
    IntegerOperands(host, Named(id).value, x, y);
    if id == "/" || id == "%" {
      TruncatingDivision(x, y);
      if id == "/" {
        QuotientFits(x, y);
      }
    }
  }

  /** The five integer operators on two integers apply IntOp. */
  lemma IntegerOperands(host: Host, p: Prim, x: int, y: int)
    requires IsNumeric(p)
    requires !Panics(Name(p), [Integer(x), Integer(y)])
    ensures (p.Div? || p.Rem?) ==> y != 0
    ensures Dispatch(host, Name(p), [Integer(x), Integer(y)]) == Integer(IntOp(p, x, y))
  {
    NamedName(p);
    assert FirstException([Integer(x), Integer(y)]).None?;
    DispatchApplies(host, Name(p), [Integer(x), Integer(y)]);
  }

  /** The truncated quotient of two 64-bit integers fits in 64 bits unless
      it is the one overflowing case. */
  lemma QuotientFits(x: int, y: int)
    requires IsI64(x) && IsI64(y) && y != 0 && !(x == I64Min && y == -1)
    ensures IsI64(TDiv(x, y))
  {
    TruncatingDivision(x, y);
    var q := TDiv(x, y);
    if Abs(y) == 1 {
      assert q == (if y == 1 then x else -x);
    } else {
      SmallQuotient(Abs(q), Abs(y), Abs(x));
    }
  }

  lemma SmallQuotient(q: nat, b: nat, a: nat)
    requires 2 <= b && q * b <= a && a <= -I64Min
    ensures q <= I64Max
  {
    assert q * 2 <= q * b;
  }

  /** `%` takes only two integers; anything else is a `TypeError`. */
  lemma ModuloNeedsIntegers(host: Host, a: Evaluation, b: Evaluation)
    requires !a.Exception? && !b.Exception?
    requires !(a.Integer? && b.Integer?)
    ensures !Panics("%", [a, b])
    ensures IsFault(Dispatch(host, "%", [a, b]), TypeError)
  {
    assert FirstException([a, b]).None?;
  }

  /** `+` concatenates two strings, and two lists with the first list's items first. */
  lemma PlusConcatenates(host: Host, a: Evaluation, b: Evaluation)
    requires (a.Str? && b.Str?) || (a.List? && b.List?)
    ensures !Panics("+", [a, b])
    ensures a.Str? ==> Dispatch(host, "+", [a, b]) == Str(a.s + b.s)
    ensures a.List? ==> var r := Dispatch(host, "+", [a, b]);
              && r.List? && |r.items| == |a.items| + |b.items|
              && r.items[..|a.items|] == a.items && r.items[|a.items|..] == b.items
  {
    assert FirstException([a, b]).None?;
    if a.List? {
      var r := a.items + b.items;
      assert r[..|a.items|] == a.items && r[|a.items|..] == b.items;
    }
  }

  /** `+` blames a bad second operand with `TypeMismatch` and a bad first
      operand with `TypeError`. */
  lemma PlusTypeErrors(host: Host, a: Evaluation, b: Evaluation)
    requires !a.Exception? && !b.Exception?
    requires !((a.Integer? || a.Float?) && (b.Integer? || b.Float?))
    requires !(a.Str? && b.Str?) && !(a.List? && b.List?)
    ensures !Panics("+", [a, b])
    ensures (a.Integer? || a.Float? || a.Str? || a.List?) ==>
              IsFault(Dispatch(host, "+", [a, b]), TypeMismatch)
    ensures !(a.Integer? || a.Float? || a.Str? || a.List?) ==>
              IsFault(Dispatch(host, "+", [a, b]), TypeError)
  {
    assert FirstException([a, b]).None?;
    DispatchApplies(host, "+", [a, b]);
  }

  /** `-`, `*` and `/` report every non-numeric operand as a `TypeError`. */
  lemma ArithmeticTypeErrors(host: Host, id: string, a: Evaluation, b: Evaluation)
    requires id in {"-", "*", "/"}
    requires !a.Exception? && !b.Exception?
    requires !((a.Integer? || a.Float?) && (b.Integer? || b.Float?))
    ensures !Panics(id, [a, b])
    ensures IsFault(Dispatch(host, id, [a, b]), TypeError)
  {
    assert FirstException([a, b]).None?;
    DispatchApplies(host, id, [a, b]);
  }

  // -------------------------------------------------------------- equality

  /** The recursive call `system_functions("=", [x, y])` made for list items
      answers True exactly when Equal holds, whether or not x or y is an
      exception. */
  lemma EqualViaDispatch(host: Host, x: Evaluation, y: Evaluation)
    ensures !Panics("=", [x, y])
    ensures Dispatch(host, "=", [x, y]) == True <==> Equal(host, x, y)
  {
    var args := [x, y];
    if x.Exception? {
      assert FirstException(args) == Some(x);
    } else if y.Exception? {
      assert FirstException(args) == Some(y);
      assert !Equal(host, x, y);
    } else {
      assert FirstException(args).None?;
      DispatchApplies(host, "=", args);
    }
  }

  /** `=` on two non-exception values always answers True or False, and
      answers True only for values of the same variant. */
  lemma EqualityNeverRaises(host: Host, a: Evaluation, b: Evaluation)
    requires !a.Exception? && !b.Exception?
    ensures !Panics("=", [a, b])
    ensures var r := Dispatch(host, "=", [a, b]);
            (r == True || r == False) && (r == True <==> Equal(host, a, b))
    ensures Equal(host, a, b) ==>
              (a.True? && b.True?) || (a.False? && b.False?) || (a.Integer? && b.Integer?)
              || (a.Float? && b.Float?) || (a.Str? && b.Str?) || (a.List? && b.List?)
  {
    assert FirstException([a, b]).None?;
    DispatchApplies(host, "=", [a, b]);
  }

  /** Lists are equal under `=` exactly when they have the same length and
      `=` answers True on every pair of items. */
  lemma ListEquality(host: Host, xs: seq<Evaluation>, ys: seq<Evaluation>)
    ensures !Panics("=", [List(xs), List(ys)])
    ensures Dispatch(host, "=", [List(xs), List(ys)]) == True <==>
              |xs| == |ys| && forall i :: 0 <= i < |xs| ==> Dispatch(host, "=", [xs[i], ys[i]]) == True
  {
    assert FirstException([List(xs), List(ys)]).None?;
    DispatchApplies(host, "=", [List(xs), List(ys)]);
    forall i | 0 <= i < |xs| && i < |ys|
      ensures Dispatch(host, "=", [xs[i], ys[i]]) == True <==> Equal(host, xs[i], ys[i])
    {
      EqualViaDispatch(host, xs[i], ys[i]);
    }
  }

  /** A list holding an exception is never equal to anything. */
  lemma ListWithExceptionIsUnequal(host: Host, xs: seq<Evaluation>, k: nat, b: Evaluation)
    requires k < |xs| && xs[k].Exception?
    ensures !Equal(host, List(xs), b)
  {
    if b.List? && |xs| == |b.items| {
      assert !Equal(host, xs[k], b.items[k]);
    }
  }

  /** Integers never equal floats and functions never equal anything. */
  lemma EqualityAcrossVariants(host: Host, x: int, f: F64, body: Block, b: Evaluation)
    ensures Dispatch(host, "=", [Integer(x), Float(f)]) == False
    ensures Dispatch(host, "=", [Float(f), Integer(x)]) == False
    ensures Dispatch(host, "=", [Function(body), b]) != True
  {
    assert FirstException([Integer(x), Float(f)]).None?;
    assert FirstException([Float(f), Integer(x)]).None?;
    DispatchApplies(host, "=", [Integer(x), Float(f)]);
    DispatchApplies(host, "=", [Float(f), Integer(x)]);
    EqualViaDispatch(host, Function(body), b);
  }

  /** `=` is symmetric when the host's float equality is. */
  lemma {:induction false} EqualSymmetric(host: Host, a: Evaluation, b: Evaluation)
    requires forall x, y :: host.eq(x, y) == host.eq(y, x)
    ensures Equal(host, a, b) == Equal(host, b, a)
    decreases a
  {
    if a.List? && b.List? && |a.items| == |b.items| {
      forall i | 0 <= i < |a.items|
        ensures Equal(host, a.items[i], b.items[i]) == Equal(host, b.items[i], a.items[i])
      {
        EqualSymmetric(host, a.items[i], b.items[i]);
      }
    }
  }

  // ---------------------------------------------------------------- control

  /** `?` passes an exception condition through, picks the second argument on
      True and the third on False (whatever they hold), and rejects any other
      condition with a `TypeError`. */
  lemma ConditionalSelects(host: Host, c: Evaluation, t: Evaluation, e: Evaluation)
    ensures !Panics("?", [c, t, e])
    ensures c.Exception? ==> Dispatch(host, "?", [c, t, e]) == c
    ensures c.True? ==> Dispatch(host, "?", [c, t, e]) == t
    ensures c.False? ==> Dispatch(host, "?", [c, t, e]) == e
    ensures !(c.Exception? || c.True? || c.False?) ==> IsFault(Dispatch(host, "?", [c, t, e]), TypeError)
  {
    DispatchApplies(host, "?", [c, t, e]);
  }

  // ---------------------------------------------------------------- strings

  /** `substr(s, start, len)`: empty from the end of the string on; the rest
      of the string when start + len reaches its end or len is negative (the
      `as usize` cast makes a negative length huge); otherwise exactly len
      characters from start. `strlen` counts characters. */
  lemma SubstringBounds(host: Host, s: string, start: int, len: int)
    requires IsI64(start) && IsI64(len) && |s| < TwoTo64 / 2
    requires 0 <= start < |s| ==> IsI64(start + len)
    ensures !Panics("substr", [Str(s), Integer(start), Integer(len)])
    ensures var r := Dispatch(host, "substr", [Str(s), Integer(start), Integer(len)]);
            && r.Str?
            && (start >= |s| ==> r.s == "")
            && (start < 0 ==> r.s == "")
            && (0 <= start < |s| && start + len >= |s| ==> r.s == s[start..])
            && (0 <= start && 0 <= len && start + len < |s| ==> r.s == s[start..start + len] && |r.s| == len)
            && (0 <= start < |s| && len < 0 ==> r.s == s[start..])
    ensures Dispatch(host, "strlen", [Str(s)]) == Integer(|s|)
  {
    var args := [Str(s), Integer(start), Integer(len)];
    assert FirstException(args).None?;
    assert FirstException([Str(s)]).None?;
    DispatchApplies(host, "substr", args);
    DispatchApplies(host, "strlen", [Str(s)]);
    if start < 0 {
      assert AsUsize(start) == start + TwoTo64;
    }
    if 0 <= start < |s| && start + len < 0 {
      assert AsUsize(start + len) == start + len + TwoTo64;
    }
    if 0 <= start < |s| && len < 0 {
      assert AsUsize(len) == len + TwoTo64;
    }
  }

  // ------------------------------------------------------------------ lists

  /** `car` gives the first item of a non-empty list and a `RuntimeError` on
      the empty list; `cdr` drops exactly the first item and leaves the empty
      list alone; both reject a non-list with a `TypeError`. */
  lemma CarAndCdr(host: Host, a: Evaluation)
    requires !a.Exception?
    ensures !Panics("car", [a]) && !Panics("cdr", [a])
    ensures a.List? && |a.items| > 0 ==> Dispatch(host, "car", [a]) == a.items[0]
    ensures a.List? && |a.items| > 0 ==> Dispatch(host, "cdr", [a]) == List(a.items[1..])
    ensures a == List([]) ==> IsFault(Dispatch(host, "car", [a]), RuntimeError)
    ensures a == List([]) ==> Dispatch(host, "cdr", [a]) == List([])
    ensures !a.List? ==> IsFault(Dispatch(host, "car", [a]), TypeError)
    ensures !a.List? ==> IsFault(Dispatch(host, "cdr", [a]), TypeError)
  {
    assert FirstException([a]).None?;
    DispatchApplies(host, "car", [a]);
    DispatchApplies(host, "cdr", [a]);
  }

  /** `car` and `cdr` split a non-empty list back into its parts. */
  lemma CarConsCdr(host: Host, a: Evaluation)
    requires a.List? && |a.items| > 0
    ensures var rest := Dispatch(host, "cdr", [a]);
            rest.List? && [Dispatch(host, "car", [a])] + rest.items == a.items
  {
    CarAndCdr(host, a);
  }

  // ------------------------------------------------------------- exceptions

  /** `catch` always gives a list: `["ok", v]` for an ordinary value, and
      the flavour's name, the payload and the stack as strings for an exception. */
  lemma CatchShapes(host: Host, a: Evaluation)
    ensures !Panics("catch", [a])
    ensures Dispatch(host, "catch", [a]).List?
    ensures !a.Exception? ==> Dispatch(host, "catch", [a]) == List([Str("ok"), a])
    ensures a.Exception? ==> var r := Dispatch(host, "catch", [a]).items;
              && |r| == 3 && r[0] == Str(FlavorName(a.ex.flavor)) && r[1] == a.ex.payload
              && r[2].List? && |r[2].items| == |a.ex.stack|
              && forall i :: 0 <= i < |a.ex.stack| ==> r[2].items[i] == Str(a.ex.stack[i])
  {
    DispatchApplies(host, "catch", [a]);
  }

  /** `raise v` and `~ v` build an `Error` and a `Return` exception carrying v
      with an empty stack. */
  lemma RaiseAndReturn(host: Host, v: Evaluation)
    requires !v.Exception?
    ensures !Panics("raise", [v]) && !Panics("~", [v])
    ensures Dispatch(host, "raise", [v]) == Exception(Exn(Error, v, []))
    ensures Dispatch(host, "~", [v]) == Exception(Exn(Return, v, []))
  {
    assert FirstException([v]).None?;
    DispatchApplies(host, "raise", [v]);
    DispatchApplies(host, "~", [v]);
  }

  /** Catching `raise v` gives `["error", v, []]`. */
  lemma CatchOfRaise(host: Host, v: Evaluation)
    requires !v.Exception?
    ensures !Panics("raise", [v])
    ensures var raised := Dispatch(host, "raise", [v]);
            !Panics("catch", [raised])
            && Dispatch(host, "catch", [raised]) == List([Str("error"), v, List([])])
  {
    RaiseAndReturn(host, v);
    var raised := Exception(Exn(Error, v, []));
    DispatchApplies(host, "catch", [raised]);
    assert ExceptionToList(raised.ex) == [Str("error"), v, List([])];
  }

  // ------------------------------------------------- logic and comparison

  /** `!`, `&` and `|` are negation, conjunction and disjunction on booleans,
      and a `TypeError` on anything else. */
  lemma BooleanOperators(host: Host, a: Evaluation, b: Evaluation)
    requires !a.Exception? && !b.Exception?
    ensures !Panics("!", [a]) && !Panics("&", [a, b]) && !Panics("|", [a, b])
    ensures (a.True? || a.False?) ==> Dispatch(host, "!", [a]) == Bool(a.False?)
    ensures !(a.True? || a.False?) ==> IsFault(Dispatch(host, "!", [a]), TypeError)
    ensures (a.True? || a.False?) && (b.True? || b.False?) ==>
              Dispatch(host, "&", [a, b]) == Bool(a.True? && b.True?)
              && Dispatch(host, "|", [a, b]) == Bool(a.True? || b.True?)
    ensures !((a.True? || a.False?) && (b.True? || b.False?)) ==>
              IsFault(Dispatch(host, "&", [a, b]), TypeError)
              && IsFault(Dispatch(host, "|", [a, b]), TypeError)
  {
    assert FirstException([a]).None? && FirstException([a, b]).None?;
    DispatchApplies(host, "!", [a]);
    DispatchApplies(host, "&", [a, b]);
    DispatchApplies(host, "|", [a, b]);
  }

  /** `>` and `<` compare two integers exactly; a non-number is a `TypeError`. */
  lemma Comparisons(host: Host, a: Evaluation, b: Evaluation)
    requires !a.Exception? && !b.Exception?
    ensures !Panics(">", [a, b]) && !Panics("<", [a, b])
    ensures a.Integer? && b.Integer? ==>
              Dispatch(host, ">", [a, b]) == Bool(a.i > b.i)
              && Dispatch(host, "<", [a, b]) == Bool(a.i < b.i)
    ensures !((a.Integer? || a.Float?) && (b.Integer? || b.Float?)) ==>
              IsFault(Dispatch(host, ">", [a, b]), TypeError)
              && IsFault(Dispatch(host, "<", [a, b]), TypeError)
  {
    assert FirstException([a, b]).None?;
    DispatchApplies(host, ">", [a, b]);
    DispatchApplies(host, "<", [a, b]);
  }

  // --------------------------------------------------- conversion and output

  /** `int` reads back the decimal form of every 64-bit integer, and reports
      a string that is no 64-bit integer as a `ParseError`. */
  lemma IntParsesDecimal(host: Host, n: int, s: string)
    requires IsI64(n)
    ensures !Panics("int", [Str(IntToString(n))])
    ensures Dispatch(host, "int", [Str(IntToString(n))]) == Integer(n)
    ensures ParseI64(s).None? ==> IsFault(Dispatch(host, "int", [Str(s)]), ParseError)
  {
    ParseIntToString(n);
    DispatchApplies(host, "int", [Str(IntToString(n))]);
    DispatchApplies(host, "int", [Str(s)]);
  }

  /** `>>` answers False for a string (after printing it) and a `TypeError` otherwise. */
  lemma PrintAnswersFalse(host: Host, a: Evaluation)
    requires !a.Exception?
    ensures !Panics(">>", [a])
    ensures a.Str? ==> Dispatch(host, ">>", [a]) == False
    ensures !a.Str? ==> IsFault(Dispatch(host, ">>", [a]), TypeError)
  {
    assert FirstException([a]).None?;
    DispatchApplies(host, ">>", [a]);
  }
}
