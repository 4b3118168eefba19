/** The built-in functions: a name and an already evaluated argument list
    give one value. */
module Primitives {
  import opened Encoding

  // ------------------------------------------------------- integer helpers

  const TwoTo64: int := 0x1_0000_0000_0000_0000

  /** The reinterpretation `x as usize` of a 64-bit integer (two's complement). */
  function AsUsize(x: int): (u: nat)
    ensures u < TwoTo64
    ensures 0 <= x < TwoTo64 ==> u == x
  {
    x % TwoTo64
  }

  function Abs(x: int): nat { if x < 0 then -x else x }

  /** Integer division rounding toward zero, as `/` on i64 does. */
  function TDiv(x: int, y: int): int
    requires y != 0
  {
    if (x < 0) == (y < 0) then Abs(x) / Abs(y) else -(Abs(x) / Abs(y))
  }

  /** Remainder with the sign of the dividend, as `%` on i64 does. */
  function TRem(x: int, y: int): int
    requires y != 0
  {
    if x < 0 then -(Abs(x) % Abs(y)) else Abs(x) % Abs(y)
  }

  /** TDiv and TRem form a truncating division: the quotient rounds toward
      zero and the remainder is smaller than the divisor and has the sign of
      the dividend. */
  lemma TruncatingDivision(x: int, y: int)
    requires y != 0
    ensures x == y * TDiv(x, y) + TRem(x, y)
    ensures Abs(TRem(x, y)) < Abs(y)
    ensures TRem(x, y) == 0 || (TRem(x, y) < 0 <==> x < 0)
    ensures Abs(TDiv(x, y)) * Abs(y) <= Abs(x)
  {
    var q: int, m: int := Abs(x) / Abs(y), Abs(x) % Abs(y);
    QuotientRemainder(x, y, q, m, TDiv(x, y), TRem(x, y));
  }

  /** The sign bookkeeping of TruncatingDivision, free of `/` and `%`. */
  lemma QuotientRemainder(x: int, y: int, q: int, m: int, d: int, r: int)
    requires y != 0 && 0 <= q && 0 <= m < Abs(y) && Abs(x) == Abs(y) * q + m
    requires d == (if (x < 0) == (y < 0) then q else -q)
    requires r == (if x < 0 then -m else m)
    ensures x == y * d + r
    ensures Abs(r) < Abs(y) && (r == 0 || (r < 0 <==> x < 0))
    ensures Abs(d) * Abs(y) <= Abs(x)
  {
    if y < 0 {
      NegateLeft(-y, q);
      NegateRight(y, q);
    } else {
      NegateRight(y, q);
    }
    assert Abs(d) == q;
  }

  lemma NegateLeft(a: int, b: int)
    ensures (-a) * b == -(a * b)
  {
  }

  lemma NegateRight(a: int, b: int)
    ensures a * (-b) == -(a * b)
  {
  }

  predicate IsDigit(c: char) { '0' <= c <= '9' }

  function DigitValue(c: char): nat
    requires IsDigit(c)
  {
    c as int - '0' as int
  }

  /** The value of a string of decimal digits, most significant first. */
  function DigitsValue(s: string): nat
    requires forall i :: 0 <= i < |s| ==> IsDigit(s[i])
  {
    if s == [] then 0
    else DigitsValue(s[..|s| - 1]) * 10 + DigitValue(s[|s| - 1])
  }

  /** The integer parse `s.parse::<i64>()`: an optional sign, then one or
      more decimal digits, and a value that fits in 64 bits. */
  function ParseI64(s: string): (r: Option<int>)
    ensures r.Some? ==> IsI64(r.value)
    ensures r.Some? ==> |s| > 0 && (IsDigit(s[0]) || s[0] == '+' || s[0] == '-')
  {
    if |s| == 0 then None
    else
      var digits := if s[0] == '+' || s[0] == '-' then s[1..] else s;
      if |digits| == 0 || exists i :: 0 <= i < |digits| && !IsDigit(digits[i]) then None
      else
        var d: int := DigitsValue(digits);
        var v: int := if s[0] == '-' then -d else d;
        if IsI64(v) then Some(v) else None
  }

  /** The decimal form of an integer, with a leading '-' when negative. */
  function IntToString(n: int): string
  {
    if n < 0 then "-" + NatToString(-n) else NatToString(n)
  }

  lemma {:induction false} DigitsOfNat(n: nat)
    ensures forall i :: 0 <= i < |NatToString(n)| ==> IsDigit(NatToString(n)[i])
    ensures DigitsValue(NatToString(n)) == n
    decreases n
  {
    var d := [(('0' as int) + n % 10) as char];
    if n >= 10 {
      DigitsOfNat(n / 10);
      var s := NatToString(n / 10) + d;
      assert s == NatToString(n);
      assert s[..|s| - 1] == NatToString(n / 10);
    }
  }

  /** Parsing the decimal form of any 64-bit integer gives it back. */
  lemma ParseIntToString(n: int)
    requires IsI64(n)
    ensures ParseI64(IntToString(n)) == Some(n)
  {
    var a := if n < 0 then -n else n;
    DigitsOfNat(a);
    var s := IntToString(n);
    if n < 0 {
      assert s[1..] == NatToString(a);
    }
  }

  // ------------------------------------------------------ dispatch helpers

  /** The primitives of `system_functions`, one per name it matches. */
  datatype Prim =
    | ToInt | ToFloat | ToText | Print
    | Add | Sub | Mul | Div | Rem
    | Not | And | Or | Cond | Eq | Gt | Lt
    | Substr | Strlen | First | Rest
    | Try | Raise | Ret

  /** The name under which `system_functions` matches each primitive. */
  function Name(p: Prim): string
  {
    match p
    case ToInt => "int" case ToFloat => "float" case ToText => "string" case Print => ">>"
    case Add => "+" case Sub => "-" case Mul => "*" case Div => "/" case Rem => "%"
    case Not => "!" case And => "&" case Or => "|" case Cond => "?"
    case Eq => "=" case Gt => ">" case Lt => "<"
    case Substr => "substr" case Strlen => "strlen" case First => "car" case Rest => "cdr"
    case Try => "catch" case Raise => "raise" case Ret => "~"
  }

  /** The only primitive whose name can be `id`, told apart by its length
      and a character or two; Named then compares the whole name. */
  function Candidate(id: string): Option<Prim>
  {
    if |id| == 0 then None
    else if |id| == 1 then
      var c := id[0];
      if c == '+' then Some(Add) else if c == '-' then Some(Sub)
      else if c == '*' then Some(Mul) else if c == '/' then Some(Div)
      else if c == '%' then Some(Rem) else if c == '!' then Some(Not)
      else if c == '&' then Some(And) else if c == '|' then Some(Or)
      else if c == '?' then Some(Cond) else if c == '=' then Some(Eq)
      else if c == '>' then Some(Gt) else if c == '<' then Some(Lt)
      else if c == '~' then Some(Ret) else None
    else
      var c := id[0];
      if c == 'i' then Some(ToInt) else if c == 'f' then Some(ToFloat)
      else if c == '>' then Some(Print) else if c == 'r' then Some(Raise)
      else if c == 'c' then (if |id| == 5 then Some(Try) else if id[1] == 'a' then Some(First) else Some(Rest))
      else if c == 's' then
        (if id[1] == 'u' then Some(Substr) else if id[|id| - 1] == 'g' then Some(ToText) else Some(Strlen))
      else None
  }

  /** The primitive a call names, if any: the arms of the `match` on `id`. */
  function Named(id: string): Option<Prim>
  {
    match Candidate(id)
    case Some(p) => if Name(p) == id then Some(p) else None
    case None => None
  }

  /** Every primitive is found under its own name. */
  lemma NamedName(p: Prim)
    ensures Named(Name(p)) == Some(p)
  {
  }

  /** A name that is found names the primitive found. */
  lemma NameOfNamed(id: string)
    requires Named(id).Some?
    ensures Name(Named(id).value) == id
  {
  }

  /** The number of arguments each primitive expects. */
  function Arity(p: Prim): nat
  {
    match p
    case Add | Sub | Mul | Div | Rem | And | Or | Eq | Gt | Lt => 2
    case Cond | Substr => 3
    case _ => 1
  }

  /** The primitives that look at exception arguments themselves. */
  predicate Observes(id: string) { id == "?" || id == "catch" }

  /** The leftmost exception among the arguments, if any. */
  function FirstException(args: seq<Evaluation>): (r: Option<Evaluation>)
    ensures r.None? <==> forall i :: 0 <= i < |args| ==> !args[i].Exception?
    ensures r.Some? ==>
              exists k :: 0 <= k < |args| && args[k] == r.value && r.value.Exception?
                          && forall j :: 0 <= j < k ==> !args[j].Exception?
  {
    if args == [] then None
    else if args[0].Exception? then Some(args[0])
    else
      var r := FirstException(args[1..]);
      assert forall j :: 1 <= j < |args| ==> args[j] == args[1..][j - 1];
      r
  }

  /** The `ArgError` that `expect_args` builds when the count is wrong. */
  function ExpectArgs(count: nat, args: seq<Evaluation>): (r: Option<Evaluation>)
    ensures r.Some? <==> count != |args|
    ensures r.Some? ==> IsFault(r.value, ArgError)
  {
    if count != |args| then
      Some(Fault(ArgError, "expected argument list of length " + NatToString(count)
                           + " but got " + NatToString(|args|)))
    else None
  }

  function Bool(b: bool): Evaluation { if b then True else False }

  predicate IsNumeric(p: Prim) { p.Add? || p.Sub? || p.Mul? || p.Div? || p.Rem? }

  /** i64 arithmetic for `+`, `-`, `*`, `/`, `%` on two integers. */
  function IntOp(p: Prim, x: int, y: int): int
    requires IsNumeric(p) && ((p.Div? || p.Rem?) ==> y != 0)
  {
    match p
    case Add => x + y
    case Sub => x - y
    case Mul => x * y
    case Div => TDiv(x, y)
    case Rem => TRem(x, y)
  }

  /** Float arithmetic for `+`, `-`, `*`, `/`, supplied by the host. */
  function FloatOp(host: Host, p: Prim, x: F64, y: F64): F64
  {
    match p
    case Add => host.add(x, y)
    case Sub => host.sub(x, y)
    case Mul => host.mul(x, y)
    case _ => host.div(x, y)
  }

  /** The arguments on which primitive p panics in the Rust code: i64
      overflow in `+`, `-`, `*`, `/`, `%` and in the `start + len` of
      `substr`, and a zero divisor in `/` and `%`. */
  predicate PanicsOn(p: Prim, args: seq<Evaluation>)
    requires |args| == Arity(p)
  {
    match p
    case Add | Sub | Mul =>
      args[0].Integer? && args[1].Integer? && !IsI64(IntOp(p, args[0].i, args[1].i))
    case Div | Rem =>
      args[0].Integer? && args[1].Integer?
      && (args[1].i == 0 || (args[0].i == I64Min && args[1].i == -1))
    case Substr =>
      args[0].Str? && args[1].Integer? && args[2].Integer?
      && AsUsize(args[1].i) < |args[0].s| && !IsI64(args[1].i + args[2].i)
    case _ => false
  }

  /** The calls of `system_functions` that panic: a primitive reached past
      the poisoning scan and the arity check, on arguments it panics on. */
  predicate Panics(id: string, args: seq<Evaluation>)
  {
    match Named(id)
    case None => false
    case Some(p) =>
      |args| == Arity(p) && (Observes(id) || FirstException(args).None?) && PanicsOn(p, args)
  }

  function ConvertInt(host: Host, a: Evaluation): Evaluation
  {
    match a
    case Float(x) => Integer(host.toInt(x))
    case Str(s) =>
      (match ParseI64(s)
       case Some(n) => Integer(n)
       case None => Fault(ParseError, "unable to parse string: " + s))
    case _ => Fault(TypeError, "float or string argument expected")
  }

  function ConvertFloat(host: Host, a: Evaluation): Evaluation
  {
    match a
    case Integer(x) => Float(host.fromInt(x))
    case Str(s) =>
      (match host.parseFloat(s)
       case Some(f) => Float(f)
       case None => Fault(ParseError, "unable to parse string: " + s))
    case _ => Fault(TypeError, "int or string argument expected")
  }

  /** `+`: numbers add (promoting to float), strings and lists concatenate. */
  function Plus(host: Host, a: Evaluation, b: Evaluation): Evaluation
  {
    match a
    case Integer(x) =>
      (match b
       case Integer(y) => Integer(x + y)
       case Float(y) => Float(host.add(host.fromInt(x), y))
       case _ => Fault(TypeMismatch, "mismatched argument types"))
    case Float(x) =>
      (match b
       case Integer(y) => Float(host.add(x, host.fromInt(y)))
       case Float(y) => Float(host.add(x, y))
       case _ => Fault(TypeMismatch, "mismatched argument types"))
    case Str(s) =>
      (match b
       case Str(t) => Str(s + t)
       case _ => Fault(TypeMismatch, "mismatched argument types"))
    case List(xs) =>
      (match b
       case List(ys) => List(xs + ys)
       case _ => Fault(TypeMismatch, "can only append list to list"))
    case _ => Fault(TypeError, "numbers, strings, or list arguments expected")
  }

  /** `-`, `*`, `/`: numbers only, promoting to float when one side is a float. */
  function Arith(host: Host, p: Prim, a: Evaluation, b: Evaluation): Evaluation
    requires p.Sub? || p.Mul? || p.Div?
    requires p.Div? && a.Integer? && b.Integer? ==> b.i != 0
  {
    match a
    case Integer(x) =>
      (match b
       case Integer(y) => Integer(IntOp(p, x, y))
       case Float(y) => Float(FloatOp(host, p, host.fromInt(x), y))
       case _ => Fault(TypeError, "numeric arguments expected"))
    case Float(x) =>
      (match b
       case Integer(y) => Float(FloatOp(host, p, x, host.fromInt(y)))
       case Float(y) => Float(FloatOp(host, p, x, y))
       case _ => Fault(TypeError, "numeric arguments expected"))
    case _ => Fault(TypeError, "numeric arguments expected")
  }

  function Modulo(a: Evaluation, b: Evaluation): Evaluation
    requires a.Integer? && b.Integer? ==> b.i != 0
  {
    if a.Integer? && b.Integer? then Integer(TRem(a.i, b.i))
    else Fault(TypeError, "integer arguments expected")
  }

  /** The five numeric operators; an integer divisor of `/` and `%` is non-zero. */
  function Numeric(host: Host, p: Prim, a: Evaluation, b: Evaluation): Evaluation
    requires IsNumeric(p)
    requires (p.Div? || p.Rem?) && a.Integer? && b.Integer? ==> b.i != 0
  {
    match p
    case Add => Plus(host, a, b)
    case Rem => Modulo(a, b)
    case _ => Arith(host, p, a, b)
  }

  /** `&` and `|` on two booleans. */
  function Logic(p: Prim, a: Evaluation, b: Evaluation): Evaluation
  {
    if (a.True? || a.False?) && (b.True? || b.False?) then
      Bool(if p.And? then a.True? && b.True? else a.True? || b.True?)
    else Fault(TypeError, "boolean arguments expected")
  }

  /** `>` and `<` on numbers, promoting to float when one side is a float. */
  function Compare(host: Host, p: Prim, a: Evaluation, b: Evaluation): Evaluation
  {
    if a.Integer? && b.Integer? then
      Bool(if p.Gt? then a.i > b.i else a.i < b.i)
    else if (a.Integer? || a.Float?) && (b.Integer? || b.Float?) then
      var x := if a.Integer? then host.fromInt(a.i) else a.f;
      var y := if b.Integer? then host.fromInt(b.i) else b.f;
      Bool(if p.Gt? then host.gt(x, y) else host.lt(x, y))
    else Fault(TypeError, "numeric arguments expected")
  }

  /** Structural equality as `=` computes it: same variant and equal
      contents; lists element by element; functions and exceptions are
      never equal to anything. */
  function Equal(host: Host, a: Evaluation, b: Evaluation): bool
    decreases a
  {
    match a
    case True => b.True?
    case False => b.False?
    case Integer(x) => b.Integer? && x == b.i
    case Float(x) => b.Float? && host.eq(x, b.f)
    case Str(x) => b.Str? && x == b.s
    case List(xs) =>
      b.List? && |xs| == |b.items|
      && forall i :: 0 <= i < |xs| ==> Equal(host, xs[i], b.items[i])
    case _ => false
  }

  /** `substr(s, start, len)` with the bounds `start as usize >= s.len()` and
      `(start + len) as usize >= s.len()`, then skip and take on the characters. */
  function Substring(s: string, start: int, len: int): string
    requires AsUsize(start) < |s| ==> IsI64(start + len)
  {
    if AsUsize(start) >= |s| then ""
    else if AsUsize(start + len) >= |s| then s[AsUsize(start)..]
    else
      var from := AsUsize(start);
      var n := AsUsize(len);
      if from + n <= |s| then s[from..from + n] else s[from..]
  }

  function Car(a: Evaluation): Evaluation
  {
    if !a.List? then Fault(TypeError, "list argument expected")
    else if |a.items| == 0 then Fault(RuntimeError, "attempt to get first item of empty list")
    else a.items[0]
  }

  function Cdr(a: Evaluation): Evaluation
  {
    if !a.List? then Fault(TypeError, "list argument expected")
    else if |a.items| > 0 then List(a.items[1..])
    else a
  }

  /** `Exception::to_list`: the flavour's name, the payload and the stack as strings. */
  function ExceptionToList(e: Exception): (r: seq<Evaluation>)
    ensures |r| == 3 && r[0] == Str(FlavorName(e.flavor)) && r[1] == e.payload
    ensures r[2].List? && |r[2].items| == |e.stack|
    ensures forall i :: 0 <= i < |e.stack| ==> r[2].items[i] == Str(e.stack[i])
  {
    [Str(FlavorName(e.flavor)), e.payload, List(seq(|e.stack|, i requires 0 <= i < |e.stack| => Str(e.stack[i])))]
  }

  function Catch(a: Evaluation): Evaluation
  {
    if a.Exception? then List(ExceptionToList(a.ex)) else List([Str("ok"), a])
  }

  /** The arm of primitive p, once poisoning and arity have been checked. */
  function Apply(host: Host, p: Prim, args: seq<Evaluation>): Evaluation
    requires |args| == Arity(p) && !PanicsOn(p, args)
  {
    match p
    case ToInt => ConvertInt(host, args[0])
    case ToFloat => ConvertFloat(host, args[0])
    case ToText => Str(host.render(args[0]))
    case Print => if args[0].Str? then False else Fault(TypeError, "string argument expected")
    case Add | Sub | Mul | Div | Rem => Numeric(host, p, args[0], args[1])
    case Not =>
      if args[0].True? then False else if args[0].False? then True
      else Fault(TypeError, "boolean argument expected")
    case And | Or => Logic(p, args[0], args[1])
    case Cond =>
      if args[0].Exception? then args[0]
      else if args[0].True? then args[1]
      else if args[0].False? then args[2]
      else Fault(TypeError, "expected boolean for first argument")
    case Eq => Bool(Equal(host, args[0], args[1]))
    case Gt | Lt => Compare(host, p, args[0], args[1])
    case Substr =>
      if !args[0].Str? then Fault(TypeError, "first argument must be string")
      else if !args[1].Integer? then Fault(TypeError, "second argument expects integer for start")
      else if !args[2].Integer? then Fault(TypeError, "third argument expects integer for length")
      else Str(Substring(args[0].s, args[1].i, args[2].i))
    case Strlen => if args[0].Str? then Integer(|args[0].s|) else Fault(TypeError, "string argument expected")
    case First => Car(args[0])
    case Rest => Cdr(args[0])
    case Try => Catch(args[0])
    case Raise => Exception(Exn(Error, args[0], []))
    case Ret => Exception(Exn(Return, args[0], []))
  }

  /** `system_functions`: poisoning, then the primitive's arity check and
      arm; a name that is no primitive is an `UndefError`. */
  function Dispatch(host: Host, id: string, args: seq<Evaluation>): Evaluation
    requires !Panics(id, args)
  {
    if !Observes(id) && FirstException(args).Some? then FirstException(args).value
    else match Named(id)
      case None => Fault(UndefError, "function is not defined in scope")
      case Some(p) =>
        match ExpectArgs(Arity(p), args)
        case Some(e) => e
        case None => Apply(host, p, args)
  }

  /** Once poisoning and arity are settled, `system_functions` runs the primitive's arm. */
  lemma DispatchApplies(host: Host, id: string, args: seq<Evaluation>)
    requires Named(id).Some? && |args| == Arity(Named(id).value) && !Panics(id, args)
    requires Observes(id) || FirstException(args).None?
    ensures !PanicsOn(Named(id).value, args)
    ensures Dispatch(host, id, args) == Apply(host, Named(id).value, args)
  {
  }

  // ------------------------------------------------ the loops of the source

  /** The poisoning scan: the first exception among the arguments, left to right. */
  method FindException(args: seq<Evaluation>) returns (r: Option<Evaluation>)
    ensures r == FirstException(args)
  {
    var i := 0;
    while i < |args|
      invariant 0 <= i <= |args|
      invariant FirstException(args) == FirstException(args[i..])
    {
      assert args[i..][1..] == args[i + 1..];
      if args[i].Exception? {
        return Some(args[i]);
      }
      i := i + 1;
    }
    return None;
  }

  /** List append for `+`: the first list's items, then the second's. */
  method AppendItems(xs: seq<Evaluation>, ys: seq<Evaluation>) returns (rc: seq<Evaluation>)
    ensures rc == xs + ys
  {
    rc := [];
    for i := 0 to |xs|
      invariant rc == xs[..i]
    {
      rc := rc + [xs[i]];
    }
    for i := 0 to |ys|
      invariant rc == xs + ys[..i]
    {
      rc := rc + [ys[i]];
    }
  }

  /** `=` on two values, comparing lists item by item and stopping at the
      first pair that is not equal. */
  method Equals(host: Host, a: Evaluation, b: Evaluation) returns (r: bool)
    ensures r == Equal(host, a, b)
    decreases a
  {
    if a.List? && b.List? {
      if |a.items| != |b.items| {
        return false;
      }
      for n := 0 to |a.items|
        invariant forall i :: 0 <= i < n ==> Equal(host, a.items[i], b.items[i])
      {
        var same := Equals(host, a.items[n], b.items[n]);
        if !same {
          return false;
        }
      }
      return true;
    }
    r := Equal(host, a, b);
  }

  /** `system_functions`: the scan for a poisoning exception, then the
      primitive, with the loops of list append and list equality. */
  method SystemFunctions(host: Host, id: string, args: seq<Evaluation>) returns (r: Evaluation)
    requires !Panics(id, args)
    ensures r == Dispatch(host, id, args)
  {
    if !Observes(id) {
      var poison := FindException(args);
      if poison.Some? {
        return poison.value;
      }
    }
    if id == "+" && |args| == 2 && args[0].List? && args[1].List? {
      DispatchApplies(host, id, args);
      var items := AppendItems(args[0].items, args[1].items);
      return List(items);
    }
    if id == "=" && |args| == 2 {
      DispatchApplies(host, id, args);
      var same := Equals(host, args[0], args[1]);
      return Bool(same);
    }
    r := Dispatch(host, id, args);
  }
}
