/** The interpreter's internal representation: tokens, the syntax tree,
    runtime values and exceptions, and the host services (floating point,
    value rendering) that the model takes as parameters. */
module Encoding {

  datatype Option<+T> = None | Some(value: T)

  /** Either a value or the parse error the program reports before exiting:
      the line number and line text shown with the message. */
  datatype Result<+T> = Ok(value: T) | Fail(lnum: int, line: string, msg: string)

  /** A 64-bit float, kept as its bit pattern; its arithmetic comes from the Host. */
  type F64 = bv64

  const I64Min: int := -0x8000_0000_0000_0000
  const I64Max: int := 0x7fff_ffff_ffff_ffff

  predicate IsI64(x: int) { I64Min <= x <= I64Max }

  // ---------------------------------------------------------------- tokens

  datatype TokenValue =
    | Colon | Semicolon | OpenBracket | CloseBracket
    | Id(name: string) | IntTok(i: int) | FloatTok(f: F64) | StrTok(s: string)
    | TrueTok | FalseTok | EOF

  /** A token with the 1-based number and the text of its line (-1 and "" for EOF). */
  datatype Token = Token(value: TokenValue, lnum: int, line: string)

  // ----------------------------------------------------------- syntax tree

  datatype Expression =
    | TrueLit | FalseLit | IntLit(i: int) | FloatLit(f: F64) | StrLit(s: string)
    | ListLit(items: seq<Expression>)
    | Call(id: string, args: seq<Expression>)
    | Definition(name: string, body: Block)

  datatype Block = Block(expressions: seq<Expression>)

  // --------------------------------------------------------- runtime values

  datatype Flavor =
    | Return | Error | ArgError | ParseError | TypeError | TypeMismatch
    | DivByZero | RuntimeError | UndefError | RedefError

  datatype Evaluation =
    | True | False | Integer(i: int) | Float(f: F64) | Str(s: string)
    | List(items: seq<Evaluation>)
    | Function(body: Block)
    | Exception(ex: Exception)

  datatype Exception = Exn(flavor: Flavor, payload: Evaluation, stack: seq<string>)

  /** A call frame: the functions defined in it and its own argument list. */
  datatype Frame = Frame(bindings: map<string, Block>, param: seq<Evaluation>)

  /** Services of the host language that the model does not reimplement:
      IEEE arithmetic and comparison, int/float conversion, float parsing and
      the display form used by the `string` primitive. */
  datatype Host = Host(
    fromInt: int -> F64,
    toInt: F64 -> int,
    add: (F64, F64) -> F64,
    sub: (F64, F64) -> F64,
    mul: (F64, F64) -> F64,
    div: (F64, F64) -> F64,
    eq: (F64, F64) -> bool,
    gt: (F64, F64) -> bool,
    lt: (F64, F64) -> bool,
    parseFloat: string -> Option<F64>,
    render: Evaluation -> string)

  /** The display name of each exception flavour. */
  function FlavorName(f: Flavor): string
  {
    match f
    case Return => "return"
    case Error => "error"
    case ArgError => "parameter length"
    case ParseError => "parse error"
    case TypeError => "type error"
    case TypeMismatch => "type mismatch"
    case DivByZero => "division by zero"
    case RuntimeError => "runtime error"
    case UndefError => "undefined function"
    case RedefError => "redefinition error"
  }

  /** Different flavours have different names, so `catch` output identifies the flavour. */
  lemma FlavorNameInjective(f: Flavor, g: Flavor)
    requires FlavorName(f) == FlavorName(g)
    ensures f == g
  {
  }

  /** A runtime fault of the given flavour raised by the interpreter itself.
      The payload carries the diagnostic text; the stack starts empty. */
  function Fault(flavor: Flavor, msg: string): (r: Evaluation)
    ensures r.Exception? && r.ex.flavor == flavor && r.ex.stack == []
  {
    Exception(Exn(flavor, Str(msg), []))
  }

  predicate IsFault(r: Evaluation, flavor: Flavor)
  {
    r.Exception? && r.ex.flavor == flavor
  }

  /** Decimal digits of a natural number. */
  function NatToString(n: nat): (s: string)
    ensures |s| >= 1
    ensures forall i :: 0 <= i < |s| ==> '0' <= s[i] <= '9'
    decreases n
  {
    var d := [(('0' as int) + n % 10) as char];
    if n < 10 then d else NatToString(n / 10) + d
  }
}
