/** The tree-walking evaluator: expressions run against a mutable stack of
    frames, each holding the functions defined in it and the argument list of
    the call that pushed it.

    The functions `Evaluate`, `EvaluateCall`, `EvaluateComma`, `Invocation`,
    `EvaluateItems` and `EvaluateBlock` are the reference semantics: each
    gives the run of a piece of the program from a stack, and the stack it
    leaves.  The methods of `Interpreter` update the stack in place and are
    proved to compute them.

    A user program may recurse forever, so every call of a user function
    hands its block one unit of `fuel` less than it was given; a call made
    with no fuel left is the `OutOfFuel` halt, so fuel bounds the depth of
    nested calls.  A Rust panic of a built-in (integer overflow, a zero
    divisor) is the `Panic` halt. */
module Evaluator {
  import opened Encoding
  import Primitives

  datatype Halt = OutOfFuel | Panic

  /** A finished evaluation, or the reason it stopped. */
  datatype Run<+T> = Done(value: T) | Stuck(reason: Halt)

  /** A run together with the stack it leaves behind. */
  datatype Outcome<+T> = Outcome(run: Run<T>, frames: seq<Frame>)

  /** The value of a literal expression; `None` for lists, calls and definitions. */
  function Literal(e: Expression): Option<Evaluation>
  {
    match e
    case TrueLit => Some(True)
    case FalseLit => Some(False)
    case IntLit(i) => Some(Integer(i))
    case FloatLit(f) => Some(Float(f))
    case StrLit(s) => Some(Str(s))
    case _ => None
  }

  predicate AllLiteral(items: seq<Expression>)
  {
    forall i :: 0 <= i < |items| ==> Literal(items[i]).Some?
  }

  function LiteralValues(items: seq<Expression>): (r: seq<Evaluation>)
    requires AllLiteral(items)
    ensures |r| == |items| && forall i :: 0 <= i < |items| ==> r[i] == Literal(items[i]).value
  {
    seq(|items|, i requires 0 <= i < |items| => Literal(items[i]).value)
  }

  // ---------------------------------------------------------------- lookup

  /** The index of the highest frame that binds `id`: calls resolve from the
      innermost frame outwards. */
  function Innermost(frames: seq<Frame>, id: string): (r: Option<nat>)
    ensures r.None? <==> forall j :: 0 <= j < |frames| ==> id !in frames[j].bindings
    ensures r.Some? ==> r.value < |frames| && id in frames[r.value].bindings
                        && forall j :: r.value < j < |frames| ==> id !in frames[j].bindings
    decreases |frames|
  {
    if frames == [] then None
    else if id in frames[|frames| - 1].bindings then Some(|frames| - 1)
    else Innermost(frames[..|frames| - 1], id)
  }

  lemma InnermostStep(frames: seq<Frame>, i: nat, id: string)
    requires 0 < i <= |frames|
    ensures Innermost(frames[..i], id)
            == if id in frames[i - 1].bindings then Some(i - 1) else Innermost(frames[..i - 1], id)
  {
    assert frames[..i][..i - 1] == frames[..i - 1];
  }

  /** The lookup loop of `Call::evaluate`, from the top frame down. */
  method FindBinding(frames: seq<Frame>, id: string) returns (x: Option<nat>)
    ensures x == Innermost(frames, id)
  {
    var i := |frames|;
    while i > 0
      invariant 0 <= i <= |frames|
      invariant Innermost(frames, id) == Innermost(frames[..i], id)
    {
      InnermostStep(frames, i, id);
      if id in frames[i - 1].bindings {
        return Some(i - 1);
      }
      i := i - 1;
    }
    return None;
  }

  predicate AllUnderscores(id: string)
  {
    forall i :: 0 <= i < |id| ==> id[i] == '_'
  }

  /** The depth loop of an underscore id: the number of underscores, or
      `None` at the first other character. */
  method UnderscoreDepth(id: string) returns (depth: Option<nat>)
    ensures depth.Some? <==> AllUnderscores(id)
    ensures depth.Some? ==> depth.value == |id|
  {
    var d := 0;
    for i := 0 to |id|
      invariant d == i && AllUnderscores(id[..i])
    {
      if id[i] != '_' {
        assert !AllUnderscores(id);
        return None;
      }
      d := d + 1;
      assert id[..i + 1] == id[..i] + [id[i]];
    }
    assert id[..|id|] == id;
    return Some(d);
  }

  /** A call that reaches the built-ins: no frame binds the id, it is not the
      comma and does not start with an underscore. */
  ghost predicate PrimitiveCall(frames: seq<Frame>, e: Expression)
  {
    e.Call? && Innermost(frames, e.id).None? && e.id != ","
    && !(|e.id| > 0 && e.id[0] == '_')
  }

  // ---------------------------------------------------------------- frames

  /** `g` is `f` with its parameters kept and its bindings only added to. */
  predicate Extends(f: Frame, g: Frame)
  {
    g.param == f.param
    && forall k :: k in f.bindings ==> k in g.bindings && g.bindings[k] == f.bindings[k]
  }

  /** What an expression may do to the stack: outer frames untouched, the
      innermost frame extended, frames left above it. */
  ghost predicate Grows(before: seq<Frame>, after: seq<Frame>)
  {
    0 < |before| <= |after|
    && after[..|before| - 1] == before[..|before| - 1]
    && Extends(before[|before| - 1], after[|before| - 1])
  }

  /** What a block may do to the stack below it: nothing. */
  ghost predicate Keeps(before: seq<Frame>, after: seq<Frame>)
  {
    |before| <= |after| && after[..|before|] == before
  }

  lemma GrowsTransitive(a: seq<Frame>, b: seq<Frame>, c: seq<Frame>)
    requires Grows(a, b) && Grows(b, c)
    ensures Grows(a, c)
  {
    assert c[..|a| - 1] == c[..|b| - 1][..|a| - 1];
    assert b[..|a| - 1] == b[..|b| - 1][..|a| - 1];
    if |a| < |b| {
      assert c[|a| - 1] == c[..|b| - 1][|a| - 1];
    }
  }

  lemma KeepsGrows(a: seq<Frame>, b: seq<Frame>)
    requires 0 < |a| && Keeps(a, b)
    ensures Grows(a, b)
  {
    assert b[..|a| - 1] == b[..|a|][..|a| - 1];
    assert b[|a| - 1] == b[..|a|][|a| - 1];
  }

  /** `frames` after `id` is bound to `body` in the innermost frame. */
  function Bind(frames: seq<Frame>, id: string, body: Block): (r: seq<Frame>)
    requires |frames| > 0
    ensures |r| == |frames| && r[..|frames| - 1] == frames[..|frames| - 1]
    ensures r[|frames| - 1].param == frames[|frames| - 1].param
    ensures r[|frames| - 1].bindings == frames[|frames| - 1].bindings[id := body]
  {
    var top := frames[|frames| - 1];
    frames[..|frames| - 1] + [Frame(top.bindings[id := body], top.param)]
  }

  /** A definition shadows every outer binding of its id: calls of that id
      from the same frame now reach the new body. */
  lemma DefinitionShadows(frames: seq<Frame>, id: string, body: Block)
    requires |frames| > 0
    ensures Innermost(Bind(frames, id, body), id) == Some(|frames| - 1)
    ensures Bind(frames, id, body)[|frames| - 1].bindings[id] == body
  {
  }

  /** A definition changes no other id's lookup. */
  lemma DefinitionIsLocal(frames: seq<Frame>, id: string, body: Block, other: string)
    requires |frames| > 0 && other != id
    ensures Innermost(Bind(frames, id, body), other) == Innermost(frames, other)
    ensures Innermost(frames, other).Some? ==>
              Bind(frames, id, body)[Innermost(frames, other).value].bindings[other]
              == frames[Innermost(frames, other).value].bindings[other]
  {
    var b := Bind(frames, id, body);
    InnermostAgrees(frames, b, other);
  }

  /** Two stacks whose frames bind `id` alike (and to the same bodies) resolve
      `id` to the same frame. */
  lemma {:induction false} InnermostAgrees(f: seq<Frame>, g: seq<Frame>, id: string)
    requires |f| == |g|
    requires forall j :: 0 <= j < |f| ==> (id in f[j].bindings <==> id in g[j].bindings)
    ensures Innermost(f, id) == Innermost(g, id)
    decreases |f|
  {
    if f != [] {
      var n := |f| - 1;
      if id !in f[n].bindings {
        InnermostAgrees(f[..n], g[..n], id);
      }
    }
  }

  /** A callee's frame starts with no bindings, so every id the caller could
      reach resolves to the same frame from inside the callee: scoping is
      dynamic, along the stack of calls. */
  lemma CalleeSeesCallerBindings(frames: seq<Frame>, param: seq<Evaluation>, id: string)
    ensures Innermost(frames + [Frame(map[], param)], id) == Innermost(frames, id)
  {
    assert (frames + [Frame(map[], param)])[..|frames|] == frames;
  }

  /** The stack a block starts from keeps everything below the innermost
      frame of a stack that grew from it. */
  lemma KeepsBelow(a: seq<Frame>, b: seq<Frame>, c: seq<Frame>)
    requires Grows(a, b) && 0 < |b| && Keeps(b[..|b| - 1], c)
    ensures Keeps(a[..|a| - 1], b) && Keeps(a[..|a| - 1], c)
  {
    assert b[..|a| - 1] == b[..|b| - 1][..|a| - 1];
    assert c[..|a| - 1] == c[..|b| - 1][..|a| - 1];
  }

  // ------------------------------------------------------------- semantics

  /** The values `vs` put in front of a run of further values. */
  function Prepend(vs: seq<Evaluation>, r: Run<seq<Evaluation>>): (p: Run<seq<Evaluation>>)
    ensures p.Stuck? <==> r.Stuck?
    ensures p.Done? ==> |p.value| == |vs| + |r.value| && p.value[..|vs|] == vs && p.value[|vs|..] == r.value
  {
    if r.Stuck? then r else Done(vs + r.value)
  }

  /** The parameter list an id of underscores reaches: that of the frame
      `depth` from the top, where `depth` is the number of underscores. */
  function Params(frames: seq<Frame>, id: string): (v: Evaluation)
    requires |id| > 0
    ensures AllUnderscores(id) && |id| <= |frames| ==> v == List(frames[|frames| - |id|].param)
    ensures !(AllUnderscores(id) && |id| <= |frames|) ==> IsFault(v, TypeError)
  {
    if !AllUnderscores(id) then Fault(TypeError, "function is not defined in scope")
    else if |id| > |frames| then Fault(TypeError, "attempt to reach out of main scope")
    else List(frames[|frames| - |id|].param)
  }

  /** What an exception that ends a block becomes: a `Return` gives its
      payload, any other exception gets the block's context appended. */
  function Unwind(ex: Exception, context: string): (v: Evaluation)
    ensures ex.flavor == Return ==> v == ex.payload
    ensures ex.flavor != Return ==>
              v.Exception? && v.ex.flavor == ex.flavor && v.ex.payload == ex.payload
              && v.ex.stack == ex.stack + [context]
  {
    if ex.flavor == Return then ex.payload else Exception(Exn(ex.flavor, ex.payload, ex.stack + [context]))
  }

  /** `Expression::evaluate`: the run of `e` from `frames`, and the stack it leaves. */
  function Evaluate(host: Host, frames: seq<Frame>, e: Expression, fuel: nat): (o: Outcome<Evaluation>)
    requires |frames| > 0
    ensures Grows(frames, o.frames)
    decreases fuel, e, 3
  {
    match e
    case ListLit(items) =>
      var l := EvaluateItems(host, frames, items, 0, fuel);
      Outcome(if l.run.Stuck? then Stuck(l.run.reason) else Done(List(l.run.value)), l.frames)
    case Call(_, _) => EvaluateCall(host, frames, e, fuel)
    case Definition(name, body) =>
      if name in frames[|frames| - 1].bindings then
        Outcome(Done(Fault(RedefError, "attempt to redefine " + name)), frames)
      else Outcome(Done(Function(body)), Bind(frames, name, body))
    case _ => Outcome(Done(Literal(e).value), frames)
  }

  /** `List::evaluate` from item i on: every item in order, an exception
      value kept as an item like any other; only a halt stops it. */
  function EvaluateItems(host: Host, frames: seq<Frame>, items: seq<Expression>, i: nat, fuel: nat)
    : (o: Outcome<seq<Evaluation>>)
    requires |frames| > 0 && i <= |items|
    ensures Grows(frames, o.frames)
    ensures o.run.Done? ==> |o.run.value| == |items| - i
    decreases fuel, items, |items| - i
  {
    if i == |items| then Outcome(Done([]), frames)
    else
      var first := Evaluate(host, frames, items[i], fuel);
      if first.run.Stuck? then Outcome(Stuck(first.run.reason), first.frames)
      else
        var rest := EvaluateItems(host, first.frames, items, i + 1, fuel);
        GrowsTransitive(frames, first.frames, rest.frames);
        Outcome(Prepend([first.run.value], rest.run), rest.frames)
  }

  /** `Call::evaluate`: a user function found from the innermost frame out
      (looked up before its arguments are evaluated), else the comma apply,
      else a parameter list by underscore depth, else a built-in on the
      argument values. */
  function EvaluateCall(host: Host, frames: seq<Frame>, e: Expression, fuel: nat): (o: Outcome<Evaluation>)
    requires e.Call? && |frames| > 0
    ensures Grows(frames, o.frames)
    decreases fuel, e, 2
  {
    match Innermost(frames, e.id)
    case Some(x) => Invocation(host, frames, e, frames[x].bindings[e.id], e.args, fuel)
    case None =>
      if e.id == "," then EvaluateComma(host, frames, e, fuel)
      else if |e.id| > 0 && e.id[0] == '_' then Outcome(Done(Params(frames, e.id)), frames)
      else
        var args := EvaluateItems(host, frames, e.args, 0, fuel);
        if args.run.Stuck? then Outcome(Stuck(args.run.reason), args.frames)
        else if Primitives.Panics(e.id, args.run.value) then Outcome(Stuck(Panic), args.frames)
        else Outcome(Done(Primitives.Dispatch(host, e.id, args.run.value)), args.frames)
  }

  /** The comma apply `,[f, [args]]`: the first argument must evaluate to a
      function and the second must be a list literal, whose values the
      function's block then runs on. */
  function EvaluateComma(host: Host, frames: seq<Frame>, e: Expression, fuel: nat): (o: Outcome<Evaluation>)
    requires e.Call? && e.id == "," && |frames| > 0
    ensures Grows(frames, o.frames)
    decreases fuel, e, 1
  {
    if |e.args| < 2 then
      Outcome(Done(Fault(ArgError, "expected argument list of length 2 but got " + NatToString(|e.args|))), frames)
    else
      var first := Evaluate(host, frames, e.args[0], fuel);
      if first.run.Stuck? || first.run.value.Exception? then first
      else if !first.run.value.Function? then
        Outcome(Done(Fault(TypeError, "function expected as first argument")), first.frames)
      else if !e.args[1].ListLit? then
        Outcome(Done(Fault(TypeError, "list expected as second argument")), first.frames)
      else
        var applied := Invocation(host, first.frames, e, first.run.value.body, e.args[1].items, fuel);
        GrowsTransitive(frames, first.frames, applied.frames);
        applied
  }

  /** A call of a user function: the argument items in order, then the
      function's block on their values with the call's id as context, given
      one unit of fuel less. */
  function Invocation(host: Host, frames: seq<Frame>, e: Expression, body: Block, items: seq<Expression>, fuel: nat)
    : (o: Outcome<Evaluation>)
    requires e.Call? && |frames| > 0
    requires items == e.args || (|e.args| >= 2 && e.args[1] == ListLit(items))
    ensures Grows(frames, o.frames)
    decreases fuel, e, 0
  {
    var args := EvaluateItems(host, frames, items, 0, fuel);
    if args.run.Stuck? then Outcome(Stuck(args.run.reason), args.frames)
    else if fuel == 0 then Outcome(Stuck(OutOfFuel), args.frames)
    else
      var result := EvaluateBlock(host, args.frames, body, args.run.value, e.id, fuel - 1);
      KeepsGrows(args.frames, result.frames);
      GrowsTransitive(frames, args.frames, result.frames);
      result
  }

  /** `Block::evaluate`: push a frame holding `param`, then run the
      expressions from the first; the frames below are never touched. */
  function EvaluateBlock(host: Host, frames: seq<Frame>, b: Block, param: seq<Evaluation>, context: string, fuel: nat)
    : (o: Outcome<Evaluation>)
    ensures Keeps(frames, o.frames)
    decreases fuel, b, |b.expressions| + 1
  {
    var pushed := frames + [Frame(map[], param)];
    assert pushed[..|pushed| - 1] == frames;
    BlockFrom(host, pushed, b, context, 0, False, fuel)
  }

  /** The loop of `Block::evaluate` from expression i on, `value` being the
      last value so far: an exception ends the block through Unwind without
      popping a frame, and the normal exit pops the top frame. */
  function BlockFrom(host: Host, frames: seq<Frame>, b: Block, context: string, i: nat, value: Evaluation, fuel: nat)
    : (o: Outcome<Evaluation>)
    requires |frames| > 0 && i <= |b.expressions|
    ensures Keeps(frames[..|frames| - 1], o.frames)
    decreases fuel, b, |b.expressions| - i
  {
    if i == |b.expressions| then Outcome(Done(value), frames[..|frames| - 1])
    else
      var step := Evaluate(host, frames, b.expressions[i], fuel);
      KeepsBelow(frames, step.frames, step.frames[..|step.frames| - 1]);
      if step.run.Stuck? then step
      else if step.run.value.Exception? then Outcome(Done(Unwind(step.run.value.ex, context)), step.frames)
      else
        var rest := BlockFrom(host, step.frames, b, context, i + 1, step.run.value, fuel);
        KeepsBelow(frames, step.frames, rest.frames);
        rest
  }

  // ----------------------------------------------------------- interpreter

  class Interpreter {
    /** The scope stack; the innermost frame is last. */
    var frames: seq<Frame>
    const host: Host

    constructor(host: Host)
      ensures frames == [] && this.host == host
    {
      this.host := host;
      frames := [];
    }

    /** `Definition::evaluate`: bind in the innermost frame, unless it already
        binds the id; outer frames are not consulted. */
    method EvalDefinition(id: string, body: Block) returns (r: Evaluation)
      requires |frames| > 0
      modifies this
      ensures id in old(frames[|frames| - 1].bindings) ==>
                r == Fault(RedefError, "attempt to redefine " + id) && frames == old(frames)
      ensures id !in old(frames[|frames| - 1].bindings) ==>
                r == Function(body) && frames == Bind(old(frames), id, body)
    {
      var top := frames[|frames| - 1];
      if id in top.bindings {
        return Fault(RedefError, "attempt to redefine " + id);
      }
      frames := Bind(frames, id, body);
      return Function(body);
    }

    /** `List::evaluate`. */
    method EvalList(items: seq<Expression>, fuel: nat) returns (r: Run<seq<Evaluation>>)
      requires |frames| > 0
      modifies this
      ensures Outcome(r, frames) == EvaluateItems(host, old(frames), items, 0, fuel)
      decreases fuel, items, |items| + 1
    {
      var values: seq<Evaluation> := [];
      for i := 0 to |items|
        invariant |frames| > 0
        invariant var rest := EvaluateItems(host, frames, items, i, fuel);
                  EvaluateItems(host, old(frames), items, 0, fuel) == Outcome(Prepend(values, rest.run), rest.frames)
      {
        var v := EvalExpression(items[i], fuel);
        if v.Stuck? {
          return Stuck(v.reason);
        }
        PrependTwice(values, v.value, EvaluateItems(host, frames, items, i + 1, fuel).run);
        values := values + [v.value];
      }
      assert values + [] == values;
      return Done(values);
    }

    /** `Expression::evaluate`. */
    method EvalExpression(e: Expression, fuel: nat) returns (r: Run<Evaluation>)
      requires |frames| > 0
      modifies this
      ensures Outcome(r, frames) == Evaluate(host, old(frames), e, fuel)
      decreases fuel, e, 3
    {
      match e
      case ListLit(items) =>
        var values := EvalList(items, fuel);
        if values.Stuck? {
          return Stuck(values.reason);
        }
        return Done(List(values.value));
      case Call(_, _) =>
        r := EvalCall(e, fuel);
      case Definition(name, body) =>
        var v := EvalDefinition(name, body);
        return Done(v);
      case _ =>
        return Done(Literal(e).value);
    }

    /** `Call::evaluate`. */
    method EvalCall(e: Expression, fuel: nat) returns (r: Run<Evaluation>)
      requires e.Call? && |frames| > 0
      modifies this
      ensures Outcome(r, frames) == EvaluateCall(host, old(frames), e, fuel)
      decreases fuel, e, 2
    {
      var id, args := e.id, e.args;
      var found := FindBinding(frames, id);
      if found.Some? {
        var body := frames[found.value].bindings[id];
        r := Invoke(e, body, args, fuel);
        return;
      }
      if id == "," {
        r := EvalComma(e, fuel);
        return;
      }
      if |id| > 0 && id[0] == '_' {
        var depth := UnderscoreDepth(id);
        if depth.None? {
          return Done(Fault(TypeError, "function is not defined in scope"));
        }
        if depth.value > |frames| {
          return Done(Fault(TypeError, "attempt to reach out of main scope"));
        }
        return Done(List(frames[|frames| - depth.value].param));
      }
      var values := EvalList(args, fuel);
      if values.Stuck? {
        return Stuck(values.reason);
      }
      if Primitives.Panics(id, values.value) {
        return Stuck(Panic);
      }
      var v := Primitives.SystemFunctions(host, id, values.value);
      return Done(v);
    }

    /** The comma apply of `Call::evaluate`. */
    method EvalComma(e: Expression, fuel: nat) returns (r: Run<Evaluation>)
      requires e.Call? && e.id == "," && |frames| > 0
      modifies this
      ensures Outcome(r, frames) == EvaluateComma(host, old(frames), e, fuel)
      decreases fuel, e, 1
    {
      var args := e.args;
      if |args| < 2 {
        return Done(Fault(ArgError, "expected argument list of length 2 but got " + NatToString(|args|)));
      }
      var first := EvalExpression(args[0], fuel);
      if first.Stuck? || first.value.Exception? {
        return first;
      }
      if !first.value.Function? {
        return Done(Fault(TypeError, "function expected as first argument"));
      }
      if !args[1].ListLit? {
        return Done(Fault(TypeError, "list expected as second argument"));
      }
      r := Invoke(e, first.value.body, args[1].items, fuel);
    }

    /** A call of a user function. */
    method Invoke(e: Expression, body: Block, items: seq<Expression>, fuel: nat) returns (r: Run<Evaluation>)
      requires e.Call? && |frames| > 0
      requires items == e.args || (|e.args| >= 2 && e.args[1] == ListLit(items))
      modifies this
      ensures Outcome(r, frames) == Invocation(host, old(frames), e, body, items, fuel)
      decreases fuel, e, 0
    {
      var evaluated := EvalList(items, fuel);
      if evaluated.Stuck? {
        return Stuck(evaluated.reason);
      }
      if fuel == 0 {
        return Stuck(OutOfFuel);
      }
      r := EvalBlock(body, evaluated.value, e.id, fuel - 1);
    }

    /** `Block::evaluate`: push a frame holding `param`, evaluate the
        expressions in order, and pop the top frame.  A `Return` exception
        ends the block with its payload; any other exception ends it with
        `context` appended to its stack.  On both exception exits no frame
        is popped. */
    method EvalBlock(b: Block, param: seq<Evaluation>, context: string, fuel: nat) returns (r: Run<Evaluation>)
      modifies this
      ensures Outcome(r, frames) == EvaluateBlock(host, old(frames), b, param, context, fuel)
      decreases fuel, b, |b.expressions| + 1
    {
      frames := frames + [Frame(map[], param)];
      var value := False;
      for i := 0 to |b.expressions|
        invariant |frames| > 0
        invariant EvaluateBlock(host, old(frames), b, param, context, fuel)
                  == BlockFrom(host, frames, b, context, i, value, fuel)
      {
        var v := EvalExpression(b.expressions[i], fuel);
        if v.Stuck? {
          return v;
        }
        if v.value.Exception? {
          return Done(Unwind(v.value.ex, context));
        }
        value := v.value;
      }
      frames := frames[..|frames| - 1];
      return Done(value);
    }
  }

  lemma PrependTwice(vs: seq<Evaluation>, v: Evaluation, r: Run<seq<Evaluation>>)
    ensures Prepend(vs, Prepend([v], r)) == Prepend(vs + [v], r)
  {
    if r.Done? {
      assert vs + ([v] + r.value) == vs + [v] + r.value;
    }
  }
}
