/** What the evaluator promises, stated over its reference semantics
    (Evaluator.Evaluate and the functions beside it). */
module EvaluatorProperties {
  import opened Encoding
  import opened Evaluator
  import Primitives

  // ----------------------------------------------------------- expressions

  /** A literal evaluates to itself and leaves the stack alone. */
  lemma LiteralEvaluates(host: Host, frames: seq<Frame>, e: Expression, fuel: nat)
    requires |frames| > 0 && Literal(e).Some?
    ensures Evaluate(host, frames, e, fuel) == Outcome(Done(Literal(e).value), frames)
  {
  }

  /** A definition binds its block in the innermost frame and answers the
      function, unless that frame already binds the id: then it is a
      `RedefError` and the stack is unchanged. */
  lemma DefinitionEvaluates(host: Host, frames: seq<Frame>, e: Expression, fuel: nat)
    requires |frames| > 0 && e.Definition?
    ensures var o := Evaluate(host, frames, e, fuel);
            && o.run.Done?
            && (e.name in frames[|frames| - 1].bindings ==>
                  IsFault(o.run.value, RedefError) && o.frames == frames)
            && (e.name !in frames[|frames| - 1].bindings ==>
                  o.run.value == Function(e.body) && o.frames == Bind(frames, e.name, e.body))
  {
  }

  /** A list literal is the list of its items' values, one per item. */
  lemma ListLiteralEvaluates(host: Host, frames: seq<Frame>, e: Expression, fuel: nat)
    requires |frames| > 0 && e.ListLit?
    ensures var o := Evaluate(host, frames, e, fuel);
            var l := EvaluateItems(host, frames, e.items, 0, fuel);
            && o.frames == l.frames
            && (o.run.Done? <==> l.run.Done?)
            && (o.run.Done? ==> o.run.value == List(l.run.value) && |l.run.value| == |e.items|)
  {
  }

  // ----------------------------------------------------------------- lists

  /** Running the items from i is running those before k, then the rest from
      the stack they left. */
  lemma {:induction false} ItemsSplit(host: Host, frames: seq<Frame>, items: seq<Expression>, i: nat, k: nat, fuel: nat)
    requires |frames| > 0 && i <= k <= |items|
    ensures var pre := EvaluateItems(host, frames, items[..k], i, fuel);
            && (pre.run.Stuck? ==> EvaluateItems(host, frames, items, i, fuel) == pre)
            && (pre.run.Done? ==>
                  var post := EvaluateItems(host, pre.frames, items, k, fuel);
                  EvaluateItems(host, frames, items, i, fuel) == Outcome(Prepend(pre.run.value, post.run), post.frames))
    decreases k - i
  {
    if i == k {
      PrependJoin([], [], EvaluateItems(host, frames, items, k, fuel).run);
    } else {
      ItemsUnfold(host, frames, items, i, fuel);
      ItemsUnfold(host, frames, items[..k], i, fuel);
      assert items[..k][i] == items[i];
      var first := Evaluate(host, frames, items[i], fuel);
      if first.run.Done? {
        ItemsSplit(host, first.frames, items, i + 1, k, fuel);
        var pre := EvaluateItems(host, first.frames, items[..k], i + 1, fuel);
        var whole := EvaluateItems(host, first.frames, items, i + 1, fuel);
        assert EvaluateItems(host, frames, items[..k], i, fuel) == Outcome(Prepend([first.run.value], pre.run), pre.frames);
        assert EvaluateItems(host, frames, items, i, fuel) == Outcome(Prepend([first.run.value], whole.run), whole.frames);
        if pre.run.Done? {
          PrependJoin([first.run.value], pre.run.value, EvaluateItems(host, pre.frames, items, k, fuel).run);
        } else {
          assert whole == pre;
        }
      }
    }
  }

  /** One step of the item loop: the first item, then the rest from the
      stack it left. */
  lemma ItemsUnfold(host: Host, frames: seq<Frame>, items: seq<Expression>, i: nat, fuel: nat)
    requires |frames| > 0 && i < |items|
    ensures var first := Evaluate(host, frames, items[i], fuel);
            var o := EvaluateItems(host, frames, items, i, fuel);
            && (first.run.Stuck? ==> o == Outcome(Stuck(first.run.reason), first.frames))
            && (first.run.Done? ==>
                  var rest := EvaluateItems(host, first.frames, items, i + 1, fuel);
                  o == Outcome(Prepend([first.run.value], rest.run), rest.frames))
  {
  }

  lemma PrependJoin(a: seq<Evaluation>, b: seq<Evaluation>, r: Run<seq<Evaluation>>)
    ensures Prepend(a, Prepend(b, r)) == Prepend(a + b, r)
    ensures Prepend([], r) == r
  {
    if r.Done? {
      assert a + (b + r.value) == a + b + r.value;
      assert [] + r.value == r.value;
    }
  }

  /** Item k of a list that finishes has the value of evaluating it from the
      stack the items before it left, whatever that value is (an exception
      included), and those items give the first k values. */
  lemma ItemValue(host: Host, frames: seq<Frame>, items: seq<Expression>, k: nat, fuel: nat)
    requires |frames| > 0 && k < |items|
    requires EvaluateItems(host, frames, items, 0, fuel).run.Done?
    ensures var vs := EvaluateItems(host, frames, items, 0, fuel).run.value;
            var pre := EvaluateItems(host, frames, items[..k], 0, fuel);
            && pre.run == Done(vs[..k])
            && Evaluate(host, pre.frames, items[k], fuel).run == Done(vs[k])
  {
    ItemsSplit(host, frames, items, 0, k, fuel);
    var pre := EvaluateItems(host, frames, items[..k], 0, fuel);
    if pre.run.Done? {
      var post := EvaluateItems(host, pre.frames, items, k, fuel);
      assert post.run.Done?;
      assert Evaluate(host, pre.frames, items[k], fuel).run == Done(post.run.value[0]);
    }
  }

  /** An item that evaluates to an exception does not stop the list: the
      items after it run from the stack it left, and the exception is kept
      as item k. */
  lemma ExceptionItemKept(host: Host, frames: seq<Frame>, items: seq<Expression>, k: nat, fuel: nat)
    requires |frames| > 0 && k < |items|
    requires EvaluateItems(host, frames, items[..k], 0, fuel).run.Done?
    requires var pre := EvaluateItems(host, frames, items[..k], 0, fuel);
             var x := Evaluate(host, pre.frames, items[k], fuel);
             x.run.Done? && x.run.value.Exception?
    ensures var pre := EvaluateItems(host, frames, items[..k], 0, fuel);
            var x := Evaluate(host, pre.frames, items[k], fuel);
            var post := EvaluateItems(host, x.frames, items, k + 1, fuel);
            EvaluateItems(host, frames, items, 0, fuel)
            == Outcome(Prepend(pre.run.value + [x.run.value], post.run), post.frames)
  {
    ItemsSplit(host, frames, items, 0, k, fuel);
    var pre := EvaluateItems(host, frames, items[..k], 0, fuel);
    var x := Evaluate(host, pre.frames, items[k], fuel);
    var post := EvaluateItems(host, x.frames, items, k + 1, fuel);
    PrependJoin(pre.run.value, [x.run.value], post.run);
  }

  /** Literal items give their own values and leave the stack alone. */
  lemma {:induction false} ItemsOfLiterals(host: Host, frames: seq<Frame>, items: seq<Expression>, i: nat, fuel: nat)
    requires |frames| > 0 && i <= |items| && AllLiteral(items)
    ensures EvaluateItems(host, frames, items, i, fuel) == Outcome(Done(LiteralValues(items)[i..]), frames)
    decreases |items| - i
  {
    LiteralValuesFrom(items, i);
    if i < |items| {
      ItemsOfLiteralsStep(host, frames, items, i, fuel);
      ItemsOfLiterals(host, frames, items, i + 1, fuel);
    }
  }

  lemma LiteralValuesFrom(items: seq<Expression>, i: nat)
    requires i <= |items| && AllLiteral(items)
    ensures i == |items| ==> LiteralValues(items)[i..] == []
    ensures i < |items| ==>
              Prepend([Literal(items[i]).value], Done(LiteralValues(items)[i + 1..])) == Done(LiteralValues(items)[i..])
  {
    if i < |items| {
      var vs := LiteralValues(items);
      assert vs[i..] == [vs[i]] + vs[i + 1..];
    }
  }

  lemma ItemsOfLiteralsStep(host: Host, frames: seq<Frame>, items: seq<Expression>, i: nat, fuel: nat)
    requires |frames| > 0 && i < |items| && Literal(items[i]).Some?
    ensures var rest := EvaluateItems(host, frames, items, i + 1, fuel);
            EvaluateItems(host, frames, items, i, fuel)
            == Outcome(Prepend([Literal(items[i]).value], rest.run), rest.frames)
  {
    LiteralEvaluates(host, frames, items[i], fuel);
  }

  // ----------------------------------------------------------------- calls

  /** A call of an id bound in some frame runs the body found there, looked
      up before the arguments are evaluated, on the argument values, with the
      call's id as context and one unit of fuel less. */
  lemma UserCallRunsBody(host: Host, frames: seq<Frame>, e: Expression, fuel: nat)
    requires |frames| > 0 && e.Call? && Innermost(frames, e.id).Some?
    ensures var body := frames[Innermost(frames, e.id).value].bindings[e.id];
            var args := EvaluateItems(host, frames, e.args, 0, fuel);
            var o := EvaluateCall(host, frames, e, fuel);
            && (args.run.Stuck? ==> o == Outcome(Stuck(args.run.reason), args.frames))
            && (args.run.Done? && fuel == 0 ==> o == Outcome(Stuck(OutOfFuel), args.frames))
            && (args.run.Done? && fuel > 0 ==>
                  o == EvaluateBlock(host, args.frames, body, args.run.value, e.id, fuel - 1))
  {
  }

  /** The comma with fewer than two arguments is an `ArgError`, evaluates
      nothing and leaves the stack alone. */
  lemma CommaArgError(host: Host, frames: seq<Frame>, e: Expression, fuel: nat)
    requires |frames| > 0 && e.Call? && e.id == "," && Innermost(frames, ",").None?
    requires |e.args| < 2
    ensures var o := EvaluateCall(host, frames, e, fuel);
            o.run.Done? && IsFault(o.run.value, ArgError) && o.frames == frames
  {
  }

  /** The comma passes on an exception from its first argument, and refuses
      a first argument that is not a function or a second that is not a list
      literal with a `TypeError`. */
  lemma CommaRefuses(host: Host, frames: seq<Frame>, e: Expression, fuel: nat)
    requires |frames| > 0 && e.Call? && e.id == "," && Innermost(frames, ",").None?
    requires |e.args| >= 2
    ensures var first := Evaluate(host, frames, e.args[0], fuel);
            var o := EvaluateCall(host, frames, e, fuel);
            && (first.run.Stuck? ==> o == first)
            && (first.run.Done? && first.run.value.Exception? ==> o == first)
            && (first.run.Done? && !first.run.value.Exception? && !first.run.value.Function? ==>
                  o.run.Done? && IsFault(o.run.value, TypeError) && o.frames == first.frames)
            && (first.run.Done? && first.run.value.Function? && !e.args[1].ListLit? ==>
                  o.run.Done? && IsFault(o.run.value, TypeError) && o.frames == first.frames)
  {
  }

  /** The comma applies a function value to the values of its list literal:
      the function's block runs on them with context `,`. */
  lemma CommaApplies(host: Host, frames: seq<Frame>, e: Expression, fuel: nat)
    requires |frames| > 0 && e.Call? && e.id == "," && Innermost(frames, ",").None?
    requires |e.args| >= 2 && e.args[1].ListLit?
    requires var first := Evaluate(host, frames, e.args[0], fuel);
             first.run.Done? && first.run.value.Function?
    ensures var first := Evaluate(host, frames, e.args[0], fuel);
            var args := EvaluateItems(host, first.frames, e.args[1].items, 0, fuel);
            var o := EvaluateCall(host, frames, e, fuel);
            && (args.run.Stuck? ==> o == Outcome(Stuck(args.run.reason), args.frames))
            && (args.run.Done? && fuel == 0 ==> o == Outcome(Stuck(OutOfFuel), args.frames))
            && (args.run.Done? && fuel > 0 ==>
                  o == EvaluateBlock(host, args.frames, first.run.value.body, args.run.value, ",", fuel - 1))
  {
    var first := Evaluate(host, frames, e.args[0], fuel);
    assert EvaluateCall(host, frames, e, fuel)
        == Invocation(host, first.frames, e, first.run.value.body, e.args[1].items, fuel);
  }

  /** An unbound id of underscores evaluates no argument: it answers the
      parameter list of the frame its depth reaches, or a `TypeError`. */
  lemma ParamsByDepth(host: Host, frames: seq<Frame>, e: Expression, fuel: nat)
    requires |frames| > 0 && e.Call? && Innermost(frames, e.id).None?
    requires e.id != "," && |e.id| > 0 && e.id[0] == '_'
    ensures var o := EvaluateCall(host, frames, e, fuel);
            && o.frames == frames && o.run.Done?
            && (AllUnderscores(e.id) && |e.id| <= |frames| ==>
                  o.run.value == List(frames[|frames| - |e.id|].param))
            && (!(AllUnderscores(e.id) && |e.id| <= |frames|) ==> IsFault(o.run.value, TypeError))
  {
  }

  /** Any other unbound id is a built-in applied to the argument values; a
      panicking built-in is the `Panic` halt. */
  lemma PrimitiveOnValues(host: Host, frames: seq<Frame>, e: Expression, fuel: nat)
    requires |frames| > 0 && PrimitiveCall(frames, e)
    ensures var args := EvaluateItems(host, frames, e.args, 0, fuel);
            var o := EvaluateCall(host, frames, e, fuel);
            && o.frames == args.frames
            && (args.run.Stuck? ==> o.run == Stuck(args.run.reason))
            && (args.run.Done? && Primitives.Panics(e.id, args.run.value) ==> o.run == Stuck(Panic))
            && (args.run.Done? && !Primitives.Panics(e.id, args.run.value) ==>
                  o.run == Done(Primitives.Dispatch(host, e.id, args.run.value)))
  {
  }

  /** A built-in on literal arguments computes `Dispatch` on their values and
      leaves the stack alone. */
  lemma PrimitiveOnLiterals(host: Host, frames: seq<Frame>, e: Expression, fuel: nat)
    requires |frames| > 0 && PrimitiveCall(frames, e) && AllLiteral(e.args)
    ensures var o := Evaluate(host, frames, e, fuel);
            var vs := LiteralValues(e.args);
            && o.frames == frames
            && (o.run.Done? <==> !Primitives.Panics(e.id, vs))
            && (o.run.Done? ==> o.run.value == Primitives.Dispatch(host, e.id, vs))
  {
    ItemsOfLiterals(host, frames, e.args, 0, fuel);
    assert LiteralValues(e.args)[0..] == LiteralValues(e.args);
  }

  // ---------------------------------------------------------------- blocks

  /** The expressions of a block from i to k that end with no exception pass
      the loop on, with the last of their values. */
  lemma {:induction false} BlockRunsThrough(host: Host, frames: seq<Frame>, b: Block, context: string,
                                            i: nat, k: nat, value: Evaluation, fuel: nat)
    requires |frames| > 0 && i <= k <= |b.expressions|
    requires var pre := EvaluateItems(host, frames, b.expressions[..k], i, fuel);
             pre.run.Done? && forall j :: 0 <= j < |pre.run.value| ==> !pre.run.value[j].Exception?
    ensures var pre := EvaluateItems(host, frames, b.expressions[..k], i, fuel);
            var vs := pre.run.value;
            BlockFrom(host, frames, b, context, i, value, fuel)
            == BlockFrom(host, pre.frames, b, context, k, if vs == [] then value else vs[|vs| - 1], fuel)
    decreases k - i
  {
    if i < k {
      var es := b.expressions;
      assert es[..k][i] == es[i];
      var first := Evaluate(host, frames, es[i], fuel);
      var rest := EvaluateItems(host, first.frames, es[..k], i + 1, fuel);
      var vs := EvaluateItems(host, frames, es[..k], i, fuel).run.value;
      assert vs == [first.run.value] + rest.run.value;
      assert vs[0] == first.run.value;
      forall j | 0 <= j < |rest.run.value| ensures !rest.run.value[j].Exception? {
        assert rest.run.value[j] == vs[j + 1];
      }
      BlockRunsThrough(host, first.frames, b, context, i + 1, k, first.run.value, fuel);
    }
  }

  /** A block whose expressions all end without an exception answers the
      last value (False for an empty block) and pops the top frame of the
      stack they left: the frame it pushed, holding `param`. */
  lemma BlockNormalExit(host: Host, frames: seq<Frame>, b: Block, param: seq<Evaluation>, context: string, fuel: nat)
    requires var run := EvaluateItems(host, frames + [Frame(map[], param)], b.expressions, 0, fuel).run;
             run.Done? && forall j :: 0 <= j < |run.value| ==> !run.value[j].Exception?
    ensures var all := EvaluateItems(host, frames + [Frame(map[], param)], b.expressions, 0, fuel);
            var vs := all.run.value;
            EvaluateBlock(host, frames, b, param, context, fuel)
            == Outcome(Done(if vs == [] then False else vs[|vs| - 1]), all.frames[..|all.frames| - 1])
  {
    assert b.expressions[..|b.expressions|] == b.expressions;
    BlockRunsThrough(host, frames + [Frame(map[], param)], b, context, 0, |b.expressions|, False, fuel);
  }

  /** An empty block pushes a frame, pops it and answers False. */
  lemma EmptyBlock(host: Host, frames: seq<Frame>, b: Block, param: seq<Evaluation>, context: string, fuel: nat)
    requires b.expressions == []
    ensures EvaluateBlock(host, frames, b, param, context, fuel) == Outcome(Done(False), frames)
  {
    assert (frames + [Frame(map[], param)])[..|frames|] == frames;
  }

  /** The first expression of a block to end with an exception ends the
      block: a `Return` gives its payload, any other exception gets the
      context appended to its stack, the rest of the block is skipped, and
      no frame is popped. */
  lemma BlockExceptionExit(host: Host, frames: seq<Frame>, b: Block, param: seq<Evaluation>, context: string,
                           k: nat, fuel: nat)
    requires k < |b.expressions|
    requires var pre := EvaluateItems(host, frames + [Frame(map[], param)], b.expressions[..k], 0, fuel);
             && pre.run.Done? && (forall j :: 0 <= j < |pre.run.value| ==> !pre.run.value[j].Exception?)
             && var x := Evaluate(host, pre.frames, b.expressions[k], fuel);
                x.run.Done? && x.run.value.Exception?
    ensures var pre := EvaluateItems(host, frames + [Frame(map[], param)], b.expressions[..k], 0, fuel);
            var x := Evaluate(host, pre.frames, b.expressions[k], fuel);
            var ex := x.run.value.ex;
            var o := EvaluateBlock(host, frames, b, param, context, fuel);
            && o.frames == x.frames && |o.frames| > |frames|
            && o.run == Done(if ex.flavor == Return then ex.payload
                             else Exception(Exn(ex.flavor, ex.payload, ex.stack + [context])))
  {
    BlockRunsThrough(host, frames + [Frame(map[], param)], b, context, 0, k, False, fuel);
  }

  /** A block leaves every frame below its own as it found it. */
  lemma BlockKeepsCaller(host: Host, frames: seq<Frame>, b: Block, param: seq<Evaluation>, context: string, fuel: nat)
    ensures var o := EvaluateBlock(host, frames, b, param, context, fuel);
            |frames| <= |o.frames| && o.frames[..|frames|] == frames
  {
  }

  // ------------------------------------------------------------------ fuel

  /* Fuel only bounds how deep calls may nest: a run that finishes with some
     fuel finishes the same way, value and stack, with any more fuel.  The
     lemmas follow the mutual recursion of the semantics functions. */

  lemma {:induction false} FuelMonotone(host: Host, frames: seq<Frame>, e: Expression, fuel: nat, more: nat)
    requires |frames| > 0 && fuel <= more && Evaluate(host, frames, e, fuel).run.Done?
    ensures Evaluate(host, frames, e, more) == Evaluate(host, frames, e, fuel)
    decreases fuel, e, 3
  {
    match e
    case ListLit(items) => FuelMonotoneItems(host, frames, items, 0, fuel, more);
    case Call(_, _) => FuelMonotoneCall(host, frames, e, fuel, more);
    case _ =>
  }

  lemma {:induction false} FuelMonotoneItems(host: Host, frames: seq<Frame>, items: seq<Expression>, i: nat,
                                             fuel: nat, more: nat)
    requires |frames| > 0 && i <= |items| && fuel <= more
    requires EvaluateItems(host, frames, items, i, fuel).run.Done?
    ensures EvaluateItems(host, frames, items, i, more) == EvaluateItems(host, frames, items, i, fuel)
    decreases fuel, items, |items| - i
  {
    if i < |items| {
      ItemsUnfold(host, frames, items, i, fuel);
      ItemsUnfold(host, frames, items, i, more);
      var first := Evaluate(host, frames, items[i], fuel);
      FuelMonotone(host, frames, items[i], fuel, more);
      FuelMonotoneItems(host, first.frames, items, i + 1, fuel, more);
    }
  }

  lemma {:induction false} FuelMonotoneCall(host: Host, frames: seq<Frame>, e: Expression, fuel: nat, more: nat)
    requires |frames| > 0 && e.Call? && fuel <= more && EvaluateCall(host, frames, e, fuel).run.Done?
    ensures EvaluateCall(host, frames, e, more) == EvaluateCall(host, frames, e, fuel)
    decreases fuel, e, 2
  {
    match Innermost(frames, e.id)
    case Some(x) => FuelMonotoneInvocation(host, frames, e, frames[x].bindings[e.id], e.args, fuel, more);
    case None =>
      if e.id == "," {
        FuelMonotoneComma(host, frames, e, fuel, more);
      } else if !(|e.id| > 0 && e.id[0] == '_') {
        FuelMonotoneItems(host, frames, e.args, 0, fuel, more);
      }
  }

  lemma {:induction false} FuelMonotoneComma(host: Host, frames: seq<Frame>, e: Expression, fuel: nat, more: nat)
    requires |frames| > 0 && e.Call? && e.id == "," && fuel <= more
    requires EvaluateComma(host, frames, e, fuel).run.Done?
    ensures EvaluateComma(host, frames, e, more) == EvaluateComma(host, frames, e, fuel)
    decreases fuel, e, 1
  {
    if |e.args| >= 2 {
      var first := Evaluate(host, frames, e.args[0], fuel);
      FuelMonotone(host, frames, e.args[0], fuel, more);
      if first.run.value.Function? && e.args[1].ListLit? {
        FuelMonotoneInvocation(host, first.frames, e, first.run.value.body, e.args[1].items, fuel, more);
      }
    }
  }

  lemma {:induction false} FuelMonotoneInvocation(host: Host, frames: seq<Frame>, e: Expression, body: Block,
                                                  items: seq<Expression>, fuel: nat, more: nat)
    requires e.Call? && |frames| > 0 && fuel <= more
    requires items == e.args || (|e.args| >= 2 && e.args[1] == ListLit(items))
    requires Invocation(host, frames, e, body, items, fuel).run.Done?
    ensures Invocation(host, frames, e, body, items, more) == Invocation(host, frames, e, body, items, fuel)
    decreases fuel, e, 0
  {
    var args := EvaluateItems(host, frames, items, 0, fuel);
    FuelMonotoneItems(host, frames, items, 0, fuel, more);
    FuelMonotoneBlock(host, args.frames, body, args.run.value, e.id, fuel - 1, more - 1);
  }

  lemma {:induction false} FuelMonotoneBlock(host: Host, frames: seq<Frame>, b: Block, param: seq<Evaluation>,
                                             context: string, fuel: nat, more: nat)
    requires fuel <= more && EvaluateBlock(host, frames, b, param, context, fuel).run.Done?
    ensures EvaluateBlock(host, frames, b, param, context, more) == EvaluateBlock(host, frames, b, param, context, fuel)
    decreases fuel, b, |b.expressions| + 1
  {
    FuelMonotoneBlockFrom(host, frames + [Frame(map[], param)], b, context, 0, False, fuel, more);
  }

  lemma {:induction false} FuelMonotoneBlockFrom(host: Host, frames: seq<Frame>, b: Block, context: string,
                                                 i: nat, value: Evaluation, fuel: nat, more: nat)
    requires |frames| > 0 && i <= |b.expressions| && fuel <= more
    requires BlockFrom(host, frames, b, context, i, value, fuel).run.Done?
    ensures BlockFrom(host, frames, b, context, i, value, more) == BlockFrom(host, frames, b, context, i, value, fuel)
    decreases fuel, b, |b.expressions| - i
  {
    if i < |b.expressions| {
      var step := Evaluate(host, frames, b.expressions[i], fuel);
      FuelMonotone(host, frames, b.expressions[i], fuel, more);
      if !step.run.value.Exception? {
        FuelMonotoneBlockFrom(host, step.frames, b, context, i + 1, step.run.value, fuel, more);
      }
    }
  }
}
