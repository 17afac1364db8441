/**
 * Interpretation of Lapis 2 descriptors and rules on the API model
 * (`Interpreter.interpret`, `interpret_subdescriptor`, `interpret_subdescriptors` and
 * `apply_rule` in cava/lapis/interpreter/ava.py), stated as functions on values: each
 * returns the annotated node in place of updating it, or the exception it raises.
 */
module Interpretation {
  import opened Values
  import opened Ast
  import opened MatchResults
  import opened RuleMatching

  /** `next(x for x in xs if p(x))` as an index: the first element satisfying `p`. */
  function FirstIndex<T>(xs: seq<T>, p: T -> bool): (r: Option<nat>)
    ensures r.Some? ==> r.value < |xs| && p(xs[r.value]) && forall j :: 0 <= j < r.value ==> !p(xs[j])
    ensures r.None? ==> forall j :: 0 <= j < |xs| ==> !p(xs[j])
  {
    if xs == [] then None
    else if p(xs[0]) then Some(0)
    else
      var r := FirstIndex(xs[1..], p);
      assert forall j :: 1 <= j < |xs| ==> xs[j] == xs[1..][j - 1];
      if r.Some? then Some(r.value + 1) else None
  }

  /** The value a plain descriptor writes: its one argument evaluated, True without arguments. */
  function DescribedValue(d: Descriptor, ctx: Context): (r: Result<Option<Val>>)
    ensures |d.arguments| == 0 ==> r == Ok(Some(VBool(true)))
    ensures |d.arguments| == 1 ==> (r.Ok? <==> Eval(d.arguments[0], ctx).Ok?)
    ensures |d.arguments| == 1 && r.Ok? ==> r.value == Some(Eval(d.arguments[0], ctx).value)
    ensures |d.arguments| > 1 ==> r == Ok(None)
  {
    if |d.arguments| == 1 then
      var x :- Eval(d.arguments[0], ctx);
      Ok(Some(x))
    else if |d.arguments| == 0 then Ok(Some(VBool(true)))
    else Ok(None)
  }

  /** Whether `interpret_subdescriptor` gives the descriptor a special meaning on `m`. */
  predicate IsPlain(d: Descriptor, m: Val) {
    && !IdMatches(d.descriptor, "at")
    && !(m.VApi? && IdMatches(d.descriptor, "function"))
    && !(m.VFunction? && IdMatches(d.descriptor, "argument"))
    && !(m.VType? && IdMatches(d.descriptor, "field"))
    && !(m.VType? && IdMatches(d.descriptor, "element"))
  }

  /**
   * `interpret_subdescriptor(d, m, ctx)`: the node after `d` is applied in its scope.
   * A descriptor never changes the structure of the model, only attributes.
   */
  function InterpretSub(d: Descriptor, m: Val, ctx: Context): (r: Result<Val>)
    ensures r.Ok? ==> ShapeOf(r.value) == ShapeOf(m)
    decreases d, if m.VArgument? then 4 else 3
  {
    if IdMatches(d.descriptor, "at") then InterpretAt(d, m, ctx)
    else if m.VApi? && IdMatches(d.descriptor, "function") then InterpretNamedFunction(d, m.api, ctx)
    else if m.VFunction? && IdMatches(d.descriptor, "argument") then InterpretNamedArgument(d, m.f, ctx)
    else if m.VType? && IdMatches(d.descriptor, "field") then InterpretField(d, m.t, ctx)
    else if m.VType? && IdMatches(d.descriptor, "element") then InterpretElement(d, m.t, ctx)
    else
      var x :- DescribedValue(d, ctx);
      var m1 :- if x.Some? then SetAttr(m, d.descriptor, x.value) else Ok(m);
      if m1.VArgument? then
        var ty' :- InterpretSub(d, VType(m1.a.ty), ctx);
        Ok(VArgument(m1.a.(ty := ty'.t)))
      else Ok(m1)
  }

  /**
   * `at(x) { ... }`: the descriptors apply to the object `x` names in the context. The
   * object is reached by reference in Python; here the node in scope comes back unchanged.
   */
  function InterpretAt(d: Descriptor, m: Val, ctx: Context): (r: Result<Val>)
    ensures r.Ok? ==> r.value == m
    decreases d, 2
  {
    if |d.arguments| == 0 then Err(IndexError)
    else
      var target :- Eval(d.arguments[0], ctx);
      var annotated :- InterpretSeq(d.children, 0, target, ctx);
      Ok(m)
  }

  /** `function(f) { ... }` in an API: the first function named `f`, interpreted. */
  function InterpretNamedFunction(d: Descriptor, api: Api, ctx: Context): (r: Result<Val>)
    ensures r.Ok? ==> ShapeOf(r.value) == ShapeOf(VApi(api))
    decreases d, 2
  {
    if |d.arguments| == 0 then Err(IndexError)
    else if !d.arguments[0].Id? then Err(AttributeError)
    else
      var fs := api.functions;
      var name := d.arguments[0].name;
      match FirstIndex(fs, (f: Function) => f.name == name)
      case None => Err(StopIteration)
      case Some(i) =>
        var f' :- Interpret(d, VFunction(fs[i]), ctx);
        var fs' := fs[i := f'.f];
        assert forall j :: 0 <= j < |fs| ==> FunctionShape(fs'[j]) == FunctionShape(fs[j]);
        Ok(VApi(api.(functions := fs')))
  }

  /** `argument(x) { ... }` in a function: the first argument whose name is the value of `x`. */
  function InterpretNamedArgument(d: Descriptor, f: Function, ctx: Context): (r: Result<Val>)
    ensures r.Ok? ==> ShapeOf(r.value) == ShapeOf(VFunction(f))
    decreases d, 2
  {
    if |d.arguments| == 0 then Err(IndexError)
    else
      var name :- Eval(d.arguments[0], ctx);
      var args := f.arguments;
      match FirstIndex(args, (a: Argument) => VStr(a.name) == name)
      case None => Err(StopIteration)
      case Some(i) =>
        var a' :- Interpret(d, VArgument(args[i]), ctx);
        var args' := args[i := a'.a];
        assert forall j :: 0 <= j < |args| ==> ArgumentShape(args'[j]) == ArgumentShape(args[j]);
        Ok(VFunction(f.(arguments := args')))
  }

  /** `field(x) { ... }` in a type: the field stored under the value of `x`. */
  function InterpretField(d: Descriptor, t: Type, ctx: Context): (r: Result<Val>)
    ensures r.Ok? ==> ShapeOf(r.value) == ShapeOf(VType(t))
    decreases d, 2
  {
    if |d.arguments| == 0 then Err(IndexError)
    else
      var key :- Eval(d.arguments[0], ctx);
      var fields := t.fields;
      match FirstIndex(fields, (p: (string, Type)) => VStr(p.0) == key)
      case None => Err(KeyError)
      case Some(i) =>
        var t' :- InterpretSeq(d.children, 0, VType(fields[i].1), ctx);
        var fields' := fields[i := (fields[i].0, t'.t)];
        assert forall j :: 0 <= j < |fields| ==> TypeShape(fields'[j].1) == TypeShape(fields[j].1);
        Ok(VType(t.(fields := fields')))
  }

  /** `element { ... }` in a type: its pointee. */
  function InterpretElement(d: Descriptor, t: Type, ctx: Context): (r: Result<Val>)
    ensures r.Ok? ==> ShapeOf(r.value) == ShapeOf(VType(t))
    decreases d, 2
  {
    match t.pointee
    case None => Err(AttributeError)
    case Some(p) =>
      var p' :- InterpretSeq(d.children, 0, VType(p), ctx);
      Ok(VType(t.(pointee := Some(p'.t))))
  }

  /**
   * `interpret(a, m, ctx)` for a descriptor `a`: a function's or a type's descriptors
   * apply to it; an argument's apply to its type, then to the argument.
   */
  function Interpret(d: Descriptor, m: Val, ctx: Context): (r: Result<Val>)
    ensures r.Ok? ==> ShapeOf(r.value) == ShapeOf(m)
    decreases d, 1
  {
    if IdMatches(d.descriptor, "function") then
      if !m.VFunction? then Err(AssertionError) else InterpretSeq(d.children, 0, m, ctx)
    else if IdMatches(d.descriptor, "argument") then
      if !m.VArgument? then Err(AssertionError)
      else
        var ty' :- InterpretSeq(d.children, 0, VType(m.a.ty), ctx);
        InterpretSeq(d.children, 0, VArgument(m.a.(ty := ty'.t)), ctx)
    else if m.VType? then InterpretSeq(d.children, 0, m, ctx)
    else Err(ValueError)
  }

  /**
   * `interpret_subdescriptors`: the descriptors of a block from the `i`-th on, in order,
   * each applied to the node the previous one left.
   */
  function InterpretSeq(b: Block, i: nat, m: Val, ctx: Context): (r: Result<Val>)
    ensures r.Ok? ==> ShapeOf(r.value) == ShapeOf(m)
    decreases b, 0, if b.Sequence? then |b.items| - i else 1 - i
  {
    match b
    case Child(c) =>
      if i == 0 then InterpretSub(c, m, ctx) else Ok(m)
    case Sequence(items) =>
      if i >= |items| then Ok(m)
      else
        var m' :- InterpretSub(items[i], m, ctx);
        InterpretSeq(b, i + 1, m', ctx)
  }

  // ---------------------------------------------------------------------------
  // Properties of interpretation

  /** The block's descriptors apply one after the other, as `interpret_subdescriptors` loops. */
  lemma {:induction false} InterpretSeqStep(b: Block, i: nat, m: Val, ctx: Context)
    requires i < |Subdescriptors(b)|
    ensures InterpretSub(Subdescriptors(b)[i], m, ctx).Err? ==>
              InterpretSeq(b, i, m, ctx) == Err(InterpretSub(Subdescriptors(b)[i], m, ctx).error)
    ensures InterpretSub(Subdescriptors(b)[i], m, ctx).Ok? ==>
              InterpretSeq(b, i, m, ctx) == InterpretSeq(b, i + 1, InterpretSub(Subdescriptors(b)[i], m, ctx).value, ctx)
  {
    match b
    case Child(c) =>
      assert Subdescriptors(b) == [c];
      var r := InterpretSub(c, m, ctx);
      if r.Ok? {
        assert InterpretSeq(b, 1, r.value, ctx) == Ok(r.value);
      }
    case Sequence(items) =>
      assert Subdescriptors(b) == items;
  }

  /** Past the last descriptor nothing changes. */
  lemma InterpretSeqDone(b: Block, m: Val, ctx: Context)
    ensures InterpretSeq(b, |Subdescriptors(b)|, m, ctx) == Ok(m)
  {
  }

  /**
   * A plain descriptor on a type, function or API writes its value (True without
   * arguments) to the attribute of its own name and leaves every other attribute alone.
   */
  lemma PlainDescriptorSetsAttribute(d: Descriptor, m: Val, ctx: Context)
    requires m.VType? || m.VFunction? || m.VApi?
    requires IsPlain(d, m)
    requires DescribedValue(d, ctx).Ok? && DescribedValue(d, ctx).value.Some?
    ensures InterpretSub(d, m, ctx).Ok?
    ensures GetAttr(InterpretSub(d, m, ctx).value, d.descriptor) == DescribedValue(d, ctx).value
    ensures forall n :: n != d.descriptor ==> GetAttr(InterpretSub(d, m, ctx).value, n) == GetAttr(m, n)
  {
  }

  /**
   * A plain descriptor on an argument is written to the argument and then applied to its
   * type as well.
   */
  lemma PlainDescriptorOnArgumentReachesType(d: Descriptor, a: Argument, ctx: Context)
    requires IsPlain(d, VArgument(a))
    requires DescribedValue(d, ctx).Ok?
    ensures InterpretSub(d, VArgument(a), ctx).Ok? <==> InterpretSub(d, VType(a.ty), ctx).Ok?
    ensures InterpretSub(d, VArgument(a), ctx).Ok? ==>
              var r := InterpretSub(d, VArgument(a), ctx).value;
              && r.VArgument?
              && VType(r.a.ty) == InterpretSub(d, VType(a.ty), ctx).value
              && (DescribedValue(d, ctx).value.Some? ==> r.a.attrs == a.attrs[d.descriptor := DescribedValue(d, ctx).value.value])
              && (DescribedValue(d, ctx).value.None? ==> r.a.attrs == a.attrs)
  {
  }

  /**
   * A descriptor with two or more arguments on anything but an argument (a type,
   * function, API or scalar) writes nothing and raises nothing.
   */
  lemma PlainDescriptorWithManyArgumentsIsInert(d: Descriptor, m: Val, ctx: Context)
    requires IsPlain(d, m) && !m.VArgument?
    requires |d.arguments| > 1
    ensures InterpretSub(d, m, ctx) == Ok(m)
  {
  }

  /**
   * A plain descriptor that has something to write raises AttributeError on anything
   * that is not a node: a scalar such as a string, number or boolean.
   */
  lemma PlainDescriptorOnScalarRaises(d: Descriptor, m: Val, ctx: Context)
    requires !IsNode(m) && IsPlain(d, m)
    requires DescribedValue(d, ctx).Ok? && DescribedValue(d, ctx).value.Some?
    ensures InterpretSub(d, m, ctx) == Err(AttributeError)
  {
  }

  /**
   * `function(f) { ... }` in an API annotates the first function named `f` and no other;
   * without such a function it raises StopIteration.
   */
  lemma FunctionDescriptorTargetsNamedFunction(d: Descriptor, api: Api, ctx: Context)
    requires IdMatches(d.descriptor, "function") && |d.arguments| > 0 && d.arguments[0].Id?
    ensures (forall j :: 0 <= j < |api.functions| ==> api.functions[j].name != d.arguments[0].name)
              ==> InterpretSub(d, VApi(api), ctx) == Err(StopIteration)
    ensures InterpretSub(d, VApi(api), ctx).Ok? ==>
              var r := InterpretSub(d, VApi(api), ctx).value;
              && r.VApi? && |r.api.functions| == |api.functions| && r.api.attrs == api.attrs
              && exists i :: 0 <= i < |api.functions| && api.functions[i].name == d.arguments[0].name
                   && (forall j :: 0 <= j < i ==> api.functions[j].name != d.arguments[0].name)
                   && (forall j :: 0 <= j < |api.functions| && j != i ==> r.api.functions[j] == api.functions[j])
                   && Interpret(d, VFunction(api.functions[i]), ctx) == Ok(VFunction(r.api.functions[i]))
  {
    var name := d.arguments[0].name;
    var p := (f: Function) => f.name == name;
    var k := FirstIndex(api.functions, p);
    if k.Some? && InterpretSub(d, VApi(api), ctx).Ok? {
      var i := k.value;
      assert api.functions[i].name == name;
    }
  }

  /**
   * `argument(x) { ... }` in a function annotates the first argument whose name is the
   * value of `x` and no other; without such an argument it raises StopIteration.
   */
  lemma ArgumentDescriptorTargetsNamedArgument(d: Descriptor, f: Function, ctx: Context)
    requires IdMatches(d.descriptor, "argument")
    ensures |d.arguments| == 0 ==> InterpretSub(d, VFunction(f), ctx) == Err(IndexError)
    ensures |d.arguments| > 0 && Eval(d.arguments[0], ctx).Err? ==>
              InterpretSub(d, VFunction(f), ctx) == Err(Eval(d.arguments[0], ctx).error)
    ensures (&& |d.arguments| > 0 && Eval(d.arguments[0], ctx).Ok?
             && forall j :: 0 <= j < |f.arguments| ==> VStr(f.arguments[j].name) != Eval(d.arguments[0], ctx).value)
            ==> InterpretSub(d, VFunction(f), ctx) == Err(StopIteration)
    ensures InterpretSub(d, VFunction(f), ctx).Ok? ==>
              var x := Eval(d.arguments[0], ctx).value;
              var r := InterpretSub(d, VFunction(f), ctx).value;
              && r.VFunction? && r.f.name == f.name && r.f.text == f.text && r.f.attrs == f.attrs
              && r.f.returnValue == f.returnValue && |r.f.arguments| == |f.arguments|
              && exists i :: 0 <= i < |f.arguments| && VStr(f.arguments[i].name) == x
                   && (forall j :: 0 <= j < i ==> VStr(f.arguments[j].name) != x)
                   && (forall j :: 0 <= j < |f.arguments| && j != i ==> r.f.arguments[j] == f.arguments[j])
                   && Interpret(d, VArgument(f.arguments[i]), ctx) == Ok(VArgument(r.f.arguments[i]))
  {
    assert InterpretSub(d, VFunction(f), ctx) == InterpretNamedArgument(d, f, ctx);
    if |d.arguments| > 0 && Eval(d.arguments[0], ctx).Ok? {
      var x := Eval(d.arguments[0], ctx).value;
      var k := FirstIndex(f.arguments, (a: Argument) => VStr(a.name) == x);
      if k.Some? && InterpretSub(d, VFunction(f), ctx).Ok? {
        assert VStr(f.arguments[k.value].name) == x;
      }
    }
  }

  /**
   * `field(x) { ... }` in a type annotates the field stored under the value of `x` and
   * no other; without such a field it raises KeyError.
   */
  lemma FieldDescriptorTargetsNamedField(d: Descriptor, t: Type, ctx: Context)
    requires IdMatches(d.descriptor, "field")
    ensures |d.arguments| == 0 ==> InterpretSub(d, VType(t), ctx) == Err(IndexError)
    ensures |d.arguments| > 0 && Eval(d.arguments[0], ctx).Err? ==>
              InterpretSub(d, VType(t), ctx) == Err(Eval(d.arguments[0], ctx).error)
    ensures (&& |d.arguments| > 0 && Eval(d.arguments[0], ctx).Ok?
             && forall j :: 0 <= j < |t.fields| ==> VStr(t.fields[j].0) != Eval(d.arguments[0], ctx).value)
            ==> InterpretSub(d, VType(t), ctx) == Err(KeyError)
    ensures InterpretSub(d, VType(t), ctx).Ok? ==>
              var x := Eval(d.arguments[0], ctx).value;
              var r := InterpretSub(d, VType(t), ctx).value;
              && r.VType? && r.t.text == t.text && r.t.attrs == t.attrs && r.t.pointee == t.pointee
              && |r.t.fields| == |t.fields|
              && exists i :: 0 <= i < |t.fields| && VStr(t.fields[i].0) == x
                   && (forall j :: 0 <= j < i ==> VStr(t.fields[j].0) != x)
                   && (forall j :: 0 <= j < |t.fields| && j != i ==> r.t.fields[j] == t.fields[j])
                   && r.t.fields[i].0 == t.fields[i].0
                   && InterpretSeq(d.children, 0, VType(t.fields[i].1), ctx) == Ok(VType(r.t.fields[i].1))
  {
    assert InterpretSub(d, VType(t), ctx) == InterpretField(d, t, ctx);
    if |d.arguments| > 0 && Eval(d.arguments[0], ctx).Ok? {
      var x := Eval(d.arguments[0], ctx).value;
      var k := FirstIndex(t.fields, (p: (string, Type)) => VStr(p.0) == x);
      if k.Some? && InterpretSub(d, VType(t), ctx).Ok? {
        assert VStr(t.fields[k.value].0) == x;
      }
    }
  }

  /** A type's `element` descriptors apply to its pointee; a type without one raises AttributeError. */
  lemma ElementDescriptorAnnotatesPointee(d: Descriptor, t: Type, ctx: Context)
    requires IdMatches(d.descriptor, "element")
    ensures t.pointee.None? ==> InterpretSub(d, VType(t), ctx) == Err(AttributeError)
    ensures t.pointee.Some? ==>
              (InterpretSub(d, VType(t), ctx).Ok? <==> InterpretSeq(d.children, 0, VType(t.pointee.value), ctx).Ok?)
    ensures t.pointee.Some? && InterpretSub(d, VType(t), ctx).Ok? ==>
              var r := InterpretSub(d, VType(t), ctx).value;
              && r.VType? && r.t.attrs == t.attrs && r.t.fields == t.fields
              && r.t.pointee.Some?
              && VType(r.t.pointee.value) == InterpretSeq(d.children, 0, VType(t.pointee.value), ctx).value
  {
  }

  // ---------------------------------------------------------------------------
  // Rules

  /**
   * `not r.predicate or eval(r.predicate.eval(bindings), bindings)`: an absent predicate
   * holds; a present one must evaluate to source text, which Python then evaluates.
   */
  function PredicateHolds(o: Oracles, pred: Option<Value>, ctx: Context): (r: Result<bool>)
    ensures pred.None? ==> r == Ok(true)
    ensures pred.Some? ==> (r.Ok? <==> Eval(pred.value, ctx).Ok? && Eval(pred.value, ctx).value.VStr?)
    ensures pred.Some? && r.Ok? ==> r.value == o.evalPredicate(Eval(pred.value, ctx).value.s, ctx)
    ensures pred.Some? && Eval(pred.value, ctx).Ok? && !Eval(pred.value, ctx).value.VStr? ==> r == Err(TypeError)
  {
    match pred
    case None => Ok(true)
    case Some(v) =>
      var code :- Eval(v, ctx);
      if code.VStr? then Ok(o.evalPredicate(code.s, ctx)) else Err(TypeError)
  }

  /** The node after a rule's own match step: annotated by its result when it matches. */
  function Annotate(o: Oracles, r: Rule, m: Val): (res: Result<Val>)
    ensures res.Ok? ==> ShapeOf(res.value) == ShapeOf(m)
  {
    var matched :- Matches(o, r.matcher, m);
    if Succeeded(matched) then
      var holds :- PredicateHolds(o, r.pred, matched.bindings);
      if holds then InterpretSeq(r.result, 0, m, matched.bindings) else Ok(m)
    else Ok(m)
  }

  /**
   * `apply_rule(r, m)`: the rule is tried on `m`, then on every node below it, parents
   * before children, in the order of the API's functions, a function's arguments then
   * its return value, a type's pointee then its fields, an argument's type.
   */
  function ApplyRule(o: Oracles, r: Rule, m: Val): (res: Result<Val>)
    ensures res.Ok? ==> ShapeOf(res.value) == ShapeOf(m)
    decreases ShapeOf(m), 2
  {
    var m1 :- Annotate(o, r, m);
    Descend(o, r, m1)
  }

  /** The descent of `apply_rule` below an already visited node; its own attributes stay. */
  function Descend(o: Oracles, r: Rule, m: Val): (res: Result<Val>)
    ensures res.Ok? ==> ShapeOf(res.value) == ShapeOf(m) && IsNode(m)
    ensures res.Ok? ==> AttrsOf(res.value) == AttrsOf(m) && Str(res.value) == Str(m)
    ensures !IsNode(m) ==> res == Err(NotImplementedError)
    decreases ShapeOf(m), 1
  {
    match m
    case VApi(api) => DescendFunctions(o, r, api, 0)
    case VFunction(f) => DescendArguments(o, r, f, 0)
    case VType(t) =>
      if t.pointee.Some? then
        var p := t.pointee.value;
        assert ShapeOf(m).kids[0] == ShapeOf(VType(p));
        var p' :- ApplyRule(o, r, VType(p));
        var t1 := t.(pointee := Some(p'.t));
        assert TypeShape(t1) == TypeShape(t);
        DescendFields(o, r, t1, 0)
      else DescendFields(o, r, t, 0)
    case VArgument(a) =>
      assert ShapeOf(m).kids[0] == ShapeOf(VType(a.ty));
      var ty' :- ApplyRule(o, r, VType(a.ty));
      Ok(VArgument(a.(ty := ty'.t)))
    case _ => Err(NotImplementedError)
  }

  function DescendFunctions(o: Oracles, r: Rule, api: Api, i: nat): (res: Result<Val>)
    ensures res.Ok? ==> res.value.VApi? && ShapeOf(res.value) == ShapeOf(VApi(api))
    ensures res.Ok? ==> res.value.api.attrs == api.attrs && res.value.api.text == api.text
    decreases ShapeOf(VApi(api)), 0, |api.functions| - i
  {
    var fs := api.functions;
    if i >= |fs| then Ok(VApi(api))
    else
      assert ShapeOf(VApi(api)).kids[i] == ShapeOf(VFunction(fs[i]));
      var f' :- ApplyRule(o, r, VFunction(fs[i]));
      var fs' := fs[i := f'.f];
      assert forall j :: 0 <= j < |fs| ==> FunctionShape(fs'[j]) == FunctionShape(fs[j]);
      assert ShapeOf(VApi(api.(functions := fs'))) == ShapeOf(VApi(api));
      DescendFunctions(o, r, api.(functions := fs'), i + 1)
  }

  function DescendArguments(o: Oracles, r: Rule, f: Function, i: nat): (res: Result<Val>)
    ensures res.Ok? ==> res.value.VFunction? && ShapeOf(res.value) == ShapeOf(VFunction(f))
    ensures res.Ok? ==> res.value.f.attrs == f.attrs && res.value.f.text == f.text
    decreases ShapeOf(VFunction(f)), 0, |f.arguments| + 1 - i
  {
    var args := f.arguments;
    if i < |args| then
      assert ShapeOf(VFunction(f)).kids[i] == ShapeOf(VArgument(args[i]));
      var a' :- ApplyRule(o, r, VArgument(args[i]));
      var args' := args[i := a'.a];
      assert forall j :: 0 <= j < |args| ==> ArgumentShape(args'[j]) == ArgumentShape(args[j]);
      assert ShapeOf(VFunction(f.(arguments := args'))) == ShapeOf(VFunction(f));
      DescendArguments(o, r, f.(arguments := args'), i + 1)
    else if i == |args| then
      assert ShapeOf(VFunction(f)).kids[i] == ShapeOf(VArgument(f.returnValue));
      var rv :- ApplyRule(o, r, VArgument(f.returnValue));
      assert ShapeOf(VFunction(f.(returnValue := rv.a))) == ShapeOf(VFunction(f));
      Ok(VFunction(f.(returnValue := rv.a)))
    else Ok(VFunction(f))
  }

  function DescendFields(o: Oracles, r: Rule, t: Type, i: nat): (res: Result<Val>)
    ensures res.Ok? ==> res.value.VType? && ShapeOf(res.value) == ShapeOf(VType(t))
    ensures res.Ok? ==> res.value.t.attrs == t.attrs && res.value.t.text == t.text
    decreases ShapeOf(VType(t)), 0, |t.fields| - i
  {
    var fields := t.fields;
    if i >= |fields| then Ok(VType(t))
    else
      var k := if t.pointee.Some? then i + 1 else i;
      assert ShapeOf(VType(t)).kids[k] == ShapeOf(VType(fields[i].1));
      var ft :- ApplyRule(o, r, VType(fields[i].1));
      var fields' := fields[i := (fields[i].0, ft.t)];
      assert forall j :: 0 <= j < |fields| ==> TypeShape(fields'[j].1) == TypeShape(fields[j].1);
      assert ShapeOf(VType(t.(fields := fields'))) == ShapeOf(VType(t));
      DescendFields(o, r, t.(fields := fields'), i + 1)
  }

  /** One step of the loop over an API's functions. */
  lemma DescendFunctionsStep(o: Oracles, r: Rule, api: Api, i: nat)
    requires i < |api.functions|
    ensures ShapeOf(VApi(api)).kids[i] == ShapeOf(VFunction(api.functions[i]))
    ensures var x := ApplyRule(o, r, VFunction(api.functions[i]));
            && (x.Err? ==> DescendFunctions(o, r, api, i) == Err(x.error))
            && (x.Ok? ==> x.value.VFunction? && (var api' := api.(functions := api.functions[i := x.value.f]);
                  ShapeOf(VApi(api')) == ShapeOf(VApi(api)) &&
                  DescendFunctions(o, r, api, i) == DescendFunctions(o, r, api', i + 1)))
  {
    var x := ApplyRule(o, r, VFunction(api.functions[i]));
    if x.Ok? {
      var fs' := api.functions[i := x.value.f];
      assert forall j :: 0 <= j < |fs'| ==> FunctionShape(fs'[j]) == FunctionShape(api.functions[j]);
    }
  }

  /** One step of the loop over a function's arguments. */
  lemma DescendArgumentsStep(o: Oracles, r: Rule, f: Function, i: nat)
    requires i < |f.arguments|
    ensures ShapeOf(VFunction(f)).kids[i] == ShapeOf(VArgument(f.arguments[i]))
    ensures var x := ApplyRule(o, r, VArgument(f.arguments[i]));
            && (x.Err? ==> DescendArguments(o, r, f, i) == Err(x.error))
            && (x.Ok? ==> x.value.VArgument? && (var f' := f.(arguments := f.arguments[i := x.value.a]);
                  ShapeOf(VFunction(f')) == ShapeOf(VFunction(f)) &&
                  DescendArguments(o, r, f, i) == DescendArguments(o, r, f', i + 1)))
  {
    var x := ApplyRule(o, r, VArgument(f.arguments[i]));
    if x.Ok? {
      var args' := f.arguments[i := x.value.a];
      assert forall j :: 0 <= j < |args'| ==> ArgumentShape(args'[j]) == ArgumentShape(f.arguments[j]);
    }
  }

  /** One step of the loop over a type's fields. */
  lemma DescendFieldsStep(o: Oracles, r: Rule, t: Type, i: nat)
    requires i < |t.fields|
    ensures ShapeOf(VType(t)).kids[if t.pointee.Some? then i + 1 else i] == ShapeOf(VType(t.fields[i].1))
    ensures var x := ApplyRule(o, r, VType(t.fields[i].1));
            && (x.Err? ==> DescendFields(o, r, t, i) == Err(x.error))
            && (x.Ok? ==> x.value.VType? && (var t' := t.(fields := t.fields[i := (t.fields[i].0, x.value.t)]);
                  ShapeOf(VType(t')) == ShapeOf(VType(t)) &&
                  DescendFields(o, r, t, i) == DescendFields(o, r, t', i + 1)))
  {
    var x := ApplyRule(o, r, VType(t.fields[i].1));
    if x.Ok? {
      var fields' := t.fields[i := (t.fields[i].0, x.value.t)];
      assert forall j :: 0 <= j < |fields'| ==> TypeShape(fields'[j].1) == TypeShape(t.fields[j].1);
    }
  }

  /** `apply_rules(m)`: every rule in order, each on the model the previous one left. */
  function ApplyRules(o: Oracles, rules: seq<Rule>, m: Val): (res: Result<Val>)
    ensures res.Ok? ==> ShapeOf(res.value) == ShapeOf(m)
  {
    if rules == [] then Ok(m)
    else
      var m' :- ApplyRules(o, rules[..|rules| - 1], m);
      ApplyRule(o, rules[|rules| - 1], m')
  }

  // ---------------------------------------------------------------------------
  // Properties of rule application

  /** A rule whose matcher fails on every node. */
  ghost predicate NeverMatches(o: Oracles, r: Rule) {
    forall x :: Matches(o, r.matcher, x) == Ok(Failure)
  }

  /** A rule that matches nothing leaves the whole tree below a node as it was. */
  lemma {:induction false} InertRuleChangesNothing(o: Oracles, r: Rule, m: Val)
    requires NeverMatches(o, r) && IsNode(m)
    ensures ApplyRule(o, r, m) == Ok(m)
    decreases ShapeOf(m), 2
  {
    assert Annotate(o, r, m) == Ok(m);
    InertDescentChangesNothing(o, r, m);
  }

  lemma {:induction false} InertDescentChangesNothing(o: Oracles, r: Rule, m: Val)
    requires NeverMatches(o, r) && IsNode(m)
    ensures Descend(o, r, m) == Ok(m)
    decreases ShapeOf(m), 1
  {
    match m
    case VApi(api) => InertFunctionsChangeNothing(o, r, api, 0);
    case VFunction(f) => InertArgumentsChangeNothing(o, r, f, 0);
    case VType(t) =>
      if t.pointee.Some? {
        var p := t.pointee.value;
        assert ShapeOf(m).kids[0] == ShapeOf(VType(p));
        InertRuleChangesNothing(o, r, VType(p));
        assert t.(pointee := Some(p)) == t;
      }
      InertFieldsChangeNothing(o, r, t, 0);
    case VArgument(a) =>
      assert ShapeOf(m).kids[0] == ShapeOf(VType(a.ty));
      InertRuleChangesNothing(o, r, VType(a.ty));
      assert a.(ty := a.ty) == a;
  }

  lemma {:induction false} InertFunctionsChangeNothing(o: Oracles, r: Rule, api: Api, i: nat)
    requires NeverMatches(o, r)
    ensures DescendFunctions(o, r, api, i) == Ok(VApi(api))
    decreases ShapeOf(VApi(api)), 0, |api.functions| - i
  {
    var fs := api.functions;
    if i < |fs| {
      assert ShapeOf(VApi(api)).kids[i] == ShapeOf(VFunction(fs[i]));
      InertRuleChangesNothing(o, r, VFunction(fs[i]));
      assert fs[i := fs[i]] == fs;
      assert api.(functions := fs) == api;
      InertFunctionsChangeNothing(o, r, api, i + 1);
    }
  }

  lemma {:induction false} InertArgumentsChangeNothing(o: Oracles, r: Rule, f: Function, i: nat)
    requires NeverMatches(o, r)
    ensures DescendArguments(o, r, f, i) == Ok(VFunction(f))
    decreases ShapeOf(VFunction(f)), 0, |f.arguments| + 1 - i
  {
    var args := f.arguments;
    if i < |args| {
      assert ShapeOf(VFunction(f)).kids[i] == ShapeOf(VArgument(args[i]));
      InertRuleChangesNothing(o, r, VArgument(args[i]));
      assert args[i := args[i]] == args;
      assert f.(arguments := args) == f;
      InertArgumentsChangeNothing(o, r, f, i + 1);
    } else if i == |args| {
      assert ShapeOf(VFunction(f)).kids[i] == ShapeOf(VArgument(f.returnValue));
      InertRuleChangesNothing(o, r, VArgument(f.returnValue));
      assert f.(returnValue := f.returnValue) == f;
    }
  }

  lemma {:induction false} InertFieldsChangeNothing(o: Oracles, r: Rule, t: Type, i: nat)
    requires NeverMatches(o, r)
    ensures DescendFields(o, r, t, i) == Ok(VType(t))
    decreases ShapeOf(VType(t)), 0, |t.fields| - i
  {
    var fields := t.fields;
    if i < |fields| {
      var k := if t.pointee.Some? then i + 1 else i;
      assert ShapeOf(VType(t)).kids[k] == ShapeOf(VType(fields[i].1));
      InertRuleChangesNothing(o, r, VType(fields[i].1));
      assert fields[i := (fields[i].0, fields[i].1)] == fields;
      assert t.(fields := fields) == t;
      InertFieldsChangeNothing(o, r, t, i + 1);
    }
  }

  /**
   * The node a rule is applied to keeps the attributes its own match step gave it: the
   * descent only changes nodes below it.
   */
  lemma ApplyRuleAnnotatesRootOnce(o: Oracles, r: Rule, m: Val)
    requires ApplyRule(o, r, m).Ok?
    ensures Annotate(o, r, m).Ok? && IsNode(m)
    ensures AttrsOf(ApplyRule(o, r, m).value) == AttrsOf(Annotate(o, r, m).value)
  {
  }

  /** Applying a list of rules is applying its first part, then the rest. */
  lemma {:induction false} ApplyRulesAppend(o: Oracles, a: seq<Rule>, b: seq<Rule>, m: Val)
    ensures ApplyRules(o, a + b, m)
         == (match ApplyRules(o, a, m) case Ok(m') => ApplyRules(o, b, m') case Err(e) => Err(e))
    decreases |b|
  {
    if b == [] {
      assert a + b == a;
    } else {
      var b' := b[..|b| - 1];
      assert (a + b)[..|a + b| - 1] == a + b';
      assert (a + b)[|a + b| - 1] == b[|b| - 1];
      ApplyRulesAppend(o, a, b', m);
    }
  }
}
