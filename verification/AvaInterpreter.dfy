/**
 * The Lapis 2 interpreter object (`Interpreter` in cava/lapis/interpreter/ava.py): it
 * keeps the list of rules a specification declares, and its methods carry the loops of
 * the source. Each method is proved to compute what the functions of `RuleMatching` and
 * `Interpretation` specify.
 */
module AvaInterpreter {
  import opened Values
  import opened Ast
  import opened MatchResults
  import opened RuleMatching
  import opened Interpretation

  /** The rules of a declaration list, in order. */
  function RulesOf(decls: seq<Declaration>): (rs: seq<Rule>)
    ensures |rs| <= |decls|
    ensures forall r :: r in rs <==> RuleDecl(r) in decls
  {
    if decls == [] then []
    else
      var rest := RulesOf(decls[1..]);
      assert forall x :: x in decls <==> x == decls[0] || x in decls[1..];
      if decls[0].RuleDecl? then [decls[0].r] + rest else rest
  }

  /**
   * The outcome of `interpret(spec, m, ctx)` from the `i`-th declaration on: the model
   * (or the first exception) and the interpreter's rule list, which keeps the rules
   * appended before an exception.
   */
  function RunDeclarations(decls: seq<Declaration>, i: nat, m: Val, ctx: Context, rules: seq<Rule>): (res: (Result<Val>, seq<Rule>))
    ensures rules <= res.1
    ensures res.0.Ok? ==> ShapeOf(res.0.value) == ShapeOf(m)
    decreases |decls| - i
  {
    if i >= |decls| then (Ok(m), rules)
    else match decls[i]
      case RuleDecl(r) => RunDeclarations(decls, i + 1, m, ctx, rules + [r])
      case DescriptorDecl(d) =>
        match InterpretSub(d, m, ctx)
        case Err(e) => (Err(e), rules)
        case Ok(m') => RunDeclarations(decls, i + 1, m', ctx, rules)
  }

  /**
   * A run keeps the rules it started with and only appends; when it finishes it has
   * appended exactly the declared rules, in order, and the model kept its structure.
   */
  lemma {:induction false} RunDeclarationsAppendsRules(decls: seq<Declaration>, i: nat, m: Val, ctx: Context, rules: seq<Rule>)
    requires i <= |decls|
    ensures var (res, rs) := RunDeclarations(decls, i, m, ctx, rules);
            && rules <= rs
            && (res.Ok? ==> rs == rules + RulesOf(decls[i..]) && ShapeOf(res.value) == ShapeOf(m))
    decreases |decls| - i
  {
    if i < |decls| {
      assert decls[i..] == [decls[i]] + decls[i + 1..];
      assert decls[i..][1..] == decls[i + 1..];
      match decls[i]
      case RuleDecl(r) =>
        RunDeclarationsAppendsRules(decls, i + 1, m, ctx, rules + [r]);
      case DescriptorDecl(d) =>
        match InterpretSub(d, m, ctx)
        case Err(e) =>
        case Ok(m') =>
          RunDeclarationsAppendsRules(decls, i + 1, m', ctx, rules);
    } else {
      assert decls[i..] == [];
    }
  }

  class Interpreter {
    var rules: seq<Rule>

    constructor()
      ensures rules == []
    {
      rules := [];
    }

    /**
     * `interpret(spec, m, ctx)`: the specification's descriptors are applied to the API
     * in order, and its rules are appended to `rules`.
     */
    method Interpret(spec: Specification, m: Val, ctx: Context) returns (r: Result<Val>)
      modifies this
      ensures !m.VApi? ==> r == Err(AssertionError) && rules == old(rules)
      ensures m.VApi? ==> (r, rules) == RunDeclarations(spec.declarations, 0, m, ctx, old(rules))
    {
      if !m.VApi? {
        return Err(AssertionError);
      }
      var decls := spec.declarations;
      var cur := m;
      var i := 0;
      while i < |decls|
        invariant 0 <= i <= |decls|
        invariant RunDeclarations(decls, i, cur, ctx, rules) == RunDeclarations(decls, 0, m, ctx, old(rules))
      {
        match decls[i] {
          case DescriptorDecl(d) =>
            var x := InterpretSub(d, cur, ctx);
            if x.Err? {
              return Err(x.error);
            }
            cur := x.value;
          case RuleDecl(rule) =>
            rules := rules + [rule];
        }
        i := i + 1;
      }
      r := Ok(cur);
    }

    /** `interpret_subdescriptors(descriptors, m, ctx)`: the loop over a block's descriptors. */
    method InterpretSubdescriptors(b: Block, m: Val, ctx: Context) returns (r: Result<Val>)
      ensures r == InterpretSeq(b, 0, m, ctx)
    {
      var ds := Subdescriptors(b);
      var cur := m;
      var i := 0;
      while i < |ds|
        invariant 0 <= i <= |ds|
        invariant InterpretSeq(b, i, cur, ctx) == InterpretSeq(b, 0, m, ctx)
      {
        InterpretSeqStep(b, i, cur, ctx);
        var x := InterpretSub(ds[i], cur, ctx);
        if x.Err? {
          return Err(x.error);
        }
        cur := x.value;
        i := i + 1;
      }
      InterpretSeqDone(b, cur, ctx);
      r := Ok(cur);
    }

    /** `apply_rules(m)`: the rules in the order they were declared. */
    method ApplyRules(o: Oracles, m: Val) returns (r: Result<Val>)
      ensures r == Interpretation.ApplyRules(o, rules, m)
    {
      var cur := m;
      var i := 0;
      while i < |rules|
        invariant 0 <= i <= |rules|
        invariant Interpretation.ApplyRules(o, rules[..i], m) == Ok(cur)
      {
        assert rules[..i + 1][..i] == rules[..i];
        var x := ApplyRule(o, rules[i], cur);
        if x.Err? {
          ApplyRulesAppend(o, rules[..i + 1], rules[i + 1..], m);
          assert rules[..i + 1] + rules[i + 1..] == rules;
          return Err(x.error);
        }
        cur := x.value;
        i := i + 1;
      }
      assert rules[..i] == rules;
      r := Ok(cur);
    }

    /** `apply_rule(r, m)`: match and annotate `m`, then descend into its children. */
    method ApplyRule(o: Oracles, r: Rule, m: Val) returns (res: Result<Val>)
      ensures res == Interpretation.ApplyRule(o, r, m)
      decreases ShapeOf(m), 2
    {
      var matched := RuleMatches(o, r.matcher, m);
      if matched.Err? {
        return Err(matched.error);
      }
      var m1 := m;
      if Succeeded(matched.value) {
        var holds := PredicateHolds(o, r.pred, matched.value.bindings);
        if holds.Err? {
          return Err(holds.error);
        }
        if holds.value {
          var x := InterpretSubdescriptors(r.result, m, matched.value.bindings);
          if x.Err? {
            return Err(x.error);
          }
          m1 := x.value;
        }
      }
      assert Annotate(o, r, m) == Ok(m1);
      res := DescendFrom(o, r, m1);
    }

    /** The recursive descent of `apply_rule`, below a node already visited. */
    method DescendFrom(o: Oracles, r: Rule, m: Val) returns (res: Result<Val>)
      ensures res == Descend(o, r, m)
      decreases ShapeOf(m), 1
    {
      match m
      case VApi(api) =>
        res := DescendApi(o, r, api);
      case VFunction(f) =>
        res := DescendFunction(o, r, f);
      case VType(t) =>
        res := DescendType(o, r, t);
      case VArgument(a) =>
        assert ShapeOf(m).kids[0] == ShapeOf(VType(a.ty));
        var ty' := ApplyRule(o, r, VType(a.ty));
        if ty'.Err? {
          return Err(ty'.error);
        }
        res := Ok(VArgument(a.(ty := ty'.value.t)));
      case _ =>
        res := Err(NotImplementedError);
    }

    /** `for f in m.functions: self.apply_rule(r, f)`. */
    method DescendApi(o: Oracles, r: Rule, api: Api) returns (res: Result<Val>)
      ensures res == DescendFunctions(o, r, api, 0)
      decreases ShapeOf(VApi(api)), 0
    {
      var cur := api;
      var i := 0;
      while i < |cur.functions|
        invariant 0 <= i <= |cur.functions| == |api.functions|
        invariant ShapeOf(VApi(cur)) == ShapeOf(VApi(api))
        invariant DescendFunctions(o, r, cur, i) == DescendFunctions(o, r, api, 0)
        decreases |cur.functions| - i
      {
        DescendFunctionsStep(o, r, cur, i);
        var f' := ApplyRule(o, r, VFunction(cur.functions[i]));
        if f'.Err? {
          return Err(f'.error);
        }
        cur := cur.(functions := cur.functions[i := f'.value.f]);
        i := i + 1;
      }
      res := Ok(VApi(cur));
    }

    /** `for a in m.arguments: self.apply_rule(r, a)`, then the return value. */
    method DescendFunction(o: Oracles, r: Rule, f: Function) returns (res: Result<Val>)
      ensures res == DescendArguments(o, r, f, 0)
      decreases ShapeOf(VFunction(f)), 0
    {
      var cur := f;
      var i := 0;
      while i < |cur.arguments|
        invariant 0 <= i <= |cur.arguments| == |f.arguments|
        invariant ShapeOf(VFunction(cur)) == ShapeOf(VFunction(f))
        invariant DescendArguments(o, r, cur, i) == DescendArguments(o, r, f, 0)
        decreases |cur.arguments| - i
      {
        DescendArgumentsStep(o, r, cur, i);
        var a' := ApplyRule(o, r, VArgument(cur.arguments[i]));
        if a'.Err? {
          return Err(a'.error);
        }
        cur := cur.(arguments := cur.arguments[i := a'.value.a]);
        i := i + 1;
      }
      assert ShapeOf(VFunction(cur)).kids[i] == ShapeOf(VArgument(cur.returnValue));
      var rv := ApplyRule(o, r, VArgument(cur.returnValue));
      if rv.Err? {
        return Err(rv.error);
      }
      res := Ok(VFunction(cur.(returnValue := rv.value.a)));
    }

    /** The pointee when there is one, then `for t in m.fields.values(): self.apply_rule(r, t)`. */
    method DescendType(o: Oracles, r: Rule, t: Type) returns (res: Result<Val>)
      ensures res == Descend(o, r, VType(t))
      decreases ShapeOf(VType(t)), 0
    {
      var cur := t;
      if t.pointee.Some? {
        assert ShapeOf(VType(t)).kids[0] == ShapeOf(VType(t.pointee.value));
        var p' := ApplyRule(o, r, VType(t.pointee.value));
        if p'.Err? {
          return Err(p'.error);
        }
        cur := t.(pointee := Some(p'.value.t));
        assert TypeShape(cur) == TypeShape(t);
      }
      assert Descend(o, r, VType(t)) == DescendFields(o, r, cur, 0);
      ghost var start := cur;
      var i := 0;
      while i < |cur.fields|
        invariant 0 <= i <= |cur.fields| == |t.fields|
        invariant cur.pointee.Some? == t.pointee.Some?
        invariant ShapeOf(VType(cur)) == ShapeOf(VType(t))
        invariant DescendFields(o, r, cur, i) == DescendFields(o, r, start, 0)
        decreases |cur.fields| - i
      {
        DescendFieldsStep(o, r, cur, i);
        var ft := ApplyRule(o, r, VType(cur.fields[i].1));
        if ft.Err? {
          return Err(ft.error);
        }
        cur := cur.(fields := cur.fields[i := (cur.fields[i].0, ft.value.t)]);
        i := i + 1;
      }
      res := Ok(VType(cur));
    }

    /** `rule_matches(match, m)`, with the loop over a match block's children. */
    method RuleMatches(o: Oracles, matcher: Matcher, m: Val) returns (r: Result<MatchResult>)
      ensures r == Matches(o, matcher, m)
      decreases matcher, 2
    {
      match matcher
      case MatchDescriptor(_, _, _) =>
        r := Err(ValueError);
      case MatchBlock(_, _) =>
        r := RuleMatchesBlock(o, matcher, m);
      case MatcherAny =>
        r := Ok(EmptyBinding);
      case MatcherBind(bind, child) =>
        var sub := RuleMatches(o, child, m);
        if sub.Err? {
          return Err(sub.error);
        }
        r := Ok(Add(sub.value, Binding(map[bind := m])));
      case MatcherString(regex) =>
        r := Ok(if o.regexMatches(regex, Str(m)) then EmptyBinding else Failure);
      case MatcherPredicate(p, args) =>
        if p == "pointer" {
          if m.VType? && GetAttr(m, "pointee").Some? && Truthy(GetAttr(m, "pointee").value) {
            if |args| == 0 {
              return Err(IndexError);
            }
            r := RuleMatches(o, args[0], GetAttr(m, "pointee").value);
          } else {
            r := Ok(Failure);
          }
        } else if p == "const" || p == "nonconst" {
          if m.VType? && (AttrFlag(m, "is_const") <==> p == "const") {
            if |args| == 0 {
              return Err(IndexError);
            }
            r := RuleMatches(o, args[0], m);
          } else {
            r := Ok(Failure);
          }
        } else if p == "transferrable" {
          r := Ok(MatchResultOf(Plain(VBool(m.VType? && !AttrFlag(m, "nontransferrable")))));
        } else if p == "not" {
          if |args| == 0 {
            return Err(IndexError);
          }
          var sub := RuleMatches(o, args[0], m);
          if sub.Err? {
            return Err(sub.error);
          }
          r := Ok(MatchResultOf(Plain(VBool(!Succeeded(sub.value)))));
        } else {
          r := Err(ValueError);
        }
      case MatcherValue(v) =>
        var x := Eval(v, map[]);
        if x.Err? {
          return Err(x.error);
        }
        r := Ok(if x.value == VStr(Str(m)) then EmptyBinding else Failure);
    }

    /** The match-block case of `rule_matches`: the `sub +=` loop over the children. */
    method RuleMatchesBlock(o: Oracles, matcher: Matcher, m: Val) returns (r: Result<MatchResult>)
      requires matcher.MatchBlock?
      ensures r == Matches(o, matcher, m)
      decreases matcher, 1
    {
      var bind := matcher.bind;
      var children := matcher.children;
      ghost var rs := ChildResults(o, matcher, m);
      ghost var vals: seq<MatchResult> := [];
      var sub := EmptyBinding;
      var i := 0;
      while i < |children|
        invariant 0 <= i <= |children|
        invariant |vals| == i && forall j :: 0 <= j < i ==> rs[j] == Ok(vals[j])
        invariant sub == Sum(vals)
      {
        var d := RuleMatchesSubdescriptor(o, children[i], m);
        if d.Err? {
          assert rs[i] == d;
          return Err(d.error);
        }
        assert (vals + [d.value])[..i] == vals;
        vals := vals + [d.value];
        sub := Add(sub, d.value);
        i := i + 1;
      }
      BlockSumsChildren(o, matcher, m, vals);
      if bind != "" {
        r := Ok(Add(sub, Binding(map[bind := m])));
      } else {
        r := Ok(sub);
      }
    }

    /** `rule_matches_subdescriptor(match, m)`. */
    method RuleMatchesSubdescriptor(o: Oracles, matcher: Matcher, m: Val) returns (r: Result<MatchResult>)
      ensures r == MatchesSub(o, matcher, m)
      decreases matcher, 2
    {
      if !matcher.MatchDescriptor? {
        return Err(AssertionError);
      }
      var sub := EmptyBinding;
      var name := matcher.descriptor;
      var args := matcher.arguments;
      if IdMatches(name, "NOT") {
        var notMatch := RuleMatches(o, matcher.block, m);
        if notMatch.Err? {
          return Err(notMatch.error);
        }
        r := Ok(if Succeeded(notMatch.value) then Failure else EmptyBinding);
      } else if IdMatches(name, "function") || IdMatches(name, "argument") {
        if !(if IdMatches(name, "function") then m.VApi? else m.VFunction?) {
          return Ok(Failure);
        }
        if |args| == 0 {
          return Err(IndexError);
        }
        var hit := Search(o, matcher, m);
        if hit.Err? {
          return Err(hit.error);
        }
        r := Ok(Add(sub, hit.value));
      } else if IdMatches(name, "element") {
        if !m.VType? {
          return Ok(Failure);
        }
        var pointee := GetAttr(m, "pointee");
        if pointee.None? {
          return Err(AttributeError);
        }
        var x := RuleMatches(o, matcher.block, pointee.value);
        if x.Err? {
          return Err(x.error);
        }
        r := Ok(Add(sub, x.value));
      } else if IdMatches(name, "field") {
        if !m.VType? {
          return Ok(Failure);
        }
        if |args| == 0 {
          return Err(IndexError);
        }
        var ft := FieldTarget(m.t.fields, NameOf(args[0]));
        if ft.Err? {
          return Err(ft.error);
        }
        var x := RuleMatches(o, matcher.block, VType(ft.value));
        if x.Err? {
          return Err(x.error);
        }
        r := Ok(Add(sub, x.value));
      } else {
        var attr := GetAttr(m, name);
        if attr.Some? && |args| == 1 {
          var x := RuleMatches(o, args[0], attr.value);
          if x.Err? {
            return Err(x.error);
          }
          r := Ok(Add(sub, x.value));
        } else {
          r := Ok(Failure);
        }
      }
    }

    /**
     * The `for ... break ... else` loop of the `function` and `argument` matchers: the
     * functions of an API, or the arguments of a function, in order.
     */
    method Search(o: Oracles, md: Matcher, m: Val) returns (r: Result<MatchResult>)
      requires md.MatchDescriptor? && |md.arguments| > 0 && (m.VApi? || m.VFunction?)
      ensures r == FirstHit(Candidates(o, md, m))
      decreases md, 1
    {
      ghost var cs := Candidates(o, md, m);
      var n := if m.VApi? then |m.api.functions| else |m.f.arguments|;
      var i := 0;
      while i < n
        invariant 0 <= i <= n == |cs|
        invariant forall j :: 0 <= j < i ==> Missed(cs[j])
      {
        var name, node;
        if m.VApi? {
          name, node := VStr(m.api.functions[i].name), VFunction(m.api.functions[i]);
        } else {
          name, node := VStr(m.f.arguments[i].name), VArgument(m.f.arguments[i]);
        }
        assert cs[i] == Candidate(o, md, name, node);
        var nameMatch := RuleMatches(o, md.arguments[0], name);
        if nameMatch.Err? {
          FirstHitAt(cs, i);
          return Err(nameMatch.error);
        }
        var blockMatch := RuleMatches(o, md.block, node);
        if blockMatch.Err? {
          FirstHitAt(cs, i);
          return Err(blockMatch.error);
        }
        var overall := Add(nameMatch.value, blockMatch.value);
        if Succeeded(overall) {
          FirstHitAt(cs, i);
          return Ok(overall);
        }
        i := i + 1;
      }
      r := Ok(Failure);
    }
  }
}
