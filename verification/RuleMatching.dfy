/**
 * Evaluation of Lapis 2 matchers against the API model (`Interpreter.rule_matches` and
 * `Interpreter.rule_matches_subdescriptor` in cava/lapis/interpreter/ava.py), stated as
 * functions. The imperative versions, with the source's loops, are the methods of
 * `AvaInterpreter.Interpreter`, proved equal to these.
 */
module RuleMatching {
  import opened Values
  import opened Ast
  import opened MatchResults

  /** What the interpreter borrows from Python: regular-expression matching and `eval`. */
  datatype Oracles = Oracles(
    regexMatches: (string, string) -> bool,   // re.compile(regex).match(text) finds a match
    evalPredicate: (string, Context) -> bool) // eval(code, bindings) is truthy

  /**
   * The name a `field` matcher's argument stands for, read as the matcher's author
   * intended: only an identifier value has one, and it is the identifier's name.
   */
  function NameOf(m: Matcher): (r: Option<string>)
    ensures r.Some? <==> m.MatcherValue? && m.value.Id?
  {
    if m.MatcherValue? && m.value.Id? then Some(m.value.name) else None
  }

  /** The attributes the constructor of each matcher class in cava/lapis/parser/ast.py sets. */
  function MatcherAttributes(m: Matcher): set<string> {
    match m
    case MatchDescriptor(_, _, _) => {"descriptor", "arguments", "block"}
    case MatchBlock(_, _) => {"bind", "children"}
    case MatcherBind(_, _) => {"bind", "child"}
    case MatcherString(_) => {"regex", "re"}
    case MatcherValue(_) => {"value"}
    case MatcherPredicate(_, _) => {"predicate", "arguments"}
    case MatcherAny => {}
  }

  /**
   * `m.name` read from a matcher object as Python does: the attribute exists only when
   * the matcher's class sets it.
   */
  function NameAttribute(m: Matcher): Option<string> {
    if "name" in MatcherAttributes(m) then NameOf(m) else None
  }

  /** `fields[name]`: the type stored under the name, looked up in insertion order. */
  function FieldLookup(fields: seq<(string, Type)>, name: string): (r: Option<Type>)
    ensures r.Some? <==> exists i :: 0 <= i < |fields| && fields[i].0 == name
    ensures r.Some? ==> exists i :: 0 <= i < |fields| && fields[i] == (name, r.value)
  {
    if fields == [] then None
    else if fields[0].0 == name then Some(fields[0].1)
    else
      var r := FieldLookup(fields[1..], name);
      assert forall i :: 1 <= i < |fields| ==> fields[i] == fields[1..][i - 1];
      r
  }

  /**
   * `m.fields[field_name]` for a `field` matcher: AttributeError when the matcher's
   * argument has no name, KeyError when the type has no field of that name.
   */
  function FieldTarget(fields: seq<(string, Type)>, name: Option<string>): (r: Result<Type>)
    ensures name.None? ==> r == Err(AttributeError)
    ensures name.Some? ==> (r.Ok? <==> exists i :: 0 <= i < |fields| && fields[i].0 == name.value)
    ensures name.Some? && r.Err? ==> r.error == KeyError
    ensures r.Ok? ==> exists i :: 0 <= i < |fields| && fields[i] == (name.value, r.value)
  {
    match name
    case None => Err(AttributeError)
    case Some(n) =>
      match FieldLookup(fields, n)
      case None => Err(KeyError)
      case Some(t) => Ok(t)
  }

  /** A sequence of results, or the first error among them (an exception stops the loop). */
  function Collect(rs: seq<Result<MatchResult>>): (r: Result<seq<MatchResult>>)
    ensures r.Ok? <==> forall i :: 0 <= i < |rs| ==> rs[i].Ok?
    ensures r.Ok? ==> |r.value| == |rs| && forall i :: 0 <= i < |rs| ==> rs[i] == Ok(r.value[i])
    ensures r.Err? ==> exists k :: 0 <= k < |rs| && rs[k] == Err(r.error) && forall j :: 0 <= j < k ==> rs[j].Ok?
  {
    if rs == [] then Ok([])
    else if rs[0].Err? then Err(rs[0].error)
    else
      var rest := Collect(rs[1..]);
      assert forall i :: 1 <= i < |rs| ==> rs[i] == rs[1..][i - 1];
      match rest
      case Ok(vs) => Ok([rs[0].value] + vs)
      case Err(e) =>
        assert exists k :: 1 <= k < |rs| && rs[k] == Err(e) && forall j :: 0 <= j < k ==> rs[j].Ok? by {
          var k :| 0 <= k < |rs[1..]| && rs[1..][k] == Err(e) && forall j :: 0 <= j < k ==> rs[1..][j].Ok?;
          assert rs[k + 1] == Err(e);
        }
        Err(e)
  }

  /** A candidate that neither raised nor matched: the search goes on past it. */
  predicate Missed(c: Result<MatchResult>) {
    c.Ok? && !Succeeded(c.value)
  }

  /**
   * The search of the `function` and `argument` matchers (`for ... break ... else`):
   * the first candidate that raises or matches decides; when none does, a failure.
   */
  function FirstHit(cands: seq<Result<MatchResult>>): (r: Result<MatchResult>)
    ensures r == Ok(Failure) <==> forall j :: 0 <= j < |cands| ==> Missed(cands[j])
    ensures r != Ok(Failure) ==> exists i :: 0 <= i < |cands| && cands[i] == r && !Missed(r)
                                   && forall j :: 0 <= j < i ==> Missed(cands[j])
  {
    if cands == [] then Ok(Failure)
    else if !Missed(cands[0]) then cands[0]
    else
      var r := FirstHit(cands[1..]);
      assert forall j :: 1 <= j < |cands| ==> cands[j] == cands[1..][j - 1];
      assert r != Ok(Failure) ==> exists i :: 0 <= i < |cands| && cands[i] == r && forall j :: 0 <= j < i ==> Missed(cands[j]) by {
        if r != Ok(Failure) {
          var i :| 0 <= i < |cands[1..]| && cands[1..][i] == r && forall j :: 0 <= j < i ==> Missed(cands[1..][j]);
          assert cands[i + 1] == r;
        }
      }
      r
  }

  /** The search stops at the first candidate that raises or matches. */
  lemma FirstHitAt(cands: seq<Result<MatchResult>>, i: nat)
    requires i < |cands| && !Missed(cands[i])
    requires forall j :: 0 <= j < i ==> Missed(cands[j])
    ensures FirstHit(cands) == cands[i]
  {
    var r := FirstHit(cands);
    if r != Ok(Failure) {
      var k :| 0 <= k < |cands| && cands[k] == r && !Missed(r) && forall j :: 0 <= j < k ==> Missed(cands[j]);
    }
  }

  /**
   * The names a matcher can bind: the bind names of its blocks and bind matchers, at
   * any depth.
   */
  function BindNames(m: Matcher): set<string>
    decreases m
  {
    match m
    case MatchDescriptor(_, args, block) => NamesOf(args) + BindNames(block)
    case MatchBlock(bind, children) => (if bind != "" then {bind} else {}) + NamesOf(children)
    case MatcherBind(bind, child) => {bind} + BindNames(child)
    case MatcherPredicate(_, args) => NamesOf(args)
    case _ => {}
  }

  function NamesOf(ms: seq<Matcher>): set<string>
    decreases ms
  {
    set i, k | 0 <= i < |ms| && k in BindNames(ms[i]) :: k
  }

  /** A result that binds, if it binds at all, only names among `names`. */
  predicate BindsWithin(r: Result<MatchResult>, names: set<string>) {
    r.Ok? && r.value.Binding? ==> r.value.bindings.Keys <= names
  }

  /** `rule_matches(match, m)`: a successful match binds only names the matcher declares. */
  function Matches(o: Oracles, matcher: Matcher, m: Val): (r: Result<MatchResult>)
    ensures BindsWithin(r, BindNames(matcher))
    decreases matcher, 2
  {
    match matcher
    case MatchDescriptor(_, _, _) => Err(ValueError)
    case MatchBlock(bind, children) =>
      var subs :- Collect(ChildResults(o, matcher, m));
      var sub := Sum(subs);
      assert BindsWithin(Ok(sub), NamesOf(children)) by {
        if sub.Binding? {
          SumKeys(subs);
          forall k | k in sub.bindings ensures k in NamesOf(children) {
            var i :| 0 <= i < |subs| && subs[i].Binding? && k in subs[i].bindings;
            assert ChildResults(o, matcher, m)[i] == Ok(subs[i]);
            assert k in BindNames(children[i]);
          }
        }
      }
      Ok(if bind != "" then Add(sub, Binding(map[bind := m])) else sub)
    case MatcherAny => Ok(EmptyBinding)
    case MatcherBind(bind, child) =>
      var sub :- Matches(o, child, m);
      Ok(Add(sub, Binding(map[bind := m])))
    case MatcherString(regex) =>
      Ok(if o.regexMatches(regex, Str(m)) then EmptyBinding else Failure)
    case MatcherPredicate(p, args) =>
      if p == "pointer" then
        if m.VType? && GetAttr(m, "pointee").Some? && Truthy(GetAttr(m, "pointee").value) then
          if |args| == 0 then Err(IndexError) else Matches(o, args[0], GetAttr(m, "pointee").value)
        else Ok(Failure)
      else if p == "const" then
        if m.VType? && AttrFlag(m, "is_const") then
          if |args| == 0 then Err(IndexError) else Matches(o, args[0], m)
        else Ok(Failure)
      else if p == "nonconst" then
        if m.VType? && !AttrFlag(m, "is_const") then
          if |args| == 0 then Err(IndexError) else Matches(o, args[0], m)
        else Ok(Failure)
      else if p == "transferrable" then
        Ok(MatchResultOf(Plain(VBool(m.VType? && !AttrFlag(m, "nontransferrable")))))
      else if p == "not" then
        if |args| == 0 then Err(IndexError)
        else
          var r :- Matches(o, args[0], m);
          Ok(MatchResultOf(Plain(VBool(!Succeeded(r)))))
      else Err(ValueError)
    case MatcherValue(v) =>
      var x :- Eval(v, map[]);
      Ok(if x == VStr(Str(m)) then EmptyBinding else Failure)
  }

  /** The results of a match block's children, in order. */
  function ChildResults(o: Oracles, block: Matcher, m: Val): (rs: seq<Result<MatchResult>>)
    requires block.MatchBlock?
    ensures |rs| == |block.children|
    ensures forall i :: 0 <= i < |rs| ==> BindsWithin(rs[i], BindNames(block.children[i]))
    decreases block, 1
  {
    seq(|block.children|, i requires 0 <= i < |block.children| => MatchesSub(o, block.children[i], m))
  }

  /** One candidate of a `function`/`argument` search: its name match plus its block match. */
  function Candidate(o: Oracles, md: Matcher, name: Val, node: Val): (r: Result<MatchResult>)
    requires md.MatchDescriptor? && |md.arguments| > 0
    ensures BindsWithin(r, BindNames(md))
    decreases md, 0
  {
    var nameMatch :- Matches(o, md.arguments[0], name);
    var blockMatch :- Matches(o, md.block, node);
    Ok(Add(nameMatch, blockMatch))
  }

  /** The candidates of a `function` search over an API, or an `argument` search over a function. */
  function Candidates(o: Oracles, md: Matcher, m: Val): (cs: seq<Result<MatchResult>>)
    requires md.MatchDescriptor? && |md.arguments| > 0 && (m.VApi? || m.VFunction?)
    ensures forall i :: 0 <= i < |cs| ==> BindsWithin(cs[i], BindNames(md))
    decreases md, 1
  {
    if m.VApi? then
      var fs := m.api.functions;
      seq(|fs|, i requires 0 <= i < |fs| => Candidate(o, md, VStr(fs[i].name), VFunction(fs[i])))
    else
      var args := m.f.arguments;
      seq(|args|, i requires 0 <= i < |args| => Candidate(o, md, VStr(args[i].name), VArgument(args[i])))
  }

  /** `rule_matches_subdescriptor(match, m)`: a match descriptor in the scope of `m`. */
  function MatchesSub(o: Oracles, matcher: Matcher, m: Val): (r: Result<MatchResult>)
    ensures BindsWithin(r, BindNames(matcher))
    decreases matcher, 2
  {
    if !matcher.MatchDescriptor? then Err(AssertionError)
    else
      var name := matcher.descriptor;
      var args := matcher.arguments;
      if IdMatches(name, "NOT") then
        var r :- Matches(o, matcher.block, m);
        Ok(if Succeeded(r) then Failure else EmptyBinding)
      else if IdMatches(name, "function") then
        if !m.VApi? then Ok(Failure)
        else if |args| == 0 then Err(IndexError)
        else
          var hit :- FirstHit(Candidates(o, matcher, m));
          Ok(Add(EmptyBinding, hit))
      else if IdMatches(name, "argument") then
        if !m.VFunction? then Ok(Failure)
        else if |args| == 0 then Err(IndexError)
        else
          var hit :- FirstHit(Candidates(o, matcher, m));
          Ok(Add(EmptyBinding, hit))
      else if IdMatches(name, "element") then
        if !m.VType? then Ok(Failure)
        else if GetAttr(m, "pointee").None? then Err(AttributeError)
        else
          var r :- Matches(o, matcher.block, GetAttr(m, "pointee").value);
          Ok(Add(EmptyBinding, r))
      else if IdMatches(name, "field") then FieldBranch(o, matcher, m, NameOf)
      else if GetAttr(m, name).Some? && |args| == 1 then
        var r :- Matches(o, args[0], GetAttr(m, name).value);
        Ok(Add(EmptyBinding, r))
      else Ok(Failure)
  }

  /**
   * The `field` branch of `rule_matches_subdescriptor`, with `nameOf` reading the field's
   * name from the matcher's first argument: the type's field of that name is matched
   * against the block.
   */
  function FieldBranch(o: Oracles, matcher: Matcher, m: Val, nameOf: Matcher -> Option<string>): (r: Result<MatchResult>)
    requires matcher.MatchDescriptor?
    ensures BindsWithin(r, BindNames(matcher))
    decreases matcher, 1
  {
    if !m.VType? then Ok(Failure)
    else if |matcher.arguments| == 0 then Err(IndexError)
    else
      var ft :- FieldTarget(m.t.fields, nameOf(matcher.arguments[0]));
      var r :- Matches(o, matcher.block, VType(ft));
      Ok(Add(EmptyBinding, r))
  }

  // ---------------------------------------------------------------------------
  // Properties of matching

  /**
   * A match block evaluates every child; when none raises, it fails exactly when some
   * child fails.
   */
  lemma BlockFailsIff(o: Oracles, bind: string, children: seq<Matcher>, m: Val)
    requires Matches(o, MatchBlock(bind, children), m).Ok?
    ensures forall i :: 0 <= i < |children| ==> MatchesSub(o, children[i], m).Ok?
    ensures Matches(o, MatchBlock(bind, children), m).value.Failure?
        <==> exists i :: 0 <= i < |children| && MatchesSub(o, children[i], m) == Ok(Failure)
  {
    var block := MatchBlock(bind, children);
    var rs := ChildResults(o, block, m);
    var subs := Collect(rs).value;
    SumFailsIff(subs);
    assert forall i :: 0 <= i < |children| ==> rs[i] == MatchesSub(o, children[i], m);
    if bind != "" {
      assert Matches(o, block, m).value == Add(Sum(subs), Binding(map[bind := m]));
    }
  }

  /**
   * When no child of a block raises, the block's result is the sum of the children's
   * results, in order, with the bind name added when there is one.
   */
  lemma BlockSumsChildren(o: Oracles, block: Matcher, m: Val, vals: seq<MatchResult>)
    requires block.MatchBlock? && |vals| == |block.children|
    requires forall j :: 0 <= j < |vals| ==> MatchesSub(o, block.children[j], m) == Ok(vals[j])
    ensures Matches(o, block, m)
         == Ok(if block.bind != "" then Add(Sum(vals), Binding(map[block.bind := m])) else Sum(vals))
  {
    var rs := ChildResults(o, block, m);
    assert forall j :: 0 <= j < |rs| ==> rs[j] == Ok(vals[j]);
    assert Collect(rs).Ok?;
    assert Collect(rs).value == vals;
  }

  /** A successful block with a bind name maps that name to the matched node. */
  lemma BlockBindsItsName(o: Oracles, bind: string, children: seq<Matcher>, m: Val)
    requires bind != ""
    requires Matches(o, MatchBlock(bind, children), m).Ok?
    requires Succeeded(Matches(o, MatchBlock(bind, children), m).value)
    ensures var b := Matches(o, MatchBlock(bind, children), m).value.bindings;
            bind in b && b[bind] == m
  {
  }

  /**
   * Any other name a successful block binds comes from its children: the last child
   * that binds the name gives its value.
   */
  lemma BlockBindingFromLastChild(o: Oracles, bind: string, children: seq<Matcher>, m: Val, i: nat, k: string)
    requires k != bind
    requires Matches(o, MatchBlock(bind, children), m).Ok?
    requires Succeeded(Matches(o, MatchBlock(bind, children), m).value)
    requires i < |children| && MatchesSub(o, children[i], m).Ok?
    requires var r := MatchesSub(o, children[i], m).value; r.Binding? && k in r.bindings
    requires forall j :: i < j < |children| && MatchesSub(o, children[j], m).Ok? && MatchesSub(o, children[j], m).value.Binding?
               ==> k !in MatchesSub(o, children[j], m).value.bindings
    ensures var b := Matches(o, MatchBlock(bind, children), m).value.bindings;
            k in b && b[k] == MatchesSub(o, children[i], m).value.bindings[k]
  {
    var block := MatchBlock(bind, children);
    var rs := ChildResults(o, block, m);
    var subs := Collect(rs).value;
    assert forall j :: 0 <= j < |children| ==> rs[j] == Ok(subs[j]);
    SumFailsIff(subs);
    SumLastBinderWins(subs, i, k);
  }

  /** A bind matcher adds the bind name, mapped to the subject, to a successful child match. */
  lemma BindMatcherBindsSubject(o: Oracles, bind: string, child: Matcher, m: Val)
    requires Matches(o, child, m).Ok?
    ensures Matches(o, MatcherBind(bind, child), m).Ok?
    ensures var r := Matches(o, MatcherBind(bind, child), m).value;
            Succeeded(r) <==> Succeeded(Matches(o, child, m).value)
    ensures var r := Matches(o, MatcherBind(bind, child), m).value;
            Succeeded(r) ==> bind in r.bindings && r.bindings[bind] == m
  {
  }

  /** The `not` predicate inverts success and contributes no bindings. */
  lemma NotPredicateInverts(o: Oracles, arg: Matcher, rest: seq<Matcher>, m: Val)
    requires Matches(o, arg, m).Ok?
    ensures Matches(o, MatcherPredicate("not", [arg] + rest), m)
         == Ok(if Succeeded(Matches(o, arg, m).value) then Failure else EmptyBinding)
  {
  }

  /** The `NOT` subdescriptor inverts the success of its block and contributes no bindings. */
  lemma NotSubdescriptorInverts(o: Oracles, args: seq<Matcher>, block: Matcher, m: Val)
    requires Matches(o, block, m).Ok?
    ensures MatchesSub(o, MatchDescriptor("NOT", args, block), m)
         == Ok(if Succeeded(Matches(o, block, m).value) then Failure else EmptyBinding)
  {
  }

  /** The type predicates fail on anything that is not a type. */
  lemma TypePredicatesRejectNonTypes(o: Oracles, p: string, args: seq<Matcher>, m: Val)
    requires p == "pointer" || p == "const" || p == "nonconst" || p == "transferrable"
    requires !m.VType?
    ensures Matches(o, MatcherPredicate(p, args), m) == Ok(Failure)
  {
  }

  /**
   * A `function` (or `argument`) matcher takes the first function (argument) in list
   * order whose name and block both match, with the bindings of both; it fails when
   * none matches and no candidate raised.
   */
  lemma SearchTakesFirstMatch(o: Oracles, md: Matcher, m: Val)
    requires md.MatchDescriptor? && |md.arguments| > 0
    requires (md.descriptor == "function" && m.VApi?) || (md.descriptor == "argument" && m.VFunction?)
    requires MatchesSub(o, md, m).Ok?
    ensures var r := MatchesSub(o, md, m).value;
            var cs := Candidates(o, md, m);
            && (r.Failure? <==> forall j :: 0 <= j < |cs| ==> Missed(cs[j]))
            && (Succeeded(r) ==> exists i :: 0 <= i < |cs| && cs[i] == Ok(r) && forall j :: 0 <= j < i ==> Missed(cs[j]))
  {
    var cs := Candidates(o, md, m);
    SearchIsFirstHit(o, md, m, cs);
    FirstHitOutcome(cs, MatchesSub(o, md, m).value);
  }

  /** Both searching matchers give exactly the result of the search over their candidates. */
  lemma SearchIsFirstHit(o: Oracles, md: Matcher, m: Val, cs: seq<Result<MatchResult>>)
    requires md.MatchDescriptor? && |md.arguments| > 0
    requires (md.descriptor == "function" && m.VApi?) || (md.descriptor == "argument" && m.VFunction?)
    requires cs == Candidates(o, md, m)
    requires MatchesSub(o, md, m).Ok?
    ensures MatchesSub(o, md, m) == FirstHit(cs)
  {
    var hit := FirstHit(cs);
    assert hit.Ok? && MatchesSub(o, md, m) == Ok(Add(EmptyBinding, hit.value));
    AddIdentity(hit.value);
  }

  /** A search that ends in a result: a failure when every candidate missed, else the first hit. */
  lemma FirstHitOutcome(cs: seq<Result<MatchResult>>, r: MatchResult)
    requires FirstHit(cs) == Ok(r)
    ensures r.Failure? <==> forall j :: 0 <= j < |cs| ==> Missed(cs[j])
    ensures Succeeded(r) ==> exists i :: 0 <= i < |cs| && cs[i] == Ok(r) && forall j :: 0 <= j < i ==> Missed(cs[j])
  {
    if r.Failure? {
      assert FirstHit(cs) == Ok(Failure);
    } else {
      assert FirstHit(cs) != Ok(Failure);
      var i :| 0 <= i < |cs| && cs[i] == FirstHit(cs) && !Missed(FirstHit(cs)) && forall j :: 0 <= j < i ==> Missed(cs[j]);
      assert cs[i] == Ok(r);
    }
  }

  /** Each candidate's bindings: the block's bindings over the name's. */
  lemma CandidateBindings(o: Oracles, md: Matcher, name: Val, node: Val)
    requires md.MatchDescriptor? && |md.arguments| > 0
    requires Candidate(o, md, name, node).Ok?
    ensures Matches(o, md.arguments[0], name).Ok? && Matches(o, md.block, node).Ok?
    ensures Candidate(o, md, name, node).value == Add(Matches(o, md.arguments[0], name).value, Matches(o, md.block, node).value)
  {
  }

  /**
   * A `field(x)` matcher on a type with a field `x` matches the block against that
   * field's type, and raises KeyError on a type without one.
   */
  lemma FieldMatcherFollowsNamedField(o: Oracles, x: string, block: Matcher, t: Type)
    ensures var md := MatchDescriptor("field", [MatcherValue(Id(x))], block);
            && (FieldLookup(t.fields, x).None? ==> MatchesSub(o, md, VType(t)) == Err(KeyError))
            && (FieldLookup(t.fields, x).Some? && Matches(o, block, VType(FieldLookup(t.fields, x).value)).Ok? ==>
                  MatchesSub(o, md, VType(t)) == Matches(o, block, VType(FieldLookup(t.fields, x).value)))
  {
    var md := MatchDescriptor("field", [MatcherValue(Id(x))], block);
    if FieldLookup(t.fields, x).Some? && Matches(o, block, VType(FieldLookup(t.fields, x).value)).Ok? {
      AddIdentity(Matches(o, block, VType(FieldLookup(t.fields, x).value)).value);
    }
  }

  /**
   * As written, the `field` branch reads `name` from the matcher's first argument, an
   * attribute no matcher class sets: on every type it raises AttributeError.
   */
  lemma FieldAsWrittenRaises(o: Oracles, matcher: Matcher, t: Type)
    requires matcher.MatchDescriptor? && |matcher.arguments| > 0
    ensures FieldBranch(o, matcher, VType(t), NameAttribute) == Err(AttributeError)
  {
    assert "name" !in MatcherAttributes(matcher.arguments[0]);
  }

  /**
   * `field(x);` on a type with a field `x`: the code as written raises AttributeError,
   * while the matcher as intended matches with no bindings.
   */
  lemma FieldAsWrittenDiffersFromIntended(o: Oracles, x: string, t: Type)
    requires FieldLookup(t.fields, x).Some?
    ensures var md := MatchDescriptor("field", [MatcherValue(Id(x))], MatchBlock("", []));
            && FieldBranch(o, md, VType(t), NameAttribute) == Err(AttributeError)
            && MatchesSub(o, md, VType(t)) == Ok(EmptyBinding)
  {
    var md := MatchDescriptor("field", [MatcherValue(Id(x))], MatchBlock("", []));
    FieldAsWrittenRaises(o, md, t);
    var ft := FieldLookup(t.fields, x).value;
    assert ChildResults(o, md.block, VType(ft)) == [];
    assert Matches(o, md.block, VType(ft)) == Ok(EmptyBinding);
    AddIdentity(EmptyBinding);
  }

  /**
   * An identifier used as a matcher evaluates, with no bindings, to its own name, which
   * is compared with the subject's printed form.
   */
  lemma IdentifierMatcherComparesName(o: Oracles, x: string, m: Val)
    ensures Matches(o, MatcherValue(Id(x)), m) == Ok(if Str(m) == x then EmptyBinding else Failure)
  {
  }

  /**
   * A value matcher compares the evaluated value with the subject's printed form, so a
   * number or boolean literal never matches anything.
   */
  lemma ValueMatcherNeverMatchesNonStrings(o: Oracles, v: Value, m: Val)
    requires v.Number? || v.Bool?
    ensures Matches(o, MatcherValue(v), m) == Ok(Failure)
  {
  }
}
