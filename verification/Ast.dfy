/**
 * The Lapis 2 abstract syntax (cava/lapis/parser/ast.py): values and their evaluation,
 * descriptors and their block normalisation, matchers, rules and specifications, and
 * the pretty-printer that renders each of them back as Lapis 2 text.
 */
module Ast {
  import opened Values

  // ---------------------------------------------------------------------------
  // Values

  /** A piece of a quoted code block: literal text, or `${name}` interpolating a variable. */
  datatype Segment = Text(text: string) | Interpolate(variable: string)

  datatype Value =
    | Id(name: string)
    | String(value: string)
    | Number(n: int)
    | Bool(b: bool)
    | Code(segments: seq<Segment>)

  predicate IsIdStart(c: char) { 'a' <= c <= 'z' || 'A' <= c <= 'Z' || c == '_' }

  predicate IsIdChar(c: char) { IsIdStart(c) || '0' <= c <= '9' }

  predicate IsIdentifier(s: string) {
    |s| > 0 && IsIdStart(s[0]) && forall i :: 1 <= i < |s| ==> IsIdChar(s[i])
  }

  /**
   * Whether SIMPLE_ID_RE matches: a letter or underscore, then letters, digits and
   * underscores. Python's `$` also matches just before a final newline, so an
   * identifier followed by one "\n" matches too.
   */
  predicate IsSimpleId(s: string)
    ensures IsSimpleId(s) ==> |s| > 0 && IsIdStart(s[0]) && '`' !in s
  {
    IsIdentifier(s) || (|s| > 0 && s[|s| - 1] == '\n' && IsIdentifier(s[..|s| - 1]))
  }

  /** An identifier prints bare when simple, and between backquotes otherwise. */
  function IdToString(name: string): (r: string)
    ensures |r| > 0
    ensures r == name || r == "`" + name + "`"
  {
    if IsSimpleId(name) then name else "`" + name + "`"
  }

  /** What a reader of the printed identifier recovers: the text between the backquotes, if any. */
  function UnquoteId(s: string): string {
    if |s| >= 2 && s[0] == '`' && s[|s| - 1] == '`' then s[1..|s| - 1] else s
  }

  lemma IdToStringRoundTrip(name: string)
    ensures UnquoteId(IdToString(name)) == name
  {
    if IsSimpleId(name) {
      assert IsIdStart(name[0]);
    } else {
      var s := "`" + name + "`";
      assert s[1..|s| - 1] == name;
    }
  }

  /** The identifier prints as itself exactly when SIMPLE_ID_RE matches it. */
  lemma IdPrintedBareIff(name: string)
    ensures IdToString(name) == name <==> IsSimpleId(name)
  {
    if !IsSimpleId(name) {
      assert |IdToString(name)| == |name| + 2;
    }
  }

  /** `Bool(s)`: accepts exactly "True" and "False", and raises ValueError on anything else. */
  function MakeBool(s: string): (r: Result<Value>)
    ensures r.Ok? <==> s == "True" || s == "False"
    ensures r.Ok? ==> r.value == Bool(s == "True")
    ensures r.Err? ==> r.error == ValueError
  {
    if s == "True" then Ok(Bool(true))
    else if s == "False" then Ok(Bool(false))
    else Err(ValueError)
  }

  /** `Id.eval`: the context's value for a bound name, the name itself otherwise. */
  function IdEval(name: string, ctx: Context): (r: Val)
    ensures name in ctx ==> r == ctx[name]
    ensures name !in ctx ==> r == VStr(name)
  {
    if name in ctx then ctx[name] else VStr(name)
  }

  /** `Id.matches(o)` for a string `o`. */
  predicate IdMatches(name: string, o: string) {
    name == o
  }

  /** A segment's value: literal text as a string, or the interpolated variable's value. */
  function SegmentValue(s: Segment, ctx: Context): Result<Val> {
    match s
    case Text(t) => Ok(VStr(t))
    case Interpolate(x) => if x in ctx then Ok(ctx[x]) else Err(KeyError)
  }

  predicate Bound(s: Segment, ctx: Context) {
    s.Interpolate? ==> s.variable in ctx
  }

  /** The values of the segments in order; the first unbound variable raises KeyError. */
  function SegmentValues(segs: seq<Segment>, ctx: Context): (r: Result<seq<Val>>)
    ensures r.Ok? <==> forall k :: 0 <= k < |segs| ==> Bound(segs[k], ctx)
    ensures r.Err? ==> r.error == KeyError
    ensures r.Ok? ==> |r.value| == |segs|
    ensures r.Ok? ==> forall k :: 0 <= k < |segs| ==> SegmentValue(segs[k], ctx) == Ok(r.value[k])
  {
    if segs == [] then Ok([])
    else
      var v :- SegmentValue(segs[0], ctx);
      var rest :- SegmentValues(segs[1..], ctx);
      assert forall k :: 1 <= k < |segs| ==> segs[k] == segs[1..][k - 1];
      Ok([v] + rest)
  }

  /** `"".join(vs)`: the concatenation, or TypeError when some item is not a string. */
  function JoinStrings(vs: seq<Val>): (r: Result<string>)
    ensures r.Ok? <==> forall k :: 0 <= k < |vs| ==> vs[k].VStr?
    ensures r.Err? ==> r.error == TypeError
  {
    if vs == [] then Ok("")
    else if !vs[0].VStr? then Err(TypeError)
    else
      var rest :- JoinStrings(vs[1..]);
      assert forall k :: 1 <= k < |vs| ==> vs[k] == vs[1..][k - 1];
      Ok(vs[0].s + rest)
  }

  /** A segment that contributes a string to the evaluated code. */
  predicate Usable(s: Segment, ctx: Context) {
    s.Interpolate? ==> s.variable in ctx && ctx[s.variable].VStr?
  }

  /**
   * `Code.eval`: the segments' strings concatenated in order. All lookups happen before
   * the join, so a missing variable (KeyError) wins over a non-string value (TypeError).
   */
  function CodeEval(segs: seq<Segment>, ctx: Context): (r: Result<string>)
    ensures r.Ok? <==> forall k :: 0 <= k < |segs| ==> Usable(segs[k], ctx)
    ensures (exists k :: 0 <= k < |segs| && !Bound(segs[k], ctx)) ==> r == Err(KeyError)
    ensures r.Err? ==> r.error == KeyError || r.error == TypeError
  {
    var vs :- SegmentValues(segs, ctx);
    assert forall k :: 0 <= k < |segs| ==> (Usable(segs[k], ctx) <==> vs[k].VStr?);
    JoinStrings(vs)
  }

  /** Evaluation is a homomorphism: the code of `a + b` is the code of `a` then that of `b`. */
  lemma {:induction false} CodeEvalAppend(a: seq<Segment>, b: seq<Segment>, ctx: Context)
    requires CodeEval(a + b, ctx).Ok?
    ensures CodeEval(a, ctx).Ok? && CodeEval(b, ctx).Ok?
    ensures CodeEval(a + b, ctx).value == CodeEval(a, ctx).value + CodeEval(b, ctx).value
  {
    assert forall k :: 0 <= k < |a| ==> a[k] == (a + b)[k];
    assert forall k :: 0 <= k < |b| ==> b[k] == (a + b)[|a| + k];
    if a != [] {
      assert (a + b)[1..] == a[1..] + b;
      CodeEvalAppend(a[1..], b, ctx);
      CodeEvalHead(a, ctx);
      CodeEvalHead(a + b, ctx);
    } else {
      assert a + b == b;
    }
  }

  /** Peeling the first segment off a code block that evaluates. */
  lemma CodeEvalHead(segs: seq<Segment>, ctx: Context)
    requires segs != [] && CodeEval(segs, ctx).Ok?
    ensures CodeEval(segs[1..], ctx).Ok?
    ensures SegmentValue(segs[0], ctx).Ok? && SegmentValue(segs[0], ctx).value.VStr?
    ensures CodeEval(segs, ctx).value == SegmentValue(segs[0], ctx).value.s + CodeEval(segs[1..], ctx).value
  {
    assert Usable(segs[0], ctx);
    assert forall k :: 1 <= k < |segs| ==> segs[k] == segs[1..][k - 1];
  }

  /** `Value.eval` for each kind of value. */
  function Eval(v: Value, ctx: Context): (r: Result<Val>)
    ensures !v.Code? ==> r.Ok?
    ensures v.Code? ==> (r.Ok? <==> CodeEval(v.segments, ctx).Ok?)
    ensures v.Code? && r.Ok? ==> r.value == VStr(CodeEval(v.segments, ctx).value)
  {
    match v
    case Id(name) => Ok(IdEval(name, ctx))
    case String(s) => Ok(VStr(s))
    case Number(n) => Ok(VInt(n))
    case Bool(b) => Ok(VBool(b))
    case Code(segs) =>
      var s :- CodeEval(segs, ctx);
      Ok(VStr(s))
  }

  // ---------------------------------------------------------------------------
  // Printing values

  /** `", ".join(parts)` and friends. */
  function Join(sep: string, parts: seq<string>): string {
    if |parts| == 0 then ""
    else if |parts| == 1 then parts[0]
    else parts[0] + sep + Join(sep, parts[1..])
  }

  function SegmentToString(s: Segment): string {
    match s
    case Text(t) => t
    case Interpolate(x) => "${" + IdToString(x) + "}"
  }

  function SegmentsToString(segs: seq<Segment>): string {
    if segs == [] then "" else SegmentToString(segs[0]) + SegmentsToString(segs[1..])
  }

  function ValueToString(v: Value): string {
    match v
    case Id(name) => IdToString(name)
    case String(s) => "\"" + s + "\""
    case Number(n) => IntToString(n)
    case Bool(b) => if b then "True" else "False"
    case Code(segs) => "```" + SegmentsToString(segs) + "```"
  }

  /** A Bool prints as the very word it was built from. */
  lemma BoolRoundTrip(s: string)
    requires MakeBool(s).Ok?
    ensures ValueToString(MakeBool(s).value) == s
  {
  }

  /** A Number prints as a decimal that reads back as the same number. */
  lemma NumberRoundTrip(n: int)
    ensures ParseInt(ValueToString(Number(n))) == n
  {
    ParseIntToString(n);
  }

  /** Code without interpolations prints as its own evaluation between triple backquotes. */
  lemma LiteralCodePrintsItsValue(segs: seq<Segment>, ctx: Context)
    requires forall k :: 0 <= k < |segs| ==> segs[k].Text?
    ensures CodeEval(segs, ctx).Ok?
    ensures ValueToString(Code(segs)) == "```" + CodeEval(segs, ctx).value + "```"
  {
    LiteralSegmentsPrintTheirValue(segs, ctx);
  }

  lemma {:induction false} LiteralSegmentsPrintTheirValue(segs: seq<Segment>, ctx: Context)
    requires forall k :: 0 <= k < |segs| ==> segs[k].Text?
    ensures CodeEval(segs, ctx).Ok?
    ensures SegmentsToString(segs) == CodeEval(segs, ctx).value
  {
    if segs != [] {
      LiteralSegmentsPrintTheirValue(segs[1..], ctx);
      CodeEvalHead(segs, ctx);
    }
  }

  /** No value prints as the empty string. */
  lemma ValueToStringNonEmpty(v: Value)
    ensures |ValueToString(v)| > 0
  {
  }

  // ---------------------------------------------------------------------------
  // Descriptors

  datatype Descriptor = Descriptor(descriptor: string, arguments: seq<Value>, children: Block)

  /** A descriptor's children: a brace-delimited sequence, or a single child after simplification. */
  datatype Block = Sequence(items: seq<Descriptor>) | Child(child: Descriptor)

  /** The block a descriptor is parsed with: none, a quoted code block, or descriptors. */
  datatype BlockArg = NoBlock | CodeBlock(segments: seq<Segment>) | DescriptorBlock(block: Block)

  /** Truthiness: a sequence is true iff it has children; a single child is always true. */
  predicate BlockTruthy(b: Block) {
    b.Sequence? ==> |b.items| > 0
  }

  /** `subdescriptors` / `result_descriptors`: always a list. */
  function Subdescriptors(b: Block): (r: seq<Descriptor>)
    ensures |r| == 0 <==> !BlockTruthy(b)
  {
    match b
    case Sequence(items) => items
    case Child(d) => [d]
  }

  /**
   * `simplify_block`: no block becomes the empty sequence, a one-element sequence
   * becomes its sole child, and any other block stays as it is.
   */
  function SimplifyBlock(b: Option<Block>): (r: Block)
    ensures Subdescriptors(r) == (if b.None? then [] else Subdescriptors(b.value))
    ensures BlockTruthy(r) <==> b.Some? && BlockTruthy(b.value)
    ensures !(r.Sequence? && |r.items| == 1)
    ensures b.None? ==> r == Sequence([])
    ensures b.Some? && !(b.value.Sequence? && |b.value.items| == 1) ==> r == b.value
  {
    match b
    case None => Sequence([])
    case Some(Sequence(items)) => if |items| == 1 then Child(items[0]) else b.value
    case Some(Child(_)) => b.value
  }

  /** Simplifying twice is simplifying once. */
  lemma SimplifyBlockIdempotent(b: Option<Block>)
    ensures SimplifyBlock(Some(SimplifyBlock(b))) == SimplifyBlock(b)
  {
  }

  function ArgumentsOf(argumentList: Option<seq<Value>>): seq<Value> {
    if argumentList.Some? then argumentList.value else []
  }

  /**
   * The `Descriptor` constructor: a quoted code block becomes the last argument and
   * leaves the descriptor without children; any other block is simplified.
   */
  function MakeDescriptor(name: string, argumentList: Option<seq<Value>>, block: BlockArg): (d: Descriptor)
    ensures d.descriptor == name
    ensures block.CodeBlock? ==> d.arguments == ArgumentsOf(argumentList) + [Code(block.segments)]
    ensures block.CodeBlock? ==> d.children == Sequence([])
    ensures !block.CodeBlock? ==> d.arguments == ArgumentsOf(argumentList)
    ensures Subdescriptors(d.children) == (if block.DescriptorBlock? then Subdescriptors(block.block) else [])
  {
    var arguments := ArgumentsOf(argumentList);
    match block
    case CodeBlock(segs) => Descriptor(name, arguments + [Code(segs)], SimplifyBlock(None))
    case NoBlock => Descriptor(name, arguments, SimplifyBlock(None))
    case DescriptorBlock(b) => Descriptor(name, arguments, SimplifyBlock(Some(b)))
  }

  /** A code block and a trailing code argument build the same descriptor. */
  lemma TrailingCodeArgumentIsBlock(name: string, args: seq<Value>, segs: seq<Segment>)
    ensures MakeDescriptor(name, Some(args + [Code(segs)]), NoBlock) == MakeDescriptor(name, Some(args), CodeBlock(segs))
  {
  }

  function ArgumentsToString(args: seq<Value>): string {
    var joined := Join(", ", seq(|args|, i requires 0 <= i < |args| => ValueToString(args[i])));
    if joined != "" then "(" + joined + ")" else ""
  }

  /** Whether the printer shows a block: real children, or a trailing code argument shown as one. */
  predicate PrintsBlock(d: Descriptor) {
    BlockTruthy(d.children) || (|d.arguments| > 0 && d.arguments[|d.arguments| - 1].Code?)
  }

  /**
   * `Descriptor.__str__`: a trailing code argument of a childless descriptor is printed
   * as its block; `;` terminates a descriptor that shows no block.
   */
  function DescriptorToString(d: Descriptor): (r: string)
    ensures IdToString(d.descriptor) < r
    decreases d
  {
    var n := |d.arguments|;
    if !BlockTruthy(d.children) && n > 0 && d.arguments[n - 1].Code? then
      IdToString(d.descriptor) + ArgumentsToString(d.arguments[..n - 1]) + " " + ValueToString(d.arguments[n - 1])
    else
      IdToString(d.descriptor) + ArgumentsToString(d.arguments)
      + (if BlockTruthy(d.children) then " " + BlockToString(d.children) else ";")
  }

  /** `DescriptorSequence.__str__` (and a single child's own form). */
  function BlockToString(b: Block): string
    decreases b
  {
    match b
    case Sequence(items) =>
      if |items| > 0 then
        "{ " + Join("\n", seq(|items|, i requires 0 <= i < |items| => DescriptorToString(items[i]))) + " }"
      else ""
    case Child(d) => DescriptorToString(d)
  }

  /** A block prints as nothing exactly when it is false: an empty sequence. */
  lemma BlockPrintsNothingIffFalse(b: Block)
    ensures BlockToString(b) == "" <==> !BlockTruthy(b)
  {
    if b.Child? {
      TerminatorIff(b.child);
    }
  }

  /** The printer puts the constructor's moved code block back where it was written. */
  lemma CodeBlockRoundTrip(name: string, args: seq<Value>, segs: seq<Segment>)
    ensures DescriptorToString(MakeDescriptor(name, Some(args), CodeBlock(segs)))
         == IdToString(name) + ArgumentsToString(args) + " " + ValueToString(Code(segs))
  {
    var d := MakeDescriptor(name, Some(args), CodeBlock(segs));
    assert d.arguments[..|d.arguments| - 1] == args;
  }

  /** Arguments print as nothing exactly when there are none. */
  lemma ArgumentsToStringEmptyIff(args: seq<Value>)
    ensures ArgumentsToString(args) == "" <==> args == []
  {
    var parts := seq(|args|, i requires 0 <= i < |args| => ValueToString(args[i]));
    if args != [] {
      ValueToStringNonEmpty(args[0]);
      JoinNonEmpty(", ", parts);
    }
  }

  lemma JoinNonEmpty(sep: string, parts: seq<string>)
    requires |parts| > 0 && |parts[0]| > 0
    ensures |Join(sep, parts)| > 0
  {
  }

  /**
   * The descriptor whose printed form carries the final `;`: the last of a chain of
   * single children, when it shows no block.
   */
  predicate EndsBare(d: Descriptor)
    decreases d
  {
    if d.children.Child? then EndsBare(d.children.child) else !PrintsBlock(d)
  }

  /** A printed descriptor ends in `;` exactly when its innermost single child shows no block. */
  lemma {:induction false} TerminatorIff(d: Descriptor)
    ensures |DescriptorToString(d)| > 0
    ensures DescriptorToString(d)[|DescriptorToString(d)| - 1] == ';' <==> EndsBare(d)
  {
    var s := DescriptorToString(d);
    var n := |d.arguments|;
    if !BlockTruthy(d.children) && n > 0 && d.arguments[n - 1].Code? {
      var c := ValueToString(d.arguments[n - 1]);
      assert c[|c| - 1] == '`';
      assert s[|s| - 1] == c[|c| - 1];
    } else if BlockTruthy(d.children) {
      var b := BlockToString(d.children);
      match d.children
      case Child(x) =>
        TerminatorIff(x);
        assert s[|s| - 1] == b[|b| - 1];
      case Sequence(items) =>
        assert b[|b| - 1] == '}';
        assert s[|s| - 1] == b[|b| - 1];
    }
  }

  // ---------------------------------------------------------------------------
  // Matchers

  datatype Matcher =
    | MatchDescriptor(descriptor: string, arguments: seq<Matcher>, block: Matcher)
    | MatchBlock(bind: string, children: seq<Matcher>)
    | MatcherAny
    | MatcherBind(bind: string, child: Matcher)
    | MatcherString(regex: string)
    | MatcherValue(value: Value)
    | MatcherPredicate(pred: string, arguments: seq<Matcher>)

  /** The `MatchDescriptor` constructor: without a block it gets an empty, unbound match block. */
  function MakeMatchDescriptor(name: string, argumentList: Option<seq<Matcher>>, block: Option<Matcher>): (r: Matcher)
    ensures r.MatchDescriptor? && r.descriptor == name
    ensures r.arguments == (if argumentList.Some? then argumentList.value else [])
    ensures block.Some? ==> r.block == block.value
    ensures block.None? ==> r.block == MatchBlock("", [])
  {
    MatchDescriptor(name, if argumentList.Some? then argumentList.value else [],
                    if block.Some? then block.value else MatchBlock("", []))
  }

  function BindPrefix(bind: string): string {
    if bind != "" then bind + " @ " else ""
  }

  /**
   * The matchers' `__str__`. A match descriptor's block is an object and so always
   * true: it is always printed after a space, and never followed by `;`.
   */
  function MatcherToString(m: Matcher): (r: string)
    ensures |r| > 0
    ensures m.MatchDescriptor? ==> IdToString(m.descriptor) < r
    decreases m
  {
    match m
    case MatchDescriptor(name, args, block) =>
      var joined := Join(", ", seq(|args|, i requires 0 <= i < |args| => MatcherToString(args[i])));
      IdToString(name) + (if joined != "" then "(" + joined + ")" else "") + " " + MatcherToString(block)
    case MatchBlock(bind, children) =>
      "{ " + BindPrefix(bind) + Join("\n", seq(|children|, i requires 0 <= i < |children| => MatcherToString(children[i]))) + " }"
    case MatcherAny => "_"
    case MatcherBind(bind, child) => BindPrefix(bind) + MatcherToString(child)
    case MatcherString(regex) => "/" + regex + "/"
    case MatcherValue(v) => ValueToStringNonEmpty(v); ValueToString(v)
    case MatcherPredicate(p, args) =>
      p + "(" + Join(", ", seq(|args|, i requires 0 <= i < |args| => MatcherToString(args[i]))) + ")"
  }

  /** A match descriptor built without a block prints with an empty block `{  }`, not with `;`. */
  lemma MatchDescriptorDefaultBlock(name: string)
    ensures MatcherToString(MakeMatchDescriptor(name, None, None)) == IdToString(name) + " {  }"
  {
  }

  /** A match descriptor whose block is a match block always ends in `}`. */
  lemma MatchDescriptorNeverTerminated(m: Matcher)
    requires m.MatchDescriptor? && m.block.MatchBlock?
    ensures var s := MatcherToString(m); |s| > 0 && s[|s| - 1] == '}'
  {
  }

  // ---------------------------------------------------------------------------
  // Rules and specifications

  datatype Rule = Rule(matcher: Matcher, priority: int, pred: Option<Value>, result: Block)

  datatype Declaration = DescriptorDecl(d: Descriptor) | RuleDecl(r: Rule)

  datatype Specification = Specification(declarations: seq<Declaration>)

  /** The `Rule` constructor: priority defaults to 0 and the result block is simplified. */
  function MakeRule(matcher: Matcher, priority: Option<int>, pred: Option<Value>, result: Option<Block>): (r: Rule)
    ensures r.matcher == matcher && r.pred == pred
    ensures r.priority == (if priority.Some? then priority.value else 0)
    ensures Subdescriptors(r.result) == (if result.None? then [] else Subdescriptors(result.value))
    ensures r.result == SimplifyBlock(result)
  {
    Rule(matcher, if priority.Some? then priority.value else 0, pred, SimplifyBlock(result))
  }

  function ResultDescriptors(r: Rule): (s: seq<Descriptor>)
    ensures |s| == 0 <==> !BlockTruthy(r.result)
  {
    Subdescriptors(r.result)
  }

  /** Everything `Rule.__str__` prints after the priority. */
  function RuleBody(r: Rule): string {
    MatcherToString(r.matcher) + " =>"
    + (if r.pred.Some? then " if(" + ValueToString(r.pred.value) + ")" else "")
    + " " + BlockToString(r.result)
  }

  function RuleToString(r: Rule): (s: string)
    ensures "rule" <= s
    ensures |RuleBody(r)| < |s| && s[|s| - |RuleBody(r)|..] == RuleBody(r)
  {
    "rule" + PriorityText(r.priority) + " " + RuleBody(r)
  }

  /** The priority is left out of the printed rule exactly when it is 0. */
  lemma PriorityOmittedIffZero(r: Rule)
    ensures RuleToString(r) == "rule " + RuleBody(r) <==> r.priority == 0
  {
    if r.priority != 0 {
      assert |RuleToString(r)| > |"rule " + RuleBody(r)|;
    }
  }

  /** Two rules with the same body print alike only when their priorities agree. */
  lemma PriorityPrintedFaithfully(r1: Rule, r2: Rule)
    requires RuleBody(r1) == RuleBody(r2)
    requires RuleToString(r1) == RuleToString(r2)
    ensures r1.priority == r2.priority
  {
    PrintedPriorityInjective(r1.priority, r2.priority, RuleBody(r1));
  }

  lemma PrintedPriorityInjective(a: int, b: int, body: string)
    requires "rule" + PriorityText(a) + " " + body == "rule" + PriorityText(b) + " " + body
    ensures a == b
  {
    MiddlesAgree("rule", PriorityText(a), PriorityText(b), " ", body);
    PriorityTextInjective(a, b);
  }

  /** The priority part of a printed rule. */
  function PriorityText(priority: int): string {
    if priority != 0 then " priority " + IntToString(priority) else ""
  }

  lemma PriorityTextInjective(a: int, b: int)
    requires PriorityText(a) == PriorityText(b)
    ensures a == b
  {
    if a != 0 && b != 0 {
      assert IntToString(a) == PriorityText(a)[10..];
      assert IntToString(b) == PriorityText(b)[10..];
      IntToStringInjective(a, b);
    }
  }

  /** Equal strings with the same prefix and suffix have the same middle. */
  lemma MiddlesAgree(pre: string, x: string, y: string, sep: string, post: string)
    requires pre + x + sep + post == pre + y + sep + post
    ensures x == y
  {
    var s := pre + x + sep + post;
    var t := pre + y + sep + post;
    assert |x| == |y|;
    assert x == s[|pre|..|pre| + |x|];
    assert y == t[|pre|..|pre| + |y|];
  }

  function DeclarationToString(d: Declaration): string {
    match d
    case DescriptorDecl(x) => DescriptorToString(x)
    case RuleDecl(r) => RuleToString(r)
  }

  function SpecificationToString(s: Specification): string {
    Join("\n\n", seq(|s.declarations|, i requires 0 <= i < |s.declarations| => DeclarationToString(s.declarations[i])))
  }
}
