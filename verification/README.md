# Lapis 2 annotation language, in Dafny

Lapis 2 is the annotation language of CAvA. A specification is a list of
descriptors and rules. Descriptors attach attributes to an API model: an API
holds functions, a function holds arguments and a return value, an argument has
a type, and a type may have a pointee and named fields. A rule pairs a matcher
with a block of descriptors. `apply_rules` walks the model and applies each
rule's descriptors to every node its matcher accepts. Matching yields match
results: a binding of names to matched nodes, or a failure. Results combine with
a right-biased union, and a failure absorbs everything it is combined with.

The model has six modules:

- `Values`: the Python values the interpreter handles. It gives their truthiness
  and `str`, and a minimal API model tree. In that tree, `getattr`, `hasattr` and
  `setattr` read and write an attribute map on each node.
- `Ast` (cava/lapis/parser/ast.py): values and their evaluation, descriptor
  blocks and their simplification, matchers, rules, and the pretty-printer.
- `MatchResults`: `match_result`, `MatchBinding` and `MatchFailure`, and their
  algebra.
- `RuleMatching`: `rule_matches` and `rule_matches_subdescriptor`, written as
  functions.
- `Interpretation`: `interpret`, `interpret_subdescriptor`,
  `interpret_subdescriptors` and `apply_rule`. These are functions that return
  the annotated node, or the exception the source raises.
- `AvaInterpreter`: the `Interpreter` class. It holds the `rules` list that
  `interpret` appends to. Its methods contain the source's loops, and each
  method is proved equal to the function that specifies it.

Exceptions become `Err` values named after the Python exception (`ValueError`,
`IndexError`, `KeyError`, `AttributeError`, `TypeError`, `StopIteration`,
`AssertionError`, `NotImplementedError`). Two things stay outside the model as
parameters in `RuleMatching.Oracles`:

- regular-expression matching;
- the Python `eval` of a rule's predicate.

## Model

| member | source | states |
|---|---|---|
| Values.IntToString | cava/lapis/parser/ast.py:122-123 | a number prints as a non-empty decimal, with a leading `-` exactly for negatives |
| Values.ParseIntToString | cava/lapis/parser/ast.py:122-123 | reading back the printed decimal gives the number |
| Values.IntToStringInjective | cava/lapis/parser/ast.py:122-123 | distinct numbers print differently |
| Values.GetAttr | cava/lapis/interpreter/ava.py:294-296 | `hasattr`/`getattr`: a written attribute is found under its name; otherwise a type has its `pointee` (when present), an argument its `name` and `type`, a function its `name` and `return_value`, and nothing else is found; scalars have no attributes |
| Values.SetAttr | cava/lapis/interpreter/ava.py:121-125 | `setattr` succeeds exactly on model nodes (AttributeError on scalars), sets that one attribute, leaves every other attribute, the node's kind and its structure unchanged |
| Values.ShapeOf | cava/lapis/interpreter/ava.py:161-174 | the skeleton that `apply_rule` descends, with each node's kind, names, printed text and field keys: everything but the attributes; its kind is the node's kind |
| Ast.IdToStringRoundTrip | cava/lapis/parser/ast.py:100-103 | stripping the backquotes from a printed identifier recovers its name |
| Ast.IdPrintedBareIff | cava/lapis/parser/ast.py:88-103 | an identifier prints as itself exactly when SIMPLE_ID_RE matches it, and is backquoted otherwise |
| Ast.IsSimpleId | cava/lapis/parser/ast.py:88 | a name SIMPLE_ID_RE accepts is non-empty, starts with a letter or underscore and holds no backquote |
| Ast.IdToString | cava/lapis/parser/ast.py:100-103 | an identifier prints as its name, bare or between backquotes, and never as the empty string (when it is bare: `IdPrintedBareIff`; reading it back: `IdToStringRoundTrip`) |
| Ast.MakeBool | cava/lapis/parser/ast.py:125-132 | accepts exactly "True" and "False", giving the matching boolean; anything else raises ValueError |
| Ast.IdEval | cava/lapis/parser/ast.py:94-95 | a bound name gives its context value, an unbound one the name itself |
| Ast.SegmentValues | cava/lapis/parser/ast.py:144-145 | every interpolated variable is looked up in order; an unbound one raises KeyError |
| Ast.JoinStrings | cava/lapis/parser/ast.py:156 | the join succeeds exactly when every part is a string, and raises TypeError otherwise |
| Ast.CodeEval | cava/lapis/parser/ast.py:155-157 | code evaluates exactly when every interpolated variable is bound to a string; a missing variable raises KeyError even when a non-string is also present |
| Ast.CodeEvalAppend | cava/lapis/parser/ast.py:155-157 | evaluating concatenated segments concatenates their values in segment order |
| Ast.CodeEvalHead | cava/lapis/parser/ast.py:155-157 | the first segment's string comes first in the value |
| Ast.Eval | cava/lapis/parser/ast.py:94-157 | Id, String, Number and Bool always evaluate; Code evaluates to its string exactly when its segments do |
| Ast.BoolRoundTrip | cava/lapis/parser/ast.py:125-138 | a Bool prints as the word it was built from |
| Ast.NumberRoundTrip | cava/lapis/parser/ast.py:115-123 | a Number prints as a decimal that reads back as the same number |
| Ast.LiteralCodePrintsItsValue | cava/lapis/parser/ast.py:151-161 | code without interpolations prints as its own value between triple backquotes |
| Ast.LiteralSegmentsPrintTheirValue | cava/lapis/parser/ast.py:155-161 | literal segments print as their evaluated text |
| Ast.ValueToStringNonEmpty | cava/lapis/parser/ast.py:100-161 | no value prints as the empty string |
| Ast.SimplifyBlock | cava/lapis/parser/ast.py:26-32 | None becomes the empty sequence and a one-element sequence its sole child; any other block is unchanged; the subdescriptors and the truthiness are kept, and no singleton sequence remains |
| Ast.Subdescriptors | cava/lapis/parser/ast.py:55-60 | a block's descriptor list is empty exactly when the block is false |
| Ast.DescriptorToString | cava/lapis/parser/ast.py:62-74 | a printed descriptor starts with its printed name and goes on past it (the terminator: `TerminatorIff`; a code block: `CodeBlockRoundTrip`) |
| Ast.SimplifyBlockIdempotent | cava/lapis/parser/ast.py:26-32 | simplifying twice is simplifying once |
| Ast.MakeDescriptor | cava/lapis/parser/ast.py:46-53 | a code block is appended as the last argument and leaves no children; any other block keeps the arguments; the subdescriptors are those of the block given |
| Ast.TrailingCodeArgumentIsBlock | cava/lapis/parser/ast.py:49-53 | a code block and the same code as a trailing argument build the same descriptor |
| Ast.BlockPrintsNothingIffFalse | cava/lapis/parser/ast.py:17-24 | a block prints as "" exactly when it is false, that is, an empty sequence |
| Ast.CodeBlockRoundTrip | cava/lapis/parser/ast.py:62-74 | a descriptor built with a code block prints that code as its block, after its other arguments |
| Ast.ArgumentsToStringEmptyIff | cava/lapis/parser/ast.py:70-72 | the parenthesised argument list is omitted exactly when there are no arguments |
| Ast.TerminatorIff | cava/lapis/parser/ast.py:62-74 | a printed descriptor ends in `;` exactly when the innermost descriptor of its chain of single children shows no block |
| Ast.MakeMatchDescriptor | cava/lapis/parser/ast.py:170-174 | a missing argument list becomes empty; a missing block becomes an empty, unbound match block |
| Ast.MatchDescriptorDefaultBlock | cava/lapis/parser/ast.py:175-183 | a match descriptor without a block prints with an empty block `{  }`, not with `;` |
| Ast.MatchDescriptorNeverTerminated | cava/lapis/parser/ast.py:175-196 | a match descriptor whose block is a match block prints ending in `}` |
| Ast.MatcherToString | cava/lapis/parser/ast.py:176-240 | every matcher prints as a non-empty string, and a match descriptor starts with its printed name |
| Ast.MakeRule | cava/lapis/parser/ast.py:246-251 | priority defaults to 0; the result is the simplified block (so never a one-element sequence, and false exactly when the given block is absent or false), and `result_descriptors` lists the given block's descriptors |
| Ast.ResultDescriptors | cava/lapis/parser/ast.py:252-257 | a rule's result descriptors are empty exactly when its result block is false |
| Ast.RuleToString | cava/lapis/parser/ast.py:259-266 | a printed rule starts with `rule` and ends with its body: the matcher, the predicate and the result (the priority part: `PriorityOmittedIffZero`, `PriorityPrintedFaithfully`) |
| Ast.PriorityOmittedIffZero | cava/lapis/parser/ast.py:259-266 | the printed rule leaves out `priority` exactly when the priority is 0 |
| Ast.PriorityPrintedFaithfully | cava/lapis/parser/ast.py:259-266 | two rules with the same body print alike only when their priorities are equal |
| MatchResults.MatchResultOf | cava/lapis/interpreter/ava.py:7-15 | True gives the empty binding, False a failure, and a dict a binding of exactly its entries; any other value succeeds iff it is truthy, with no bindings |
| MatchResults.Add | cava/lapis/interpreter/ava.py:28-49 | success iff both operands succeed; a failure on the left is returned itself; the keys are the union; the right operand wins on shared keys |
| MatchResults.AddIdentity | cava/lapis/interpreter/ava.py:28-35 | the empty binding is a left and a right identity |
| MatchResults.FailureAbsorbs | cava/lapis/interpreter/ava.py:34-46 | a failure absorbs from either side |
| MatchResults.AddAssociative | cava/lapis/interpreter/ava.py:28-46 | `+` is associative, so the `sub +=` loops sum independently of grouping |
| MatchResults.AddNotCommutative | cava/lapis/interpreter/ava.py:28-33 | `+` is not commutative: on a shared name the right value wins |
| MatchResults.Sum | cava/lapis/interpreter/ava.py:191-193 | the `sub +=` fold from the empty binding: a single term sums to itself, and a successful sum has only successful terms (`SumFailsIff`, `SumLastBinderWins`, `SumKeys`, `SumAppend`) |
| MatchResults.SumFailsIff | cava/lapis/interpreter/ava.py:191-193 | the accumulated sum fails exactly when one of its terms fails |
| MatchResults.SumLastBinderWins | cava/lapis/interpreter/ava.py:191-193 | in a successful sum, a name has the value given by the last term that binds it |
| MatchResults.SumKeys | cava/lapis/interpreter/ava.py:191-193 | a successful sum binds only names that some term binds |
| MatchResults.SumAppend | cava/lapis/interpreter/ava.py:191-193 | summing in two parts and adding the parts gives the whole sum |
| RuleMatching.NameOf | cava/lapis/interpreter/ava.py:292 | the corrected reading of `match.arguments[0].name` (see "## Findings"): a `field` matcher's argument names a field exactly when it is an identifier value |
| RuleMatching.FieldLookup | cava/lapis/interpreter/ava.py:293 | `fields[name]` finds a field exactly when one has that name, and returns that field's type |
| RuleMatching.FieldTarget | cava/lapis/interpreter/ava.py:289-293 | a nameless argument raises AttributeError; a missing field raises KeyError; otherwise the named field's type is returned |
| RuleMatching.FieldAsWrittenRaises | cava/lapis/interpreter/ava.py:289-293 | as written, reading `name` from the first argument (an attribute no matcher class in cava/lapis/parser/ast.py:170-240 sets), the `field` branch raises AttributeError on every type, for every `field` matcher with an argument |
| RuleMatching.FieldAsWrittenDiffersFromIntended | cava/lapis/interpreter/ava.py:289-293 | on `field(x);` and a type with a field `x`, the code as written raises AttributeError while the intended reading matches with no bindings |
| RuleMatching.Collect | cava/lapis/interpreter/ava.py:191-193 | the loop's results when no child raises; otherwise the first exception, in child order |
| RuleMatching.FirstHit | cava/lapis/interpreter/ava.py:263-271 | the `for/break/else` search returns the first candidate that raises or succeeds; it fails exactly when every candidate failed |
| RuleMatching.FirstHitAt | cava/lapis/interpreter/ava.py:263-271 | the search stops at the first candidate that raises or succeeds |
| RuleMatching.ChildResults | cava/lapis/interpreter/ava.py:192-193 | there is one result per child of the match block |
| RuleMatching.Matches | cava/lapis/interpreter/ava.py:178-235 | `rule_matches`: a successful match binds only names that the matcher declares in its blocks and bind matchers |
| RuleMatching.MatchesSub | cava/lapis/interpreter/ava.py:242-299 | `rule_matches_subdescriptor`: a successful match binds only names that the match descriptor declares |
| RuleMatching.Candidate | cava/lapis/interpreter/ava.py:264-265 | one candidate of the search binds only names its match descriptor declares |
| RuleMatching.Candidates | cava/lapis/interpreter/ava.py:263-265 | every candidate, one per function of the API or argument of the function in list order, binds only names the descriptor declares |
| RuleMatching.FieldBranch | cava/lapis/interpreter/ava.py:289-293 | the `field` branch, whatever reading of the name it is given, binds only names the descriptor declares |
| RuleMatching.BlockSumsChildren | cava/lapis/interpreter/ava.py:190-197 | when no child raises, a block's result is the `+=` sum of its children's results in order, plus the bind name when there is one |
| RuleMatching.BlockFailsIff | cava/lapis/interpreter/ava.py:190-197 | a block that raises nothing fails exactly when some child subdescriptor fails |
| RuleMatching.BlockBindsItsName | cava/lapis/interpreter/ava.py:194-195 | a successful block with a bind name maps that name to the matched node |
| RuleMatching.BlockBindingFromLastChild | cava/lapis/interpreter/ava.py:191-197 | any other name in a successful block's binding has the value given by the last child that binds it |
| RuleMatching.BindMatcherBindsSubject | cava/lapis/interpreter/ava.py:200-202 | a bind matcher succeeds iff its child does, and then maps its name to the subject |
| RuleMatching.NotPredicateInverts | cava/lapis/interpreter/ava.py:226-227 | `not(x)` succeeds exactly when `x` fails, with no bindings |
| RuleMatching.NotSubdescriptorInverts | cava/lapis/interpreter/ava.py:253-258 | `NOT { ... }` succeeds exactly when its block fails, with no bindings |
| RuleMatching.TypePredicatesRejectNonTypes | cava/lapis/interpreter/ava.py:209-225 | `pointer`, `const`, `nonconst` and `transferrable` fail on every node that is not a type |
| RuleMatching.SearchTakesFirstMatch | cava/lapis/interpreter/ava.py:259-284 | `function` and `argument` give the result of the first function (or argument), in list order, whose name and block both match; they fail when none matches |
| RuleMatching.SearchIsFirstHit | cava/lapis/interpreter/ava.py:259-284 | the `function` and `argument` matchers return exactly the outcome of the search over their candidates, the leading empty binding changing nothing |
| RuleMatching.FirstHitOutcome | cava/lapis/interpreter/ava.py:263-271 | a search that ends in a result fails exactly when every candidate missed, and otherwise returns the first candidate that did not miss |
| RuleMatching.CandidateBindings | cava/lapis/interpreter/ava.py:266-267 | a candidate's result is its name match plus its block match, the block's bindings winning |
| RuleMatching.FieldMatcherFollowsNamedField | cava/lapis/interpreter/ava.py:289-293 | `field(x)` matches its block against the type of field `x`, and raises KeyError on a type without that field |
| RuleMatching.ValueMatcherNeverMatchesNonStrings | cava/lapis/interpreter/ava.py:230-235 | a number or boolean value matcher never matches, because it is compared with the node's printed form |
| RuleMatching.IdentifierMatcherComparesName | cava/lapis/interpreter/ava.py:230-235 | an identifier used as a matcher evaluates to its own name (`Id.eval` with no bindings) and matches exactly the nodes that print as that name |
| Interpretation.FirstIndex | cava/lapis/interpreter/ava.py:106 | `next(...)` finds the first element that satisfies the condition, or none |
| Interpretation.DescribedValue | cava/lapis/interpreter/ava.py:122-125 | one argument gives its evaluated value, no argument gives True, and two or more give nothing to write |
| Interpretation.InterpretSub | cava/lapis/interpreter/ava.py:91-127 | a descriptor never changes the model's nodes, their order, names, printed texts or field keys; only attributes |
| Interpretation.InterpretAt | cava/lapis/interpreter/ava.py:101-103 | `at` evaluates its target and applies its descriptors there, leaving the node in scope as it was |
| Interpretation.InterpretNamedFunction | cava/lapis/interpreter/ava.py:104-107 | `function(f)` keeps the API's nodes, names and texts (which function it annotates: `FunctionDescriptorTargetsNamedFunction`) |
| Interpretation.InterpretNamedArgument | cava/lapis/interpreter/ava.py:108-111 | `argument(x)` keeps the function's nodes, names and texts (which argument it annotates: `ArgumentDescriptorTargetsNamedArgument`) |
| Interpretation.InterpretField | cava/lapis/interpreter/ava.py:112-115 | `field(x)` keeps the type's nodes, texts and field keys (which field it annotates: `FieldDescriptorTargetsNamedField`) |
| Interpretation.InterpretElement | cava/lapis/interpreter/ava.py:116-119 | `element` annotates the pointee and keeps the type's structure |
| Interpretation.Interpret | cava/lapis/interpreter/ava.py:75-89 | interpreting a function, argument or type descriptor keeps the node's structure |
| Interpretation.InterpretSeq | cava/lapis/interpreter/ava.py:135-145 | a block's descriptors keep the node's structure |
| Interpretation.InterpretSeqStep | cava/lapis/interpreter/ava.py:144-145 | each descriptor applies to the node the previous one left; the first exception stops the loop |
| Interpretation.PlainDescriptorSetsAttribute | cava/lapis/interpreter/ava.py:120-125 | on a type, function or API, a descriptor without a special meaning sets the attribute of its own name to its evaluated argument, or to True without arguments, and changes no other attribute |
| Interpretation.PlainDescriptorOnArgumentReachesType | cava/lapis/interpreter/ava.py:120-127 | on an argument, the same descriptor is written to the argument and applied to its type as well |
| Interpretation.PlainDescriptorWithManyArgumentsIsInert | cava/lapis/interpreter/ava.py:122-125 | a descriptor with two or more arguments writes nothing |
| Interpretation.PlainDescriptorOnScalarRaises | cava/lapis/interpreter/ava.py:122-125 | writing an attribute to anything that is not a model node (a string, number or boolean) raises AttributeError |
| Interpretation.FunctionDescriptorTargetsNamedFunction | cava/lapis/interpreter/ava.py:104-107 | `function(f)` annotates the first function named `f` and no other; with no such function it raises StopIteration |
| Interpretation.ArgumentDescriptorTargetsNamedArgument | cava/lapis/interpreter/ava.py:108-111 | `argument(x)` annotates the first argument whose name is the value of `x`, by `interpret`, and no other; the function's name, text, attributes and return value stay; without arguments it raises IndexError, an evaluation error propagates, and with no such argument it raises StopIteration |
| Interpretation.FieldDescriptorTargetsNamedField | cava/lapis/interpreter/ava.py:112-115 | `field(x)` applies its descriptors to the type of the field stored under the value of `x`, and to no other field; the type's text, pointee, attributes and field keys stay; without arguments it raises IndexError, an evaluation error propagates, and with no such field it raises KeyError |
| Interpretation.ElementDescriptorAnnotatesPointee | cava/lapis/interpreter/ava.py:116-119 | `element` applies its descriptors to the pointee only; a type without a pointee raises AttributeError |
| Interpretation.PredicateHolds | cava/lapis/interpreter/ava.py:157 | an absent predicate holds; a present one must evaluate to source text (TypeError otherwise), whose Python evaluation decides |
| Interpretation.Annotate | cava/lapis/interpreter/ava.py:155-159 | the match step of a rule keeps the node's structure |
| Interpretation.ApplyRule | cava/lapis/interpreter/ava.py:151-176 | applying a rule keeps the structure of the whole subtree |
| Interpretation.Descend | cava/lapis/interpreter/ava.py:160-176 | the descent changes only the nodes below: the node's own attributes and printed form stay the same; on a scalar it raises NotImplementedError |
| Interpretation.DescendFunctions | cava/lapis/interpreter/ava.py:161-163 | the rule is applied to each function of the API, in order, and the API's own attributes stay |
| Interpretation.DescendArguments | cava/lapis/interpreter/ava.py:164-167 | the rule is applied to each argument, then to the return value, and the function's own attributes stay |
| Interpretation.DescendFields | cava/lapis/interpreter/ava.py:171-172 | the rule is applied to each field type in order, and the type's own attributes stay |
| Interpretation.DescendFunctionsStep | cava/lapis/interpreter/ava.py:162-163 | one turn of the loop over functions: an exception stops it, a result replaces that function and keeps the API's structure |
| Interpretation.DescendArgumentsStep | cava/lapis/interpreter/ava.py:165-166 | one turn of the loop over arguments: an exception stops it, a result replaces that argument and keeps the function's structure |
| Interpretation.DescendFieldsStep | cava/lapis/interpreter/ava.py:171-172 | one turn of the loop over fields: an exception stops it, a result replaces that field's type and keeps the type's structure |
| Interpretation.ApplyRules | cava/lapis/interpreter/ava.py:147-149 | applying all the rules keeps the model's structure |
| Interpretation.InertRuleChangesNothing | cava/lapis/interpreter/ava.py:151-176 | a rule that matches no node leaves the whole tree unchanged |
| Interpretation.InertDescentChangesNothing | cava/lapis/interpreter/ava.py:160-176 | the descent of such a rule changes nothing |
| Interpretation.InertFunctionsChangeNothing | cava/lapis/interpreter/ava.py:161-163 | the same, over an API's functions |
| Interpretation.InertArgumentsChangeNothing | cava/lapis/interpreter/ava.py:164-167 | the same, over a function's arguments and return value |
| Interpretation.InertFieldsChangeNothing | cava/lapis/interpreter/ava.py:171-172 | the same, over a type's fields |
| Interpretation.ApplyRuleAnnotatesRootOnce | cava/lapis/interpreter/ava.py:155-176 | the node a rule is applied to ends with exactly the attributes its own match step gave it |
| Interpretation.ApplyRulesAppend | cava/lapis/interpreter/ava.py:147-149 | applying a concatenated rule list applies the first part, then the rest |
| AvaInterpreter.RulesOf | cava/lapis/interpreter/ava.py:70-74 | the rules of a declaration list are exactly its rule declarations |
| AvaInterpreter.RunDeclarations | cava/lapis/interpreter/ava.py:68-74 | the `Specification` branch of `interpret`: the rule list only grows, and a run that finishes keeps the model's structure |
| AvaInterpreter.RunDeclarationsAppendsRules | cava/lapis/interpreter/ava.py:68-74 | interpreting a specification only appends to the rule list; after a complete run it has appended exactly the declared rules, in order, and the model kept its structure |
| AvaInterpreter.Interpreter.constructor | cava/lapis/interpreter/ava.py:53-54 | a new interpreter has no rules |
| AvaInterpreter.Interpreter.Interpret | cava/lapis/interpreter/ava.py:68-74 | a non-API model raises AssertionError; otherwise the declarations run in order, descriptors annotate the API, rules are appended, and the first exception stops the run |
| AvaInterpreter.Interpreter.InterpretSubdescriptors | cava/lapis/interpreter/ava.py:135-145 | the loop computes `InterpretSeq` |
| AvaInterpreter.Interpreter.ApplyRules | cava/lapis/interpreter/ava.py:147-149 | the loop over the stored rules computes `ApplyRules` |
| AvaInterpreter.Interpreter.ApplyRule | cava/lapis/interpreter/ava.py:151-159 | match, predicate and annotation, then the descent, compute `ApplyRule` |
| AvaInterpreter.Interpreter.DescendFrom | cava/lapis/interpreter/ava.py:160-176 | the descent computes `Descend` |
| AvaInterpreter.Interpreter.DescendApi | cava/lapis/interpreter/ava.py:161-163 | the loop over functions computes `DescendFunctions` |
| AvaInterpreter.Interpreter.DescendFunction | cava/lapis/interpreter/ava.py:164-167 | the loop over arguments, then the return value, computes `DescendArguments` |
| AvaInterpreter.Interpreter.DescendType | cava/lapis/interpreter/ava.py:168-172 | the pointee, then the loop over fields, computes `Descend` on the type |
| AvaInterpreter.Interpreter.RuleMatches | cava/lapis/interpreter/ava.py:178-235 | the method, with its `sub +=` loop over a block's children, computes `Matches` |
| AvaInterpreter.Interpreter.RuleMatchesBlock | cava/lapis/interpreter/ava.py:190-197 | the `sub +=` loop over a match block's children, then the bind, computes `Matches` on the block |
| AvaInterpreter.Interpreter.RuleMatchesSubdescriptor | cava/lapis/interpreter/ava.py:242-300 | the method computes `MatchesSub` |
| AvaInterpreter.Interpreter.Search | cava/lapis/interpreter/ava.py:259-284 | the `for/break/else` loop over functions or arguments computes `FirstHit` over the candidates |

## Left out

- `ConditionalDescriptor` (cava/lapis/parser/ast.py:34-43) is not modelled. It is not among the descriptors the interpreter handles.
- Interpretation.InterpretAt: in Python the target of `at` is a live object reached through the binding context, and the descriptors update it in place. The model values have no identity, so `Interpretation.InterpretAt` evaluates the target and applies the descriptors to it. Errors surface, but the updated target is dropped.
- RuleMatching.MatchesSub: its `field` branch, and so `AvaInterpreter.Interpreter.RuleMatchesSubdescriptor` and rule application, follow the corrected reading of the field name (`RuleMatching.NameOf`, see "## Findings"). The code as written raises AttributeError there (`RuleMatching.FieldAsWrittenRaises`).
- Interpretation.ApplyRule: the model tree is finite and acyclic by construction, and the descent terminates because it follows that tree (`Values.ShapeOf`). If the Python type graph is cyclic, for example a struct that points to itself, the source's `apply_rule` would recurse without end. That case is not modelled.
- Aliasing in general: the model updates nodes as values. A node shared between two places in the Python object graph would be updated in both; here only the copy that is reached is updated.
- Partial updates before an exception: when the source raises partway through a loop, the nodes already annotated stay annotated in Python. The model returns only the exception. The rule list is the exception: `AvaInterpreter.Interpreter.Interpret` keeps the rules appended before the error.
- Regular-expression matching (`MatcherString`) and the Python `eval` of a rule's predicate are the parameters `regexMatches` and `evalPredicate` of `RuleMatching.Oracles`. Exceptions raised inside the evaluated Python expression are not modelled.
- Python `eval` adds a `__builtins__` entry to the bindings dictionary it is given. The model's bindings do not gain that entry.
- The `nightwatch.model` classes are not part of this model. They are replaced by a minimal tree:
  - a node's printed form is a stored `text`;
  - `is_const` and `nontransferrable` default to False when unset;
  - a type's `pointee` is either present or absent;
  - `fields` is a list of name/type pairs in insertion order.
- Attributes written by descriptors are kept apart from the structural members (`pointee`, `type`, `name`, `return_value`). Matchers read the written value first. Interpretation and `apply_rule` always follow the structural pointee, type and fields.
- The sequence-valued members (`functions`, `arguments`, `fields`) cannot be read through a generic attribute matcher. Scalars expose no attributes, such as the methods of `str`.
- `Ast.IdMatches`: `Id.matches(o)` also holds when `o` is the same `Id` object. The interpreter only ever calls it with string literals, so only the name comparison is modelled.
- Numbers are integers. Floating-point literals are not modelled.
- `MatcherPredicate.predicate`, descriptor names and bind names are plain strings.
- cava/lapis/parser/__init__.py, which loads the textX grammar, is not part of this model, and neither is the parser the grammar generates. The AST is built through the constructors' functions (`Ast.MakeDescriptor`, `Ast.MakeMatchDescriptor`, `Ast.MakeRule`, `Ast.MakeBool`).
- The annotation inputs cava/input/mvnc.ava.nw.c and cava/input/mvnc.nw.c are not part of this model.
- The `Specification` branch of `interpret` is the method `AvaInterpreter.Interpreter.Interpret`. Its `Descriptor` branch is the function `Interpretation.Interpret`. Other kinds of input to `interpret` do nothing in the source and are not modelled.

## Findings

| source | as written | input that shows it | evidently intended | confidence | as-written member | corrected member |
|---|---|---|---|---|---|---|
| cava/lapis/interpreter/ava.py:289-293 | the `field` matcher reads `match.arguments[0].name`, but no matcher class in cava/lapis/parser/ast.py defines `name` | the matcher `field(x);` against a type with a field `x` | use the name of the identifier `x` and match the block against the type of field `x` | medium; not executed | RuleMatching.FieldAsWrittenDiffersFromIntended | RuleMatching.FieldMatcherFollowsNamedField |
