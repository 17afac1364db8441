/**
 * The Python objects the Lapis 2 interpreter handles, and a minimal stand-in for the
 * AvA API model (API -> Function -> Argument -> Type) that it matches and annotates.
 *
 * Exceptions become `Err` results; Python's dynamic `getattr`/`setattr` become reads
 * and writes of a per-node attribute map.
 */
module Values {

  datatype Option<+T> = None | Some(value: T)

  /** The Python exception an operation raises. */
  datatype Error =
    | ValueError
    | IndexError
    | KeyError
    | AttributeError
    | TypeError
    | StopIteration
    | AssertionError
    | NotImplementedError

  datatype Result<+T> = Ok(value: T) | Err(error: Error) {
    predicate IsFailure() { Err? }
    function PropagateFailure<U>(): Result<U> requires Err? { Err(error) }
    function Extract(): T requires Ok? { value }
  }

  /** A Python value: a scalar, or one of the four kinds of model node. */
  datatype Val =
    | VNone
    | VBool(b: bool)
    | VInt(i: int)
    | VStr(s: string)
    | VType(t: Type)
    | VArgument(a: Argument)
    | VFunction(f: Function)
    | VApi(api: Api)

  /** Attributes written by descriptors (and read by matchers), by name. */
  type Attrs = map<string, Val>

  /** A binding context: variable name to value. */
  type Context = map<string, Val>

  /**
   * Model nodes. `text` stands for the node's printed form (`str(m)`); `pointee` is
   * present exactly when the type has a `pointee` attribute; `fields` keeps the
   * dictionary's insertion order.
   */
  datatype Type = Type(text: string, pointee: Option<Type>, fields: seq<(string, Type)>, attrs: Attrs)
  datatype Argument = Argument(name: string, text: string, ty: Type, attrs: Attrs)
  datatype Function = Function(name: string, text: string, arguments: seq<Argument>, returnValue: Argument, attrs: Attrs)
  datatype Api = Api(text: string, functions: seq<Function>, attrs: Attrs)

  predicate IsNode(v: Val) {
    v.VType? || v.VArgument? || v.VFunction? || v.VApi?
  }

  /** Python truthiness; model objects define no `__bool__` and are always true. */
  predicate Truthy(v: Val) {
    match v
    case VNone => false
    case VBool(b) => b
    case VInt(i) => i != 0
    case VStr(s) => s != ""
    case _ => true
  }

  /** Python `str(v)`. */
  function Str(v: Val): string {
    match v
    case VNone => "None"
    case VBool(b) => if b then "True" else "False"
    case VInt(i) => IntToString(i)
    case VStr(s) => s
    case VType(t) => t.text
    case VArgument(a) => a.text
    case VFunction(f) => f.text
    case VApi(api) => api.text
  }

  // ---------------------------------------------------------------------------
  // Decimal rendering of integers, as Python's str(int)

  predicate IsDigit(c: char) { '0' <= c <= '9' }

  function NatToString(n: nat): (s: string)
    ensures |s| > 0 && forall i :: 0 <= i < |s| ==> IsDigit(s[i])
  {
    if n < 10 then ["0123456789"[n]]
    else NatToString(n / 10) + ["0123456789"[n % 10]]
  }

  function IntToString(i: int): (s: string)
    ensures |s| > 0
    ensures s[0] == '-' <==> i < 0
  {
    if i < 0 then "-" + NatToString(-i) else NatToString(i)
  }

  function DigitValue(c: char): nat
    requires IsDigit(c)
  {
    c as int - '0' as int
  }

  function ParseNat(s: string): nat
    requires forall i :: 0 <= i < |s| ==> IsDigit(s[i])
  {
    if s == [] then 0 else ParseNat(s[..|s| - 1]) * 10 + DigitValue(s[|s| - 1])
  }

  function ParseInt(s: string): int
    requires |s| > 0
    requires s[0] == '-' ==> forall i :: 1 <= i < |s| ==> IsDigit(s[i])
    requires s[0] != '-' ==> forall i :: 0 <= i < |s| ==> IsDigit(s[i])
  {
    if s[0] == '-' then -(ParseNat(s[1..]) as int) else ParseNat(s)
  }

  lemma {:induction false} ParseNatToString(n: nat)
    ensures ParseNat(NatToString(n)) == n
  {
    var s := NatToString(n);
    if n >= 10 {
      ParseNatToString(n / 10);
      assert s[..|s| - 1] == NatToString(n / 10);
    }
  }

  /** Reading back a printed integer gives the integer. */
  lemma ParseIntToString(i: int)
    ensures ParseInt(IntToString(i)) == i
  {
    if i < 0 {
      var digits := NatToString(-i);
      assert IntToString(i) == "-" + digits;
      assert ("-" + digits)[1..] == digits;
      ParseNatToString(-i);
    } else {
      ParseNatToString(i);
    }
  }

  /** Distinct integers print differently. */
  lemma IntToStringInjective(a: int, b: int)
    requires IntToString(a) == IntToString(b)
    ensures a == b
  {
    ParseIntToString(a);
    ParseIntToString(b);
  }

  // ---------------------------------------------------------------------------
  // Attributes: hasattr / getattr / setattr

  function AttrsOf(v: Val): Attrs
    requires IsNode(v)
  {
    match v
    case VType(t) => t.attrs
    case VArgument(a) => a.attrs
    case VFunction(f) => f.attrs
    case VApi(api) => api.attrs
  }

  /**
   * `getattr(v, name)` when `hasattr(v, name)`, else None. A written attribute shadows
   * the structural one of the same name; scalars have no attributes in this model.
   */
  function GetAttr(v: Val, name: string): (r: Option<Val>)
    ensures !IsNode(v) ==> r.None?
    ensures IsNode(v) && name in AttrsOf(v) ==> r == Some(AttrsOf(v)[name])
    ensures v.VType? && name !in AttrsOf(v) ==>
              r == (if name == "pointee" && v.t.pointee.Some? then Some(VType(v.t.pointee.value)) else None)
    ensures v.VArgument? && name !in AttrsOf(v) ==>
              r == (if name == "name" then Some(VStr(v.a.name)) else if name == "type" then Some(VType(v.a.ty)) else None)
    ensures v.VFunction? && name !in AttrsOf(v) ==>
              r == (if name == "name" then Some(VStr(v.f.name)) else if name == "return_value" then Some(VArgument(v.f.returnValue)) else None)
    ensures v.VApi? && name !in AttrsOf(v) ==> r.None?
  {
    if !IsNode(v) then None
    else if name in AttrsOf(v) then Some(AttrsOf(v)[name])
    else match v
      case VType(t) =>
        if name == "pointee" && t.pointee.Some? then Some(VType(t.pointee.value)) else None
      case VArgument(a) =>
        if name == "name" then Some(VStr(a.name))
        else if name == "type" then Some(VType(a.ty))
        else None
      case VFunction(f) =>
        if name == "name" then Some(VStr(f.name))
        else if name == "return_value" then Some(VArgument(f.returnValue))
        else None
      case VApi(_) => None
  }

  /** A boolean attribute such as `is_const`, False when it was never set. */
  predicate AttrFlag(v: Val, name: string) {
    match GetAttr(v, name)
    case Some(x) => Truthy(x)
    case None => false
  }

  /** The kind of a value: 0 scalar, 1 type, 2 argument, 3 function, 4 API. */
  function Kind(v: Val): nat {
    match v
    case VType(_) => 1
    case VArgument(_) => 2
    case VFunction(_) => 3
    case VApi(_) => 4
    case _ => 0
  }

  /** `setattr(v, name, x)`: fails on scalars, and otherwise changes that one attribute only. */
  function SetAttr(v: Val, name: string, x: Val): (r: Result<Val>)
    ensures r.Ok? <==> IsNode(v)
    ensures r.Err? ==> r.error == AttributeError
    ensures r.Ok? ==> Kind(r.value) == Kind(v) && GetAttr(r.value, name) == Some(x)
    ensures r.Ok? ==> forall n :: n != name ==> GetAttr(r.value, n) == GetAttr(v, n)
    ensures r.Ok? ==> ShapeOf(r.value) == ShapeOf(v)
  {
    match v
    case VType(t) => Ok(VType(t.(attrs := t.attrs[name := x])))
    case VArgument(a) => Ok(VArgument(a.(attrs := a.attrs[name := x])))
    case VFunction(f) => Ok(VFunction(f.(attrs := f.attrs[name := x])))
    case VApi(api) => Ok(VApi(api.(attrs := api.attrs[name := x])))
    case _ => Err(AttributeError)
  }

  // ---------------------------------------------------------------------------
  // Shape: the tree of nodes with their names, texts and field keys, without attributes

  /** A node's kind, the strings that identify it (names, texts, field keys), and its children. */
  datatype Shape = Shape(kind: nat, labels: seq<string>, kids: seq<Shape>)

  /**
   * The children apply_rule descends into, in its order: an API's functions; a
   * function's arguments then its return value; a type's pointee then its fields;
   * an argument's type.
   */
  function ShapeOf(v: Val): (s: Shape)
    ensures s.kind == Kind(v)
  {
    match v
    case VType(t) => TypeShape(t)
    case VArgument(a) => ArgumentShape(a)
    case VFunction(f) => FunctionShape(f)
    case VApi(api) => Shape(4, [api.text], seq(|api.functions|, i requires 0 <= i < |api.functions| => FunctionShape(api.functions[i])))
    case _ => Shape(0, [], [])
  }

  function TypeShape(t: Type): (s: Shape)
    ensures s.kind == 1
  {
    Shape(1, [t.text] + seq(|t.fields|, i requires 0 <= i < |t.fields| => t.fields[i].0),
             (match t.pointee case Some(p) => [TypeShape(p)] case None => [])
             + seq(|t.fields|, i requires 0 <= i < |t.fields| => TypeShape(t.fields[i].1)))
  }

  function ArgumentShape(a: Argument): (s: Shape)
    ensures s.kind == 2
  {
    Shape(2, [a.name, a.text], [TypeShape(a.ty)])
  }

  function FunctionShape(f: Function): (s: Shape)
    ensures s.kind == 3
  {
    Shape(3, [f.name, f.text], seq(|f.arguments|, i requires 0 <= i < |f.arguments| => ArgumentShape(f.arguments[i]))
             + [ArgumentShape(f.returnValue)])
  }
}
