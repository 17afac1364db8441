/**
 * Match results (cava/lapis/interpreter/ava.py, `match_result`, `MatchBinding`,
 * `MatchFailure`): a binding of names to matched values, or a failure. Results
 * combine with `+`, which is a right-biased union of bindings that failure absorbs.
 */
module MatchResults {
  import opened Values

  datatype MatchResult = Binding(bindings: map<string, Val>) | Failure

  /** What `match_result` is applied to: any Python value, or a dictionary. */
  datatype Verdict = Plain(v: Val) | Dict(entries: map<string, Val>)

  const EmptyBinding: MatchResult := Binding(map[])

  /** `__bool__`: every binding is a success, even an empty one; a failure never is. */
  predicate Succeeded(r: MatchResult) {
    r.Binding?
  }

  /**
   * `match_result(v)`: True gives the empty binding, False a failure, a dictionary the
   * binding of exactly its entries, and any other value is decided by its truthiness.
   */
  function MatchResultOf(x: Verdict): (r: MatchResult)
    ensures x == Plain(VBool(true)) ==> r == EmptyBinding
    ensures x == Plain(VBool(false)) ==> r == Failure
    ensures x.Dict? ==> r == Binding(x.entries)
    ensures x.Plain? ==> (Succeeded(r) <==> Truthy(x.v)) && (Succeeded(r) ==> r.bindings == map[])
    decreases if x.Plain? && x.v.VBool? then 0 else 1
  {
    match x
    case Dict(entries) => Binding(entries)
    case Plain(v) =>
      if v == VBool(true) then EmptyBinding
      else if v == VBool(false) then Failure
      else MatchResultOf(Plain(VBool(Truthy(v))))
  }

  /**
   * `a + b`: a failure on the left returns itself; a binding plus a failure is the
   * failure; two bindings merge, the right operand winning on shared names.
   */
  function Add(a: MatchResult, b: MatchResult): (r: MatchResult)
    ensures Succeeded(r) <==> Succeeded(a) && Succeeded(b)
    ensures a.Failure? ==> r == a
    ensures r.Binding? ==> r.bindings.Keys == a.bindings.Keys + b.bindings.Keys
    ensures r.Binding? ==> forall k :: k in b.bindings ==> r.bindings[k] == b.bindings[k]
    ensures r.Binding? ==> forall k :: k in a.bindings && k !in b.bindings ==> r.bindings[k] == a.bindings[k]
  {
    match a
    case Failure => a
    case Binding(m) =>
      match b
      case Binding(m') => Binding(m + m')
      case Failure => b
  }

  /** The empty binding is a left and a right identity. */
  lemma AddIdentity(x: MatchResult)
    ensures Add(EmptyBinding, x) == x
    ensures Add(x, EmptyBinding) == x
  {
    if x.Binding? {
      assert map[] + x.bindings == x.bindings;
      assert x.bindings + map[] == x.bindings;
    }
  }

  /** Failure absorbs from either side. */
  lemma FailureAbsorbs(x: MatchResult)
    ensures Add(Failure, x) == Failure
    ensures Add(x, Failure) == Failure
  {
  }

  lemma AddAssociative(a: MatchResult, b: MatchResult, c: MatchResult)
    ensures Add(Add(a, b), c) == Add(a, Add(b, c))
  {
    if a.Binding? && b.Binding? && c.Binding? {
      assert (a.bindings + b.bindings) + c.bindings == a.bindings + (b.bindings + c.bindings);
    }
  }

  /** Addition is not commutative: the right operand's value wins on a shared name. */
  lemma AddNotCommutative(k: string, v: Val, w: Val)
    requires v != w
    ensures Add(Binding(map[k := v]), Binding(map[k := w])) != Add(Binding(map[k := w]), Binding(map[k := v]))
  {
    assert Add(Binding(map[k := v]), Binding(map[k := w])).bindings[k] == w;
  }

  /**
   * `sub = MatchBinding(); for r in rs: sub += r`: one term sums to itself, and a
   * successful sum has only successful terms.
   */
  function Sum(rs: seq<MatchResult>): (r: MatchResult)
    ensures |rs| == 1 ==> r == rs[0]
    ensures r.Binding? ==> forall i :: 0 <= i < |rs| ==> rs[i].Binding?
  {
    if rs == [] then EmptyBinding
    else
      var init := rs[..|rs| - 1];
      AddIdentity(rs[|rs| - 1]);
      assert forall i :: 0 <= i < |init| ==> init[i] == rs[i];
      Add(Sum(init), rs[|rs| - 1])
  }

  /** The sum fails exactly when one of its terms fails. */
  lemma {:induction false} SumFailsIff(rs: seq<MatchResult>)
    ensures Sum(rs).Failure? <==> exists i :: 0 <= i < |rs| && rs[i].Failure?
  {
    if rs != [] {
      var init := rs[..|rs| - 1];
      SumFailsIff(init);
      assert forall i :: 0 <= i < |init| ==> init[i] == rs[i];
    }
  }

  /** In a successful sum, a name maps to the value the last term binding it gave it. */
  lemma {:induction false} SumLastBinderWins(rs: seq<MatchResult>, i: nat, k: string)
    requires Sum(rs).Binding?
    requires i < |rs| && rs[i].Binding? && k in rs[i].bindings
    requires forall j :: i < j < |rs| && rs[j].Binding? ==> k !in rs[j].bindings
    ensures k in Sum(rs).bindings && Sum(rs).bindings[k] == rs[i].bindings[k]
  {
    var init := rs[..|rs| - 1];
    if i < |rs| - 1 {
      assert init[i] == rs[i];
      SumLastBinderWins(init, i, k);
    }
  }

  /** A successful sum binds only names some term bound. */
  lemma {:induction false} SumKeys(rs: seq<MatchResult>)
    requires Sum(rs).Binding?
    ensures forall k :: k in Sum(rs).bindings ==> exists i :: 0 <= i < |rs| && rs[i].Binding? && k in rs[i].bindings
  {
    if rs != [] {
      var init := rs[..|rs| - 1];
      SumKeys(init);
      assert forall i :: 0 <= i < |init| ==> init[i] == rs[i];
    }
  }

  /** Summing in two parts: `Sum(a + b) == Sum(a) + Sum(b)`. */
  lemma {:induction false} SumAppend(a: seq<MatchResult>, b: seq<MatchResult>)
    ensures Sum(a + b) == Add(Sum(a), Sum(b))
  {
    if b == [] {
      assert a + b == a;
      AddIdentity(Sum(a));
    } else {
      var b' := b[..|b| - 1];
      assert (a + b)[..|a + b| - 1] == a + b';
      SumAppend(a, b');
      AddAssociative(Sum(a), Sum(b'), b[|b| - 1]);
    }
  }
}
