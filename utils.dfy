/**
 * `Utils`: combinators that fold an ordered list of callables into a single
 * callable. A callable is a pure function on PHP values. The loop inside each
 * composed closure is a method (`Run...`) proved against the function that
 * specifies what the closure returns.
 */
module Utils {
  import opened ArgumentData

  /** A PHP callable taking one value, such as a permission check on a request. */
  type Callable = Value -> Value

  /** PHP's `(bool)` cast. */
  predicate Truthy(v: Value) {
    match v
    case Null => false
    case Bool(b) => b
    case Int(i) => i != 0
    case Num(f) => f.mantissa != 0
    case Str(s) => s != "" && s != "0"
    case Fn(_) => true
    case List(es) => es != []
    case Assoc(es) => es != []
    case Arg(_) => true
  }

  // ---------------------------------------------------------------------
  // compose_conditional_all_true
  // ---------------------------------------------------------------------

  /** Every callable accepts the value. */
  predicate AllTrue(cs: seq<Callable>, v: Value) {
    forall i :: 0 <= i < |cs| ==> Truthy(cs[i](v))
  }

  /** `compose_conditional_all_true(...$cs)`: the closure answers whether every callable accepts. */
  function ComposeAllTrue(cs: seq<Callable>): Callable {
    v => Bool(AllTrue(cs, v))
  }

  /**
   * The closure's `foreach`: it calls the callables in order and returns false
   * at the first falsy result, without calling the rest.
   */
  method RunAllTrue(cs: seq<Callable>, v: Value) returns (r: bool, calls: nat)
    ensures r <==> AllTrue(cs, v)
    ensures r ==> calls == |cs|
    ensures !r ==> 1 <= calls <= |cs| && !Truthy(cs[calls - 1](v))
    ensures forall i :: 0 <= i < calls - 1 ==> Truthy(cs[i](v))
  {
    var i := 0;
    while i < |cs|
      invariant 0 <= i <= |cs|
      invariant forall j :: 0 <= j < i ==> Truthy(cs[j](v))
    {
      var result := cs[i](v);
      if !Truthy(result) {
        return false, i + 1;
      }
      i := i + 1;
    }
    return true, |cs|;
  }

  /** With no callables the composed check accepts everything. */
  lemma AllTrueEmpty(v: Value)
    ensures ComposeAllTrue([])(v) == Bool(true)
  {
  }

  /** Stacking checks: the composition of `a + b` accepts exactly when both halves do. */
  lemma AllTrueConcat(a: seq<Callable>, b: seq<Callable>, v: Value)
    ensures AllTrue(a + b, v) <==> AllTrue(a, v) && AllTrue(b, v)
  {
    if AllTrue(a, v) && AllTrue(b, v) {
      forall i | 0 <= i < |a + b|
        ensures Truthy((a + b)[i](v))
      {
        if i >= |a| {
          assert (a + b)[i] == b[i - |a|];
        }
      }
    }
    if AllTrue(a + b, v) {
      forall i | 0 <= i < |a|
        ensures Truthy(a[i](v))
      {
        assert (a + b)[i] == a[i];
      }
      forall i | 0 <= i < |b|
        ensures Truthy(b[i](v))
      {
        assert (a + b)[|a| + i] == b[i];
      }
    }
  }

  // ---------------------------------------------------------------------
  // compose_conditional_any_true
  // ---------------------------------------------------------------------

  /** Some callable accepts the value. */
  predicate AnyTrue(cs: seq<Callable>, v: Value) {
    exists i :: 0 <= i < |cs| && Truthy(cs[i](v))
  }

  /** `compose_conditional_any_true(...$cs)`: the closure answers whether some callable accepts. */
  function ComposeAnyTrue(cs: seq<Callable>): Callable {
    v => Bool(AnyTrue(cs, v))
  }

  /**
   * The closure's `foreach`: it returns true at the first truthy result,
   * without calling the rest, and false when none accepts.
   */
  method RunAnyTrue(cs: seq<Callable>, v: Value) returns (r: bool, calls: nat)
    ensures r <==> AnyTrue(cs, v)
    ensures !r ==> calls == |cs|
    ensures r ==> 1 <= calls <= |cs| && Truthy(cs[calls - 1](v))
    ensures forall i :: 0 <= i < calls - 1 ==> !Truthy(cs[i](v))
  {
    var i := 0;
    while i < |cs|
      invariant 0 <= i <= |cs|
      invariant forall j :: 0 <= j < i ==> !Truthy(cs[j](v))
    {
      var result := cs[i](v);
      if Truthy(result) {
        return true, i + 1;
      }
      i := i + 1;
    }
    return false, |cs|;
  }

  /** With no callables the composed check rejects everything. */
  lemma AnyTrueEmpty(v: Value)
    ensures ComposeAnyTrue([])(v) == Bool(false)
  {
  }

  /** Some callable of `a + b` accepts exactly when some callable of either half does. */
  lemma AnyTrueConcat(a: seq<Callable>, b: seq<Callable>, v: Value)
    ensures AnyTrue(a + b, v) <==> AnyTrue(a, v) || AnyTrue(b, v)
  {
    if AnyTrue(a + b, v) {
      var i :| 0 <= i < |a + b| && Truthy((a + b)[i](v));
      if i < |a| {
        assert (a + b)[i] == a[i];
      } else {
        assert (a + b)[i] == b[i - |a|];
      }
    }
    if AnyTrue(a, v) {
      var i :| 0 <= i < |a| && Truthy(a[i](v));
      assert (a + b)[i] == a[i];
    }
    if AnyTrue(b, v) {
      var i :| 0 <= i < |b| && Truthy(b[i](v));
      assert (a + b)[|a| + i] == b[i];
    }
  }

  // ---------------------------------------------------------------------
  // compose_piped_callable
  // ---------------------------------------------------------------------

  /** The value after passing it through each callable in turn. */
  function Pipe(cs: seq<Callable>, v: Value): Value
    decreases |cs|
  {
    if cs == [] then v else Pipe(cs[1..], cs[0](v))
  }

  /** `compose_piped_callable(...$cs)`. */
  function ComposePiped(cs: seq<Callable>): Callable {
    v => Pipe(cs, v)
  }

  /** The closure's `foreach`, feeding each result into the next callable. */
  method RunPipe(cs: seq<Callable>, v: Value) returns (r: Value)
    ensures r == Pipe(cs, v)
  {
    r := v;
    var i := 0;
    while i < |cs|
      invariant 0 <= i <= |cs|
      invariant Pipe(cs[i..], r) == Pipe(cs, v)
    {
      assert cs[i..][1..] == cs[i + 1..];
      r := cs[i](r);
      i := i + 1;
    }
    assert cs[i..] == [];
  }

  /** With no callables the pipe returns its input. */
  lemma PipeEmpty(v: Value)
    ensures ComposePiped([])(v) == v
  {
  }

  /** Piping through `a + b` is piping through `a`, then through `b`. */
  lemma {:induction false} PipeConcat(a: seq<Callable>, b: seq<Callable>, v: Value)
    ensures Pipe(a + b, v) == Pipe(b, Pipe(a, v))
    decreases |a|
  {
    if a == [] {
      assert a + b == b;
    } else {
      assert (a + b)[0] == a[0];
      assert (a + b)[1..] == a[1..] + b;
      PipeConcat(a[1..], b, a[0](v));
    }
  }

  /** A single callable piped is that callable. */
  lemma PipeSingle(c: Callable, v: Value)
    ensures Pipe([c], v) == c(v)
  {
    assert [c][1..] == [];
  }
}
