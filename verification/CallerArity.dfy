/** Arity shapes of C# declarations and the parse memo (src/cbm/caller_verify_arity.rs). */
module CallerArity {
  import opened Prelude

  datatype ArityShape = ArityShape(declared: nat, minimumExplicit: nat, maximumExplicit: Option<nat>, flexible: bool)

  predicate Accepts(s: ArityShape, observed: nat) {
    observed >= s.minimumExplicit && (s.maximumExplicit.Some? ==> observed <= s.maximumExplicit.value)
  }

  function ExactExplicit(s: ArityShape): Option<nat> {
    if s.maximumExplicit == Some(s.minimumExplicit) && !s.flexible then s.maximumExplicit else None
  }

  /** What the parse says of one parameter: is it marked `this`, and has it a default value. */
  datatype Parameter = Parameter(receiver: bool, optional: bool)
  /** The parameters of a declaration, and whether its list contains the word `params`. */
  datatype ParameterList = ParameterList(parameters: List<Parameter>, hasParams: bool)

  function Optionals(l: List<Parameter>): (n: nat)
    ensures n <= Size(l)
  {
    if l.Nil? then 0 else (if l.head.optional then 1 else 0) + Optionals(l.tail)
  }

  predicate IsExtension(p: ParameterList) {
    p.parameters.Cons? && p.parameters.head.receiver
  }

  function DeclarationArity(p: ParameterList): ArityShape {
    var declared := Size(p.parameters) + One(p.hasParams);
    var explicit := SaturatingSub(declared, One(IsExtension(p)));
    var optional := Optionals(p.parameters);
    ArityShape(declared,
               SaturatingSub(SaturatingSub(explicit, optional), One(p.hasParams)),
               if p.hasParams then None else Some(explicit),
               optional > 0 || p.hasParams)
  }

  predicate Overlap(left: ArityShape, right: ArityShape) {
    var lower := if left.minimumExplicit < right.minimumExplicit then right.minimumExplicit else left.minimumExplicit;
    match (left.maximumExplicit, right.maximumExplicit)
    case (Some(l), Some(r)) => lower <= if l < r then l else r
    case (Some(l), None) => lower <= l
    case (None, Some(r)) => lower <= r
    case (None, None) => true
  }

  /** Two shapes overlap exactly when some argument count is accepted by both; well-formed or not. */
  lemma {:induction false} OverlapIffCommonCount(left: ArityShape, right: ArityShape)
    ensures Overlap(left, right) <==> exists n: nat :: Accepts(left, n) && Accepts(right, n)
  {
    var lower := if left.minimumExplicit < right.minimumExplicit then right.minimumExplicit else left.minimumExplicit;
    if Overlap(left, right) {
      assert Accepts(left, lower) && Accepts(right, lower);
    }
  }

  /** A declaration that is not flexible accepts exactly one count, the one it reports as explicit arity. */
  lemma {:induction false} InflexibleIsExact(p: ParameterList, n: nat)
    requires !DeclarationArity(p).flexible
    ensures ExactExplicit(DeclarationArity(p)).Some?
    ensures Accepts(DeclarationArity(p), n) <==> n == ExactExplicit(DeclarationArity(p)).value
  {
  }

  ghost predicate AcceptsSeveral(s: ArityShape) {
    exists n: nat :: Accepts(s, n) && Accepts(s, n + 1)
  }

  /** The one list marked flexible although its call shape is a single number: an optional receiver alone. */
  ghost predicate OptionalReceiverOnly(p: ParameterList) {
    !p.hasParams && p.parameters == Cons(Parameter(true, true), Nil)
  }

  /** `flexible` means "not a single exact number", as documented, except for an optional receiver alone. */
  lemma {:induction false} FlexibleMeansSeveral(p: ParameterList)
    ensures DeclarationArity(p).flexible <==> AcceptsSeveral(DeclarationArity(p)) || OptionalReceiverOnly(p)
  {
    var s := DeclarationArity(p);
    if s.flexible {
      if p.hasParams {
        assert Accepts(s, s.minimumExplicit) && Accepts(s, s.minimumExplicit + 1);
      } else if s.minimumExplicit < s.maximumExplicit.value {
        assert Accepts(s, s.minimumExplicit) && Accepts(s, s.minimumExplicit + 1);
      } else {
        assert p.parameters.tail.Nil?;
      }
    } else {
      if AcceptsSeveral(s) {
        var n: nat :| Accepts(s, n) && Accepts(s, n + 1);
        InflexibleIsExact(p, n);
        InflexibleIsExact(p, n + 1);
      }
    }
  }

  // ----- The shape against the language rule it stands for -----

  /** The parameters a call site supplies explicitly. */
  function Explicit(p: ParameterList): List<Parameter> {
    if p.parameters.Cons? && p.parameters.head.receiver then p.parameters.tail else p.parameters
  }

  /** `n` arguments can be bound to the parameters from left to right, any surplus going to a `params` array. */
  predicate Binds(l: List<Parameter>, surplus: bool, n: nat) {
    if l.Nil? then n == 0 || surplus
    else if n == 0 then l.head.optional && Binds(l.tail, surplus, 0)
    else Binds(l.tail, surplus, n - 1)
  }

  predicate AllOptional(l: List<Parameter>) {
    l.Cons? ==> l.head.optional && AllOptional(l.tail)
  }

  /** No required parameter follows an optional one, as C# demands. */
  predicate OptionalsTrail(l: List<Parameter>) {
    l.Cons? ==> if l.head.optional then AllOptional(l.tail) else OptionalsTrail(l.tail)
  }

  /** The fewest arguments that reach the last required parameter. */
  function Needed(l: List<Parameter>): nat {
    if AllOptional(l) then 0 else 1 + Needed(l.tail)
  }

  lemma {:induction false} BindsIsAnInterval(l: List<Parameter>, surplus: bool, n: nat)
    ensures Binds(l, surplus, n) <==> Needed(l) <= n && (surplus || n <= Size(l))
  {
    if l.Cons? {
      BindsIsAnInterval(l.tail, surplus, if n == 0 then 0 else n - 1);
    }
  }

  lemma {:induction false} NeededFacts(l: List<Parameter>)
    ensures Size(l) <= Needed(l) + Optionals(l)
    ensures AllOptional(l) <==> Optionals(l) == Size(l)
    ensures OptionalsTrail(l) <==> Needed(l) + Optionals(l) == Size(l)
    ensures Needed(l) <= Size(l)
  {
    if l.Cons? {
      NeededFacts(l.tail);
    }
  }

  /** What a shape derived from a declaration accepts, as an interval. */
  lemma {:induction false} AcceptsIsAnInterval(p: ParameterList, n: nat)
    ensures Accepts(DeclarationArity(p), n)
       <==> && SaturatingSub(Size(Explicit(p)), Optionals(p.parameters)) <= n
            && (p.hasParams || n <= Size(Explicit(p)))
  {
  }

  /** The derived shape accepts the argument counts that can be bound, and no others. */
  ghost predicate ShapeIsBinding(p: ParameterList) {
    forall n: nat :: Accepts(DeclarationArity(p), n) <==> Binds(Explicit(p), p.hasParams, n)
  }

  /**
   Exactly when the arithmetic on a declaration describes the calls its parameters allow: the optional
   parameters come last, and an optional receiver is followed by optional parameters only.
   */
  lemma {:induction false} ShapeIsBindingIff(p: ParameterList)
    ensures ShapeIsBinding(p)
       <==> OptionalsTrail(Explicit(p)) && (IsExtension(p) && p.parameters.head.optional ==> AllOptional(Explicit(p)))
  {
    var l := Explicit(p);
    var least := SaturatingSub(Size(l), Optionals(p.parameters));
    NeededFacts(l);
    assert Needed(l) == least
      <==> OptionalsTrail(l) && (IsExtension(p) && p.parameters.head.optional ==> AllOptional(l));
    if Needed(l) == least {
      forall n: nat ensures Accepts(DeclarationArity(p), n) <==> Binds(l, p.hasParams, n) {
        AcceptsIsAnInterval(p, n);
        BindsIsAnInterval(l, p.hasParams, n);
      }
    } else {
      AcceptsIsAnInterval(p, least);
      BindsIsAnInterval(l, p.hasParams, least);
      assert Accepts(DeclarationArity(p), least) && !Binds(l, p.hasParams, least);
    }
  }

  /** Request-local reuse of parses: one per key, a failed parse included. */
  class ParseMemo<T> {
    var trees: map<string, Option<T>>

    constructor ()
      ensures trees == map[]
    {
      trees := map[];
    }

    /** Every memoised parse is the parse of the one text its key stands for. */
    ghost predicate Consistent(parse: string -> Option<T>, texts: string -> string)
      reads this
    {
      forall k :: k in trees ==> trees[k] == parse(texts(k))
    }

    method Tree(key: string, source: string, parse: string -> Option<T>) returns (r: Option<T>)
      modifies this
      ensures r == if key in old(trees) then old(trees)[key] else parse(source)
      ensures trees == old(trees)[key := r]
    {
      if key in trees {
        r := trees[key];
        assert trees == trees[key := r];
      } else {
        r := parse(source);
        trees := trees[key := r];
      }
    }
  }
}
