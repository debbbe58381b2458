/**
 The identity and the arity a folded batch reports (src/cbm/caller_verify.rs): what the documentation of
 `fold` promises, what the code reports, and exactly when the two agree.
 */
module CallerFold {
  import opened Prelude
  import opened CallerVerify

  function Names(batch: List<Summary>): List<Option<string>> {
    if batch.Nil? then Nil else Cons(batch.head.targetQualifiedName, Names(batch.tail))
  }

  function Arities(batch: List<Summary>): List<Option<nat>> {
    if batch.Nil? then Nil else Cons(batch.head.targetExplicitArity, Arities(batch.tail))
  }

  /** What folding one field over a batch leaves; here and below, the latest target is the head. */
  function Folded<A(==)>(l: List<Option<A>>): Option<A> {
    if l.Nil? then None else FoldIdentity(Folded(l.tail), l.head)
  }

  lemma {:induction false} FoldingFields(batch: List<Summary>)
    ensures FoldAll(batch).targetQualifiedName == Folded(Names(batch))
    ensures FoldAll(batch).targetExplicitArity == Folded(Arities(batch))
  {
    if batch.Cons? {
      FoldingFields(batch.tail);
    }
  }

  predicate AllSame<A(==)>(l: List<Option<A>>, x: Option<A>) {
    l.Cons? ==> l.head == x && AllSame(l.tail, x)
  }

  predicate Agree<A(==)>(l: List<Option<A>>) {
    l.Cons? ==> AllSame(l, l.head)
  }

  /** The documented report: what the first target had, as long as every following target has the same. */
  function Documented<A(==)>(l: List<Option<A>>): Option<A> {
    if l.Cons? && Agree(l) then l.head else None
  }

  /** How many of the latest targets differ from the one before them and have a value. */
  function Changes<A(==)>(l: List<Option<A>>): nat {
    if l.Nil? || l.head.None? || (l.tail.Cons? && l.tail.head == l.head) then 0 else 1 + Changes(l.tail)
  }

  /** The target before those repeats a value, which the fold therefore holds. */
  predicate StartsFromRepeat<A(==)>(l: List<Option<A>>) {
    l.Cons? && l.head.Some?
    && if l.tail.Cons? && l.tail.head == l.head then true else StartsFromRepeat(l.tail)
  }

  /** Whether the fold holds a value at the end: every change drops or adopts one in turn. */
  predicate Holds<A(==)>(l: List<Option<A>>) {
    if StartsFromRepeat(l) then Changes(l) % 2 == 0 else Changes(l) % 2 == 1
  }

  lemma {:induction false} FoldHolds<A>(l: List<Option<A>>)
    ensures Folded(l).Some? <==> Holds(l)
    ensures Folded(l).Some? ==> l.Cons? && Folded(l) == l.head
  {
    if l.Cons? {
      FoldHolds(l.tail);
    }
  }

  lemma {:induction false} AgreementIsReported<A>(l: List<Option<A>>, x: Option<A>)
    requires l.Cons? && AllSame(l, x)
    ensures Folded(l) == x
  {
    if l.tail.Cons? {
      AgreementIsReported(l.tail, x);
    }
  }

  /**
   One field of a batch is reported as documented exactly when all targets agree on it or the fold ends up
   holding none.
   */
  lemma {:induction false} FieldAsDocumented<A>(l: List<Option<A>>)
    ensures Folded(l) == Documented(l) <==> Agree(l) || !Holds(l)
  {
    FoldHolds(l);
    if l.Cons? && Agree(l) {
      AgreementIsReported(l, l.head);
    }
  }

  /** The claim of the documentation, on identity and arity. */
  ghost predicate ReportsAsDocumented(batch: List<Summary>) {
    && FoldAll(batch).targetQualifiedName == Documented(Names(batch))
    && FoldAll(batch).targetExplicitArity == Documented(Arities(batch))
  }

  /** When it holds, for every batch, nameless targets and targets without an arity included. */
  lemma {:induction false} FoldAsDocumented(batch: List<Summary>)
    ensures ReportsAsDocumented(batch)
       <==> && (Agree(Names(batch)) || !Holds(Names(batch)))
            && (Agree(Arities(batch)) || !Holds(Arities(batch)))
  {
    FoldingFields(batch);
    FieldAsDocumented(Names(batch));
    FieldAsDocumented(Arities(batch));
  }

  predicate AllNamed<A>(l: List<Option<A>>) {
    l.Cons? ==> l.head.Some? && AllNamed(l.tail)
  }

  lemma {:induction false} DistinctOnlyChange<A>(l: List<Option<A>>)
    requires AllNamed(l) && Distinct(l)
    ensures Changes(l) == Size(l) && !StartsFromRepeat(l)
  {
    if l.Cons? {
      assert l.tail.Cons? ==> Has(l.tail, l.tail.head);
      DistinctOnlyChange(l.tail);
    }
  }

  lemma {:induction false} DistinctAgree<A>(l: List<Option<A>>)
    requires Distinct(l)
    ensures Agree(l) <==> Size(l) <= 1
  {
    if l.Cons? {
      assert Agree(l) <==> AllSame(l.tail, l.head);
      if l.tail.Cons? {
        assert !Has(l.tail, l.head);
      }
    }
  }

  /**
   A batch of different named targets reports no identity, as documented, exactly when it is even or has at most
   one.
   */
  lemma {:induction false} DifferentTargets(batch: List<Summary>)
    requires AllNamed(Names(batch)) && Distinct(Names(batch))
    ensures FoldAll(batch).targetQualifiedName == Documented(Names(batch))
       <==> Size(Names(batch)) <= 1 || Size(Names(batch)) % 2 == 0
  {
    FoldingFields(batch);
    FieldAsDocumented(Names(batch));
    DistinctOnlyChange(Names(batch));
    DistinctAgree(Names(batch));
  }

  /** Three targets A, B, C end as C, although the batch is plural. */
  lemma {:induction false} ThirdTargetIsReported(a: Summary, b: Summary, c: Summary)
    requires a.targetQualifiedName.Some? && b.targetQualifiedName.Some?
              && a.targetQualifiedName != b.targetQualifiedName
    ensures FoldAll(Cons(c, Cons(b, Cons(a, Nil)))).targetQualifiedName == c.targetQualifiedName
  {
    var one: List<Summary> := Cons(a, Nil);
    assert FoldAll(one).targetQualifiedName == a.targetQualifiedName;
    assert FoldAll(Cons(b, one)).targetQualifiedName == None;
  }

  /** A target without an arity, then one with: the plural batch reports the arity of the second. */
  lemma {:induction false} SecondArityIsReported(a: Summary, b: Summary)
    requires a.targetExplicitArity.None? && b.targetExplicitArity.Some?
    ensures FoldAll(Cons(b, Cons(a, Nil))).targetExplicitArity == b.targetExplicitArity
    ensures !ReportsAsDocumented(Cons(b, Cons(a, Nil)))
  {
    var one: List<Summary> := Cons(a, Nil);
    assert FoldAll(one).targetExplicitArity == None;
    assert Arities(one) == Cons(None, Nil);
    var l := Arities(Cons(b, one));
    assert l == Cons(b.targetExplicitArity, Cons(None, Nil));
    assert AllSame(l, l.head) ==> AllSame(l.tail, l.head);
  }
}
