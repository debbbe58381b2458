/**
 What a summary says (src/cbm/caller_verify.rs), told from the declarations and the call sites: which declaration is
 the target, which calls are counted where, which candidates are evidence, and which verdict follows.
 */
module CallerVerdict {
  import opened Prelude
  import opened OrderedUnion
  import opened CallerArity
  import opened CallerVerify

  // ----- The verdict and the counters -----

  /** The verdict for a selected target is read off its counters, the weakest evidence first. */
  lemma {:induction false} VerdictOfTarget<T>(f: Front<T>, source: string, sel: Selector, cs: List<Candidate>)
    requires Choose(f, source, sel).Single?
    ensures var s := Verify(f, source, sel, cs);
            && (s.resolution == AmbiguousStatus <==> s.unverifiable == 0 && s.ambiguous > 0)
            && (s.resolution == VerifiedCompatible <==> s.unverifiable == 0 && s.ambiguous == 0 && s.verified > 0)
            && (s.resolution == RejectedArityMismatch
                <==> s.unverifiable == 0 && s.ambiguous == 0 && s.verified == 0 && s.rejectedArity > 0)
            && (s.resolution == UnverifiableStatus <==> s.unverifiable > 0 || s.rawCandidates == 0)
  {
    VerifyBalances(f, source, sel, cs);
  }

  /** Without a selected target the verdict is ambiguous or unverifiable, and nothing is verified or rejected. */
  lemma {:induction false} VerdictWithoutTarget<T>(f: Front<T>, source: string, sel: Selector, cs: List<Candidate>)
    requires !Choose(f, source, sel).Single?
    ensures var s := Verify(f, source, sel, cs);
            && s.verified == s.rejectedArity == s.verifiedCallerFiles == 0 && s.verifiedCandidates == Nil
            && s.targetQualifiedName == Some(sel.qualifiedName) && s.targetExplicitArity == None
            && s.rawCandidates == s.ambiguous
            && (s.resolution == AmbiguousStatus <==> Choose(f, source, sel).Several? && s.unverifiable == 0)
            && (s.resolution == UnverifiableStatus <==> s.unverifiable > 0)
            && (Choose(f, source, sel).NoTarget? ==>
                  s.unverifiable == 1 && s.ambiguous == s.compatibleCallerFiles == 0 && s.ambiguousCandidates == Nil)
  {
  }

  // ----- Which declaration is the target -----

  /** The declarations with as many parameters as the selector says: an extension's receiver and `params` count. */
  ghost function Chosen(lists: List<ParameterList>, arity: Option<nat>): List<ParameterList> {
    if lists.Nil? then Nil
    else if arity.None? || Size(lists.head.parameters) + (if lists.head.hasParams then 1 else 0) == arity.value
    then Cons(lists.head, Chosen(lists.tail, arity))
    else Chosen(lists.tail, arity)
  }

  /** Neither optional parameters nor `params`. */
  ghost predicate Fixed(p: ParameterList) {
    !p.hasParams && forall q :: Has(p.parameters, q) ==> !q.optional
  }

  /** The declarations a call with `n` arguments can mean. */
  ghost function Taking(n: nat, lists: List<ParameterList>): nat {
    if lists.Nil? then 0 else (if Accepts(DeclarationArity(lists.head), n) then 1 else 0) + Taking(n, lists.tail)
  }

  lemma {:induction false} ChosenAreSelected(lists: List<ParameterList>, arity: Option<nat>)
    ensures Selected(Shapes(lists), arity) == Shapes(Chosen(lists, arity))
    ensures Size(Shapes(Chosen(lists, arity))) == Size(Chosen(lists, arity))
  {
    if lists.Cons? {
      ChosenAreSelected(lists.tail, arity);
    }
  }

  lemma {:induction false} OptionalsFacts(l: List<Parameter>)
    ensures Optionals(l) == 0 <==> forall q :: Has(l, q) ==> !q.optional
  {
    if l.Cons? {
      OptionalsFacts(l.tail);
      assert Has(l, l.head);
      assert forall q :: Has(l.tail, q) ==> Has(l, q);
    }
  }

  lemma {:induction false} FixedShape(p: ParameterList, n: nat)
    ensures Fixed(p) <==> !DeclarationArity(p).flexible
    ensures Fixed(p) ==> (Accepts(DeclarationArity(p), n) <==> n == Size(Explicit(p)))
    ensures ExactExplicit(DeclarationArity(p)) == if Fixed(p) then Some(Size(Explicit(p))) else None
  {
    OptionalsFacts(p.parameters);
  }

  /** What overlaps a target of one count are the declarations that take that count. */
  lemma {:induction false} OverlappingTake(t: ArityShape, n: nat, lists: List<ParameterList>)
    requires forall x: nat :: Accepts(t, x) <==> x == n
    ensures Overlapping(t, Shapes(lists)) == Taking(n, lists)
  {
    if lists.Cons? {
      OverlapIffCommonCount(t, DeclarationArity(lists.head));
      assert Accepts(t, n);
      OverlappingTake(t, n, lists.tail);
    }
  }

  /**
   The plan, for every list of declarations: no target if none has the selector's number of parameters, several if the
   selector gives none and there are more, and otherwise the first. Calls that it accepts are verified, rather than
   ambiguous, exactly when it is the only one chosen, has a fixed number of parameters, and is the only declaration
   of that name that such a call can mean. A number is reported exactly when it is fixed.
   */
  lemma {:induction false} PlanIsExact(sel: Selector, lists: List<ParameterList>)
    ensures var chosen, plan := Chosen(lists, sel.declaredArity), PlanFor(sel, Shapes(lists));
            && (plan.NoTarget? <==> chosen.Nil?)
            && (plan.Several? <==> sel.declaredArity.None? && Size(chosen) > 1)
            && (plan.Single? ==>
                  && chosen.Cons? && plan.target.arity == DeclarationArity(chosen.head)
                  && ExactExplicit(plan.target.arity)
                     == (if Fixed(chosen.head) then Some(Size(Explicit(chosen.head))) else None)
                  && (plan.target.unique
                      <==> && Size(chosen) == 1 && Fixed(chosen.head)
                           && Taking(Size(Explicit(chosen.head)), lists) == 1))
  {
    var chosen := Chosen(lists, sel.declaredArity);
    ChosenAreSelected(lists, sel.declaredArity);
    if chosen.Cons? {
      var n := Size(Explicit(chosen.head));
      FixedShape(chosen.head, n);
      if Fixed(chosen.head) {
        forall x: nat ensures Accepts(DeclarationArity(chosen.head), x) <==> x == n {
          FixedShape(chosen.head, x);
        }
        OverlappingTake(DeclarationArity(chosen.head), n, lists);
        ChosenTakesItself(lists, sel.declaredArity, n);
      }
    }
  }

  lemma {:induction false} ChosenTakesItself(lists: List<ParameterList>, arity: Option<nat>, n: nat)
    requires Chosen(lists, arity).Cons? && Accepts(DeclarationArity(Chosen(lists, arity).head), n)
    ensures Taking(n, lists) >= 1
  {
    if Chosen(lists, arity).head != lists.head {
      ChosenTakesItself(lists.tail, arity, n);
    }
  }

  // ----- Which calls are counted where -----

  /** The numbers of arguments with which the parsable candidates call the name, call by call. */
  ghost function AllCalls<T>(f: Front<T>, cs: List<Candidate>, name: string): List<nat> {
    if cs.Nil? then Nil
    else
      var tree := f.parse(cs.head.text);
      Append(if tree.None? then Nil else f.calls(tree.value, cs.head.text, name), AllCalls(f, cs.tail, name))
  }

  /** The candidates that do not parse. */
  ghost function Broken<T>(f: Front<T>, cs: List<Candidate>): nat {
    if cs.Nil? then 0 else (if f.parse(cs.head.text).None? then 1 else 0) + Broken(f, cs.tail)
  }

  ghost function CountWhere(l: List<nat>, p: nat -> bool): nat {
    if l.Nil? then 0 else (if p(l.head) then 1 else 0) + CountWhere(l.tail, p)
  }

  lemma {:induction false} CountWhereAppend(a: List<nat>, b: List<nat>, p: nat -> bool)
    ensures CountWhere(Append(a, b), p) == CountWhere(a, p) + CountWhere(b, p)
  {
    if a.Cons? {
      CountWhereAppend(a.tail, b, p);
    }
  }

  lemma {:induction false} CountsOfCalls(t: Target, calls: List<nat>, p: nat -> bool)
    requires forall n: nat :: p(n) <==> Accepts(t.arity, n)
    ensures Size(Accepted(t, calls)) == CountWhere(calls, p)
    ensures RejectedCount(t, calls) == CountWhere(calls, (n: nat) => !p(n))
  {
    if calls.Cons? {
      CountsOfCalls(t, calls.tail, p);
    }
  }

  lemma {:induction false} TotalsOfCalls<T>(f: Front<T>, cs: List<Candidate>, name: string, t: Target, p: nat -> bool)
    requires forall n: nat :: p(n) <==> Accepts(t.arity, n)
    ensures AcceptedTotal(t, ObserveAll(f, cs, name)) == CountWhere(AllCalls(f, cs, name), p)
    ensures RejectedTotal(t, ObserveAll(f, cs, name)) == CountWhere(AllCalls(f, cs, name), (n: nat) => !p(n))
    ensures RawTotal(ObserveAll(f, cs, name)) == Size(AllCalls(f, cs, name))
    ensures UnparsableTotal(ObserveAll(f, cs, name)) == Broken(f, cs)
  {
    if cs.Cons? {
      var calls := CallsOf(Observe(f, cs.head, name));
      TotalsOfCalls(f, cs.tail, name, t, p);
      CountsOfCalls(t, calls, p);
      CountWhereAppend(calls, AllCalls(f, cs.tail, name), p);
      CountWhereAppend(calls, AllCalls(f, cs.tail, name), (n: nat) => !p(n));
      SizeAppend(calls, AllCalls(f, cs.tail, name));
    }
  }

  /** Every call of a parsable candidate is accepted or rejected, and an accepted one verified or ambiguous. */
  lemma {:induction false} CallsOfTarget<T>(f: Front<T>, source: string, sel: Selector, cs: List<Candidate>,
          p: nat -> bool)
    requires Choose(f, source, sel).Single?
    requires forall n: nat :: p(n) <==> Accepts(Choose(f, source, sel).target.arity, n)
    ensures var s, calls := Verify(f, source, sel, cs), AllCalls(f, cs, LastSegment(sel.qualifiedName));
            && s.rejectedArity == CountWhere(calls, (n: nat) => !p(n))
            && s.verified == (if Choose(f, source, sel).target.unique then CountWhere(calls, p) else 0)
            && s.ambiguous == (if Choose(f, source, sel).target.unique then 0 else CountWhere(calls, p))
            && s.rawCandidates == Size(calls) && s.unverifiable == Broken(f, cs)
            && s.targetQualifiedName == Some(sel.qualifiedName)
            && s.targetExplicitArity == ExactExplicit(Choose(f, source, sel).target.arity)
  {
    TotalsOfCalls(f, cs, LastSegment(sel.qualifiedName), Choose(f, source, sel).target, p);
  }

  /** With several declarations to choose from, every call of a parsable candidate is ambiguous, and is evidence. */
  lemma {:induction false} CallsWithoutArity<T>(f: Front<T>, source: string, sel: Selector, cs: List<Candidate>)
    requires Choose(f, source, sel).Several?
    ensures var s, name := Verify(f, source, sel, cs), LastSegment(sel.qualifiedName);
            && s.ambiguous == Size(AllCalls(f, cs, name)) && s.unverifiable == Broken(f, cs)
            && EvidenceMatches(s.ambiguousCandidates, ObserveAll(f, cs, name), ArityShape(0, 0, None, true),
                 AmbiguousStatus)
            && s.compatibleCallerFiles == |Callers(s.ambiguousCandidates)|
  {
    var name, p := LastSegment(sel.qualifiedName), (n: nat) => true;
    TotalsOfCalls(f, cs, name, ANY_ARITY, p);
    TotalsBalance(ANY_ARITY, ObserveAll(f, cs, name));
    NoneOfThem(AllCalls(f, cs, name), (n: nat) => !p(n));
    EvidenceOfMatches(ANY_ARITY, ObserveAll(f, cs, name));
    FileCountIsCardinality(ANY_ARITY, ObserveAll(f, cs, name));
  }

  lemma {:induction false} NoneOfThem(l: List<nat>, p: nat -> bool)
    requires forall n: nat :: !p(n)
    ensures CountWhere(l, p) == 0
  {
    if l.Cons? {
      NoneOfThem(l.tail, p);
    }
  }

  /**
   If one declaration is chosen, its number of parameters is fixed, and no other declaration of the name can take that
   number, then the calls with exactly that number are verified, all others are rejected, and none is ambiguous.
   */
  lemma {:induction false} UniqueCallsAreVerified<T>(f: Front<T>, source: string, sel: Selector, cs: List<Candidate>,
          lists: List<ParameterList>, n: nat)
    requires f.parse(source).Some? && lists == Declared(f, f.parse(source).value, source, sel)
    requires var chosen := Chosen(lists, sel.declaredArity);
             Size(chosen) == 1 && Fixed(chosen.head) && n == Size(Explicit(chosen.head))
    requires Taking(n, lists) == 1
    ensures var s, calls := Verify(f, source, sel, cs), AllCalls(f, cs, LastSegment(sel.qualifiedName));
            && s.verified == CountWhere(calls, (x: nat) => x == n)
            && s.rejectedArity == CountWhere(calls, (x: nat) => x != n)
            && s.ambiguous == 0 && s.rawCandidates == Size(calls) && s.unverifiable == Broken(f, cs)
            && s.targetExplicitArity == Some(n) && s.targetQualifiedName == Some(sel.qualifiedName)
  {
    PlanIsExact(sel, lists);
    var calls, p := AllCalls(f, cs, LastSegment(sel.qualifiedName)), (x: nat) => x == n;
    forall x: nat ensures p(x) <==> Accepts(Choose(f, source, sel).target.arity, x) {
      FixedShape(Chosen(lists, sel.declaredArity).head, x);
    }
    CallsOfTarget(f, source, sel, cs, p);
    CountWhereSame(calls, p, (x: nat) => x == n);
    CountWhereSame(calls, (x: nat) => !p(x), (x: nat) => x != n);
    FixedShape(Chosen(lists, sel.declaredArity).head, n);
  }

  lemma {:induction false} CountWhereSame(l: List<nat>, p: nat -> bool, q: nat -> bool)
    requires forall n: nat :: p(n) <==> q(n)
    ensures CountWhere(l, p) == CountWhere(l, q)
  {
    if l.Cons? {
      CountWhereSame(l.tail, p, q);
    }
  }

  // ----- Which candidates are evidence -----

  /** A call the target accepts. */
  ghost predicate Fits(a: ArityShape, calls: List<nat>, n: nat) {
    Has(calls, n) && Accepts(a, n)
  }

  /** The evidence names the caller as proposed and as read, and the accepted numbers, ascending, each once. */
  ghost predicate IsEvidence(e: Evidence, o: Observation, a: ArityShape, status: Status) {
    && (exists n :: Fits(a, CallsOf(o), n))
    && e.cbmFile == o.candidate.file && e.file == o.candidate.resolvedFile && e.status == status
    && Ascending(e.argumentCounts) && forall n :: Has(e.argumentCounts, n) <==> Fits(a, CallsOf(o), n)
  }

  lemma {:induction false} AcceptedMembers(t: Target, calls: List<nat>, n: nat)
    ensures Has(Accepted(t, calls), n) <==> Fits(t.arity, calls, n)
  {
    if calls.Cons? {
      AcceptedMembers(t, calls.tail, n);
    }
  }

  lemma {:induction false} EvidenceIsExact(t: Target, o: Observation)
    ensures Accepted(t, CallsOf(o)).Cons? <==> exists n :: Fits(t.arity, CallsOf(o), n)
    ensures Accepted(t, CallsOf(o)).Cons? ==>
              var status := if t.unique then VerifiedCompatible else AmbiguousStatus;
              IsEvidence(EvidenceFor(t, o.candidate, Accepted(t, CallsOf(o))), o, t.arity, status)
  {
    var accepted := Accepted(t, CallsOf(o));
    forall n ensures Has(accepted, n) <==> Fits(t.arity, CallsOf(o), n) {
      AcceptedMembers(t, CallsOf(o), n);
    }
    if accepted.Cons? {
      assert Has(accepted, accepted.head);
      forall n ensures Has(SortedCounts(accepted), n) <==> Fits(t.arity, CallsOf(o), n) {
        SortedCountsFacts(accepted, n);
      }
      SortedCountsFacts(accepted, 0);
    }
  }

  /** The evidence of the candidates that have an accepted call, candidate by candidate. */
  ghost predicate EvidenceMatches(l: List<Evidence>, obs: List<Observation>, a: ArityShape, status: Status)
    decreases obs
  {
    if obs.Nil? then l.Nil?
    else if exists n :: Fits(a, CallsOf(obs.head), n)
    then l.Cons? && IsEvidence(l.head, obs.head, a, status) && EvidenceMatches(l.tail, obs.tail, a, status)
    else EvidenceMatches(l, obs.tail, a, status)
  }

  lemma {:induction false} EvidenceOfMatches(t: Target, obs: List<Observation>)
    ensures EvidenceMatches(EvidenceOf(t, obs), obs, t.arity, if t.unique then VerifiedCompatible else AmbiguousStatus)
  {
    if obs.Cons? {
      EvidenceIsExact(t, obs.head);
      EvidenceOfMatches(t, obs.tail);
    }
  }

  ghost function Callers(l: List<Evidence>): set<string> {
    if l.Nil? then {} else {l.head.cbmFile} + Callers(l.tail)
  }

  lemma {:induction false} FilesAreCallers(t: Target, obs: List<Observation>, x: string)
    ensures Has(FilesOf(t, obs), x) <==> x in Callers(EvidenceOf(t, obs))
  {
    if obs.Cons? {
      FilesAreCallers(t, obs.tail, x);
    }
  }

  ghost function Elements(l: List<string>): (s: set<string>)
    ensures forall x :: x in s <==> Has(l, x)
  {
    if l.Nil? then {} else {l.head} + Elements(l.tail)
  }

  lemma {:induction false} DistinctSize(l: List<string>)
    requires Distinct(l)
    ensures |Elements(l)| == Size(l)
  {
    if l.Cons? {
      DistinctSize(l.tail);
    }
  }

  lemma {:induction false} FileCountIsCardinality(t: Target, obs: List<Observation>)
    ensures FileCount(FilesOf(t, obs)) == |Callers(EvidenceOf(t, obs))|
  {
    var files := Union(Nil, FilesOf(t, obs));
    UnionKeepsDistinct(Nil, FilesOf(t, obs));
    DistinctSize(files);
    forall x ensures x in Elements(files) <==> x in Callers(EvidenceOf(t, obs)) {
      UnionMembers(Nil, FilesOf(t, obs), x);
      FilesAreCallers(t, obs, x);
    }
    assert Elements(files) == Callers(EvidenceOf(t, obs));
  }

  /**
   The evidence for a selected target lists, in order, the candidates with a call it accepts: all as verified or all as
   ambiguous. The file counts are those of the different callers listed.
   */
  lemma {:induction false} EvidenceOfTarget<T>(f: Front<T>, source: string, sel: Selector, cs: List<Candidate>)
    requires Choose(f, source, sel).Single?
    ensures var s, t := Verify(f, source, sel, cs), Choose(f, source, sel).target;
            var obs := ObserveAll(f, cs, LastSegment(sel.qualifiedName));
            && s.verifiedCallerFiles == |Callers(s.verifiedCandidates)|
            && (t.unique ==> && EvidenceMatches(s.verifiedCandidates, obs, t.arity, VerifiedCompatible)
                             && s.ambiguousCandidates == Nil && s.compatibleCallerFiles == s.verifiedCallerFiles)
            && (!t.unique ==> && EvidenceMatches(s.ambiguousCandidates, obs, t.arity, AmbiguousStatus)
                              && s.verifiedCandidates == Nil
                              && s.compatibleCallerFiles == |Callers(s.ambiguousCandidates)|)
  {
    var obs := ObserveAll(f, cs, LastSegment(sel.qualifiedName));
    EvidenceOfMatches(Choose(f, source, sel).target, obs);
    FileCountIsCardinality(Choose(f, source, sel).target, obs);
  }

  // ----- The name that is looked for -----

  /** The name after the last dot is what is looked for, inside the type named before that dot, if there is one. */
  lemma {:induction false} QualifiedName(q: string, before: string, name: string)
    requires '.' !in name
    ensures q == name ==> LastSegment(q) == name && TypeSegment(q) == None
    ensures q == before + "." + name ==> LastSegment(q) == name && TypeSegment(q) == Some(LastSegment(before))
  {
    if q == name {
      NoDots(name);
    }
    if q == before + "." + name {
      AfterDot(before + ".", name);
      assert q[..|q| - |name| - 1] == before;
      assert |q| != |name|;
    }
  }

  /** Only methods of that name, in a type of that name if one is given, are declarations of the target. */
  lemma {:induction false} DeclaredByName<T>(f: Front<T>, tree: T, source: string, sel: Selector, before: string,
          name: string)
    requires '.' !in name
    ensures sel.qualifiedName == name ==> Declared(f, tree, source, sel) == f.declarations(tree, source, name, None)
    ensures sel.qualifiedName == before + "." + name ==>
              Declared(f, tree, source, sel) == f.declarations(tree, source, name, Some(LastSegment(before)))
  {
    QualifiedName(sel.qualifiedName, before, name);
  }

  lemma {:induction false} NoDots(name: string)
    requires '.' !in name
    ensures LastSegment(name) == name
  {
    if name != "" {
      NoDots(name[..|name| - 1]);
      assert name == name[..|name| - 1] + [name[|name| - 1]];
    }
  }

  lemma {:induction false} AfterDot(before: string, name: string)
    requires before != "" && before[|before| - 1] == '.' && '.' !in name
    ensures LastSegment(before + name) == name
  {
    if name == "" {
      assert before + name == before;
    } else {
      var n := |name| - 1;
      assert (before + name)[..|before| + n] == before + name[..n] && (before + name)[|before| + n] == name[n];
      AfterDot(before, name[..n]);
      assert name == name[..n] + [name[n]];
    }
  }

  // ----- Batches -----

  ghost function Sum(batch: List<Summary>, field: Summary -> nat): nat {
    if batch.Nil? then 0 else field(batch.head) + Sum(batch.tail, field)
  }

  /** The evidence of a batch, the earliest target first; as everywhere, the latest target is the head. */
  ghost function Listed(batch: List<Summary>, field: Summary -> List<Evidence>): List<Evidence> {
    if batch.Nil? then Nil else Append(Listed(batch.tail, field), field(batch.head))
  }

  /** Folding adds up every counter and lists the evidence in the order of the targets; it derives no resolution. */
  lemma {:induction false} FoldAddsUp(batch: List<Summary>)
    ensures var all := FoldAll(batch);
            && all.rawCandidates == Sum(batch, (s: Summary) => s.rawCandidates)
            && all.verified == Sum(batch, (s: Summary) => s.verified)
            && all.rejectedArity == Sum(batch, (s: Summary) => s.rejectedArity)
            && all.ambiguous == Sum(batch, (s: Summary) => s.ambiguous)
            && all.unverifiable == Sum(batch, (s: Summary) => s.unverifiable)
            && all.verifiedCallerFiles == Sum(batch, (s: Summary) => s.verifiedCallerFiles)
            && all.compatibleCallerFiles == Sum(batch, (s: Summary) => s.compatibleCallerFiles)
            && all.verifiedCandidates == Listed(batch, (s: Summary) => s.verifiedCandidates)
            && all.ambiguousCandidates == Listed(batch, (s: Summary) => s.ambiguousCandidates)
            && all.resolution == UnverifiableStatus
  {
    if batch.Cons? {
      FoldAddsUp(batch.tail);
    }
  }
}
