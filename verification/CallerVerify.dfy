/**
 Verification of proposed C# callers against declarations and call sites (src/cbm/caller_verify.rs).
 Parsing and the extraction of declarations and calls from a tree are parameters.
 */
module CallerVerify {
  import opened Prelude
  import opened CallerArity
  import opened OrderedUnion

  datatype Status = VerifiedCompatible | RejectedArityMismatch | AmbiguousStatus | UnverifiableStatus

  /** The source side: parsing, the parameter lists of a method's declarations, the arities of its calls. */
  datatype Front<!T> = Front(
    parse: string -> Option<T>,
    declarations: (T, string, string, Option<string>) -> List<ParameterList>,
    calls: (T, string, string) -> List<nat>)

  datatype Selector = Selector(qualifiedName: string, declaredArity: Option<nat>)
  datatype Candidate = Candidate(file: string, resolvedFile: string, text: string)
  datatype Evidence = Evidence(cbmFile: string, file: string, argumentCounts: List<nat>, status: Status)

  datatype Summary = Summary(
    targetQualifiedName: Option<string>, targetExplicitArity: Option<nat>,
    rawCandidates: nat, verified: nat, rejectedArity: nat, ambiguous: nat, unverifiable: nat,
    verifiedCallerFiles: nat, compatibleCallerFiles: nat, resolution: Status,
    verifiedCandidates: List<Evidence>, ambiguousCandidates: List<Evidence>)

  function Unverifiable(target: Option<string>): Summary {
    Summary(target, None, 0, 0, 0, 0, 1, 0, 0, UnverifiableStatus, Nil, Nil)
  }

  function Empty(): Summary {
    Summary(None, None, 0, 0, 0, 0, 0, 0, 0, UnverifiableStatus, Nil, Nil)
  }

  // ----- Argument counts as evidence: sorted, each once -----

  function InsertCount(n: nat, l: List<nat>): List<nat> {
    if l.Nil? || n < l.head then Cons(n, l)
    else if n == l.head then l
    else Cons(l.head, InsertCount(n, l.tail))
  }

  /** `sort_unstable` followed by `dedup`. */
  function SortedCounts(l: List<nat>): List<nat> {
    if l.Nil? then Nil else InsertCount(l.head, SortedCounts(l.tail))
  }

  ghost predicate Ascending(l: List<nat>) {
    l.Cons? && l.tail.Cons? ==> l.head < l.tail.head && Ascending(l.tail)
  }

  lemma {:induction false} InsertCountFacts(n: nat, l: List<nat>, x: nat)
    ensures Has(InsertCount(n, l), x) <==> x == n || Has(l, x)
    ensures Ascending(l) ==> Ascending(InsertCount(n, l))
  {
    if l.Cons? {
      InsertCountFacts(n, l.tail, x);
    }
  }

  /** The evidence lists exactly the observed counts, ascending and without repetition. */
  lemma {:induction false} SortedCountsFacts(l: List<nat>, x: nat)
    ensures Ascending(SortedCounts(l))
    ensures Has(SortedCounts(l), x) <==> Has(l, x)
  {
    if l.Cons? {
      SortedCountsFacts(l.tail, x);
      InsertCountFacts(l.head, SortedCounts(l.tail), x);
    }
  }

  lemma {:induction false} AboveHead(l: List<nat>, x: nat)
    requires Ascending(l) && l.Cons? && Has(l.tail, x)
    ensures l.head < x
  {
    if l.tail.head != x {
      AboveHead(l.tail, x);
    }
  }

  /** There is only one such list, so the evidence does not depend on the order of the call sites. */
  lemma {:induction false} AscendingIsUnique(a: List<nat>, b: List<nat>)
    requires Ascending(a) && Ascending(b) && forall x: nat :: Has(a, x) <==> Has(b, x)
    ensures a == b
  {
    if a.Cons? && b.Cons? {
      assert Has(a, a.head) && Has(b, b.head);
      if Has(b.tail, a.head) {
        AboveHead(b, a.head);
      }
      if Has(a.tail, b.head) {
        AboveHead(a, b.head);
      }
      forall x: nat ensures Has(a.tail, x) <==> Has(b.tail, x) {
        assert Has(a, x) <==> Has(b, x);
        if Has(a.tail, x) {
          AboveHead(a, x);
        }
        if Has(b.tail, x) {
          AboveHead(b, x);
        }
      }
      AscendingIsUnique(a.tail, b.tail);
    } else if a.Cons? {
      assert Has(a, a.head);
    } else if b.Cons? {
      assert Has(b, b.head);
    }
  }

  // ----- What a run over the candidates records -----

  /**
   The shape calls are checked against, and whether an accepted call can name it uniquely. Whether an
   accepted call counts as verified or as ambiguous is therefore the same for the whole run.
   */
  datatype Target = Target(arity: ArityShape, unique: bool)

  function AcceptedStatus(t: Target): Status {
    if t.unique then VerifiedCompatible else AmbiguousStatus
  }

  /** The accepted ones among the observed counts, in order. */
  function Accepted(t: Target, calls: List<nat>): List<nat> {
    if calls.Nil? then Nil
    else if Accepts(t.arity, calls.head) then Cons(calls.head, Accepted(t, calls.tail))
    else Accepted(t, calls.tail)
  }

  function RejectedCount(t: Target, calls: List<nat>): nat {
    if calls.Nil? then 0 else (if Accepts(t.arity, calls.head) then 0 else 1) + RejectedCount(t, calls.tail)
  }

  lemma {:induction false} AcceptedOrRejected(t: Target, calls: List<nat>)
    ensures Size(Accepted(t, calls)) + RejectedCount(t, calls) == Size(calls)
  {
    if calls.Cons? {
      AcceptedOrRejected(t, calls.tail);
    }
  }

  /** A candidate and what its source yields: the arities of its calls, or nothing if it does not parse. */
  datatype Observation = Observation(candidate: Candidate, calls: Option<List<nat>>)

  function Observe<T>(f: Front<T>, c: Candidate, name: string): Observation {
    var tree := f.parse(c.text);
    Observation(c, if tree.None? then None else Some(f.calls(tree.value, c.text, name)))
  }

  function ObserveAll<T>(f: Front<T>, cs: List<Candidate>, name: string): List<Observation> {
    if cs.Nil? then Nil else Cons(Observe(f, cs.head, name), ObserveAll(f, cs.tail, name))
  }

  function CallsOf(o: Observation): List<nat> {
    if o.calls.None? then Nil else o.calls.value
  }

  /** Every call of every parsable candidate. */
  function RawTotal(obs: List<Observation>): nat {
    if obs.Nil? then 0 else Size(CallsOf(obs.head)) + RawTotal(obs.tail)
  }

  function AcceptedTotal(t: Target, obs: List<Observation>): nat {
    if obs.Nil? then 0 else Size(Accepted(t, CallsOf(obs.head))) + AcceptedTotal(t, obs.tail)
  }

  function RejectedTotal(t: Target, obs: List<Observation>): nat {
    if obs.Nil? then 0 else RejectedCount(t, CallsOf(obs.head)) + RejectedTotal(t, obs.tail)
  }

  function UnparsableTotal(obs: List<Observation>): nat {
    if obs.Nil? then 0 else (if obs.head.calls.None? then 1 else 0) + UnparsableTotal(obs.tail)
  }

  /** The caller files of accepted calls; a file may be listed more than once. */
  function FilesOf(t: Target, obs: List<Observation>): List<string> {
    if obs.Nil? then Nil
    else if Accepted(t, CallsOf(obs.head)).Nil? then FilesOf(t, obs.tail)
    else Cons(obs.head.candidate.file, FilesOf(t, obs.tail))
  }

  function EvidenceFor(t: Target, c: Candidate, accepted: List<nat>): Evidence {
    Evidence(c.file, c.resolvedFile, SortedCounts(accepted), AcceptedStatus(t))
  }

  /** The evidence of every candidate with an accepted call, in order. */
  function EvidenceOf(t: Target, obs: List<Observation>): List<Evidence> {
    if obs.Nil? then Nil
    else
      var accepted := Accepted(t, CallsOf(obs.head));
      if accepted.Nil? then EvidenceOf(t, obs.tail)
      else Cons(EvidenceFor(t, obs.head.candidate, accepted), EvidenceOf(t, obs.tail))
  }

  /** How many different files a list names: the size of the set the code collects. */
  function FileCount(files: List<string>): nat {
    Size(Union(Nil, files))
  }

  /** Verifying concatenated candidate lists adds the counters and lists the evidence in order. */
  lemma {:induction false} CountersOfConcat(t: Target, a: List<Observation>, b: List<Observation>)
    ensures RawTotal(Append(a, b)) == RawTotal(a) + RawTotal(b)
    ensures AcceptedTotal(t, Append(a, b)) == AcceptedTotal(t, a) + AcceptedTotal(t, b)
    ensures RejectedTotal(t, Append(a, b)) == RejectedTotal(t, a) + RejectedTotal(t, b)
    ensures UnparsableTotal(Append(a, b)) == UnparsableTotal(a) + UnparsableTotal(b)
    ensures EvidenceOf(t, Append(a, b)) == Append(EvidenceOf(t, a), EvidenceOf(t, b))
  {
    if a.Cons? {
      CountersOfConcat(t, a.tail, b);
    }
  }

  /** ... and unites the file sets. */
  lemma {:induction false} FilesOfConcat(t: Target, a: List<Observation>, b: List<Observation>, x: string)
    ensures Distinct(Union(Nil, FilesOf(t, Append(a, b))))
    ensures Has(Union(Nil, FilesOf(t, Append(a, b))), x)
       <==> Has(Union(Nil, FilesOf(t, a)), x) || Has(Union(Nil, FilesOf(t, b)), x)
  {
    UnionKeepsDistinct(Nil, FilesOf(t, Append(a, b)));
    UnionMembers(Nil, FilesOf(t, Append(a, b)), x);
    UnionMembers(Nil, FilesOf(t, a), x);
    UnionMembers(Nil, FilesOf(t, b), x);
    FilesAppend(t, a, b, x);
  }

  lemma {:induction false} FilesAppend(t: Target, a: List<Observation>, b: List<Observation>, x: string)
    ensures Has(FilesOf(t, Append(a, b)), x) <==> Has(FilesOf(t, a), x) || Has(FilesOf(t, b), x)
  {
    if a.Cons? {
      FilesAppend(t, a.tail, b, x);
    }
  }

  // ----- The verdict of a run, and of a batch -----

  function VerifiedTotal(t: Target, obs: List<Observation>): nat {
    if t.unique then AcceptedTotal(t, obs) else 0
  }

  function AmbiguousTotal(t: Target, obs: List<Observation>): nat {
    if t.unique then 0 else AcceptedTotal(t, obs)
  }

  function Resolve(unverifiable: nat, ambiguous: nat, verified: nat, rejected: nat): Status {
    if unverifiable > 0 then UnverifiableStatus
    else if ambiguous > 0 then AmbiguousStatus
    else if verified > 0 then VerifiedCompatible
    else if rejected > 0 then RejectedArityMismatch
    else UnverifiableStatus
  }

  function Resolution(t: Target, obs: List<Observation>): Status {
    Resolve(UnparsableTotal(obs), AmbiguousTotal(t, obs), VerifiedTotal(t, obs), RejectedTotal(t, obs))
  }

  function AggregateResolution(statuses: List<Status>): Status {
    if Has(statuses, UnverifiableStatus) || statuses.Nil? then UnverifiableStatus
    else if Has(statuses, AmbiguousStatus) then AmbiguousStatus
    else if Has(statuses, VerifiedCompatible) then VerifiedCompatible
    else if Has(statuses, RejectedArityMismatch) then RejectedArityMismatch
    else UnverifiableStatus
  }

  function Rank(s: Status): nat {
    match s
    case RejectedArityMismatch => 0
    case VerifiedCompatible => 1
    case AmbiguousStatus => 2
    case UnverifiableStatus => 3
  }

  /** The aggregate of a non-empty batch is its member of highest rank: unverifiable, ambiguous, verified, rejected. */
  lemma {:induction false} AggregateIsHighest(statuses: List<Status>, s: Status)
    ensures statuses.Nil? ==> AggregateResolution(statuses) == UnverifiableStatus
    ensures statuses.Cons? ==> Has(statuses, AggregateResolution(statuses))
    ensures Has(statuses, s) ==> Rank(s) <= Rank(AggregateResolution(statuses))
  {
    if statuses.Cons? {
      AggregateIsHighest(statuses.tail, s);
      if statuses.tail.Cons? {
        AggregateIsHighest(statuses.tail, statuses.head);
      }
    }
  }

  ghost predicate AllAre(statuses: List<Status>, s: Status) {
    statuses.Cons? ==> statuses.head == s && AllAre(statuses.tail, s)
  }

  lemma {:induction false} AllAreMeans(statuses: List<Status>, s: Status, x: Status)
    ensures AllAre(statuses, s) && Has(statuses, x) ==> x == s
    ensures (forall y :: Has(statuses, y) ==> y == s) ==> AllAre(statuses, s)
  {
    if statuses.Cons? {
      AllAreMeans(statuses.tail, s, x);
      if forall y :: Has(statuses, y) ==> y == s {
        assert Has(statuses, statuses.head);
        forall y | Has(statuses.tail, y) ensures y == s {
          assert Has(statuses, y);
        }
      }
    }
  }

  /**
   The documentation has a batch verified only when every target is. That holds exactly when the batch
   does not mix verified and rejected targets with nothing worse among them.
   */
  lemma {:induction false} VerifiedBatch(statuses: List<Status>)
    ensures (AggregateResolution(statuses) == VerifiedCompatible ==> AllAre(statuses, VerifiedCompatible))
       <==> !(&& Has(statuses, VerifiedCompatible) && Has(statuses, RejectedArityMismatch)
              && !Has(statuses, AmbiguousStatus) && !Has(statuses, UnverifiableStatus))
  {
    AllAreMeans(statuses, VerifiedCompatible, RejectedArityMismatch);
    if AggregateResolution(statuses) == VerifiedCompatible && !Has(statuses, RejectedArityMismatch) {
      forall y | Has(statuses, y) ensures y == VerifiedCompatible {
        match y
        case VerifiedCompatible =>
        case RejectedArityMismatch =>
        case AmbiguousStatus =>
        case UnverifiableStatus =>
      }
    }
  }

  /** The smallest such batch: one verified and one rejected target count as verified. */
  lemma {:induction false} MixedBatchIsVerified()
    ensures AggregateResolution(Cons(VerifiedCompatible, Cons(RejectedArityMismatch, Nil))) == VerifiedCompatible
  {
    AggregateOfTwo(VerifiedCompatible, RejectedArityMismatch);
  }

  /**
   The documentation also has a batch with nothing verified stay unverifiable. That holds exactly when something
   is verified, or the batch is empty or has an unverifiable member; one rejected target is reported as rejected.
   */
  lemma {:induction false} NothingVerifiedBatch(statuses: List<Status>)
    ensures (!Has(statuses, VerifiedCompatible) ==> AggregateResolution(statuses) == UnverifiableStatus)
       <==> statuses.Nil? || Has(statuses, VerifiedCompatible) || Has(statuses, UnverifiableStatus)
    ensures AggregateResolution(Cons(RejectedArityMismatch, Nil)) == RejectedArityMismatch
  {
    AggregateIsHighest(statuses, UnverifiableStatus);
    AggregateIsHighest(Cons(RejectedArityMismatch, Nil), RejectedArityMismatch);
  }

  /** A run that recorded at least one call or one unparsable file. */
  ghost predicate Recorded(t: Target, obs: List<Observation>) {
    AcceptedTotal(t, obs) + RejectedTotal(t, obs) + UnparsableTotal(obs) > 0
  }

  function Higher(x: Status, y: Status): Status {
    if Rank(x) < Rank(y) then y else x
  }

  lemma {:induction false} AggregateOfTwo(x: Status, y: Status)
    ensures AggregateResolution(Cons(x, Cons(y, Nil))) == Higher(x, y)
  {
    assert forall s :: Has(Cons(x, Cons(y, Nil)), s) <==> s == x || s == y;
  }

  lemma {:induction false} ResolveOfSums(u: nat, a: nat, v: nat, r: nat, u': nat, a': nat, v': nat, r': nat)
    ensures Resolve(u + u', a + a', v + v', r + r') == Higher(Resolve(u, a, v, r), Resolve(u', a', v', r'))
       <==> (u + a + v + r > 0 <==> u' + a' + v' + r' > 0) || u + u' > 0
  {
  }

  /**
   The verdict of two candidate lists together is the aggregate of their verdicts exactly when both
   recorded something, or neither did, or an unparsable file decides it anyway.
   */
  lemma {:induction false} ResolutionOfConcat(t: Target, a: List<Observation>, b: List<Observation>)
    ensures Resolution(t, Append(a, b)) == AggregateResolution(Cons(Resolution(t, a), Cons(Resolution(t, b), Nil)))
       <==> || (Recorded(t, a) <==> Recorded(t, b))
            || UnparsableTotal(a) + UnparsableTotal(b) > 0
  {
    CountersOfConcat(t, a, b);
    AggregateOfTwo(Resolution(t, a), Resolution(t, b));
    ResolveOfSums(UnparsableTotal(a), AmbiguousTotal(t, a), VerifiedTotal(t, a), RejectedTotal(t, a),
                  UnparsableTotal(b), AmbiguousTotal(t, b), VerifiedTotal(t, b), RejectedTotal(t, b));
  }

  // ----- A whole verification -----

  function LastSegment(q: string): string {
    if q == "" || q[|q| - 1] == '.' then "" else LastSegment(q[..|q| - 1]) + [q[|q| - 1]]
  }

  lemma {:induction false} LastSegmentFits(q: string)
    ensures |LastSegment(q)| <= |q|
    ensures |LastSegment(q)| == |q| || q[|q| - |LastSegment(q)| - 1] == '.'
  {
    if q != "" && q[|q| - 1] != '.' {
      LastSegmentFits(q[..|q| - 1]);
    }
  }

  /** The segment before the last one, if the name is qualified. */
  function TypeSegment(q: string): Option<string> {
    LastSegmentFits(q);
    var n := |LastSegment(q)|;
    if n == |q| then None else Some(LastSegment(q[..|q| - n - 1]))
  }

  function Shapes(l: List<ParameterList>): List<ArityShape> {
    if l.Nil? then Nil else Cons(DeclarationArity(l.head), Shapes(l.tail))
  }

  function Selected(l: List<ArityShape>, arity: Option<nat>): List<ArityShape> {
    if l.Nil? then Nil
    else if arity.None? || l.head.declared == arity.value then Cons(l.head, Selected(l.tail, arity))
    else Selected(l.tail, arity)
  }

  function Overlapping(t: ArityShape, l: List<ArityShape>): nat {
    if l.Nil? then 0 else (if Overlap(t, l.head) then 1 else 0) + Overlapping(t, l.tail)
  }

  function SelectTarget(selected: List<ArityShape>, declarations: List<ArityShape>): Target
    requires selected.Cons?
  {
    var arity := selected.head;
    Target(arity, !(arity.flexible || Size(selected) > 1 || Overlapping(arity, declarations) > 1))
  }

  function Summarize(name: string, t: Target, obs: List<Observation>): Summary {
    var files, evidence := FileCount(FilesOf(t, obs)), EvidenceOf(t, obs);
    Summary(Some(name), ExactExplicit(t.arity),
            RawTotal(obs), VerifiedTotal(t, obs), RejectedTotal(t, obs), AmbiguousTotal(t, obs), UnparsableTotal(obs),
            if t.unique then files else 0, files, Resolution(t, obs),
            if t.unique then evidence else Nil, if t.unique then Nil else evidence)
  }

  /** Several declarations and no arity to choose by: every call is ambiguous, whatever its count. */
  const ANY_ARITY := Target(ArityShape(0, 0, None, true), false)

  function SummarizeAmbiguous(name: string, obs: List<Observation>): Summary {
    var ambiguous := AcceptedTotal(ANY_ARITY, obs);
    Summary(Some(name), None, ambiguous, 0, 0, ambiguous, UnparsableTotal(obs), 0, FileCount(FilesOf(ANY_ARITY, obs)),
            if UnparsableTotal(obs) > 0 then UnverifiableStatus else AmbiguousStatus, Nil, EvidenceOf(ANY_ARITY, obs))
  }

  /** What the target's source leads to. */
  datatype Plan = NoTarget | Several | Single(target: Target)

  /** The same-named declarations in a parsed target source. */
  function Declared<T>(f: Front<T>, tree: T, source: string, sel: Selector): List<ParameterList> {
    f.declarations(tree, source, LastSegment(sel.qualifiedName), TypeSegment(sel.qualifiedName))
  }

  function PlanFor(sel: Selector, declarations: List<ArityShape>): Plan {
    var selected := Selected(declarations, sel.declaredArity);
    if selected.Nil? then NoTarget
    else if sel.declaredArity.None? && Size(selected) > 1 then Several
    else Single(SelectTarget(selected, declarations))
  }

  function Choose<T>(f: Front<T>, source: string, sel: Selector): Plan {
    var tree := f.parse(source);
    if tree.None? then NoTarget else PlanFor(sel, Shapes(Declared(f, tree.value, source, sel)))
  }

  function SummaryFor(plan: Plan, qualifiedName: string, obs: List<Observation>): Summary {
    match plan
    case NoTarget => Unverifiable(Some(qualifiedName))
    case Several => SummarizeAmbiguous(qualifiedName, obs)
    case Single(target) => Summarize(qualifiedName, target, obs)
  }

  function Verify<T>(f: Front<T>, source: string, sel: Selector, cs: List<Candidate>): Summary {
    SummaryFor(Choose(f, source, sel), sel.qualifiedName, ObserveAll(f, cs, LastSegment(sel.qualifiedName)))
  }

  // ----- The counters balance at every exit, and through every fold -----

  ghost predicate Balanced(s: Summary) {
    s.rawCandidates == s.verified + s.rejectedArity + s.ambiguous
  }

  lemma {:induction false} TotalsBalance(t: Target, obs: List<Observation>)
    ensures RawTotal(obs) == AcceptedTotal(t, obs) + RejectedTotal(t, obs)
  {
    if obs.Cons? {
      TotalsBalance(t, obs.tail);
      AcceptedOrRejected(t, CallsOf(obs.head));
    }
  }

  lemma {:induction false} SummaryBalances(plan: Plan, qualifiedName: string, obs: List<Observation>)
    ensures Balanced(SummaryFor(plan, qualifiedName, obs))
  {
    if plan.Single? {
      TotalsBalance(plan.target, obs);
    }
  }

  lemma {:induction false} VerifyBalances<T>(f: Front<T>, source: string, sel: Selector, cs: List<Candidate>)
    ensures Balanced(Verify(f, source, sel, cs))
  {
    SummaryBalances(Choose(f, source, sel), sel.qualifiedName, ObserveAll(f, cs, LastSegment(sel.qualifiedName)));
  }

  function FoldIdentity<A(==)>(current: Option<A>, other: Option<A>): Option<A> {
    if current.None? then other else if other == current then current else None
  }

  function Fold(s: Summary, other: Summary): Summary {
    s.(targetQualifiedName := FoldIdentity(s.targetQualifiedName, other.targetQualifiedName),
       targetExplicitArity := FoldIdentity(s.targetExplicitArity, other.targetExplicitArity),
       rawCandidates := s.rawCandidates + other.rawCandidates,
       verified := s.verified + other.verified,
       rejectedArity := s.rejectedArity + other.rejectedArity,
       ambiguous := s.ambiguous + other.ambiguous,
       unverifiable := s.unverifiable + other.unverifiable,
       verifiedCallerFiles := s.verifiedCallerFiles + other.verifiedCallerFiles,
       compatibleCallerFiles := s.compatibleCallerFiles + other.compatibleCallerFiles,
       verifiedCandidates := Append(s.verifiedCandidates, other.verifiedCandidates),
       ambiguousCandidates := Append(s.ambiguousCandidates, other.ambiguousCandidates))
  }

  /** A batch folded from the empty summary; the latest target is the head. */
  function FoldAll(batch: List<Summary>): Summary {
    if batch.Nil? then Empty() else Fold(FoldAll(batch.tail), batch.head)
  }

  ghost predicate EachBalanced(batch: List<Summary>) {
    batch.Cons? ==> Balanced(batch.head) && EachBalanced(batch.tail)
  }

  lemma {:induction false} FoldingBalances(batch: List<Summary>)
    requires EachBalanced(batch)
    ensures Balanced(FoldAll(batch))
  {
    if batch.Cons? {
      FoldingBalances(batch.tail);
    }
  }

  // ----- What a verified call proves -----

  function Accepting(n: nat, l: List<ArityShape>): nat {
    if l.Nil? then 0 else (if Accepts(l.head, n) then 1 else 0) + Accepting(n, l.tail)
  }

  lemma {:induction false} AcceptingOverlap(t: ArityShape, n: nat, l: List<ArityShape>)
    requires Accepts(t, n)
    ensures Accepting(n, l) <= Overlapping(t, l)
  {
    if l.Cons? {
      OverlapIffCommonCount(t, l.head);
      AcceptingOverlap(t, n, l.tail);
    }
  }

  lemma {:induction false} SelectedIsListed(l: List<ArityShape>, arity: Option<nat>, n: nat)
    requires Selected(l, arity).Cons? && Accepts(Selected(l, arity).head, n)
    ensures Accepting(n, l) >= 1
  {
    if arity.Some? && l.head.declared != arity.value {
      SelectedIsListed(l.tail, arity, n);
    }
  }

  lemma {:induction false} SelectedIsDerived(l: List<ParameterList>, arity: Option<nat>) returns (p: ParameterList)
    requires Selected(Shapes(l), arity).Cons?
    ensures Selected(Shapes(l), arity).head == DeclarationArity(p)
  {
    if arity.None? || DeclarationArity(l.head).declared == arity.value {
      p := l.head;
    } else {
      p := SelectedIsDerived(l.tail, arity);
    }
  }

  ghost predicate EachCounts(l: List<Evidence>, n: nat, s: Status) {
    l.Cons? ==> l.head.argumentCounts == Cons(n, Nil) && l.head.status == s && EachCounts(l.tail, n, s)
  }

  lemma {:induction false} SingleCount(t: Target, calls: List<nat>, n: nat)
    requires forall x: nat :: Accepts(t.arity, x) ==> x == n
    ensures Accepted(t, calls).Cons? ==> SortedCounts(Accepted(t, calls)) == Cons(n, Nil)
  {
    if calls.Cons? {
      SingleCount(t, calls.tail, n);
    }
  }

  lemma {:induction false} EvidenceCounts(t: Target, obs: List<Observation>, n: nat)
    requires forall x: nat :: Accepts(t.arity, x) ==> x == n
    ensures EachCounts(EvidenceOf(t, obs), n, AcceptedStatus(t))
  {
    if obs.Cons? {
      EvidenceCounts(t, obs.tail, n);
      SingleCount(t, CallsOf(obs.head), n);
    }
  }

  /**
   If anything was counted as verified, the target has one exact explicit arity, it is the one reported,
   all evidence consists of that single number, and exactly one same-named declaration accepts it.
   */
  lemma {:induction false} VerifiedMeansUniqueOverload<T>(f: Front<T>, source: string, sel: Selector,
          cs: List<Candidate>) returns (n: nat)
    requires Verify(f, source, sel, cs).verified > 0
    ensures Verify(f, source, sel, cs).targetExplicitArity == Some(n)
    ensures EachCounts(Verify(f, source, sel, cs).verifiedCandidates, n, VerifiedCompatible)
    ensures f.parse(source).Some?
    ensures Accepting(n, Shapes(Declared(f, f.parse(source).value, source, sel))) == 1
  {
    var plan, obs := Choose(f, source, sel), ObserveAll(f, cs, LastSegment(sel.qualifiedName));
    n := UniqueTarget(sel, Declared(f, f.parse(source).value, source, sel));
    EvidenceCounts(plan.target, obs, n);
  }

  /** A target that can be named uniquely accepts one count, which no other declaration accepts. */
  lemma {:induction false} UniqueTarget(sel: Selector, lists: List<ParameterList>) returns (n: nat)
    requires PlanFor(sel, Shapes(lists)).Single? && PlanFor(sel, Shapes(lists)).target.unique
    ensures ExactExplicit(PlanFor(sel, Shapes(lists)).target.arity) == Some(n)
    ensures forall x: nat :: Accepts(PlanFor(sel, Shapes(lists)).target.arity, x) <==> x == n
    ensures Accepting(n, Shapes(lists)) == 1
  {
    var declarations := Shapes(lists);
    var arity := Selected(declarations, sel.declaredArity).head;
    var p := SelectedIsDerived(lists, sel.declaredArity);
    InflexibleIsExact(p, 0);
    n := ExactExplicit(arity).value;
    forall x: nat ensures Accepts(arity, x) <==> x == n {
      InflexibleIsExact(p, x);
    }
    AcceptingOverlap(arity, n, declarations);
    SelectedIsListed(declarations, sel.declaredArity, n);
  }

  /** The verdict for a selected target is that of the weakest evidence counted. */
  ghost predicate VerdictFits(s: Summary) {
    && (s.resolution == AmbiguousStatus <==> s.unverifiable == 0 && s.ambiguous > 0)
    && (s.resolution == VerifiedCompatible <==> s.unverifiable == 0 && s.ambiguous == 0 && s.verified > 0)
    && (s.resolution == RejectedArityMismatch
        <==> s.unverifiable == 0 && s.ambiguous == 0 && s.verified == 0 && s.rejectedArity > 0)
  }

  // ----- The loops, with the parse memo -----

  ghost predicate OneTextPerKey(cs: List<Candidate>, texts: string -> string) {
    cs.Cons? ==> cs.head.text == texts(cs.head.resolvedFile) && OneTextPerKey(cs.tail, texts)
  }

  /** The inner loop: each call is rejected, or verified, or compatible with a target that cannot be named uniquely. */
  method Classify(t: Target, calls: List<nat>) returns (accepted: List<nat>, ambiguous: List<nat>, rejected: nat)
    ensures accepted == if t.unique then Accepted(t, calls) else Nil
    ensures ambiguous == if t.unique then Nil else Accepted(t, calls)
    ensures rejected == RejectedCount(t, calls)
  {
    accepted, ambiguous, rejected := Nil, Nil, 0;
    var rest := calls;
    while rest.Cons?
      invariant t.unique ==> ambiguous == Nil && Append(accepted, Accepted(t, rest)) == Accepted(t, calls)
      invariant !t.unique ==> accepted == Nil && Append(ambiguous, Accepted(t, rest)) == Accepted(t, calls)
      invariant rejected + RejectedCount(t, rest) == RejectedCount(t, calls)
      decreases rest
    {
      var observed := rest.head;
      if !Accepts(t.arity, observed) {
        rejected := rejected + 1;
      } else if !t.unique {
        PushAppend(ambiguous, observed, Accepted(t, rest.tail));
        ambiguous := Push(ambiguous, observed);
      } else {
        PushAppend(accepted, observed, Accepted(t, rest.tail));
        accepted := Push(accepted, observed);
      }
      rest := rest.tail;
    }
    AppendNil(accepted);
    AppendNil(ambiguous);
  }

  /** What one candidate adds to the compatible files and to the evidence. */
  method Retain(t: Target, c: Candidate, counts: List<nat>, files: List<string>, evidence: List<Evidence>,
                ghost laterFiles: List<string>, ghost laterEvidence: List<Evidence>)
    returns (files': List<string>, evidence': List<Evidence>)
    ensures Append(files', laterFiles) == Append(files, if counts.Cons? then Cons(c.file, laterFiles) else laterFiles)
    ensures Append(evidence', laterEvidence)
         == Append(evidence, if counts.Cons? then Cons(EvidenceFor(t, c, counts), laterEvidence) else laterEvidence)
  {
    files', evidence' := files, evidence;
    if counts.Cons? {
      PushAppend(files, c.file, laterFiles);
      PushAppend(evidence, EvidenceFor(t, c, counts), laterEvidence);
      files', evidence' := Push(files, c.file), Push(evidence, EvidenceFor(t, c, counts));
    }
  }

  /** The calls of one candidate, parsed through the memo. */
  method ObserveOne<T>(f: Front<T>, c: Candidate, name: string, memo: ParseMemo<T>, ghost texts: string -> string)
    returns (o: Observation)
    requires memo.Consistent(f.parse, texts) && c.text == texts(c.resolvedFile)
    modifies memo
    ensures memo.Consistent(f.parse, texts)
    ensures o == Observe(f, c, name)
  {
    var tree := memo.Tree(c.resolvedFile, c.text, f.parse);
    o := Observation(c, if tree.None? then None else Some(f.calls(tree.value, c.text, name)));
  }

  /**
   The loop over the candidates for a selected target: parse, classify, count, and retain files and
   evidence.
   */
  method SummarizeLoop<T>(f: Front<T>, qualifiedName: string, t: Target, cs: List<Candidate>, name: string,
                          memo: ParseMemo<T>, ghost texts: string -> string)
    returns (s: Summary)
    requires memo.Consistent(f.parse, texts) && OneTextPerKey(cs, texts)
    modifies memo
    ensures memo.Consistent(f.parse, texts)
    ensures s == Summarize(qualifiedName, t, ObserveAll(f, cs, name))
    ensures VerdictFits(s)
  {
    ghost var all := ObserveAll(f, cs, name);
    var raw, verified, ambiguous, rejected, unverifiable := 0, 0, 0, 0, 0;
    var files: List<string>, evidence: List<Evidence> := Nil, Nil;
    var rest := cs;
    while rest.Cons?
      invariant memo.Consistent(f.parse, texts) && OneTextPerKey(rest, texts)
      invariant raw + RawTotal(ObserveAll(f, rest, name)) == RawTotal(all)
      invariant verified + VerifiedTotal(t, ObserveAll(f, rest, name)) == VerifiedTotal(t, all)
      invariant ambiguous + AmbiguousTotal(t, ObserveAll(f, rest, name)) == AmbiguousTotal(t, all)
      invariant rejected + RejectedTotal(t, ObserveAll(f, rest, name)) == RejectedTotal(t, all)
      invariant unverifiable + UnparsableTotal(ObserveAll(f, rest, name)) == UnparsableTotal(all)
      invariant Append(files, FilesOf(t, ObserveAll(f, rest, name))) == FilesOf(t, all)
      invariant Append(evidence, EvidenceOf(t, ObserveAll(f, rest, name))) == EvidenceOf(t, all)
      decreases rest
    {
      var o := ObserveOne(f, rest.head, name, memo, texts);
      ghost var later := ObserveAll(f, rest.tail, name);
      if o.calls.None? {
        unverifiable := unverifiable + 1;
      } else {
        var accepted, compatible, bad := Classify(t, o.calls.value);
        raw, rejected := raw + Size(o.calls.value), rejected + bad;
        verified, ambiguous := verified + Size(accepted), ambiguous + Size(compatible);
        files, evidence := Retain(t, rest.head, if t.unique then accepted else compatible, files, evidence,
                                  FilesOf(t, later), EvidenceOf(t, later));
      }
      rest := rest.tail;
    }
    AppendNil(files);
    AppendNil(evidence);
    var count := FileCount(files);
    s := Summary(Some(qualifiedName), ExactExplicit(t.arity), raw, verified, rejected, ambiguous, unverifiable,
                 if t.unique then count else 0, count, Resolve(unverifiable, ambiguous, verified, rejected),
                 if t.unique then evidence else Nil, if t.unique then Nil else evidence);
  }

  /** The loop over the candidates when several declarations are left: every call is ambiguous. */
  method SummarizeAmbiguousLoop<T>(f: Front<T>, qualifiedName: string, cs: List<Candidate>, name: string,
                                   memo: ParseMemo<T>, ghost texts: string -> string)
    returns (s: Summary)
    requires memo.Consistent(f.parse, texts) && OneTextPerKey(cs, texts)
    modifies memo
    ensures memo.Consistent(f.parse, texts)
    ensures s == SummarizeAmbiguous(qualifiedName, ObserveAll(f, cs, name))
  {
    ghost var all := ObserveAll(f, cs, name);
    var ambiguous, unverifiable := 0, 0;
    var files: List<string>, evidence: List<Evidence> := Nil, Nil;
    var rest := cs;
    while rest.Cons?
      invariant memo.Consistent(f.parse, texts) && OneTextPerKey(rest, texts)
      invariant ambiguous + AcceptedTotal(ANY_ARITY, ObserveAll(f, rest, name)) == AcceptedTotal(ANY_ARITY, all)
      invariant unverifiable + UnparsableTotal(ObserveAll(f, rest, name)) == UnparsableTotal(all)
      invariant Append(files, FilesOf(ANY_ARITY, ObserveAll(f, rest, name))) == FilesOf(ANY_ARITY, all)
      invariant Append(evidence, EvidenceOf(ANY_ARITY, ObserveAll(f, rest, name))) == EvidenceOf(ANY_ARITY, all)
      decreases rest
    {
      var o := ObserveOne(f, rest.head, name, memo, texts);
      ghost var later := ObserveAll(f, rest.tail, name);
      if o.calls.None? {
        unverifiable := unverifiable + 1;
      } else {
        var calls := o.calls.value;
        AnyArityAccepts(calls);
        ambiguous := ambiguous + Size(calls);
        files, evidence := Retain(ANY_ARITY, rest.head, calls, files, evidence,
                                  FilesOf(ANY_ARITY, later), EvidenceOf(ANY_ARITY, later));
      }
      rest := rest.tail;
    }
    AppendNil(files);
    AppendNil(evidence);
    s := Summary(Some(qualifiedName), None, ambiguous, 0, 0, ambiguous, unverifiable, 0, FileCount(files),
                 if unverifiable > 0 then UnverifiableStatus else AmbiguousStatus, Nil, evidence);
  }

  lemma {:induction false} AnyArityAccepts(calls: List<nat>)
    ensures Accepted(ANY_ARITY, calls) == calls
  {
    if calls.Cons? {
      AnyArityAccepts(calls.tail);
    }
  }

  /**
   The whole verification. Any memo that is consistent with one text per key leads to the summary that
   parsing every source afresh would give, and stays consistent.
   */
  method VerifyCsharpCallers<T>(f: Front<T>, source: string, key: string, sel: Selector, cs: List<Candidate>,
                                memo: ParseMemo<T>, ghost texts: string -> string)
    returns (s: Summary)
    requires memo.Consistent(f.parse, texts) && source == texts(key) && OneTextPerKey(cs, texts)
    modifies memo
    ensures memo.Consistent(f.parse, texts)
    ensures s == Verify(f, source, sel, cs)
    ensures Choose(f, source, sel).Single? ==> VerdictFits(s)
  {
    var name := LastSegment(sel.qualifiedName);
    var tree := memo.Tree(key, source, f.parse);
    if tree.None? {
      return Unverifiable(Some(sel.qualifiedName));
    }
    var plan := PlanFor(sel, Shapes(Declared(f, tree.value, source, sel)));
    if plan.NoTarget? {
      return Unverifiable(Some(sel.qualifiedName));
    }
    if plan.Several? {
      s := SummarizeAmbiguousLoop(f, sel.qualifiedName, cs, name, memo, texts);
    } else {
      s := SummarizeLoop(f, sel.qualifiedName, plan.target, cs, name, memo, texts);
    }
  }
}
