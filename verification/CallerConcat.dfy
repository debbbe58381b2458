/**
 Verifying a list of candidates part by part (src/cbm/caller_verify.rs): how the summary of concatenated
 candidate lists follows from the summaries of the parts.
 */
module CallerConcat {
  import opened Prelude
  import opened OrderedUnion
  import opened CallerVerify

  lemma {:induction false} ObserveAppend<T>(f: Front<T>, cs: List<Candidate>, ds: List<Candidate>, name: string)
    ensures ObserveAll(f, Append(cs, ds), name) == Append(ObserveAll(f, cs, name), ObserveAll(f, ds, name))
  {
    if cs.Cons? {
      ObserveAppend(f, cs.tail, ds, name);
    }
  }

  /** The caller files named by evidence. */
  function EvidenceFiles(l: List<Evidence>): List<string> {
    if l.Nil? then Nil else Cons(l.head.cbmFile, EvidenceFiles(l.tail))
  }

  lemma {:induction false} EvidenceFilesAppend(a: List<Evidence>, b: List<Evidence>)
    ensures EvidenceFiles(Append(a, b)) == Append(EvidenceFiles(a), EvidenceFiles(b))
  {
    if a.Cons? {
      EvidenceFilesAppend(a.tail, b);
    }
  }

  lemma {:induction false} FilesAreInEvidence(t: Target, obs: List<Observation>)
    ensures FilesOf(t, obs) == EvidenceFiles(EvidenceOf(t, obs))
  {
    if obs.Cons? {
      FilesAreInEvidence(t, obs.tail);
    }
  }

  /** How many different files the two lists of evidence name together. */
  function FilesTogether(a: List<Evidence>, b: List<Evidence>): nat {
    Size(Union(Union(Nil, EvidenceFiles(a)), EvidenceFiles(b)))
  }

  lemma {:induction false} FilesOfParts(t: Target, a: List<Observation>, b: List<Observation>)
    ensures FileCount(FilesOf(t, Append(a, b))) == FilesTogether(EvidenceOf(t, a), EvidenceOf(t, b))
  {
    CountersOfConcat(t, a, b);
    FilesAreInEvidence(t, Append(a, b));
    EvidenceFilesAppend(EvidenceOf(t, a), EvidenceOf(t, b));
    UnionOfAppend(Nil, EvidenceFiles(EvidenceOf(t, a)), EvidenceFiles(EvidenceOf(t, b)));
  }

  /** All counters of call sites and files that did not parse are added. */
  ghost predicate CountersAdd(all: Summary, a: Summary, b: Summary) {
    && all.rawCandidates == a.rawCandidates + b.rawCandidates
    && all.verified == a.verified + b.verified
    && all.rejectedArity == a.rejectedArity + b.rejectedArity
    && all.ambiguous == a.ambiguous + b.ambiguous
    && all.unverifiable == a.unverifiable + b.unverifiable
  }

  /** The evidence is listed one part after the other, for the same target. */
  ghost predicate EvidenceAdds(all: Summary, a: Summary, b: Summary) {
    && all.verifiedCandidates == Append(a.verifiedCandidates, b.verifiedCandidates)
    && all.ambiguousCandidates == Append(a.ambiguousCandidates, b.ambiguousCandidates)
    && all.targetQualifiedName == a.targetQualifiedName == b.targetQualifiedName
    && all.targetExplicitArity == a.targetExplicitArity == b.targetExplicitArity
  }

  function AllEvidence(s: Summary): List<Evidence> {
    Append(s.verifiedCandidates, s.ambiguousCandidates)
  }

  /** The file counts are those of the united sets of files. */
  ghost predicate FilesUnite(all: Summary, a: Summary, b: Summary) {
    && all.verifiedCallerFiles == FilesTogether(a.verifiedCandidates, b.verifiedCandidates)
    && all.compatibleCallerFiles == FilesTogether(AllEvidence(a), AllEvidence(b))
  }

  /** A part that saw at least one call or one file that did not parse. */
  ghost predicate SawSomething(s: Summary) {
    s.rawCandidates + s.unverifiable > 0
  }

  ghost predicate ResolutionAggregates(all: Summary, a: Summary, b: Summary) {
    all.resolution == AggregateResolution(Cons(a.resolution, Cons(b.resolution, Nil)))
  }

  lemma {:induction false} SummariesAdd(name: string, t: Target, a: List<Observation>, b: List<Observation>)
    ensures CountersAdd(Summarize(name, t, Append(a, b)), Summarize(name, t, a), Summarize(name, t, b))
    ensures EvidenceAdds(Summarize(name, t, Append(a, b)), Summarize(name, t, a), Summarize(name, t, b))
  {
    CountersOfConcat(t, a, b);
  }

  lemma {:induction false} SummariesUnite(name: string, t: Target, a: List<Observation>, b: List<Observation>)
    ensures FilesUnite(Summarize(name, t, Append(a, b)), Summarize(name, t, a), Summarize(name, t, b))
  {
    FilesOfParts(t, a, b);
    AppendNil(EvidenceOf(t, a));
    AppendNil(EvidenceOf(t, b));
  }

  lemma {:induction false} SummariesAggregate(name: string, t: Target, a: List<Observation>, b: List<Observation>)
    ensures ResolutionAggregates(Summarize(name, t, Append(a, b)), Summarize(name, t, a), Summarize(name, t, b))
       <==> || (SawSomething(Summarize(name, t, a)) <==> SawSomething(Summarize(name, t, b)))
            || Summarize(name, t, a).unverifiable + Summarize(name, t, b).unverifiable > 0
  {
    ResolutionOfConcat(t, a, b);
    TotalsBalance(t, a);
    TotalsBalance(t, b);
  }

  /**
   Once a target is selected, verifying concatenated candidate lists adds the counters, appends the evidence
   and unites the file sets.
   */
  lemma {:induction false} VerifyConcatenated<T>(f: Front<T>, source: string, sel: Selector, cs: List<Candidate>,
          ds: List<Candidate>)
    requires Choose(f, source, sel).Single?
    ensures CountersAdd(Verify(f, source, sel, Append(cs, ds)), Verify(f, source, sel, cs), Verify(f, source, sel, ds))
    ensures EvidenceAdds(Verify(f, source, sel, Append(cs, ds)), Verify(f, source, sel, cs), Verify(f, source, sel, ds))
    ensures FilesUnite(Verify(f, source, sel, Append(cs, ds)), Verify(f, source, sel, cs), Verify(f, source, sel, ds))
  {
    var name, t := LastSegment(sel.qualifiedName), Choose(f, source, sel).target;
    ObserveAppend(f, cs, ds, name);
    SummariesAdd(sel.qualifiedName, t, ObserveAll(f, cs, name), ObserveAll(f, ds, name));
    SummariesUnite(sel.qualifiedName, t, ObserveAll(f, cs, name), ObserveAll(f, ds, name));
  }

  /**
   Its resolution is the aggregate of the two exactly when both parts saw something, or neither did, or some
   file did not parse.
   */
  lemma {:induction false} ResolveConcatenated<T>(f: Front<T>, source: string, sel: Selector, cs: List<Candidate>,
          ds: List<Candidate>)
    requires Choose(f, source, sel).Single?
    ensures ResolutionAggregates(Verify(f, source, sel, Append(cs, ds)), Verify(f, source, sel, cs),
              Verify(f, source, sel, ds))
       <==> || (SawSomething(Verify(f, source, sel, cs)) <==> SawSomething(Verify(f, source, sel, ds)))
            || Verify(f, source, sel, cs).unverifiable + Verify(f, source, sel, ds).unverifiable > 0
  {
    var name, t := LastSegment(sel.qualifiedName), Choose(f, source, sel).target;
    ObserveAppend(f, cs, ds, name);
    SummariesAggregate(sel.qualifiedName, t, ObserveAll(f, cs, name), ObserveAll(f, ds, name));
  }
}
