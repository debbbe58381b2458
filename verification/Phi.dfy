/**
 Expansion of the registered marker vocabularies (src/angular_meta/phi.rs): a chain of whole-line
 replacements, proved equal to one simultaneous left-to-right pass over the line.
 */
module Phi {
  import opened Prelude

  const PHI: char := '\U{03A6}'

  datatype Rule = Rule(prefix: Text, expansion: Text)

  /** The text a marker is replaced by: its expansion and one space. */
  function Replacement(r: Rule): Text {
    Append(r.expansion, Cons(' ', Nil))
  }

  function Drop(s: Text, p: Text): (r: Text)
    requires StartsWith(s, p)
    ensures Size(s) == Size(p) + Size(r)
  {
    if p.Nil? then s else Drop(s.tail, p.tail)
  }

  /** `str::replace` for a non-empty pattern: matches are taken left to right and never overlap. */
  function Replace(s: Text, p: Text, repl: Text): Text
    requires p.Cons?
    decreases Size(s)
  {
    if s.Nil? then Nil
    else if StartsWith(s, p) then Append(repl, Replace(Drop(s, p), p, repl))
    else Cons(s.head, Replace(s.tail, p, repl))
  }

  lemma {:induction false} ReplaceAbsent(s: Text, p: Text, repl: Text)
    requires p.Cons? && !Contains(s, p)
    ensures Replace(s, p, repl) == s
  {
    if s.Cons? {
      ReplaceAbsent(s.tail, p, repl);
    }
  }

  // ----- The shape of a marker vocabulary -----

  /** Characters other than the marker sign, the colon and the space, then the colon that ends the marker. */
  predicate Body(q: Text) {
    q.Cons? && if q.head == ':' then q.tail.Nil? else q.head != PHI && q.head != ' ' && Body(q.tail)
  }

  predicate IsMarker(p: Text) {
    p.Cons? && p.head == PHI && Body(p.tail)
  }

  predicate Plain(e: Text) {
    e.Cons? ==> e.head != PHI && e.head != ':' && Plain(e.tail)
  }

  predicate WellFormed(rules: List<Rule>) {
    rules.Cons? ==> IsMarker(rules.head.prefix) && Plain(rules.head.expansion) && WellFormed(rules.tail)
  }

  // ----- One pass -----

  function FindRule(rules: List<Rule>, s: Text): (r: Option<Rule>)
    ensures r.Some? ==> StartsWith(s, r.value.prefix) && Has(rules, r.value)
  {
    if rules.Nil? then None
    else if StartsWith(s, rules.head.prefix) then Some(rules.head)
    else FindRule(rules.tail, s)
  }

  lemma {:induction false} FoundIsMarker(rules: List<Rule>, s: Text)
    requires WellFormed(rules) && FindRule(rules, s).Some?
    ensures IsMarker(FindRule(rules, s).value.prefix) && Plain(FindRule(rules, s).value.expansion)
    ensures s.Cons? && s.head == PHI
  {
    if !StartsWith(s, rules.head.prefix) {
      FoundIsMarker(rules.tail, s);
    }
  }

  /** Scanning once: wherever a marker stands, its replacement is written; all else is copied. */
  ghost function OnePass(rules: List<Rule>, s: Text): Text
    requires WellFormed(rules)
    decreases Size(s)
  {
    if s.Nil? then Nil
    else
      var found := FindRule(rules, s);
      if found.None? then Cons(s.head, OnePass(rules, s.tail))
      else
        FoundIsMarker(rules, s);
        Append(Replacement(found.value), OnePass(rules, Drop(s, found.value.prefix)))
  }

  // ----- A replacement after a pass is one more rule in the pass -----

  lemma {:induction false} FindSnoc(rules: List<Rule>, r: Rule, s: Text)
    ensures FindRule(Push(rules, r), s)
         == if FindRule(rules, s).Some? then FindRule(rules, s) else if StartsWith(s, r.prefix) then Some(r) else None
  {
    if rules.Cons? {
      FindSnoc(rules.tail, r, s);
    }
  }

  lemma {:induction false} WellFormedPush(rules: List<Rule>, r: Rule)
    requires WellFormed(rules) && IsMarker(r.prefix) && Plain(r.expansion)
    ensures WellFormed(Push(rules, r))
  {
    if rules.Cons? {
      WellFormedPush(rules.tail, r);
    }
  }

  /** No marker begins inside an expansion, so a replacement passes over it. */
  lemma {:induction false} ReplaceSkipsExpansion(e: Text, x: Text, p: Text, repl: Text)
    requires Plain(e) && IsMarker(p)
    ensures Replace(Append(Append(e, Cons(' ', Nil)), x), p, repl)
              == Append(Append(e, Cons(' ', Nil)), Replace(x, p, repl))
  {
    if e.Cons? {
      ReplaceSkipsExpansion(e.tail, x, p, repl);
    }
  }

  /** The rest of a marker is copied by the pass, because no marker begins inside it. */
  lemma {:induction false} BodyIsCopied(rules: List<Rule>, t: Text, q: Text)
    requires WellFormed(rules) && Body(q) && StartsWith(t, q)
    ensures StartsWith(OnePass(rules, t), q) && Drop(OnePass(rules, t), q) == OnePass(rules, Drop(t, q))
  {
    if FindRule(rules, t).Some? {
      FoundIsMarker(rules, t);
    }
    if q.head != ':' {
      BodyIsCopied(rules, t.tail, q.tail);
    }
  }

  lemma {:induction false} ExpansionIsNoBody(e: Text, x: Text, q: Text)
    requires Plain(e) && Body(q)
    ensures !StartsWith(Append(Append(e, Cons(' ', Nil)), x), q)
  {
    if e.Cons? && e.head == q.head {
      ExpansionIsNoBody(e.tail, x, q.tail);
    }
  }

  /** The pass never completes a marker that was not in the line. */
  lemma {:induction false} NoBodyAppears(rules: List<Rule>, t: Text, q: Text)
    requires WellFormed(rules) && Body(q) && !StartsWith(t, q)
    ensures !StartsWith(OnePass(rules, t), q)
  {
    if t.Cons? {
      var found := FindRule(rules, t);
      if found.Some? {
        FoundIsMarker(rules, t);
        ExpansionIsNoBody(found.value.expansion, OnePass(rules, Drop(t, found.value.prefix)), q);
      } else if t.head == q.head && q.head != ':' {
        NoBodyAppears(rules, t.tail, q.tail);
      }
    }
  }

  lemma {:induction false} ReplaceAfterPass(rules: List<Rule>, r: Rule, s: Text)
    requires WellFormed(rules) && IsMarker(r.prefix) && Plain(r.expansion)
    ensures WellFormed(Push(rules, r))
    ensures Replace(OnePass(rules, s), r.prefix, Replacement(r)) == OnePass(Push(rules, r), s)
    decreases Size(s)
  {
    WellFormedPush(rules, r);
    if s.Cons? {
      FindSnoc(rules, r, s);
      var found := FindRule(rules, s);
      if found.Some? {
        FoundIsMarker(rules, s);
        var rest := Drop(s, found.value.prefix);
        ReplaceAfterPass(rules, r, rest);
        ReplaceSkipsExpansion(found.value.expansion, OnePass(rules, rest), r.prefix, Replacement(r));
      } else if StartsWith(s, r.prefix) {
        BodyIsCopied(rules, s.tail, r.prefix.tail);
        ReplaceAfterPass(rules, r, Drop(s, r.prefix));
      } else {
        if s.head == PHI {
          NoBodyAppears(rules, s.tail, r.prefix.tail);
        }
        ReplaceAfterPass(rules, r, s.tail);
      }
    }
  }

  // ----- The chain -----

  /** Whole-line replacement by each rule in turn. */
  function Chain(rules: List<Rule>, s: Text): Text
    requires WellFormed(rules)
  {
    if rules.Nil? then s else Chain(rules.tail, Replace(s, rules.head.prefix, Replacement(rules.head)))
  }

  lemma {:induction false} WellFormedAppend(a: List<Rule>, b: List<Rule>)
    ensures WellFormed(Append(a, b)) <==> WellFormed(a) && WellFormed(b)
  {
    if a.Cons? {
      WellFormedAppend(a.tail, b);
    }
  }

  lemma {:induction false} ChainAfterPass(done: List<Rule>, rules: List<Rule>, s: Text)
    requires WellFormed(done) && WellFormed(rules)
    ensures WellFormed(Append(done, rules))
    ensures Chain(rules, OnePass(done, s)) == OnePass(Append(done, rules), s)
    decreases rules
  {
    WellFormedAppend(done, rules);
    if rules.Cons? {
      ReplaceAfterPass(done, rules.head, s);
      PushAppend(done, rules.head, rules.tail);
      ChainAfterPass(Push(done, rules.head), rules.tail, s);
    } else {
      AppendNil(done);
    }
  }

  lemma {:induction false} EmptyPass(s: Text)
    ensures OnePass(Nil, s) == s
  {
    if s.Cons? {
      EmptyPass(s.tail);
    }
  }

  /** Replacing marker after marker over the whole line is one simultaneous pass. */
  lemma {:induction false} ChainIsOnePass(rules: List<Rule>, s: Text)
    requires WellFormed(rules)
    ensures Chain(rules, s) == OnePass(rules, s)
  {
    EmptyPass(s);
    ChainAfterPass(Nil, rules, s);
  }

  lemma {:induction false} FindAppend(a: List<Rule>, b: List<Rule>, s: Text)
    ensures FindRule(Append(a, b), s) == if FindRule(a, s).Some? then FindRule(a, s) else FindRule(b, s)
  {
    if a.Cons? {
      FindAppend(a.tail, b, s);
    }
  }

  /** Two vocabularies that find the same marker everywhere expand every line alike. */
  lemma {:induction false} SameFinds(a: List<Rule>, b: List<Rule>, s: Text)
    requires WellFormed(a) && WellFormed(b)
    requires forall t :: FindRule(a, t) == FindRule(b, t)
    ensures OnePass(a, s) == OnePass(b, s)
    decreases Size(s)
  {
    if s.Cons? {
      var found := FindRule(a, s);
      assert found == FindRule(b, s);
      if found.Some? {
        FoundIsMarker(a, s);
        SameFinds(a, b, Drop(s, found.value.prefix));
      } else {
        SameFinds(a, b, s.tail);
      }
    }
  }

  /** Expanding an expanded line changes nothing. */
  lemma {:induction false} ChainIdempotent(rules: List<Rule>, s: Text)
    requires WellFormed(rules)
    ensures Chain(rules, Chain(rules, s)) == Chain(rules, s)
  {
    ChainIsOnePass(rules, s);
    ChainAfterPass(rules, rules, s);
    forall t ensures FindRule(Append(rules, rules), t) == FindRule(rules, t) {
      FindAppend(rules, rules, t);
    }
    SameFinds(Append(rules, rules), rules, s);
  }

  // ----- Registration order -----

  lemma {:induction false} BodiesAreUnique(t: Text, q: Text, q': Text)
    requires Body(q) && Body(q') && StartsWith(t, q) && StartsWith(t, q')
    ensures q == q'
  {
    if q.head != ':' {
      BodiesAreUnique(t.tail, q.tail, q'.tail);
    }
  }

  predicate DistinctPrefixes(rules: List<Rule>) {
    rules.Cons? ==> !PrefixListed(rules.tail, rules.head.prefix) && DistinctPrefixes(rules.tail)
  }

  predicate PrefixListed(rules: List<Rule>, p: Text) {
    rules.Cons? && (rules.head.prefix == p || PrefixListed(rules.tail, p))
  }

  lemma {:induction false} FindsTheOnlyOne(rules: List<Rule>, r: Rule, s: Text)
    requires WellFormed(rules) && DistinctPrefixes(rules) && Has(rules, r) && StartsWith(s, r.prefix)
    ensures FindRule(rules, s) == Some(r)
  {
    ListedRule(rules, r);
    if rules.head != r {
      if StartsWith(s, rules.head.prefix) {
        BodiesAreUnique(s.tail, rules.head.prefix.tail, r.prefix.tail);
        ListedPrefix(rules.tail, r);
      }
      FindsTheOnlyOne(rules.tail, r, s);
    }
  }

  lemma {:induction false} ListedRule(rules: List<Rule>, r: Rule)
    requires WellFormed(rules) && Has(rules, r)
    ensures IsMarker(r.prefix) && Plain(r.expansion)
  {
    if rules.head != r {
      ListedRule(rules.tail, r);
    }
  }

  lemma {:induction false} ListedPrefix(rules: List<Rule>, r: Rule)
    requires Has(rules, r)
    ensures PrefixListed(rules, r.prefix)
  {
    if rules.head != r {
      ListedPrefix(rules.tail, r);
    }
  }

  /** The order in which markers, or whole vocabularies, are registered does not matter. */
  lemma {:induction false} RegistrationOrderIrrelevant(a: List<Rule>, b: List<Rule>, s: Text)
    requires WellFormed(a) && WellFormed(b) && DistinctPrefixes(a) && DistinctPrefixes(b)
    requires forall r :: Has(a, r) <==> Has(b, r)
    ensures Chain(a, s) == Chain(b, s)
  {
    ChainIsOnePass(a, s);
    ChainIsOnePass(b, s);
    forall t ensures FindRule(a, t) == FindRule(b, t) {
      if FindRule(a, t).Some? {
        FindsTheOnlyOne(b, FindRule(a, t).value, t);
      } else if FindRule(b, t).Some? {
        FindsTheOnlyOne(a, FindRule(b, t).value, t);
      }
    }
    SameFinds(a, b, s);
  }

  // ----- What becomes of one marker -----

  lemma {:induction false} DropPrefix(p: Text, more: Text)
    ensures StartsWith(Append(p, more), p) && Drop(Append(p, more), p) == more
  {
    if p.Cons? {
      DropPrefix(p.tail, more);
    }
  }

  lemma {:induction false} CopiedUpToMarker(rules: List<Rule>, before: Text, s: Text)
    requires WellFormed(rules) && !Has(before, PHI)
    ensures OnePass(rules, Append(before, s)) == Append(before, OnePass(rules, s))
  {
    if before.Cons? {
      if FindRule(rules, Append(before, s)).Some? {
        FoundIsMarker(rules, Append(before, s));
      }
      CopiedUpToMarker(rules, before.tail, s);
    }
  }

  /**
   The first marker sign of a line, if a registered marker stands there, becomes its expansion and one blank; the text
   before it stays, and the text after it is expanded in the same way. A line without the sign stays as it is.
   */
  lemma {:induction false} MarkerIsExpanded(rules: List<Rule>, before: Text, r: Rule, after: Text)
    requires WellFormed(rules) && DistinctPrefixes(rules) && Has(rules, r) && !Has(before, PHI)
    ensures Chain(rules, Append(before, Append(r.prefix, after)))
         == Append(before, Append(r.expansion, Cons(' ', Chain(rules, after))))
    ensures Chain(rules, before) == before
  {
    var s := Append(r.prefix, after);
    ChainIsOnePass(rules, Append(before, s));
    ChainIsOnePass(rules, after);
    ChainIsOnePass(rules, before);
    CopiedUpToMarker(rules, before, s);
    CopiedUpToMarker(rules, before, Nil);
    AppendNil(before);
    DropPrefix(r.prefix, after);
    ListedRule(rules, r);
    FindsTheOnlyOne(rules, r, s);
    AppendAssociative(r.expansion, Cons(' ', Nil), OnePass(rules, after));
  }

  // ----- The loops that run the chain -----

  lemma {:induction false} ChainAppend(a: List<Rule>, b: List<Rule>, s: Text)
    requires WellFormed(a) && WellFormed(b) && WellFormed(Append(a, b))
    ensures Chain(Append(a, b), s) == Chain(b, Chain(a, s))
  {
    if a.Cons? {
      ChainAppend(a.tail, b, Replace(s, a.head.prefix, Replacement(a.head)));
    }
  }

  /** `expand_phi_in_line` for one vocabulary, with its check that a prefix occurs before replacing it. */
  method ExpandPhiInLine(rules: List<Rule>, line: Text) returns (s: Text)
    requires WellFormed(rules)
    ensures s == Chain(rules, line)
  {
    s := line;
    var rest := rules;
    while rest.Cons?
      invariant WellFormed(rest) && Chain(rest, s) == Chain(rules, line)
      decreases rest
    {
      if Contains(s, rest.head.prefix) {
        s := Replace(s, rest.head.prefix, Replacement(rest.head));
      } else {
        ReplaceAbsent(s, rest.head.prefix, Replacement(rest.head));
      }
      rest := rest.tail;
    }
  }

  function Flatten(layers: List<List<Rule>>): List<Rule> {
    if layers.Nil? then Nil else Append(layers.head, Flatten(layers.tail))
  }

  /** The registered expanders one after the other amount to one simultaneous pass. */
  method ExpandAll(layers: List<List<Rule>>, line: Text) returns (s: Text)
    requires WellFormed(Flatten(layers))
    ensures s == OnePass(Flatten(layers), line)
  {
    s := line;
    var rest := layers;
    while rest.Cons?
      invariant WellFormed(Flatten(rest)) && Chain(Flatten(rest), s) == Chain(Flatten(layers), line)
      decreases rest
    {
      WellFormedAppend(rest.head, Flatten(rest.tail));
      ChainAppend(rest.head, Flatten(rest.tail), s);
      s := ExpandPhiInLine(rest.head, s);
      rest := rest.tail;
    }
    ChainIsOnePass(Flatten(layers), line);
  }
}
