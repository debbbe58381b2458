/**
 The exclude-pattern matcher of src/config_impl.rs: a two-index loop that remembers only the most
 recent `*`, proved equal to the recursive meaning of a pattern, together with its step bound and the
 exclude filter built on it.
 */
module Glob {
  import opened Prelude

  type Byte = b: int | 0 <= b < 256
  type Bytes = seq<Byte>

  const STAR: Byte := '*' as int
  const QUESTION: Byte := '?' as int
  const DOT: Byte := '.' as int

  /** What a pattern means: `*` stands for any block of bytes, `?` for one byte, the rest for itself. */
  predicate Matches(p: Bytes, t: Bytes)
    decreases |p| + |t|
  {
    if p == [] then t == []
    else if p[0] == STAR then Matches(p[1..], t) || (t != [] && Matches(p, t[1..]))
    else t != [] && (p[0] == t[0] || p[0] == QUESTION) && Matches(p[1..], t[1..])
  }

  /** `Matches` from position `pi` of the pattern and `ti` of the text on. */
  ghost predicate MatchesFrom(p: Bytes, pi: nat, t: Bytes, ti: nat)
    requires pi <= |p| && ti <= |t|
  {
    Matches(p[pi..], t[ti..])
  }

  /** What follows position `sp` of the pattern matches the text from `k` on. */
  ghost predicate MatchesAfter(p: Bytes, sp: nat, t: Bytes, k: nat)
    requires sp < |p| && k <= |t|
  {
    MatchesFrom(p, sp + 1, t, k)
  }

  lemma {:induction false} Unfold(p: Bytes, pi: nat, t: Bytes, ti: nat)
    requires pi <= |p| && ti <= |t|
    ensures pi == |p| ==> (MatchesFrom(p, pi, t, ti) <==> ti == |t|)
    ensures pi < |p| && p[pi] == STAR ==>
              (MatchesFrom(p, pi, t, ti) <==>
               MatchesFrom(p, pi + 1, t, ti) || (ti < |t| && MatchesFrom(p, pi, t, ti + 1)))
    ensures pi < |p| && p[pi] != STAR ==>
              (MatchesFrom(p, pi, t, ti) <==>
               ti < |t| && (p[pi] == t[ti] || p[pi] == QUESTION) && MatchesFrom(p, pi + 1, t, ti + 1))
  {
    if pi < |p| {
      assert p[pi..][1..] == p[pi + 1..];
      if ti < |t| {
        assert t[ti..][1..] == t[ti + 1..];
      }
    }
  }

  /** A `*` matches at `ti` exactly when what follows it matches somewhere at or after `ti`. */
  lemma {:induction false} StarMeansSomewhere(p: Bytes, sp: nat, t: Bytes, ti: nat)
    requires sp < |p| && p[sp] == STAR && ti <= |t|
    ensures MatchesFrom(p, sp, t, ti) <==> exists k :: ti <= k <= |t| && MatchesAfter(p, sp, t, k)
    decreases |t| - ti
  {
    Unfold(p, sp, t, ti);
    assert MatchesAfter(p, sp, t, ti) <==> MatchesFrom(p, sp + 1, t, ti);
    if ti < |t| {
      StarMeansSomewhere(p, sp, t, ti + 1);
    }
  }

  /** A stretch of the pattern without `*` consumes exactly one byte per pattern byte. */
  lemma {:induction false} StarFreePrefix(p: Bytes, from: nat, to: nat, t: Bytes, k: nat)
    requires from <= to <= |p| && k <= |t|
    requires forall i :: from <= i < to ==> p[i] != STAR
    requires MatchesFrom(p, from, t, k)
    ensures k + (to - from) <= |t| && MatchesFrom(p, to, t, k + (to - from))
    decreases |p| - from
  {
    Unfold(p, from, t, k);
    if from < to {
      StarFreePrefix(p, from + 1, to, t, k + 1);
    }
  }

  /** The loop state still to be explored: the current alignment, or a longer block for the last `*`. */
  ghost predicate Pending(p: Bytes, pi: nat, t: Bytes, ti: nat, star: Option<nat>, starTi: nat)
    requires pi <= |p| && ti <= |t| && (star.Some? ==> star.value < |p|)
  {
    || MatchesFrom(p, pi, t, ti)
    || (star.Some? && exists k :: starTi < k <= |t| && MatchesAfter(p, star.value, t, k))
  }

  /**
   Meeting a new `*` makes the older one irrelevant: any match that gives the older `*` a longer block
   is also a match from here, because the new `*` can absorb the difference.
   */
  lemma {:induction false} NewStarSubsumesOld(p: Bytes, pi: nat, t: Bytes, ti: nat, star: Option<nat>, starTi: nat)
    requires pi < |p| && ti <= |t| && p[pi] == STAR
    requires star.Some? ==> star.value < pi && ti - starTi == pi - star.value - 1
    requires star.Some? ==> forall i :: star.value < i < pi ==> p[i] != STAR
    ensures Pending(p, pi, t, ti, star, starTi) <==> MatchesFrom(p, pi, t, ti)
    ensures MatchesFrom(p, pi, t, ti) <==> Pending(p, pi + 1, t, ti, Some(pi), ti)
  {
    StarMeansSomewhere(p, pi, t, ti);
    if star.Some? && exists k :: starTi < k <= |t| && MatchesAfter(p, star.value, t, k) {
      var k :| starTi < k <= |t| && MatchesAfter(p, star.value, t, k);
      StarFreePrefix(p, star.value + 1, pi, t, k);
      var j := k + (pi - star.value - 1);
      StarMeansSomewhere(p, pi, t, j);
    }
  }

  /** Backtracking gives the last `*` one more byte and loses no alternative. */
  lemma {:induction false} BacktrackKeepsPending(p: Bytes, pi: nat, t: Bytes, ti: nat, sp: nat, starTi: nat)
    requires pi <= |p| && ti < |t| && sp < |p| && starTi <= ti
    requires pi < |p| ==> p[pi] != STAR && p[pi] != t[ti] && p[pi] != QUESTION
    ensures Pending(p, pi, t, ti, Some(sp), starTi) <==> Pending(p, sp + 1, t, starTi + 1, Some(sp), starTi + 1)
  {
    Unfold(p, pi, t, ti);
    assert MatchesAfter(p, sp, t, starTi + 1) <==> MatchesFrom(p, sp + 1, t, starTi + 1);
  }

  /** Consuming one byte of each side loses no alternative. */
  lemma {:induction false} AdvanceKeepsPending(p: Bytes, pi: nat, t: Bytes, ti: nat, star: Option<nat>, starTi: nat)
    requires pi < |p| && ti < |t| && (star.Some? ==> star.value < pi)
    requires p[pi] != STAR && (p[pi] == t[ti] || p[pi] == QUESTION)
    ensures Pending(p, pi, t, ti, star, starTi) <==> Pending(p, pi + 1, t, ti + 1, star, starTi)
  {
    Unfold(p, pi, t, ti);
  }

  /** With the text used up, a longer block for the last `*` would need text that is not there. */
  lemma {:induction false} ExhaustedText(p: Bytes, pi: nat, t: Bytes, star: Option<nat>, starTi: nat)
    requires pi <= |p|
    requires star.Some? ==> star.value < pi && |t| - starTi == pi - star.value - 1
    requires star.Some? ==> forall i :: star.value < i < pi ==> p[i] != STAR
    ensures Pending(p, pi, t, |t|, star, starTi) <==> MatchesFrom(p, pi, t, |t|)
  {
    if star.Some? && exists k :: starTi < k <= |t| && MatchesAfter(p, star.value, t, k) {
      var k :| starTi < k <= |t| && MatchesAfter(p, star.value, t, k);
      StarFreePrefix(p, star.value + 1, pi, t, k);
    }
  }

  /** `rounds` times `width`, kept as repeated addition so that the loop proof stays linear. */
  ghost function Times(rounds: nat, width: nat): (n: nat)
    ensures n == rounds * width
  {
    if rounds == 0 then 0 else width + Times(rounds - 1, width)
  }

  /** The variant of the loop: it falls on every branch, backtracking included. */
  ghost function Budget(p: Bytes, pi: nat, t: Bytes, starTi: nat): nat
    requires pi <= |p| && starTi <= |t|
  {
    Times(|t| - starTi, |p| + 2) + (|p| - pi)
  }

  lemma {:induction false} BudgetFalls(p: Bytes, pi: nat, t: Bytes, starTi: nat, pi': nat, starTi': nat)
    requires pi <= |p| && pi' <= |p| && starTi <= starTi' <= |t|
    requires pi < pi' || starTi < starTi'
    ensures Budget(p, pi', t, starTi') < Budget(p, pi, t, starTi)
    decreases starTi'
  {
    if starTi + 1 < starTi' {
      BudgetFalls(p, pi, t, starTi, pi', starTi' - 1);
    }
  }

  /**
   The greedy loop decides `Matches` for every pattern and text; together the two loops take at most
   |t| * (|p| + 2) + |p| iterations.
   */
  method GlobMatch(p: Bytes, t: Bytes) returns (r: bool, ghost steps: nat)
    ensures r <==> Matches(p, t)
    ensures steps <= |t| * (|p| + 2) + |p|
  {
    var pi, ti := 0, 0;
    var star: Option<nat> := None;
    var starTi := 0;
    steps := 0;
    ghost var bound := Budget(p, 0, t, 0);
    assert p[0..] == p && t[0..] == t;
    while ti < |t|
      invariant 0 <= pi <= |p| && 0 <= starTi <= ti <= |t|
      invariant star.Some? ==> star.value < pi && ti - starTi == pi - star.value - 1
      invariant star.Some? ==> forall i :: star.value < i < pi ==> p[i] != STAR
      invariant Matches(p, t) <==> Pending(p, pi, t, ti, star, starTi)
      invariant steps + Budget(p, pi, t, starTi) <= bound
      decreases Budget(p, pi, t, starTi)
    {
      ghost var pi0, starTi0 := pi, starTi;
      if pi < |p| && p[pi] == STAR {
        NewStarSubsumesOld(p, pi, t, ti, star, starTi);
        star, starTi := Some(pi), ti;
        pi := pi + 1;
      } else if pi < |p| && (p[pi] == t[ti] || p[pi] == QUESTION) {
        AdvanceKeepsPending(p, pi, t, ti, star, starTi);
        pi, ti := pi + 1, ti + 1;
      } else if star.Some? {
        BacktrackKeepsPending(p, pi, t, ti, star.value, starTi);
        pi := star.value + 1;
        starTi := starTi + 1;
        ti := starTi;
      } else {
        Unfold(p, pi, t, ti);
        return false, steps + 1;
      }
      steps := steps + 1;
      BudgetFalls(p, pi0, t, starTi0, pi, starTi);
    }
    ExhaustedText(p, pi, t, star, starTi);
    while pi < |p| && p[pi] == STAR
      invariant 0 <= pi <= |p|
      invariant Matches(p, t) <==> MatchesFrom(p, pi, t, |t|)
      invariant steps + (|p| - pi) <= bound
    {
      Unfold(p, pi, t, |t|);
      pi, steps := pi + 1, steps + 1;
    }
    Unfold(p, pi, t, |t|);
    r := pi == |p|;
  }

  // ----- What patterns without wildcards mean, and where the documentation and the code part ways -----

  ghost predicate Literal(p: Bytes) {
    STAR !in p && QUESTION !in p
  }

  /** A plain name excludes only the segment of exactly that name: `dist` never matches `distribute`. */
  lemma {:induction false} LiteralMatchesItself(p: Bytes, t: Bytes)
    requires Literal(p)
    ensures Matches(p, t) <==> p == t
  {
    if p != [] && t != [] {
      LiteralMatchesItself(p[1..], t[1..]);
      assert p == [p[0]] + p[1..] && t == [t[0]] + t[1..];
    }
  }

  /** The UTF-8 encoding of a character. */
  function Utf8(c: char): (b: Bytes)
    ensures c as int < 0x80 ==> b == [c as int]
    ensures c as int >= 0x80 ==> |b| >= 2 && b[0] >= 0xC0 && forall i :: 0 <= i < |b| ==> b[i] >= 0x80
  {
    var n := c as int;
    if n < 0x80 then [n]
    else if n < 0x800 then [0xC0 + n / 64, 0x80 + n % 64]
    else if n < 0x10000 then [0xE0 + n / 4096, 0x80 + n / 64 % 64, 0x80 + n % 64]
    else [0xF0 + n / 262144, 0x80 + n / 4096 % 64, 0x80 + n / 64 % 64, 0x80 + n % 64]
  }

  /** The bytes of a string, as `as_bytes` gives them. */
  function Encode(t: string): Bytes {
    if t == [] then [] else Utf8(t[0]) + Encode(t[1..])
  }

  /** The documented reading, on characters, neither wildcard standing for a separator of the platform. */
  ghost predicate DocumentedMatches(p: string, t: string, separator: char -> bool)
    decreases |p| + |t|
  {
    if p == [] then t == []
    else if p[0] == '*' then
      DocumentedMatches(p[1..], t, separator)
          || (t != [] && !separator(t[0]) && DocumentedMatches(p, t[1..], separator))
    else
      && t != []
      && (p[0] == t[0] || (p[0] == '?' && !separator(t[0])))
      && DocumentedMatches(p[1..], t[1..], separator)
  }

  /** One byte a character, and no separator among them. */
  predicate PlainName(t: string, separator: char -> bool) {
    t != [] ==> t[0] as int < 0x80 && !separator(t[0]) && PlainName(t[1..], separator)
  }

  lemma {:induction false} AgreeOnPlainName(p: string, t: string, separator: char -> bool)
    requires PlainName(t, separator)
    ensures Matches(Encode(p), Encode(t)) <==> DocumentedMatches(p, t, separator)
    decreases |p| + |t|
  {
    if t != [] {
      assert Encode(t) == [t[0] as int] + Encode(t[1..]) && Encode(t)[1..] == Encode(t[1..]);
    }
    if p != [] {
      if p[0] as int < 0x80 {
        assert Encode(p) == [p[0] as int] + Encode(p[1..]) && Encode(p)[1..] == Encode(p[1..]);
        AgreeOnPlainName(p[1..], t, separator);
      } else {
        assert Encode(p)[0] == Utf8(p[0])[0];
      }
      if t != [] {
        AgreeOnPlainName(p, t[1..], separator);
        AgreeOnPlainName(p[1..], t[1..], separator);
      }
    }
  }

  lemma {:induction false} StarMatchesAll(t: Bytes)
    ensures Matches([STAR], t)
  {
    assert [STAR][1..] == [];
    if t != [] {
      StarMatchesAll(t[1..]);
    }
  }

  predicate NoSeparator(t: string, separator: char -> bool) {
    t != [] ==> !separator(t[0]) && NoSeparator(t[1..], separator)
  }

  lemma {:induction false} DocumentedStar(t: string, separator: char -> bool)
    ensures DocumentedMatches("*", t, separator) <==> NoSeparator(t, separator)
  {
    assert "*"[1..] == [];
    if t != [] {
      DocumentedStar(t[1..], separator);
    }
  }

  function Questions(n: nat): string {
    if n == 0 then [] else ['?'] + Questions(n - 1)
  }

  /** For the code, `?` is one byte. */
  lemma {:induction false} QuestionsCountBytes(n: nat, t: Bytes)
    ensures Matches(Encode(Questions(n)), t) <==> |t| == n
  {
    if n > 0 {
      assert Questions(n)[1..] == Questions(n - 1) && Questions(n)[0] == '?';
      assert Encode(Questions(n)) == [QUESTION] + Encode(Questions(n - 1));
      assert Encode(Questions(n))[1..] == Encode(Questions(n - 1));
      if t != [] {
        QuestionsCountBytes(n - 1, t[1..]);
      }
    }
  }

  /** For the documentation, it is one character. */
  lemma {:induction false} QuestionsCountCharacters(t: string, separator: char -> bool)
    requires NoSeparator(t, separator)
    ensures DocumentedMatches(Questions(|t|), t, separator)
  {
    if t != [] {
      assert Questions(|t|)[1..] == Questions(|t| - 1) && Questions(|t|)[0] == '?';
      QuestionsCountCharacters(t[1..], separator);
    }
  }

  lemma {:induction false} WideCharactersTakeMoreBytes(t: string, separator: char -> bool)
    ensures |Encode(t)| >= |t|
    ensures NoSeparator(t, separator) ==> (|Encode(t)| == |t| <==> PlainName(t, separator))
  {
    if t != [] {
      WideCharactersTakeMoreBytes(t[1..], separator);
    }
  }

  ghost predicate AgreesOn(p: string, t: string, separator: char -> bool) {
    Matches(Encode(p), Encode(t)) <==> DocumentedMatches(p, t, separator)
  }

  /**
   The code does what its comment says on a text, for every pattern, exactly when the text holds no
   separator and every character of it is one byte.
   */
  lemma {:induction false} DocumentedExactlyOnPlainNames(t: string, separator: char -> bool)
    ensures (forall p :: AgreesOn(p, t, separator)) <==> PlainName(t, separator)
  {
    if PlainName(t, separator) {
      forall p ensures AgreesOn(p, t, separator) {
        AgreeOnPlainName(p, t, separator);
      }
    } else if NoSeparator(t, separator) {
      WideCharactersTakeMoreBytes(t, separator);
      QuestionsCountBytes(|t|, Encode(t));
      QuestionsCountCharacters(t, separator);
      assert !AgreesOn(Questions(|t|), t, separator);
    } else {
      DocumentedStar(t, separator);
      assert Encode("*") == [STAR];
      StarMatchesAll(Encode(t));
      assert !AgreesOn("*", t, separator);
    }
  }

  /**
   `?` does not match a name of one character of several bytes, such as an accented letter; `*` crosses a
   separator.
   */
  lemma {:induction false} WhereTheCommentFails(separator: char -> bool, accented: char, slash: char)
    requires accented as int >= 0x80 && !separator(accented) && separator(slash)
    ensures !Matches(Encode("?"), Encode([accented])) && DocumentedMatches("?", [accented], separator)
    ensures Matches(Encode("*"), Encode([slash])) && !DocumentedMatches("*", [slash], separator)
  {
    var name := [accented];
    assert Questions(1) == "?" && name[1..] == [];
    WideCharactersTakeMoreBytes(name, separator);
    QuestionsCountBytes(1, Encode(name));
    QuestionsCountCharacters(name, separator);
    DocumentedStar([slash], separator);
    assert Encode("*") == [STAR];
    StarMatchesAll(Encode([slash]));
  }

  // ----- matching_exclude_patterns -----

  /** What the code asks of the file name, for a pattern with a dot. */
  ghost predicate NameExcluded(p: Bytes, name: Bytes) {
    if Literal(p) then HasInfix(name, p) else Matches(p, name)
  }

  /** Why a pattern excludes a path: it matches one whole component, or it is about the file name. */
  ghost predicate Excludes(p: Bytes, components: seq<Bytes>, fileName: Bytes) {
    || (exists i :: 0 <= i < |components| && Matches(p, components[i]))
    || (DOT in p && NameExcluded(p, fileName))
  }

  /** The sub-list of the configured patterns that exclude the path, order and repetitions kept. */
  ghost function Excluding(patterns: seq<Bytes>, components: seq<Bytes>, fileName: Bytes): seq<Bytes> {
    if patterns == [] then []
    else
      var init := patterns[..|patterns| - 1];
      var last := patterns[|patterns| - 1];
      Excluding(init, components, fileName) + (if Excludes(last, components, fileName) then [last] else [])
  }

  /** Exactly the excluding patterns are listed. */
  lemma {:induction false} ExcludingIsExact(patterns: seq<Bytes>, components: seq<Bytes>, fileName: Bytes, p: Bytes)
    ensures p in Excluding(patterns, components, fileName) <==> p in patterns && Excludes(p, components, fileName)
  {
    if patterns != [] {
      ExcludingIsExact(patterns[..|patterns| - 1], components, fileName, p);
      assert patterns == patterns[..|patterns| - 1] + [patterns[|patterns| - 1]];
    }
  }

  /** Configuration order is kept, and no pattern is listed more often than configured. */
  lemma {:induction false} ExcludingInOrder(first: seq<Bytes>, rest: seq<Bytes>, components: seq<Bytes>,
          fileName: Bytes)
    ensures Excluding(first + rest, components, fileName)
         == Excluding(first, components, fileName) + Excluding(rest, components, fileName)
    ensures forall p :: |Excluding([p], components, fileName)| <= 1
    decreases |rest|
  {
    if rest == [] {
      assert first + rest == first;
    } else {
      var n := |rest| - 1;
      assert (first + rest)[..|first| + n] == first + rest[..n] && (first + rest)[|first| + n] == rest[n];
      ExcludingInOrder(first, rest[..n], components, fileName);
    }
  }

  /** A plain pattern is listed when it is a whole component or, if it has a dot, occurs in the file name. */
  lemma {:induction false} PlainPatternListed(patterns: seq<Bytes>, components: seq<Bytes>, fileName: Bytes, p: Bytes)
    requires STAR !in p && QUESTION !in p
    ensures p in Excluding(patterns, components, fileName)
       <==> && p in patterns
            && (p in components || (DOT in p && exists i, j :: 0 <= i <= j <= |fileName| && fileName[i..j] == p))
  {
    ExcludingIsExact(patterns, components, fileName, p);
    assert forall i :: 0 <= i < |components| ==> (Matches(p, components[i]) <==> p == components[i]) by {
      forall i | 0 <= i < |components| ensures Matches(p, components[i]) <==> p == components[i] {
        LiteralMatchesItself(p, components[i]);
      }
    }
    InfixIsStretch(fileName, p);
  }

  lemma {:induction false} InfixIsStretch(t: Bytes, p: Bytes)
    ensures HasInfix(t, p) <==> exists i, j :: 0 <= i <= j <= |t| && t[i..j] == p
  {
    if HasInfix(t, p) {
      var i :| 0 <= i <= |t| && p <= t[i..];
      assert t[i..i + |p|] == p;
    }
    if i, j :| 0 <= i <= j <= |t| && t[i..j] == p {
      assert p <= t[i..];
    }
  }

  /** A pattern with wildcards is listed when it matches a whole component or, if it has a dot, the file name. */
  lemma {:induction false} WildcardPatternListed(patterns: seq<Bytes>, components: seq<Bytes>, fileName: Bytes,
          p: Bytes)
    requires STAR in p || QUESTION in p
    ensures p in Excluding(patterns, components, fileName)
       <==> p in patterns && ((exists c :: c in components && Matches(p, c)) || (DOT in p && Matches(p, fileName)))
  {
    ExcludingIsExact(patterns, components, fileName, p);
    if c :| c in components && Matches(p, c) {
      var i :| 0 <= i < |components| && components[i] == c;
    }
  }

  /** The patterns a result lists. */
  function Listed(r: Option<seq<Bytes>>): seq<Bytes> {
    if r.None? then [] else r.value
  }

  /** The components and the file name of the path are what the standard library reports for it. */
  method MatchingExcludePatterns(patterns: seq<Bytes>, components: seq<Bytes>, fileName: Bytes)
    returns (r: Option<seq<Bytes>>)
    ensures r.None? <==> forall p :: p in patterns ==> !Excludes(p, components, fileName)
    ensures r.Some? ==> r.value == Excluding(patterns, components, fileName)
    ensures forall p :: STAR !in p && QUESTION !in p ==>
              (p in Listed(r) <==> p in patterns && (p in components || (DOT in p && HasInfix(fileName, p))))
    ensures forall p :: STAR in p || QUESTION in p ==>
              (p in Listed(r) <==>
               p in patterns && ((exists c :: c in components && Matches(p, c)) || (DOT in p && Matches(p, fileName))))
  {
    var matched: seq<Bytes> := [];
    for i := 0 to |patterns|
      invariant matched == Excluding(patterns[..i], components, fileName)
    {
      var pattern := patterns[i];
      var tier1 := false;
      var c := 0;
      while c < |components| && !tier1
        invariant 0 <= c <= |components|
        invariant tier1 <==> exists k :: 0 <= k < c && Matches(pattern, components[k])
      {
        ghost var steps;
        tier1, steps := GlobMatch(pattern, components[c]);
        c := c + 1;
      }
      var tier2 := false;
      if DOT in pattern {
        if STAR in pattern || QUESTION in pattern {
          ghost var steps;
          tier2, steps := GlobMatch(pattern, fileName);
        }
        if STAR !in pattern && QUESTION !in pattern && HasInfix(fileName, pattern) {
          tier2 := true;
        }
      }
      assert tier1 || tier2 <==> Excludes(pattern, components, fileName);
      if tier1 || tier2 {
        matched := matched + [pattern];
      }
      assert patterns[..i + 1][..i] == patterns[..i];
    }
    assert patterns[..|patterns|] == patterns;
    forall p ensures p in matched <==> p in patterns && Excludes(p, components, fileName) {
      ExcludingIsExact(patterns, components, fileName, p);
    }
    if |matched| > 0 {
      assert matched[0] in matched;
    }
    r := if matched == [] then None else Some(matched);
    forall p: Bytes | STAR !in p && QUESTION !in p
      ensures p in matched <==> p in patterns && (p in components || (DOT in p && HasInfix(fileName, p)))
    {
      PlainPatternListed(patterns, components, fileName, p);
      InfixIsStretch(fileName, p);
    }
    forall p: Bytes | STAR in p || QUESTION in p
      ensures p in matched
         <==> && p in patterns
              && ((exists c :: c in components && Matches(p, c)) || (DOT in p && Matches(p, fileName)))
    {
      WildcardPatternListed(patterns, components, fileName, p);
    }
  }
}
