/**
 The second tier of the exclude filter (src/config_impl.rs): its documentation lets a pattern with a dot appear
 anywhere within the file name, while the code compares patterns with wildcards with the whole name.
 */
module ExcludeNames {
  import opened Prelude
  import opened Glob

  /** What the documentation asks: some stretch of the name matches. */
  ghost predicate MatchesInside(p: Bytes, t: Bytes) {
    exists i, j :: 0 <= i <= j <= |t| && Matches(p, t[i..j])
  }

  /** Nothing but wildcards before some star. */
  predicate OpensFreely(p: Bytes) {
    p != [] && (p[0] == STAR || (p[0] == QUESTION && OpensFreely(p[1..])))
  }

  predicate AllQuestions(p: Bytes) {
    p != [] ==> p[0] == QUESTION && AllQuestions(p[1..])
  }

  /** Nothing but question marks after some star. */
  predicate EndsFreely(p: Bytes) {
    p != [] && ((p[0] == STAR && AllQuestions(p[1..])) || EndsFreely(p[1..]))
  }

  // ----- Free ends absorb what surrounds a match -----

  lemma {:induction false} PrependOne(p: Bytes, y: Byte, t: Bytes)
    requires OpensFreely(p) && Matches(p, t)
    ensures Matches(p, [y] + t)
    decreases |p|
  {
    assert ([y] + t)[1..] == t;
    if p[0] != STAR {
      assert [t[0]] + t[1..] == t;
      PrependOne(p[1..], t[0], t[1..]);
    }
  }

  lemma {:induction false} Prepend(p: Bytes, x: Bytes, t: Bytes)
    requires OpensFreely(p) && Matches(p, t)
    ensures Matches(p, x + t)
  {
    if x == [] {
      assert x + t == t;
    } else {
      Prepend(p, x[1..], t);
      PrependOne(p, x[0], x[1..] + t);
      assert [x[0]] + (x[1..] + t) == x + t;
    }
  }

  lemma {:induction false} QuestionsCount(p: Bytes, t: Bytes)
    requires AllQuestions(p)
    ensures Matches(p, t) <==> |t| == |p|
  {
    if p != [] && t != [] {
      QuestionsCount(p[1..], t[1..]);
    }
  }

  lemma {:induction false} StarAndQuestions(p: Bytes, t: Bytes)
    requires p != [] && p[0] == STAR && AllQuestions(p[1..])
    ensures Matches(p, t) <==> |t| >= |p| - 1
    decreases |t|
  {
    QuestionsCount(p[1..], t);
    if t != [] {
      StarAndQuestions(p, t[1..]);
    }
  }

  lemma {:induction false} AppendOne(p: Bytes, t: Bytes, y: Byte)
    requires EndsFreely(p) && Matches(p, t)
    ensures Matches(p, t + [y])
    decreases |p| + |t|
  {
    var longer := t + [y];
    if p[0] == STAR && AllQuestions(p[1..]) {
      StarAndQuestions(p, t);
      StarAndQuestions(p, longer);
    } else {
      if t != [] {
        assert longer[1..] == t[1..] + [y];
      }
      if p[0] == STAR && Matches(p[1..], t) {
        AppendOne(p[1..], t, y);
      } else if p[0] == STAR {
        AppendOne(p, t[1..], y);
      } else {
        AppendOne(p[1..], t[1..], y);
      }
    }
  }

  lemma {:induction false} AppendAny(p: Bytes, t: Bytes, x: Bytes)
    requires EndsFreely(p) && Matches(p, t)
    ensures Matches(p, t + x)
    decreases x
  {
    if x == [] {
      assert t + x == t;
    } else {
      AppendOne(p, t, x[0]);
      AppendAny(p, t + [x[0]], x[1..]);
      assert t + [x[0]] + x[1..] == t + x;
    }
  }

  lemma {:induction false} FreeEndsMatchInside(p: Bytes, t: Bytes)
    requires OpensFreely(p) && EndsFreely(p) && MatchesInside(p, t)
    ensures Matches(p, t)
  {
    var i, j :| 0 <= i <= j <= |t| && Matches(p, t[i..j]);
    AppendAny(p, t[i..j], t[j..]);
    Prepend(p, t[..i], t[i..j] + t[j..]);
    assert t[..i] + (t[i..j] + t[j..]) == t;
  }

  // ----- Other patterns do not -----

  /** The question marks a pattern starts with. */
  function LeadingQuestions(p: Bytes): (n: nat)
    ensures n <= |p|
  {
    if p == [] || p[0] != QUESTION then 0 else 1 + LeadingQuestions(p[1..])
  }

  lemma {:induction false} StartIsFixed(p: Bytes, t: Bytes)
    requires !OpensFreely(p) && Matches(p, t)
    ensures var n := LeadingQuestions(p); if n == |p| then |t| == n else |t| > n && t[n] == p[n]
  {
    if p != [] && p[0] == QUESTION {
      StartIsFixed(p[1..], t[1..]);
    }
  }

  /** The question marks a pattern ends with, and the byte before them. */
  function TrailingQuestions(p: Bytes): nat {
    if AllQuestions(p) then |p| else TrailingQuestions(p[1..])
  }

  function LastByte(p: Bytes): Byte
    requires !AllQuestions(p)
  {
    if AllQuestions(p[1..]) then p[0] else LastByte(p[1..])
  }

  lemma {:induction false} EndIsFixed(p: Bytes, t: Bytes)
    requires !EndsFreely(p) && !AllQuestions(p) && Matches(p, t)
    ensures |t| > TrailingQuestions(p) && t[|t| - 1 - TrailingQuestions(p)] == LastByte(p)
    decreases |p| + |t|
  {
    if p[0] == STAR {
      if Matches(p[1..], t) {
        EndIsFixed(p[1..], t);
      } else {
        EndIsFixed(p, t[1..]);
      }
    } else if AllQuestions(p[1..]) {
      QuestionsCount(p[1..], t[1..]);
    } else {
      EndIsFixed(p[1..], t[1..]);
    }
  }

  // ----- Names a file can have -----

  predicate Allowed(c: char) {
    c as int < 0x80 && c != '/' && c != '\0'
  }

  /** What `file_name` can return, of one-byte characters: one component, neither `.` nor `..`. */
  predicate IsFileName(name: string) {
    name != "" && AllAllowed(name) && name != "." && name != ".."
  }

  predicate AllAllowed(t: string) {
    t != "" ==> Allowed(t[0]) && AllAllowed(t[1..])
  }

  /** Besides its wildcards, the pattern has only characters such a name may have. */
  predicate CanMatchNames(p: string) {
    AllAllowed(p)
  }

  lemma {:induction false} EncodeAppend(a: string, b: string)
    ensures Encode(a + b) == Encode(a) + Encode(b)
  {
    if a == "" {
      assert a + b == b;
    } else {
      assert (a + b)[1..] == a[1..] + b;
      EncodeAppend(a[1..], b);
    }
  }

  lemma {:induction false} AllowedBytes(t: string)
    requires AllAllowed(t)
    ensures |Encode(t)| == |t|
    ensures forall i :: 0 <= i < |t| ==> Encode(t)[i] == t[i] as int && Allowed(t[i])
  {
    if t != "" {
      AllowedBytes(t[1..]);
    }
  }

  lemma {:induction false} AllowedWhole(t: string)
    requires forall i :: 0 <= i < |t| ==> Allowed(t[i])
    ensures AllAllowed(t)
  {
    if t != "" {
      AllowedWhole(t[1..]);
    }
  }

  /** A stretch of such a name has the corresponding stretch of its bytes. */
  lemma {:induction false} StretchBytes(name: string, i: nat, j: nat)
    requires AllAllowed(name) && i <= j <= |name|
    ensures |Encode(name)| == |name| && AllAllowed(name[i..j])
    ensures Encode(name[i..j]) == Encode(name)[i..j]
  {
    AllowedBytes(name);
    AllowedWhole(name[i..j]);
    AllowedBytes(name[i..j]);
  }

  /** A pattern with another character asks for a byte that such names do not have. */
  lemma {:induction false} ForbiddenByte(p: string) returns (b: Byte)
    requires !CanMatchNames(p)
    ensures b in Encode(p) && (b == 0 || b == 47 || b >= 0x80)
  {
    if !Allowed(p[0]) {
      b := Utf8(p[0])[0];
      assert Encode(p)[0] == b;
    } else {
      b := ForbiddenByte(p[1..]);
    }
  }

  lemma {:induction false} MatchNeedsByte(p: Bytes, t: Bytes, b: Byte)
    requires Matches(p, t) && b in p && b != STAR && b != QUESTION
    ensures b in t
    decreases |p| + |t|
  {
    if p[0] == STAR {
      if Matches(p[1..], t) {
        MatchNeedsByte(p[1..], t, b);
      } else {
        MatchNeedsByte(p, t[1..], b);
      }
    } else if p[0] != b {
      MatchNeedsByte(p[1..], t[1..], b);
    }
  }

  /** A text the pattern matches, of its own characters and letters. */
  function Sample(p: string): string {
    if p == "" then "" else if p[0] == '*' then Sample(p[1..]) else [if p[0] == '?' then 'a' else p[0]] + Sample(p[1..])
  }

  lemma {:induction false} LiteralPrefix(x: Bytes, p: Bytes, t: Bytes)
    requires STAR !in x && Matches(p, t)
    ensures Matches(x + p, x + t)
  {
    if x == [] {
      assert x + p == p && x + t == t;
    } else {
      LiteralPrefix(x[1..], p, t);
      assert (x + p)[1..] == x[1..] + p && (x + t)[1..] == x[1..] + t;
    }
  }

  lemma {:induction false} SampleMatches(p: string)
    ensures Matches(Encode(p), Encode(Sample(p)))
  {
    if p != "" {
      var c, rest := p[0], Sample(p[1..]);
      SampleMatches(p[1..]);
      if c == '*' || c == '?' {
        assert Encode(p) == [c as int] + Encode(p[1..]) && Encode(p)[1..] == Encode(p[1..]);
      }
      if c == '*' {
        assert Sample(p) == rest;
      } else {
        assert Sample(p)[1..] == rest;
        if c == '?' {
          assert Encode(Sample(p)) == ['a' as int] + Encode(rest) && Encode(Sample(p))[1..] == Encode(rest);
        } else {
          LiteralPrefix(Utf8(c), Encode(p[1..]), Encode(rest));
        }
      }
    }
  }

  lemma {:induction false} SampleIsAllowed(p: string)
    requires AllAllowed(p)
    ensures AllAllowed(Sample(p))
  {
    if p != "" {
      SampleIsAllowed(p[1..]);
      if p[0] != '*' {
        assert Sample(p)[1..] == Sample(p[1..]);
      }
    }
  }

  /** A letter whose byte is not `b`. */
  function OtherLetter(b: Byte): char {
    if b == 'a' as int then 'b' else 'a'
  }

  function Repeat(c: char, n: nat): string {
    if n == 0 then "" else [c] + Repeat(c, n - 1)
  }

  lemma {:induction false} RepeatFacts(c: char, n: nat)
    requires Allowed(c)
    ensures AllAllowed(Repeat(c, n)) && |Repeat(c, n)| == n
    ensures forall i :: 0 <= i < n ==> Repeat(c, n)[i] == c
  {
    if n > 0 {
      assert Repeat(c, n)[1..] == Repeat(c, n - 1);
      RepeatFacts(c, n - 1);
    }
  }

  lemma {:induction false} AllowedAppend(x: string, y: string)
    ensures AllAllowed(x + y) <==> AllAllowed(x) && AllAllowed(y)
  {
    if x == "" {
      assert x + y == y;
    } else {
      assert (x + y)[1..] == x[1..] + y;
      AllowedAppend(x[1..], y);
    }
  }

  lemma {:induction false} LettersMakeAName(x: string, y: string, c: char)
    requires (c == 'a' || c == 'b') && AllAllowed(x) && AllAllowed(y) && (c in x || c in y)
    ensures IsFileName(x + y)
  {
    AllowedAppend(x, y);
    assert c in x + y;
    assert c !in "." && c !in "..";
  }

  /** The bytes of two pieces of a name. */
  lemma {:induction false} Pieces(x: string, y: string)
    requires AllAllowed(x) && AllAllowed(y)
    ensures |Encode(x + y)| == |x| + |y|
    ensures Encode(x + y)[0..|x|] == Encode(x) && Encode(x + y)[|x|..|x| + |y|] == Encode(y)
    ensures forall i :: 0 <= i < |x + y| ==> Encode(x + y)[i] == (x + y)[i] as int
  {
    AllowedAppend(x, y);
    AllowedBytes(x + y);
    StretchBytes(x + y, 0, |x|);
    StretchBytes(x + y, |x|, |x| + |y|);
    assert (x + y)[0..|x|] == x && (x + y)[|x|..|x| + |y|] == y;
  }

  lemma {:induction false} StretchMatches(p: Bytes, t: Bytes, i: nat, j: nat)
    requires i <= j <= |t| && Matches(p, t[i..j])
    ensures MatchesInside(p, t)
  {
  }

  lemma {:induction false} FixedStartMisses(p: string) returns (name: string)
    requires !OpensFreely(Encode(p)) && CanMatchNames(p)
    ensures IsFileName(name) && MatchesInside(Encode(p), Encode(name)) && !Matches(Encode(p), Encode(name))
  {
    var bytes := Encode(p);
    var n := LeadingQuestions(bytes);
    var c := if n < |bytes| then OtherLetter(bytes[n]) else 'a';
    var x, y := Repeat(c, n + 1), Sample(p);
    name := x + y;
    RepeatFacts(c, n + 1);
    SampleIsAllowed(p);
    assert x[0] == c == x[n];
    LettersMakeAName(x, y, c);
    Pieces(x, y);
    SampleMatches(p);
    var t := Encode(name);
    StretchMatches(bytes, t, |x|, |t|);
    assert t[n] == name[n] as int == c as int;
    if Matches(bytes, t) {
      StartIsFixed(bytes, t);
      assert false;
    }
  }

  lemma {:induction false} FixedEndMisses(p: string) returns (name: string)
    requires !EndsFreely(Encode(p)) && CanMatchNames(p)
    ensures IsFileName(name) && MatchesInside(Encode(p), Encode(name)) && !Matches(Encode(p), Encode(name))
  {
    var bytes := Encode(p);
    var n := TrailingQuestions(bytes);
    var c := if AllQuestions(bytes) then 'a' else OtherLetter(LastByte(bytes));
    var x, y := Sample(p), Repeat(c, n + 1);
    name := x + y;
    RepeatFacts(c, n + 1);
    SampleIsAllowed(p);
    assert y[0] == c;
    LettersMakeAName(x, y, c);
    Pieces(x, y);
    SampleMatches(p);
    var t := Encode(name);
    StretchMatches(bytes, t, 0, |x|);
    assert t[|t| - 1 - n] == name[|x|] as int == c as int;
    if Matches(bytes, t) {
      if AllQuestions(bytes) {
        QuestionsCount(bytes, t);
      } else {
        EndIsFixed(bytes, t);
      }
      assert false;
    }
  }

  // ----- The documented tier -----

  lemma {:induction false} LiteralInside(p: Bytes, name: Bytes)
    requires Literal(p)
    ensures HasInfix(name, p) <==> MatchesInside(p, name)
  {
    if HasInfix(name, p) {
      var i :| 0 <= i <= |name| && p <= name[i..];
      assert name[i..i + |p|] == p;
      LiteralMatchesItself(p, name[i..i + |p|]);
    }
    if MatchesInside(p, name) {
      var i, j :| 0 <= i <= j <= |name| && Matches(p, name[i..j]);
      LiteralMatchesItself(p, name[i..j]);
      assert p <= name[i..];
    }
  }

  /** The documented reading: some stretch of the name's characters matches. */
  ghost predicate DocumentedInside(p: string, name: string) {
    exists i, j :: 0 <= i <= j <= |name| && DocumentedMatches(p, name[i..j], IsSlash)
  }

  predicate IsSlash(c: char) {
    c == '/'
  }

  lemma {:induction false} AllowedIsPlain(t: string)
    requires AllAllowed(t)
    ensures PlainName(t, IsSlash)
  {
    if t != "" {
      AllowedIsPlain(t[1..]);
    }
  }

  lemma {:induction false} StretchAgrees(p: string, name: string, i: nat, j: nat)
    requires AllAllowed(name) && i <= j <= |name|
    ensures |Encode(name)| == |name|
    ensures DocumentedMatches(p, name[i..j], IsSlash) <==> Matches(Encode(p), Encode(name)[i..j])
  {
    StretchBytes(name, i, j);
    AllowedIsPlain(name[i..j]);
    AgreeOnPlainName(p, name[i..j], IsSlash);
  }

  /** On such names, characters and bytes make no difference. */
  lemma {:induction false} InsideAgrees(p: string, name: string)
    requires AllAllowed(name)
    ensures DocumentedInside(p, name) <==> MatchesInside(Encode(p), Encode(name))
  {
    AllowedBytes(name);
    if DocumentedInside(p, name) {
      var i, j :| 0 <= i <= j <= |name| && DocumentedMatches(p, name[i..j], IsSlash);
      StretchAgrees(p, name, i, j);
    }
    if MatchesInside(Encode(p), Encode(name)) {
      var i, j :| 0 <= i <= j <= |Encode(name)| && Matches(Encode(p), Encode(name)[i..j]);
      StretchAgrees(p, name, i, j);
    }
  }

  /** Code and documentation agree on a file name. */
  ghost predicate TierAgrees(p: string, name: string) {
    NameExcluded(Encode(p), Encode(name)) <==> DocumentedInside(p, name)
  }

  lemma {:induction false} ForbiddenNeverMatches(p: string, name: string)
    requires !CanMatchNames(p) && AllAllowed(name)
    ensures !Matches(Encode(p), Encode(name)) && !MatchesInside(Encode(p), Encode(name))
  {
    var b := ForbiddenByte(p);
    var t := Encode(name);
    AllowedBytes(name);
    assert b !in t;
    if Matches(Encode(p), t) {
      MatchNeedsByte(Encode(p), t, b);
      assert false;
    }
    if MatchesInside(Encode(p), t) {
      var i, j :| 0 <= i <= j <= |t| && Matches(Encode(p), t[i..j]);
      MatchNeedsByte(Encode(p), t[i..j], b);
      assert false;
    }
  }

  lemma {:induction false} WholeIsInside(p: Bytes, t: Bytes)
    requires Matches(p, t)
    ensures MatchesInside(p, t)
  {
    assert t[0..|t|] == t;
  }

  /**
   A pattern excludes exactly the file names it appears in, as documented, if and only if it has a character that
   none of them has; or has no wildcards; or has only wildcards before some star and only question marks after some
   star. The names are those of one-byte characters; others are the subject of `DocumentedExactlyOnPlainNames`.
   */
  lemma {:induction false} DocumentedTierIff(p: string)
    ensures (forall name :: IsFileName(name) ==> TierAgrees(p, name))
       <==> !CanMatchNames(p) || Literal(Encode(p)) || (OpensFreely(Encode(p)) && EndsFreely(Encode(p)))
  {
    var bytes := Encode(p);
    if Literal(bytes) || !CanMatchNames(p) || (OpensFreely(bytes) && EndsFreely(bytes)) {
      forall name | IsFileName(name) ensures TierAgrees(p, name) {
        InsideAgrees(p, name);
        if Literal(bytes) {
          LiteralInside(bytes, Encode(name));
        } else if !CanMatchNames(p) {
          ForbiddenNeverMatches(p, name);
        } else {
          FreeEndsAgree(bytes, Encode(name));
        }
      }
    } else {
      var name := DifferingName(p);
      assert !TierAgrees(p, name);
    }
  }

  lemma {:induction false} FreeEndsAgree(p: Bytes, t: Bytes)
    requires OpensFreely(p) && EndsFreely(p)
    ensures Matches(p, t) <==> MatchesInside(p, t)
  {
    if Matches(p, t) {
      WholeIsInside(p, t);
    }
    if MatchesInside(p, t) {
      FreeEndsMatchInside(p, t);
    }
  }

  /** For every other pattern, a name it appears in that the code does not exclude. */
  lemma {:induction false} DifferingName(p: string) returns (name: string)
    requires CanMatchNames(p) && !Literal(Encode(p)) && !(OpensFreely(Encode(p)) && EndsFreely(Encode(p)))
    ensures IsFileName(name) && DocumentedInside(p, name) && !NameExcluded(Encode(p), Encode(name))
  {
    if OpensFreely(Encode(p)) {
      name := FixedEndMisses(p);
    } else {
      name := FixedStartMisses(p);
    }
    InsideAgrees(p, name);
  }

  // ----- A name on which they differ -----

  lemma {:induction false} StarSuffix(s: Bytes)
    requires Literal(s)
    ensures Matches([STAR] + s, s) && !Literal([STAR] + s)
  {
    assert ([STAR] + s)[1..] == s && ([STAR] + s)[0] == STAR;
    LiteralMatchesItself(s, s);
  }

  lemma {:induction false} SuffixIsLiteral(suffix: string)
    requires AllAllowed(suffix) && '*' !in suffix && '?' !in suffix
    ensures Literal(Encode(suffix)) && Encode("*" + suffix) == [STAR] + Encode(suffix)
  {
    AllowedBytes(suffix);
    EncodeAppend("*", suffix);
    assert Encode("*") == [STAR];
  }

  lemma {:induction false} MatchedSuffix(s: Bytes, t: Bytes)
    requires Literal(s) && s != [] && Matches([STAR] + s, t)
    ensures t != [] && t[|t| - 1] == s[|s| - 1]
  {
    var p := [STAR] + s;
    assert p[1..] == s;
    if Matches(s, t) {
      LiteralMatchesItself(s, t);
    } else {
      MatchedSuffix(s, t[1..]);
    }
  }

  lemma {:induction false} SuffixInside(s: Bytes, t: Bytes, i: nat)
    requires Literal(s) && s != [] && i + |s| <= |t| && t[i..i + |s|] == s && t[|t| - 1] != s[|s| - 1]
    ensures MatchesInside([STAR] + s, t) && !NameExcluded([STAR] + s, t)
  {
    StarSuffix(s);
    StretchMatches([STAR] + s, t, i, i + |s|);
    if Matches([STAR] + s, t) {
      MatchedSuffix(s, t);
      assert false;
    }
  }

  /** A star and a suffix, on a name that goes on after the suffix and ends in another character. */
  lemma {:induction false} SuffixGoesOn(suffix: string, name: string, i: nat)
    requires suffix != "" && i + |suffix| <= |name| && name[i..i + |suffix|] == suffix
    requires AllAllowed(name) && '*' !in suffix && '?' !in suffix && suffix[|suffix| - 1] != name[|name| - 1]
    ensures !TierAgrees("*" + suffix, name)
  {
    StretchBytes(name, i, i + |suffix|);
    AllowedBytes(name);
    AllowedBytes(suffix);
    SuffixIsLiteral(suffix);
    SuffixInside(Encode(suffix), Encode(name), i);
    InsideAgrees("*" + suffix, name);
  }

  /** `*.spec.ts` is documented to exclude `a.spec.ts.bak`, and does not. */
  lemma {:induction false} SpecBackup(pattern: string, name: string)
    requires pattern == "*.spec.ts" && name == "a.spec.ts.bak"
    ensures IsFileName(name) && !TierAgrees(pattern, name)
  {
    AllowedWhole(name);
    assert pattern == "*" + pattern[1..] && name[1..9] == pattern[1..] && pattern[1..][7] == 's';
    SuffixGoesOn(pattern[1..], name, 1);
  }
}
