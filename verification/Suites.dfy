/** Suite nesting, bracket matching and call search over test sources (src/angular_meta/testing.rs). */
module Suites {
  import opened Prelude

  // ----- Quoted text, one byte at a time -----

  /** Where a reader of the source is: outside any quotes, inside a pair, or just after a backslash inside one. */
  datatype Mode = Normal | Inside(delimiter: char) | Escaped(delimiter: char)

  predicate IsQuote(c: char) {
    c == '\'' || c == '"' || c == '`'
  }

  function Step(m: Mode, c: char): Mode {
    match m
    case Normal => if IsQuote(c) then Inside(c) else Normal
    case Inside(d) => if c == '\\' then Escaped(d) else if c == d then Normal else m
    case Escaped(d) => Inside(d)
  }

  /** The mode before byte `k`, for a reader in mode `m` before byte `from`. */
  ghost function ModeAt(m: Mode, s: seq<char>, from: nat, k: nat): Mode
    requires k <= |s|
  {
    if k <= from then m else Step(ModeAt(m, s, from, k - 1), s[k - 1])
  }

  ghost predicate QuotedAt(m: Mode, s: seq<char>, from: nat, k: nat)
    requires k <= |s|
  {
    ModeAt(m, s, from, k) != Normal
  }

  /** What a byte adds to the nesting depth: nothing when quoted. */
  ghost function Weight(m: Mode, c: char, opening: char, closing: char): int {
    if m != Normal || IsQuote(c) then 0 else if c == opening then 1 else if c == closing then -1 else 0
  }

  /** Unquoted opening minus unquoted closing brackets from `from` up to `k`. */
  ghost function Net(s: seq<char>, from: nat, k: nat, opening: char, closing: char): int
    requires k <= |s|
  {
    if k <= from then 0
    else Net(s, from, k - 1, opening, closing) + Weight(ModeAt(Normal, s, from, k - 1), s[k - 1], opening, closing)
  }

  /** Byte `k` is an unquoted closing bracket that brings the depth to zero. */
  ghost predicate Closes(s: seq<char>, from: nat, k: nat, opening: char, closing: char)
    requires k < |s|
  {
    && ModeAt(Normal, s, from, k) == Normal && !IsQuote(s[k]) && s[k] == closing
    && Net(s, from, k + 1, opening, closing) == 0
  }

  lemma {:induction false} ModeResumes(m: Mode, s: seq<char>, from: nat, mid: nat, k: nat)
    requires from <= mid <= k <= |s|
    ensures ModeAt(m, s, from, k) == ModeAt(ModeAt(m, s, from, mid), s, mid, k)
  {
    if k > mid {
      ModeResumes(m, s, from, mid, k - 1);
    }
  }

  /** A stretch that is quoted throughout leaves the depth alone. */
  lemma {:induction false} QuotedStretch(s: seq<char>, from: nat, start: nat, k: nat, opening: char, closing: char)
    requires from <= start < k <= |s| && ModeAt(Normal, s, from, start) == Normal && IsQuote(s[start])
    requires forall j :: start < j < k ==> QuotedAt(Normal, s, from, j)
    ensures Net(s, from, k, opening, closing) == Net(s, from, start, opening, closing)
  {
    assert k > start + 1 ==> QuotedAt(Normal, s, from, k - 1);
    if k > start + 1 {
      QuotedStretch(s, from, start, k - 1, opening, closing);
    }
  }

  // ----- The scanner -----

  /** Byte `k` is still inside the literal whose delimiter is at `start`. */
  ghost predicate StillQuoted(s: seq<char>, start: nat, k: nat)
    requires start < |s| && k <= |s|
  {
    QuotedAt(Inside(s[start]), s, start + 1, k)
  }

  /** Runs from the delimiter at `start` to the byte that closes it, jumping over escaped bytes. */
  method SkipQuoted(s: seq<char>, start: nat) returns (r: Option<nat>)
    requires start < |s|
    ensures r.Some? ==> start < r.value < |s| && ModeAt(Inside(s[start]), s, start + 1, r.value + 1) == Normal
    ensures forall k :: start < k <= (if r.Some? then r.value else |s|)
                        ==> StillQuoted(s, start, k)
  {
    var delimiter := s[start];
    var index := start + 1;
    while index < |s|
      invariant start < index <= |s| + 1
      invariant index <= |s| ==> ModeAt(Inside(delimiter), s, start + 1, index) == Inside(delimiter)
      invariant forall k :: start < k < index && k <= |s| ==> StillQuoted(s, start, k)
    {
      assert ModeAt(Inside(delimiter), s, start + 1, index + 1) == Step(Inside(delimiter), s[index]);
      if s[index] == '\\' {
        assert index + 2 <= |s| ==> ModeAt(Inside(delimiter), s, start + 1, index + 2) == Inside(delimiter);
        index := index + 2;
        continue;
      }
      if s[index] == delimiter {
        return Some(index);
      }
      index := index + 1;
    }
    return None;
  }

  /** Nothing between `from` and `k` closes the bracket opened at `from`, and the depth never reaches zero. */
  ghost predicate OpenUntil(s: seq<char>, from: nat, k: nat, opening: char, closing: char)
    requires k <= |s|
  {
    && (forall j :: from <= j < k ==> !Closes(s, from, j, opening, closing))
    && (forall j :: from < j <= k ==> Net(s, from, j, opening, closing) >= 1)
  }

  lemma {:induction false} SkippedIsQuoted(s: seq<char>, from: nat, start: nat, end: nat, opening: char, closing: char)
    requires from < start < end <= |s| && ModeAt(Normal, s, from, start) == Normal && IsQuote(s[start])
    requires forall k :: start < k <= end ==> StillQuoted(s, start, k)
    requires OpenUntil(s, from, start, opening, closing)
    ensures OpenUntil(s, from, end, opening, closing)
    ensures Net(s, from, end, opening, closing) == Net(s, from, start, opening, closing)
    ensures end < |s| ==> Net(s, from, end + 1, opening, closing) == Net(s, from, start, opening, closing) >= 1
    ensures end < |s| ==> !Closes(s, from, end, opening, closing)
  {
    forall k | start < k <= end ensures QuotedAt(Normal, s, from, k) {
      assert StillQuoted(s, start, k);
      ModeResumes(Normal, s, from, start + 1, k);
    }
    forall k | start < k <= end ensures Net(s, from, k, opening, closing) == Net(s, from, start, opening, closing) {
      QuotedStretch(s, from, start, k, opening, closing);
    }
    forall k | start <= k < end ensures !Closes(s, from, k, opening, closing) {
      assert k > start ==> QuotedAt(Normal, s, from, k);
    }
    assert QuotedAt(Normal, s, from, end);
  }

  /**
   Returns the least unquoted position at which the depth comes back to zero, if there is one. The depth
   counter is a natural number, so it never underflows.
   */
  method FindMatching(s: seq<char>, open: nat, opening: char, closing: char) returns (r: Option<nat>)
    requires !IsQuote(opening)
    ensures open >= |s| || s[open] != opening ==> r == None
    ensures r.Some? ==> open < r.value < |s| && Closes(s, open, r.value, opening, closing)
                        && OpenUntil(s, open, r.value, opening, closing)
    ensures r.None? && open < |s| && s[open] == opening ==> OpenUntil(s, open, |s|, opening, closing)
  {
    if open >= |s| || s[open] != opening {
      return None;
    }
    var depth: nat := 0;
    var index := open;
    while index < |s|
      invariant open <= index <= |s|
      invariant ModeAt(Normal, s, open, index) == Normal
      invariant depth == Net(s, open, index, opening, closing)
      invariant index > open ==> depth >= 1
      invariant OpenUntil(s, open, index, opening, closing)
    {
      if IsQuote(s[index]) {
        var skipped := SkipQuoted(s, index);
        SkippedIsQuoted(s, open, index, if skipped.Some? then skipped.value else |s|, opening, closing);
        if skipped.None? {
          return None;
        }
        ModeResumes(Normal, s, open, index + 1, skipped.value + 1);
        index := skipped.value;
      } else if s[index] == opening {
        depth := depth + 1;
      } else if s[index] == closing {
        depth := depth - 1;
        if depth == 0 {
          return Some(index);
        }
      }
      index := index + 1;
    }
    return None;
  }

  // ----- Suite nesting -----

  datatype LiteralCall = LiteralCall(value: string, start: nat, bodyEnd: Option<nat>)
  /** A call whose body is still open, with the end of that body. */
  datatype Suite = Suite(name: string, end: nat)

  /** `Vec::retain` with the test the code uses. */
  function Retain(stack: List<Suite>, start: nat): List<Suite> {
    if stack.Nil? then Nil
    else if start < stack.head.end then Cons(stack.head, Retain(stack.tail, start))
    else Retain(stack.tail, start)
  }

  function NamesOf(stack: List<Suite>): List<string> {
    if stack.Nil? then Nil else Cons(stack.head.name, NamesOf(stack.tail))
  }

  function JoinPath(names: List<string>, own: string): string {
    if names.Nil? then own else names.head + " > " + JoinPath(names.tail, own)
  }

  /** Outermost first: a path continues with the next suite inward, and ends in the call's own name. */
  lemma {:induction false} PathGrowsInward(outer: List<string>, inner: string, own: string)
    ensures JoinPath(Push(outer, inner), own) == JoinPath(outer, inner) + " > " + own
    ensures JoinPath(Nil, own) == own
  {
    if outer.Cons? {
      PathGrowsInward(outer.tail, inner, own);
      assert outer.head + " > " + (JoinPath(outer.tail, inner) + " > " + own)
          == outer.head + " > " + JoinPath(outer.tail, inner) + " > " + own;
    }
  }

  function Max(a: nat, b: nat): nat {
    if a < b then b else a
  }

  /** The largest start among the calls and `start`. */
  ghost function Peak(calls: List<LiteralCall>, start: nat): nat {
    if calls.Nil? then start else Max(calls.head.start, Peak(calls.tail, start))
  }

  ghost predicate EndsAfter(call: LiteralCall, start: nat) {
    call.bodyEnd.Some? && start < call.bodyEnd.value
  }

  /** The names of the calls whose bodies end after every start that follows, up to `start`. */
  ghost function OpenAt(calls: List<LiteralCall>, start: nat): List<string> {
    if calls.Nil? then Nil
    else if EndsAfter(calls.head, Peak(calls.tail, start)) then Cons(calls.head.value, OpenAt(calls.tail, start))
    else OpenAt(calls.tail, start)
  }

  /** The suite path of every call of `rest`, where `earlier` are the calls before it. */
  ghost function SuitePaths(earlier: List<LiteralCall>, rest: List<LiteralCall>): List<string>
    decreases rest
  {
    if rest.Nil? then Nil
    else Cons(JoinPath(OpenAt(earlier, rest.head.start), rest.head.value),
        SuitePaths(Push(earlier, rest.head), rest.tail))
  }

  /** The names of all calls whose bodies end after `start`. */
  ghost function Enclosing(calls: List<LiteralCall>, start: nat): List<string> {
    if calls.Nil? then Nil
    else if EndsAfter(calls.head, start) then Cons(calls.head.value, Enclosing(calls.tail, start))
    else Enclosing(calls.tail, start)
  }

  ghost function NestedPaths(earlier: List<LiteralCall>, rest: List<LiteralCall>): List<string>
    decreases rest
  {
    if rest.Nil? then Nil
    else Cons(JoinPath(Enclosing(earlier, rest.head.start), rest.head.value),
        NestedPaths(Push(earlier, rest.head), rest.tail))
  }

  /** A call encloses a start when its body has an end and the start lies before it; the enclosing calls keep order. */
  lemma {:induction false} EnclosingInOrder(before: List<LiteralCall>, call: LiteralCall, after: List<LiteralCall>,
          start: nat)
    ensures Enclosing(Append(before, Cons(call, after)), start)
         == Append(Enclosing(before, start),
                   if call.bodyEnd.Some? && start < call.bodyEnd.value then Cons(call.value, Enclosing(after, start))
                   else Enclosing(after, start))
    ensures Enclosing(Nil, start) == Nil
  {
    if before.Cons? {
      EnclosingInOrder(before.tail, call, after, start);
    }
  }

  /** One path a call: its own name after those of the earlier calls that enclose its start. */
  lemma {:induction false} PathOfCall(earlier: List<LiteralCall>, before: List<LiteralCall>, call: LiteralCall,
          after: List<LiteralCall>)
    ensures var rest := Append(before, Cons(call, after));
            Size(NestedPaths(earlier, rest)) == Size(rest) > Size(before)
    ensures var paths := NestedPaths(earlier, Append(before, Cons(call, after)));
            Nth(paths, Size(before)) == JoinPath(Enclosing(Append(earlier, before), call.start), call.value)
    decreases before
  {
    SizeAppend(before, Cons(call, after));
    OnePathEach(earlier, Append(before, Cons(call, after)));
    if before.Cons? {
      PushAppend(earlier, before.head, before.tail);
      PathOfCall(Push(earlier, before.head), before.tail, call, after);
    } else {
      AppendNil(earlier);
    }
  }

  lemma {:induction false} OnePathEach(earlier: List<LiteralCall>, rest: List<LiteralCall>)
    ensures Size(NestedPaths(earlier, rest)) == Size(rest)
    decreases rest
  {
    if rest.Cons? {
      OnePathEach(Push(earlier, rest.head), rest.tail);
    }
  }

  ghost predicate NoneAfter(calls: List<LiteralCall>, start: nat) {
    calls.Cons? ==> calls.head.start <= start && NoneAfter(calls.tail, start)
  }

  ghost predicate SortedByStart(earlier: List<LiteralCall>, rest: List<LiteralCall>)
    decreases rest
  {
    rest.Cons? ==> NoneAfter(earlier, rest.head.start) && SortedByStart(Push(earlier, rest.head), rest.tail)
  }

  lemma {:induction false} RetainTwice(stack: List<Suite>, a: nat, b: nat)
    ensures Retain(Retain(stack, a), b) == Retain(stack, Max(a, b))
  {
    if stack.Cons? {
      RetainTwice(stack.tail, a, b);
    }
  }

  lemma {:induction false} RetainPush(stack: List<Suite>, s: Suite, t: nat)
    ensures Retain(Push(stack, s), t) == if t < s.end then Push(Retain(stack, t), s) else Retain(stack, t)
  {
    if stack.Cons? {
      RetainPush(stack.tail, s, t);
    }
  }

  lemma {:induction false} NamesPush(stack: List<Suite>, s: Suite)
    ensures NamesOf(Push(stack, s)) == Push(NamesOf(stack), s.name)
  {
    if stack.Cons? {
      NamesPush(stack.tail, s);
    }
  }

  lemma {:induction false} OpenAtPush(calls: List<LiteralCall>, call: LiteralCall, t: nat)
    ensures Peak(Push(calls, call), t) == Peak(calls, Max(call.start, t))
    ensures OpenAt(Push(calls, call), t)
         == if EndsAfter(call, t) then Push(OpenAt(calls, Max(call.start, t)), call.value)
             else OpenAt(calls, Max(call.start, t))
  {
    if calls.Cons? {
      OpenAtPush(calls.tail, call, t);
    }
  }

  /** The stack, pruned for any later start, names the calls open at that start. */
  ghost predicate Tracks(stack: List<Suite>, earlier: List<LiteralCall>) {
    forall t: nat :: NamesOf(Retain(stack, t)) == OpenAt(earlier, t)
  }

  lemma {:induction false} TracksNext(stack: List<Suite>, earlier: List<LiteralCall>, call: LiteralCall)
    requires Tracks(stack, earlier)
    ensures var pruned := Retain(stack, call.start);
            Tracks(if call.bodyEnd.Some? then Push(pruned, Suite(call.value, call.bodyEnd.value)) else pruned,
                   Push(earlier, call))
  {
    var pruned := Retain(stack, call.start);
    var next := if call.bodyEnd.Some? then Push(pruned, Suite(call.value, call.bodyEnd.value)) else pruned;
    forall t: nat ensures NamesOf(Retain(next, t)) == OpenAt(Push(earlier, call), t) {
      RetainTwice(stack, call.start, t);
      OpenAtPush(earlier, call, t);
      if call.bodyEnd.Some? {
        RetainPush(pruned, Suite(call.value, call.bodyEnd.value), t);
        NamesPush(Retain(pruned, t), Suite(call.value, call.bodyEnd.value));
      }
    }
  }

  /** For calls in any order: a suite is on a path when its body ends after every start since its own. */
  method DescribeHierarchy(calls: List<LiteralCall>) returns (result: List<string>)
    ensures result == SuitePaths(Nil, calls)
  {
    var stack: List<Suite> := Nil;
    result := Nil;
    var rest := calls;
    ghost var earlier: List<LiteralCall> := Nil;
    while rest.Cons?
      invariant Tracks(stack, earlier)
      invariant Append(result, SuitePaths(earlier, rest)) == SuitePaths(Nil, calls)
      decreases rest
    {
      var call := rest.head;
      TracksNext(stack, earlier, call);
      stack := Retain(stack, call.start);
      var name := if stack.Nil? then call.value else JoinPath(NamesOf(stack), call.value);
      PushAppend(result, name, SuitePaths(Push(earlier, call), rest.tail));
      result := Push(result, name);
      if call.bodyEnd.Some? {
        stack := Push(stack, Suite(call.value, call.bodyEnd.value));
      }
      earlier := Push(earlier, call);
      rest := rest.tail;
    }
    AppendNil(result);
  }

  lemma {:induction false} OpenIsEnclosing(calls: List<LiteralCall>, start: nat)
    requires NoneAfter(calls, start)
    ensures Peak(calls, start) == start && OpenAt(calls, start) == Enclosing(calls, start)
  {
    if calls.Cons? {
      OpenIsEnclosing(calls.tail, start);
    }
  }

  /** For calls sorted by start, a path is made of all earlier calls whose bodies end after the call's start. */
  lemma {:induction false} SortedCallsNest(earlier: List<LiteralCall>, rest: List<LiteralCall>)
    requires SortedByStart(earlier, rest)
    ensures SuitePaths(earlier, rest) == NestedPaths(earlier, rest)
    decreases rest
  {
    if rest.Cons? {
      OpenIsEnclosing(earlier, rest.head.start);
      SortedCallsNest(Push(earlier, rest.head), rest.tail);
    }
  }

  /** Each call starts after the one before it. */
  ghost predicate Ascending(calls: List<LiteralCall>) {
    calls.Cons? && calls.tail.Cons? ==> calls.head.start < calls.tail.head.start && Ascending(calls.tail)
  }

  lemma {:induction false} NoneAfterPush(calls: List<LiteralCall>, call: LiteralCall, later: nat)
    requires NoneAfter(calls, call.start) && call.start <= later
    ensures NoneAfter(Push(calls, call), later)
  {
    if calls.Cons? {
      NoneAfterPush(calls.tail, call, later);
    }
  }

  lemma {:induction false} AscendingIsSorted(earlier: List<LiteralCall>, rest: List<LiteralCall>)
    requires Ascending(rest) && (rest.Cons? ==> NoneAfter(earlier, rest.head.start))
    ensures SortedByStart(earlier, rest)
    decreases rest
  {
    if rest.Cons? {
      if rest.tail.Cons? {
        NoneAfterPush(earlier, rest.head, rest.tail.head.start);
      }
      AscendingIsSorted(Push(earlier, rest.head), rest.tail);
    }
  }

  // ----- Call search -----

  predicate IsWordByte(c: char) {
    'a' <= c <= 'z' || 'A' <= c <= 'Z' || '0' <= c <= '9' || c == '_' || c == '.'
  }

  predicate Occurs(s: seq<char>, needle: seq<char>, p: nat) {
    p + |needle| <= |s| && s[p..p + |needle|] == needle
  }

  /** An occurrence the code reports: not the tail of a longer word or a member access, and not in text or comments. */
  predicate Reported(s: seq<char>, needle: seq<char>, inText: nat -> bool, p: nat) {
    Occurs(s, needle, p) && (p == 0 || !IsWordByte(s[p - 1])) && !inText(p)
  }

  /** The character before an occurrence that is reported is no ASCII letter or digit, no underscore and no dot. */
  lemma {:induction false} ReportedMeans(s: seq<char>, needle: seq<char>, inText: nat -> bool, p: nat)
    requires p + |needle| <= |s|
    ensures Reported(s, needle, inText, p)
       <==> && needle <= s[p..] && !inText(p)
            && (p > 0 ==> && !('a' <= s[p - 1] <= 'z') && !('A' <= s[p - 1] <= 'Z') && !('0' <= s[p - 1] <= '9')
                          && s[p - 1] != '_' && s[p - 1] != '.')
  {
    assert s[p..][..|needle|] == s[p..p + |needle|];
  }

  /** The last character of the needle appears nowhere else in it. */
  ghost predicate EndsUniquely(needle: seq<char>) {
    needle != [] && forall i :: 0 <= i < |needle| - 1 ==> needle[i] != needle[|needle| - 1]
  }

  /** `str::find` from an offset. */
  method FindFrom(s: seq<char>, needle: seq<char>, offset: nat) returns (r: Option<nat>)
    ensures r.Some? ==> offset <= r.value && Occurs(s, needle, r.value)
    ensures forall p: nat :: offset <= p && (r.Some? ==> p < r.value) ==> !Occurs(s, needle, p)
  {
    var p := offset;
    while p + |needle| <= |s|
      invariant offset <= p
      invariant forall q: nat :: offset <= q < p ==> !Occurs(s, needle, q)
    {
      if Occurs(s, needle, p) {
        return Some(p);
      }
      p := p + 1;
    }
    return None;
  }

  lemma {:induction false} OverlapRepeats(s: seq<char>, needle: seq<char>, p: nat, q: nat)
    requires Occurs(s, needle, p) && Occurs(s, needle, q) && p < q < p + |needle|
    ensures needle[p + |needle| - 1 - q] == needle[|needle| - 1]
  {
    var last := p + |needle| - 1;
    assert s[p..p + |needle|][|needle| - 1] == s[last];
    assert s[q..q + |needle|][last - q] == s[last];
  }

  lemma {:induction false} NoOverlap(s: seq<char>, needle: seq<char>, p: nat, q: nat)
    requires EndsUniquely(needle) && Occurs(s, needle, p) && Occurs(s, needle, q) && p < q
    ensures p + |needle| <= q
  {
    if q < p + |needle| {
      OverlapRepeats(s, needle, p, q);
      assert false;
    }
  }

  /**
   Reports call sites in increasing order, and only genuine ones; when the needle cannot overlap itself
   (as any name followed by an opening bracket), it reports all of them.
   */
  method CallPositions(s: seq<char>, needle: seq<char>, inText: nat -> bool) returns (positions: seq<nat>)
    requires needle != []
    ensures forall i, j :: 0 <= i < j < |positions| ==> positions[i] < positions[j]
    ensures forall i :: 0 <= i < |positions| ==> Reported(s, needle, inText, positions[i])
    ensures EndsUniquely(needle) ==> forall p: nat :: Reported(s, needle, inText, p) ==> p in positions
  {
    positions := [];
    var offset := 0;
    while true
      invariant forall i, j :: 0 <= i < j < |positions| ==> positions[i] < positions[j]
      invariant forall i :: 0 <= i < |positions| ==> positions[i] < offset && Reported(s, needle, inText, positions[i])
      invariant EndsUniquely(needle) ==>
                  forall p: nat :: p < offset && Reported(s, needle, inText, p) ==> p in positions
      decreases |s| - offset
    {
      var found := FindFrom(s, needle, offset);
      if found.None? {
        break;
      }
      var start := found.value;
      if (start == 0 || !IsWordByte(s[start - 1])) && !inText(start) {
        positions := positions + [start];
      }
      forall p: nat | EndsUniquely(needle) && start < p && Reported(s, needle, inText, p)
        ensures start + |needle| <= p
      {
        NoOverlap(s, needle, start, p);
      }
      offset := start + |needle|;
    }
  }

  // ----- From the source text to the suite paths -----

  ghost predicate Increasing(positions: seq<nat>) {
    forall i, j :: 0 <= i < j < |positions| ==> positions[i] < positions[j]
  }

  /** The calls start at some of the positions, in order. */
  ghost predicate StartAmong(calls: List<LiteralCall>, positions: seq<nat>) {
    calls.Cons? ==>
      && positions != []
      && ((calls.head.start == positions[0] && StartAmong(calls.tail, positions[1..]))
          || StartAmong(calls, positions[1..]))
  }

  lemma {:induction false} FirstStartBound(calls: List<LiteralCall>, positions: seq<nat>)
    requires StartAmong(calls, positions) && Increasing(positions) && calls.Cons?
    ensures calls.head.start >= positions[0]
    decreases |positions|
  {
    if !(calls.head.start == positions[0]) {
      FirstStartBound(calls, positions[1..]);
      assert positions[1..][0] == positions[1];
    }
  }

  lemma {:induction false} FoundCallsAscend(calls: List<LiteralCall>, positions: seq<nat>)
    requires StartAmong(calls, positions) && Increasing(positions)
    ensures Ascending(calls)
    decreases |positions|
  {
    if calls.Cons? {
      if calls.head.start == positions[0] && StartAmong(calls.tail, positions[1..]) {
        FoundCallsAscend(calls.tail, positions[1..]);
        if calls.tail.Cons? {
          FirstStartBound(calls.tail, positions[1..]);
          assert positions[1..][0] == positions[1];
        }
      } else {
        FoundCallsAscend(calls, positions[1..]);
      }
    }
  }

  /** The suite paths of calls found at increasing positions are those of plain containment. */
  lemma {:induction false} FoundCallsNest(calls: List<LiteralCall>, positions: seq<nat>)
    requires StartAmong(calls, positions) && Increasing(positions)
    ensures SuitePaths(Nil, calls) == NestedPaths(Nil, calls)
  {
    FoundCallsAscend(calls, positions);
    AscendingIsSorted(Nil, calls);
    SortedCallsNest(Nil, calls);
  }

  /** The name and the end of the body of the call at a position, if its first argument is a literal. */
  type CallReader = nat -> Option<(string, Option<nat>)>

  function CallsAt(positions: seq<nat>, reader: CallReader): List<LiteralCall> {
    if positions == [] then Nil
    else if reader(positions[0]).None? then CallsAt(positions[1..], reader)
    else
      var (value, bodyEnd) := reader(positions[0]).value;
      Cons(LiteralCall(value, positions[0], bodyEnd), CallsAt(positions[1..], reader))
  }

  lemma {:induction false} CallsStartAmong(positions: seq<nat>, reader: CallReader)
    ensures StartAmong(CallsAt(positions, reader), positions)
  {
    if positions != [] {
      CallsStartAmong(positions[1..], reader);
    }
  }

  /** The call at each position counts, with that position, exactly when the reader finds a literal name there. */
  lemma {:induction false} CallAtPosition(before: seq<nat>, p: nat, after: seq<nat>, reader: CallReader)
    ensures CallsAt(before + [p] + after, reader)
         == Append(CallsAt(before, reader),
                   match reader(p)
                   case None => CallsAt(after, reader)
                   case Some((value, bodyEnd)) => Cons(LiteralCall(value, p, bodyEnd), CallsAt(after, reader)))
  {
    if before == [] {
      assert before + [p] + after == [p] + after && ([p] + after)[1..] == after;
    } else {
      CallAtPosition(before[1..], p, after, reader);
      assert (before + [p] + after)[1..] == before[1..] + [p] + after;
    }
  }

  /** The calls with a literal name, and nothing else, in order of position. */
  method CollectLiteralCalls(s: seq<char>, needle: seq<char>, inText: nat -> bool, reader: CallReader)
    returns (calls: List<LiteralCall>, ghost positions: seq<nat>)
    requires needle != []
    ensures Increasing(positions) && calls == CallsAt(positions, reader)
    ensures forall i :: 0 <= i < |positions| ==> Reported(s, needle, inText, positions[i])
    ensures EndsUniquely(needle) ==> forall p: nat :: Reported(s, needle, inText, p) ==> p in positions
  {
    var found := CallPositions(s, needle, inText);
    positions := found;
    calls := Nil;
    var i := 0;
    while i < |found|
      invariant i <= |found|
      invariant Append(calls, CallsAt(found[i..], reader)) == CallsAt(found, reader)
    {
      var call := reader(found[i]);
      assert found[i..][1..] == found[i + 1..];
      if call.Some? {
        var (value, bodyEnd) := call.value;
        PushAppend(calls, LiteralCall(value, found[i], bodyEnd), CallsAt(found[i + 1..], reader));
        calls := Push(calls, LiteralCall(value, found[i], bodyEnd));
      }
      i := i + 1;
    }
    AppendNil(calls);
  }

  /** The suite paths of a source: each suite with all the suites whose bodies it lies in. */
  method Suites(s: seq<char>, needle: seq<char>, inText: nat -> bool, reader: CallReader)
    returns (paths: List<string>, ghost positions: seq<nat>)
    requires needle != []
    ensures Increasing(positions) && forall i :: 0 <= i < |positions| ==> Reported(s, needle, inText, positions[i])
    ensures EndsUniquely(needle) ==> forall p: nat :: Reported(s, needle, inText, p) ==> p in positions
    ensures paths == NestedPaths(Nil, CallsAt(positions, reader))
  {
    var calls;
    calls, positions := CollectLiteralCalls(s, needle, inText, reader);
    paths := DescribeHierarchy(calls);
    CallsStartAmong(positions, reader);
    FoundCallsNest(calls, positions);
  }
}
