/**
 The line-filter pipeline of the proxy (proxy/src/filters.rs): replacement, collapsing, selection, grouping,
 caps and a fallback. Regular expressions are predicates and functions on lines.
 */
module Filters {
  import opened Prelude
  import opened Lines
  import opened OrderedUnion

  // ----- Grouping -----

  /** `key` is none for lines the pattern does not match; `marker` is the label for a number of omitted groups. */
  datatype GroupBy = GroupBy(key: Text -> Option<Text>, maxPerGroup: nat, maxGroups: nat, marker: nat -> Text)

  function KeysOf(key: Text -> Option<Text>, lines: List<Text>): List<Text> {
    if lines.Nil? then Nil
    else if key(lines.head).None? then KeysOf(key, lines.tail)
    else Cons(key(lines.head).value, KeysOf(key, lines.tail))
  }

  /** The distinct keys, in order of first appearance. */
  function GroupOrder(key: Text -> Option<Text>, lines: List<Text>): List<Text> {
    Union(Nil, KeysOf(key, lines))
  }

  /** The lines with key `k`, in order. */
  function GroupOf(key: Text -> Option<Text>, lines: List<Text>, k: Text): List<Text> {
    if lines.Nil? then Nil
    else if key(lines.head) == Some(k) then Cons(lines.head, GroupOf(key, lines.tail, k))
    else GroupOf(key, lines.tail, k)
  }

  /** At most `n` lines of each group, group after group. */
  function Blocks(key: Text -> Option<Text>, lines: List<Text>, n: nat, keys: List<Text>): List<Text> {
    if keys.Nil? then Nil else Append(Take(GroupOf(key, lines, keys.head), n), Blocks(key, lines, n, keys.tail))
  }

  /** The simple specification of grouping. */
  function Grouped(gb: GroupBy, lines: List<Text>): List<Text> {
    var keys := GroupOrder(gb.key, lines);
    Append(Blocks(gb.key, lines, gb.maxPerGroup, Take(keys, gb.maxGroups)),
           if Size(keys) > gb.maxGroups then Cons(gb.marker(Size(keys) - gb.maxGroups), Nil) else Nil)
  }

  type Buckets = map<Text, List<Text>>

  function BucketOf(groups: Buckets, k: Text): List<Text> {
    if k in groups then groups[k] else Nil
  }

  /** With the lines still to come, bucket `k` becomes the first `n` lines of its group. */
  ghost predicate BucketFits(groups: Buckets, key: Text -> Option<Text>, all: List<Text>, rest: List<Text>, n: nat,
          k: Text)
  {
    && Size(BucketOf(groups, k)) <= n
    && Take(Append(BucketOf(groups, k), GroupOf(key, rest, k)), n) == Take(GroupOf(key, all, k), n)
  }

  ghost predicate BucketsFit(groups: Buckets, key: Text -> Option<Text>, all: List<Text>, rest: List<Text>, n: nat) {
    forall k :: BucketFits(groups, key, all, rest, n, k)
  }

  ghost predicate SameKeys(groups: Buckets, order: List<Text>) {
    forall k :: k in groups <==> Has(order, k)
  }

  lemma {:induction false} TakeFull<T>(a: List<T>, b: List<T>, c: List<T>, n: nat)
    requires Size(a) >= n
    ensures Take(Append(a, b), n) == Take(Append(a, c), n)
  {
    if n > 0 {
      TakeFull(a.tail, b, c, n - 1);
    }
  }

  /** Pushing the next line of a group unless its bucket is full. */
  lemma {:induction false} BucketStep(bucket: List<Text>, line: Text, more: List<Text>, n: nat)
    requires Size(bucket) <= n
    ensures var next := if Size(bucket) < n then Push(bucket, line) else bucket;
            Size(next) <= n && Take(Append(next, more), n) == Take(Append(bucket, Cons(line, more)), n)
  {
    if Size(bucket) < n {
      SizePush(bucket, line);
      PushAppend(bucket, line, more);
    } else {
      TakeFull(bucket, more, Cons(line, more), n);
    }
  }

  /** The loop that fills the buckets. */
  method FillBuckets(gb: GroupBy, lines: List<Text>) returns (groups: Buckets, order: List<Text>)
    ensures order == GroupOrder(gb.key, lines) && SameKeys(groups, order)
    ensures BucketsFit(groups, gb.key, lines, Nil, gb.maxPerGroup)
  {
    groups, order := map[], Nil;
    var rest := lines;
    while rest.Cons?
      invariant Union(order, KeysOf(gb.key, rest)) == GroupOrder(gb.key, lines)
      invariant SameKeys(groups, order)
      invariant BucketsFit(groups, gb.key, lines, rest, gb.maxPerGroup)
      decreases rest
    {
      var line := rest.head;
      ghost var before, beforeOrder := groups, order;
      var key := gb.key(line);
      if key.Some? {
        var k := key.value;
        if k !in groups {
          order := Push(order, k);
          groups := groups[k := Nil];
        }
        var bucket := groups[k];
        if Size(bucket) < gb.maxPerGroup {
          groups := groups[k := Push(bucket, line)];
        }
        assert SameKeys(groups, order) by { OrderGrows(before, beforeOrder, groups, order, k); }
        BucketsStep(before, groups, gb.key, lines, rest, gb.maxPerGroup, k);
      } else {
        assert BucketsFit(groups, gb.key, lines, rest.tail, gb.maxPerGroup) by {
          forall k ensures BucketFits(groups, gb.key, lines, rest.tail, gb.maxPerGroup, k) {
            assert BucketFits(groups, gb.key, lines, rest, gb.maxPerGroup, k);
          }
        }
      }
      rest := rest.tail;
    }
  }

  lemma {:induction false} OrderGrows(before: Buckets, order: List<Text>, after: Buckets, order': List<Text>, k: Text)
    requires SameKeys(before, order) && order' == PushNew(order, k) && after.Keys == before.Keys + {k}
    ensures SameKeys(after, order')
  {
    forall x ensures x in after <==> Has(order', x) {
      PushMembers(order, k, x);
      assert x in before <==> Has(order, x);
    }
  }

  lemma {:induction false} BucketsStep(before: Buckets, after: Buckets, key: Text -> Option<Text>, all: List<Text>,
          rest: List<Text>, n: nat, k: Text)
    requires rest.Cons? && key(rest.head) == Some(k) && BucketsFit(before, key, all, rest, n)
    requires forall x :: x != k ==> BucketOf(after, x) == BucketOf(before, x)
    requires BucketOf(after, k) == if Size(BucketOf(before, k)) < n then Push(BucketOf(before, k), rest.head)
              else BucketOf(before, k)
    ensures BucketsFit(after, key, all, rest.tail, n)
  {
    forall x ensures BucketFits(after, key, all, rest.tail, n, x) {
      assert BucketFits(before, key, all, rest, n, x);
      if x == k {
        BucketStep(BucketOf(before, k), rest.head, GroupOf(key, rest.tail, k), n);
      }
    }
  }

  lemma {:induction false} FilledBucket(groups: Buckets, key: Text -> Option<Text>, lines: List<Text>, n: nat, k: Text)
    requires BucketFits(groups, key, lines, Nil, n, k)
    ensures BucketOf(groups, k) == Take(GroupOf(key, lines, k), n)
  {
    AppendNil(BucketOf(groups, k));
    TakeFacts(BucketOf(groups, k), n);
  }

  /** The whole of grouping, on the text. */
  method ApplyGroupBy(gb: GroupBy, content: Text) returns (r: Text)
    ensures r == JoinLines(Grouped(gb, LinesOf(content)))
  {
    var lines := LinesOf(content);
    var groups, order := FillBuckets(gb, lines);
    var result, groupsUsed, rest := Nil, 0, order;
    ghost var kept := Blocks(gb.key, lines, gb.maxPerGroup, Take(order, gb.maxGroups));
    while rest.Cons? && groupsUsed < gb.maxGroups
      invariant groupsUsed <= gb.maxGroups
      invariant forall k :: Has(rest, k) ==> k in groups
      invariant Append(result, Blocks(gb.key, lines, gb.maxPerGroup, Take(rest, gb.maxGroups - groupsUsed))) == kept
      decreases rest
    {
      var k := rest.head;
      if k in groups {
        assert BucketFits(groups, gb.key, lines, Nil, gb.maxPerGroup, k);
        FilledBucket(groups, gb.key, lines, gb.maxPerGroup, k);
        AppendAssociative(result, groups[k],
            Blocks(gb.key, lines, gb.maxPerGroup, Take(rest.tail, gb.maxGroups - groupsUsed - 1)));
        result := Append(result, groups[k]);
        groupsUsed := groupsUsed + 1;
      }
      rest := rest.tail;
    }
    AppendNil(result);
    if Size(order) > gb.maxGroups {
      var omitted := Size(order) - gb.maxGroups;
      PushAppend(result, gb.marker(omitted), Nil);
      AppendNil(Push(result, gb.marker(omitted)));
      result := Push(result, gb.marker(omitted));
    }
    r := JoinLines(result);
  }

  // ----- What grouping keeps -----

  function Count(l: List<Text>, x: Text): nat {
    if l.Nil? then 0 else (if l.head == x then 1 else 0) + Count(l.tail, x)
  }

  lemma {:induction false} CountAppend(a: List<Text>, b: List<Text>, x: Text)
    ensures Count(Append(a, b), x) == Count(a, x) + Count(b, x)
  {
    if a.Cons? {
      CountAppend(a.tail, b, x);
    }
  }

  lemma {:induction false} CountInGroup(key: Text -> Option<Text>, lines: List<Text>, k: Text, x: Text)
    ensures Count(GroupOf(key, lines, k), x) == if key(x) == Some(k) then Count(lines, x) else 0
  {
    if lines.Cons? {
      CountInGroup(key, lines.tail, k, x);
    }
  }

  lemma {:induction false} KeyIsListed(key: Text -> Option<Text>, lines: List<Text>, x: Text)
    requires key(x).Some? && Count(lines, x) > 0
    ensures Has(KeysOf(key, lines), key(x).value)
  {
    if lines.head != x {
      KeyIsListed(key, lines.tail, x);
    }
  }

  /** No group is larger than `n`. */
  ghost predicate GroupsFit(key: Text -> Option<Text>, lines: List<Text>, n: nat, keys: List<Text>) {
    keys.Cons? ==> Size(GroupOf(key, lines, keys.head)) <= n && GroupsFit(key, lines, n, keys.tail)
  }

  lemma {:induction false} CountInBlocks(key: Text -> Option<Text>, lines: List<Text>, n: nat, keys: List<Text>,
          x: Text)
    requires Distinct(keys) && GroupsFit(key, lines, n, keys)
    ensures Count(Blocks(key, lines, n, keys), x)
         == if key(x).Some? && Has(keys, key(x).value) then Count(lines, x) else 0
  {
    if keys.Cons? {
      TakeFacts(GroupOf(key, lines, keys.head), n);
      CountAppend(GroupOf(key, lines, keys.head), Blocks(key, lines, n, keys.tail), x);
      CountInGroup(key, lines, keys.head, x);
      CountInBlocks(key, lines, n, keys.tail, x);
    }
  }

  /**
   Within its limits, grouping only reorders: every line with a key comes out as often as it went in, no other
   does.
   */
  lemma {:induction false} GroupingConserves(gb: GroupBy, lines: List<Text>, x: Text)
    requires Size(GroupOrder(gb.key, lines)) <= gb.maxGroups
    requires GroupsFit(gb.key, lines, gb.maxPerGroup, GroupOrder(gb.key, lines))
    ensures Count(Grouped(gb, lines), x) == if gb.key(x).Some? then Count(lines, x) else 0
  {
    var keys := GroupOrder(gb.key, lines);
    TakeFacts(keys, gb.maxGroups);
    AppendNil(Blocks(gb.key, lines, gb.maxPerGroup, keys));
    UnionKeepsDistinct(Nil, KeysOf(gb.key, lines));
    CountInBlocks(gb.key, lines, gb.maxPerGroup, keys, x);
    if gb.key(x).Some? && Count(lines, x) > 0 {
      KeyIsListed(gb.key, lines, x);
      UnionMembers(Nil, KeysOf(gb.key, lines), gb.key(x).value);
    }
  }

  lemma {:induction false} OneMoreTime(a: nat, n: nat)
    ensures (1 + a) * n == n + a * n
  {
  }

  lemma {:induction false} FewerTimes(a: nat, b: nat, n: nat)
    requires a <= b
    ensures a * n <= b * n
  {
  }

  lemma {:induction false} BlocksSize(key: Text -> Option<Text>, lines: List<Text>, n: nat, keys: List<Text>)
    ensures Size(Blocks(key, lines, n, keys)) <= Size(keys) * n
  {
    if keys.Cons? {
      var earlier := Size(keys.tail) * n;
      assert Size(keys) * n == n + earlier by {
        OneMoreTime(Size(keys.tail), n);
      }
      assert Size(Blocks(key, lines, n, keys)) <= n + earlier by {
        SizeAppend(Take(GroupOf(key, lines, keys.head), n), Blocks(key, lines, n, keys.tail));
        TakeFacts(GroupOf(key, lines, keys.head), n);
        BlocksSize(key, lines, n, keys.tail);
      }
    }
  }

  lemma {:induction false} GroupedSize(gb: GroupBy, lines: List<Text>)
    ensures var keys := GroupOrder(gb.key, lines);
            Size(Grouped(gb, lines)) == Size(Blocks(gb.key, lines, gb.maxPerGroup, Take(keys, gb.maxGroups)))
                                        + One(Size(keys) > gb.maxGroups)
  {
    var keys := GroupOrder(gb.key, lines);
    SizeAppend(Blocks(gb.key, lines, gb.maxPerGroup, Take(keys, gb.maxGroups)),
               if Size(keys) > gb.maxGroups then Cons(gb.marker(Size(keys) - gb.maxGroups), Nil) else Nil);
  }

  /** Grouping keeps no more lines than its limits allow, plus one marker exactly when keys were omitted. */
  lemma {:induction false} GroupingIsBounded(gb: GroupBy, lines: List<Text>)
    ensures Size(Grouped(gb, lines))
         <= gb.maxGroups * gb.maxPerGroup + One(Size(GroupOrder(gb.key, lines)) > gb.maxGroups)
  {
    var keys := GroupOrder(gb.key, lines);
    var kept := Size(Blocks(gb.key, lines, gb.maxPerGroup, Take(keys, gb.maxGroups)));
    assert kept <= gb.maxGroups * gb.maxPerGroup by {
      BlocksSize(gb.key, lines, gb.maxPerGroup, Take(keys, gb.maxGroups));
      TakeFacts(keys, gb.maxGroups);
      FewerTimes(Size(Take(keys, gb.maxGroups)), gb.maxGroups, gb.maxPerGroup);
    }
    GroupedSize(gb, lines);
  }

  // ----- The pipeline -----

  datatype CollapseRule = CollapseRule(pattern: Text -> bool, unless: Option<Text -> bool>, message: Text)

  datatype Filter = Filter(
    stripAnsi: Option<Text -> Text>, replace: List<Text -> Text>, matchOutput: List<CollapseRule>,
    keepLines: List<Text -> bool>, stripLines: List<Text -> bool>, groupBy: Option<GroupBy>,
    headLines: Option<nat>, tailLines: Option<nat>, maxLines: Option<nat>, onEmpty: Option<Text>)

  /** The result, without token estimates. */
  datatype FilterResult = FilterResult(
    content: Text, originalLines: nat, filteredLines: nat, truncated: bool, collapsed: bool)

  function LineCount(t: Text): nat {
    Size(LinesOf(t))
  }

  function MapLines(f: Text -> Text, lines: List<Text>): List<Text> {
    if lines.Nil? then Nil else Cons(f(lines.head), MapLines(f, lines.tail))
  }

  /** Line-by-line substitution. */
  function ApplyReplace(replacement: Text -> Text, t: Text): Text {
    JoinLines(MapLines(replacement, LinesOf(t)))
  }

  function Replaced(rules: List<Text -> Text>, t: Text): Text
    decreases rules
  {
    if rules.Nil? then t else Replaced(rules.tail, ApplyReplace(rules.head, t))
  }

  /** What the pipeline works on after the first two steps. */
  function Cleaned(f: Filter, content: Text): Text {
    Replaced(f.replace, if f.stripAnsi.Some? then f.stripAnsi.value(content) else content)
  }

  predicate Fires(rule: CollapseRule, t: Text) {
    rule.pattern(t) && !(rule.unless.Some? && rule.unless.value(t))
  }

  /** The message of the first rule that fires. */
  function Collapse(rules: List<CollapseRule>, t: Text): Option<Text> {
    if rules.Nil? then None else if Fires(rules.head, t) then Some(rules.head.message) else Collapse(rules.tail, t)
  }

  predicate AnyMatch(patterns: List<Text -> bool>, line: Text) {
    patterns.Cons? && (patterns.head(line) || AnyMatch(patterns.tail, line))
  }

  /** With keep rules, those alone decide. */
  predicate Wanted(f: Filter, line: Text) {
    if f.keepLines.Cons? then AnyMatch(f.keepLines, line) else !AnyMatch(f.stripLines, line)
  }

  function WantedLines(f: Filter, lines: List<Text>): List<Text> {
    if lines.Nil? then Nil
    else if Wanted(f, lines.head) then Cons(lines.head, WantedLines(f, lines.tail))
    else WantedLines(f, lines.tail)
  }

  function Selected(f: Filter, t: Text): Text {
    if f.keepLines.Nil? && f.stripLines.Nil? then t else JoinLines(WantedLines(f, LinesOf(t)))
  }

  predicate Blank(t: Text) {
    t.Cons? ==> IsWhitespace(t.head) && Blank(t.tail)
  }

  /** The text that reaches the caps. */
  function Uncapped(f: Filter, content: Text): Text {
    var t := Selected(f, Cleaned(f, content));
    if f.groupBy.None? then t else JoinLines(Grouped(f.groupBy.value, LinesOf(t)))
  }

  predicate Exceeds(t: Text, n: Option<nat>) {
    n.Some? && LineCount(t) > n.value
  }

  function FirstLines(t: Text, n: Option<nat>): Text {
    if Exceeds(t, n) then JoinLines(Take(LinesOf(t), n.value)) else t
  }

  function LastLines(t: Text, n: Option<nat>): Text {
    if Exceeds(t, n) then JoinLines(Drop(LinesOf(t), LineCount(t) - n.value)) else t
  }

  function Capped(f: Filter, t: Text): Text {
    FirstLines(LastLines(FirstLines(t, f.headLines), f.tailLines), f.maxLines)
  }

  predicate Within(lines: nat, n: Option<nat>) {
    n.Some? ==> lines <= n.value
  }

  predicate WithinCaps(f: Filter, lines: nat) {
    Within(lines, f.headLines) && Within(lines, f.tailLines) && Within(lines, f.maxLines)
  }

  lemma {:induction false} CutFacts(t: Text, n: Option<nat>)
    ensures Within(LineCount(FirstLines(t, n)), n) && Within(LineCount(LastLines(t, n)), n)
    ensures LineCount(FirstLines(t, n)) <= LineCount(t) && LineCount(LastLines(t, n)) <= LineCount(t)
    ensures LineCount(FirstLines(t, n)) < LineCount(t) <==> Exceeds(t, n)
    ensures LineCount(LastLines(t, n)) < LineCount(t) <==> Exceeds(t, n)
  {
    if Exceeds(t, n) {
      LinesAreOneLine(t);
      PartsAreOneLine(LinesOf(t), n.value);
      PartsAreOneLine(LinesOf(t), LineCount(t) - n.value);
      TakeFacts(LinesOf(t), n.value);
      TakeFacts(LinesOf(t), LineCount(t) - n.value);
      JoinAddsNoLines(Take(LinesOf(t), n.value));
      JoinAddsNoLines(Drop(LinesOf(t), LineCount(t) - n.value));
    }
  }

  /** The caps bound the number of lines, and leave the text as it is unless they drop some. */
  lemma {:induction false} CapsBoundLines(f: Filter, t: Text)
    ensures WithinCaps(f, LineCount(Capped(f, t))) && LineCount(Capped(f, t)) <= LineCount(t)
    ensures LineCount(Capped(f, t)) == LineCount(t) ==> Capped(f, t) == t
  {
    CutFacts(t, f.headLines);
    CutFacts(FirstLines(t, f.headLines), f.tailLines);
    CutFacts(LastLines(FirstLines(t, f.headLines), f.tailLines), f.maxLines);
  }

  // ----- The kept lines are consecutive -----

  ghost predicate Consecutive(part: List<Text>, whole: List<Text>) {
    exists before, after :: whole == Append(before, Append(part, after))
  }

  lemma {:induction false} ConsecutiveTransitive(a: List<Text>, b: List<Text>, c: List<Text>)
    requires Consecutive(a, b) && Consecutive(b, c)
    ensures Consecutive(a, c)
  {
    var p, q :| b == Append(p, Append(a, q));
    var p', q' :| c == Append(p', Append(b, q'));
    AppendAssociative(p, Append(a, q), q');
    AppendAssociative(a, q, q');
    AppendAssociative(p', p, Append(a, Append(q, q')));
    assert c == Append(Append(p', p), Append(a, Append(q, q')));
  }

  lemma {:induction false} BlankEndIsDropped(lines: List<Text>)
    ensures lines == Append(WithoutBlankEnd(lines), Nil) || lines == Append(WithoutBlankEnd(lines), Cons(Nil, Nil))
    ensures NoReturns(lines) ==> NoReturns(WithoutBlankEnd(lines))
  {
    if lines.Cons? {
      BlankEndIsDropped(lines.tail);
    }
  }

  lemma {:induction false} PartsHaveNoReturns(lines: List<Text>, n: nat)
    requires NoReturns(lines)
    ensures NoReturns(Take(lines, n)) && NoReturns(Drop(lines, n))
  {
    if n > 0 && lines.Cons? {
      PartsHaveNoReturns(lines.tail, n - 1);
    }
  }

  lemma {:induction false} PartSurvivesJoin(before: List<Text>, part: List<Text>, after: List<Text>)
    requires AllOneLine(part) && NoReturns(part)
    ensures Consecutive(LinesOf(JoinLines(part)), Append(before, Append(part, after)))
    ensures NoReturns(LinesOf(JoinLines(part)))
  {
    SplitUndoesJoin(part);
    BlankEndIsDropped(part);
    AppendAssociative(WithoutBlankEnd(part), Nil, after);
    AppendAssociative(WithoutBlankEnd(part), Cons(Nil, Nil), after);
  }

  lemma {:induction false} CutIsConsecutive(t: Text, n: Option<nat>)
    requires NoReturns(LinesOf(t))
    ensures Consecutive(LinesOf(FirstLines(t, n)), LinesOf(t)) && NoReturns(LinesOf(FirstLines(t, n)))
    ensures Consecutive(LinesOf(LastLines(t, n)), LinesOf(t)) && NoReturns(LinesOf(LastLines(t, n)))
  {
    var lines := LinesOf(t);
    if Exceeds(t, n) {
      var m := LineCount(t) - n.value;
      LinesAreOneLine(t);
      PartsAreOneLine(lines, n.value);
      PartsAreOneLine(lines, m);
      PartsHaveNoReturns(lines, n.value);
      PartsHaveNoReturns(lines, m);
      TakeFacts(lines, n.value);
      TakeFacts(lines, m);
      AppendNil(Drop(lines, m));
      PartSurvivesJoin(Nil, Take(lines, n.value), Drop(lines, n.value));
      PartSurvivesJoin(Take(lines, m), Drop(lines, m), Nil);
    } else {
      AppendNil(lines);
      assert lines == Append(Nil, Append(lines, Nil));
    }
  }

  /** On lines that end in no carriage return, the caps keep consecutive lines, unchanged. */
  lemma {:induction false} CapsKeepConsecutiveLines(f: Filter, t: Text)
    requires NoReturns(LinesOf(t))
    ensures Consecutive(LinesOf(Capped(f, t)), LinesOf(t))
  {
    var a := FirstLines(t, f.headLines);
    var b := LastLines(a, f.tailLines);
    CutIsConsecutive(t, f.headLines);
    CutIsConsecutive(a, f.tailLines);
    CutIsConsecutive(b, f.maxLines);
    ConsecutiveTransitive(LinesOf(b), LinesOf(a), LinesOf(t));
    ConsecutiveTransitive(LinesOf(Capped(f, t)), LinesOf(b), LinesOf(t));
  }

  // ----- The steps -----

  method MatchOutput(rules: List<CollapseRule>, t: Text) returns (r: Text, collapsed: bool)
    ensures collapsed == Collapse(rules, t).Some?
    ensures r == if collapsed then Collapse(rules, t).value else t
  {
    r, collapsed := t, false;
    var rest := rules;
    while rest.Cons? && !collapsed
      invariant !collapsed ==> r == t && Collapse(rest, t) == Collapse(rules, t)
      invariant collapsed ==> Collapse(rules, t) == Some(r)
      decreases rest, !collapsed
    {
      if rest.head.pattern(t) {
        var suppressed := if rest.head.unless.Some? then rest.head.unless.value(t) else false;
        if !suppressed {
          r, collapsed := rest.head.message, true;
        }
      }
      rest := rest.tail;
    }
  }

  method SelectLines(f: Filter, t: Text) returns (r: Text)
    ensures r == Selected(f, t)
  {
    r := t;
    if f.keepLines.Cons? || f.stripLines.Cons? {
      var kept, rest := Nil, LinesOf(t);
      while rest.Cons?
        invariant Append(kept, WantedLines(f, rest)) == WantedLines(f, LinesOf(t))
        decreases rest
      {
        var line := rest.head;
        PushAppend(kept, line, WantedLines(f, rest.tail));
        if f.keepLines.Cons? {
          if AnyMatch(f.keepLines, line) {
            kept := Push(kept, line);
          }
        } else if !AnyMatch(f.stripLines, line) {
          kept := Push(kept, line);
        }
        rest := rest.tail;
      }
      AppendNil(kept);
      r := JoinLines(kept);
    }
  }

  /** The text before the fallback. */
  function Outcome(f: Filter, content: Text, failed: bool): Text {
    var message := Collapse(f.matchOutput, Cleaned(f, content));
    if !failed && message.Some? then message.value else Capped(f, Uncapped(f, content))
  }

  predicate FallsBack(f: Filter, t: Text) {
    f.onEmpty.Some? && Blank(t)
  }

  /** Caps apply unless the output collapsed or fell back; `truncated` says exactly whether they cost lines. */
  method ApplyFilter(f: Filter, content: Text, failed: bool) returns (r: FilterResult)
    ensures r.collapsed <==> !failed && Collapse(f.matchOutput, Cleaned(f, content)).Some?
    ensures r.content == var t := Outcome(f, content, failed); if FallsBack(f, t) then f.onEmpty.value else t
    ensures r.originalLines == LineCount(content) && r.filteredLines == LineCount(r.content)
    ensures !r.collapsed && !FallsBack(f, Outcome(f, content, failed)) ==> WithinCaps(f, r.filteredLines)
    ensures r.truncated
       <==> !r.collapsed && LineCount(Capped(f, Uncapped(f, content))) < LineCount(Uncapped(f, content))
  {
    var current, truncated, collapsed := content, false, false;
    if f.stripAnsi.Some? {
      current := f.stripAnsi.value(current);
    }
    var rules := f.replace;
    while rules.Cons?
      invariant Replaced(rules, current) == Cleaned(f, content)
      decreases rules
    {
      current := ApplyReplace(rules.head, current);
      rules := rules.tail;
    }
    if !failed {
      current, collapsed := MatchOutput(f.matchOutput, current);
    }
    if !collapsed {
      current := SelectLines(f, current);
      if f.groupBy.Some? {
        current := ApplyGroupBy(f.groupBy.value, current);
      }
      current, truncated := ApplyCaps(f, current);
    }
    CapsBoundLines(f, Uncapped(f, content));
    if Blank(current) {
      if f.onEmpty.Some? {
        current := f.onEmpty.value;
      }
    }
    r := FilterResult(current, LineCount(content), LineCount(current), truncated, collapsed);
  }

  method ApplyCaps(f: Filter, t: Text) returns (r: Text, truncated: bool)
    ensures r == Capped(f, t)
    ensures truncated <==> LineCount(r) < LineCount(t)
  {
    r, truncated := t, false;
    CutFacts(r, f.headLines);
    if f.headLines.Some? {
      var lines := LinesOf(r);
      if Size(lines) > f.headLines.value {
        r := JoinLines(Take(lines, f.headLines.value));
        truncated := true;
      }
    }
    CutFacts(r, f.tailLines);
    if f.tailLines.Some? {
      var lines := LinesOf(r);
      if Size(lines) > f.tailLines.value {
        r := JoinLines(Drop(lines, Size(lines) - f.tailLines.value));
        truncated := true;
      }
    }
    CutFacts(r, f.maxLines);
    if f.maxLines.Some? {
      var lines := LinesOf(r);
      if Size(lines) > f.maxLines.value {
        r := JoinLines(Take(lines, f.maxLines.value));
        truncated := true;
      }
    }
  }
}
