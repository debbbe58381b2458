/**
 What the line filters do (proxy/src/filters.rs), told from the rules and the lines: which rule decides, which lines
 are kept by a group, a head or a tail, and in which order the steps follow each other.
 */
module FilterRules {
  import opened Prelude
  import opened Lines
  import opened OrderedUnion
  import opened Filters

  // ----- Splitting and joining -----

  /** A text without one line break at its end, if it has one. */
  function WithoutFinalBreak(t: Text): Text {
    if t.Nil? || t == Cons('\n', Nil) then Nil else Cons(t.head, WithoutFinalBreak(t.tail))
  }

  lemma {:induction false} FirstLineAndRest(t: Text)
    ensures t == Append(FirstLine(t), FromBreak(t))
    ensures FromBreak(t).Cons? ==> FromBreak(t).head == '\n'
    ensures !Has(t, '\r') ==> !Has(FirstLine(t), '\r') && !Has(FromBreak(t), '\r')
  {
    if t.Cons? {
      FirstLineAndRest(t.tail);
    }
  }

  lemma {:induction false} NothingReturned(line: Text)
    requires !Has(line, '\r')
    ensures WithoutReturn(line) == line
  {
    if line.Cons? {
      NothingReturned(line.tail);
    }
  }

  /** A carriage return before a line break goes, and only that one. */
  lemma {:induction false} ReturnIsDropped(line: Text)
    ensures WithoutReturn(Push(line, '\r')) == line
    ensures WithoutReturn(line) != line ==> line == Push(WithoutReturn(line), '\r')
  {
    if line.Cons? {
      ReturnIsDropped(line.tail);
    }
  }

  lemma {:induction false} FinalBreakOfAppend(a: Text, b: Text)
    requires b.Cons? && b.tail.Cons?
    ensures WithoutFinalBreak(Append(a, b)) == Append(a, WithoutFinalBreak(b))
  {
    if a.Cons? {
      FinalBreakOfAppend(a.tail, b);
    }
  }

  lemma {:induction false} OnlyFinalBreak(a: Text)
    requires OneLine(a)
    ensures WithoutFinalBreak(a) == a
    ensures WithoutFinalBreak(Append(a, Cons('\n', Nil))) == a
  {
    if a.Cons? {
      OnlyFinalBreak(a.tail);
    }
  }

  /** Joining undoes splitting, up to one line break at the end, on texts without carriage returns. */
  lemma {:induction false} JoinUndoesSplit(t: Text)
    requires !Has(t, '\r')
    ensures JoinLines(LinesOf(t)) == WithoutFinalBreak(t)
    decreases Size(t)
  {
    if t.Cons? {
      var line, rest := FirstLine(t), FromBreak(t);
      FirstLineAndRest(t);
      FirstLineIsOneLine(t);
      NothingReturned(line);
      if rest.Nil? {
        AppendNil(line);
        OnlyFinalBreak(line);
      } else if rest.tail.Nil? {
        OnlyFinalBreak(line);
      } else {
        JoinUndoesSplit(rest.tail);
        FinalBreakOfAppend(line, rest);
        assert LinesOf(rest.tail).Cons?;
      }
    }
  }

  // ----- Which rule decides -----

  /** No rule before the `k`-th fires, and it does. */
  ghost predicate FirstToFire(rules: List<CollapseRule>, t: Text, k: nat) {
    && k < Size(rules)
    && Nth(rules, k).pattern(t) && (Nth(rules, k).unless.Some? ==> !Nth(rules, k).unless.value(t))
    && forall i :: 0 <= i < k ==>
         !Nth(rules, i).pattern(t) || (Nth(rules, i).unless.Some? && Nth(rules, i).unless.value(t))
  }

  /** The output collapses to the message of the first rule that matches it and is not suppressed, if there is one. */
  lemma {:induction false} FirstRuleCollapses(rules: List<CollapseRule>, t: Text, k: nat)
    ensures FirstToFire(rules, t, k) ==> Collapse(rules, t) == Some(Nth(rules, k).message)
    ensures Collapse(rules, t).None? && k < Size(rules) ==>
              !Nth(rules, k).pattern(t) || (Nth(rules, k).unless.Some? && Nth(rules, k).unless.value(t))
  {
    if k > 0 && rules.Cons? {
      FirstRuleCollapses(rules.tail, t, k - 1);
      if FirstToFire(rules, t, k) {
        assert Nth(rules, 0) == rules.head;
        forall i | 0 <= i < k - 1
          ensures !Nth(rules.tail, i).pattern(t)
               || (Nth(rules.tail, i).unless.Some? && Nth(rules.tail, i).unless.value(t))
        {
          assert Nth(rules.tail, i) == Nth(rules, i + 1);
        }
      }
    }
  }

  ghost predicate MatchesSome(patterns: List<Text -> bool>, line: Text) {
    exists k :: 0 <= k < Size(patterns) && Nth(patterns, k)(line)
  }

  lemma {:induction false} MatchAt(patterns: List<Text -> bool>, line: Text, k: nat)
    requires k < Size(patterns) && Nth(patterns, k)(line)
    ensures AnyMatch(patterns, line)
  {
    if k > 0 {
      MatchAt(patterns.tail, line, k - 1);
    }
  }

  lemma {:induction false} WhereMatched(patterns: List<Text -> bool>, line: Text) returns (k: nat)
    requires AnyMatch(patterns, line)
    ensures k < Size(patterns) && Nth(patterns, k)(line)
  {
    if patterns.head(line) {
      k := 0;
    } else {
      k := WhereMatched(patterns.tail, line);
      k := k + 1;
    }
  }

  lemma {:induction false} AnyMatchIsSome(patterns: List<Text -> bool>, line: Text)
    ensures AnyMatch(patterns, line) <==> MatchesSome(patterns, line)
  {
    if AnyMatch(patterns, line) {
      var k := WhereMatched(patterns, line);
    }
    if k :| 0 <= k < Size(patterns) && Nth(patterns, k)(line) {
      MatchAt(patterns, line, k);
    }
  }

  /**
   Of the lines before, this one and those after: this one stays in its place if it matches a keep rule or, when there
   are no keep rules, if it matches no strip rule.
   */
  lemma {:induction false} LineIsSelected(f: Filter, before: List<Text>, line: Text, after: List<Text>)
    ensures var stays := if f.keepLines.Cons? then MatchesSome(f.keepLines, line) else !MatchesSome(f.stripLines, line);
            WantedLines(f, Append(before, Cons(line, after)))
            == Append(WantedLines(f, before),
                      if stays then Cons(line, WantedLines(f, after)) else WantedLines(f, after))
    ensures WantedLines(f, Nil) == Nil
  {
    AnyMatchIsSome(f.keepLines, line);
    AnyMatchIsSome(f.stripLines, line);
    if before.Cons? {
      LineIsSelected(f, before.tail, line, after);
    }
  }

  // ----- Replacement -----

  /** Every line is rewritten where it stands. */
  lemma {:induction false} EveryLineIsRewritten(f: Text -> Text, lines: List<Text>, k: nat)
    requires k < Size(lines)
    ensures Size(MapLines(f, lines)) == Size(lines) && Nth(MapLines(f, lines), k) == f(Nth(lines, k))
  {
    SameNumber(f, lines);
    if k > 0 {
      EveryLineIsRewritten(f, lines.tail, k - 1);
    }
  }

  lemma {:induction false} SameNumber(f: Text -> Text, lines: List<Text>)
    ensures Size(MapLines(f, lines)) == Size(lines)
  {
    if lines.Cons? {
      SameNumber(f, lines.tail);
    }
  }

  /** A rule at the end is applied to what the others leave; escape sequences go before any of them. */
  lemma {:induction false} LastRuleComesLast(f: Filter, rules: List<Text -> Text>, r: Text -> Text, t: Text)
    ensures Replaced(Push(rules, r), t) == JoinLines(MapLines(r, LinesOf(Replaced(rules, t))))
    ensures Cleaned(f.(replace := Push(rules, r)), t)
         == JoinLines(MapLines(r, LinesOf(Cleaned(f.(replace := rules), t))))
    ensures Cleaned(f.(replace := Nil), t) == if f.stripAnsi.Some? then f.stripAnsi.value(t) else t
    decreases rules
  {
    ReplacedPush(rules, r, t);
    ReplacedPush(rules, r, if f.stripAnsi.Some? then f.stripAnsi.value(t) else t);
  }

  lemma {:induction false} ReplacedPush(rules: List<Text -> Text>, r: Text -> Text, t: Text)
    ensures Replaced(Push(rules, r), t) == JoinLines(MapLines(r, LinesOf(Replaced(rules, t))))
    decreases rules
  {
    if rules.Cons? {
      ReplacedPush(rules.tail, r, ApplyReplace(rules.head, t));
    }
  }

  // ----- Heads and tails -----

  /** The head keeps the first `n` lines, the tail the last `n`; a text with no more lines stays as it is. */
  lemma {:induction false} HeadAndTail(t: Text, n: nat) returns (first: List<Text>, last: List<Text>)
    ensures var lines := LinesOf(t);
            if Size(lines) <= n then FirstLines(t, Some(n)) == t == LastLines(t, Some(n))
            else && Size(first) == n == Size(last)
                 && lines == Append(first, Drop(lines, n)) && FirstLines(t, Some(n)) == JoinLines(first)
                 && lines == Append(Take(lines, Size(lines) - n), last) && LastLines(t, Some(n)) == JoinLines(last)
    ensures FirstLines(t, None) == t == LastLines(t, None)
  {
    var lines := LinesOf(t);
    first, last := Take(lines, n), Drop(lines, SaturatingSub(Size(lines), n));
    TakeFacts(lines, n);
    TakeFacts(lines, SaturatingSub(Size(lines), n));
  }

  /** The steps in their order: clean, select, group, then the head, the tail and the maximum; or the rule's message. */
  lemma {:induction false} StepsInOrder(f: Filter, content: Text, failed: bool)
    ensures var clean := Cleaned(f, content);
            var selected := if f.keepLines.Nil? && f.stripLines.Nil? then clean
                            else JoinLines(WantedLines(f, LinesOf(clean)));
            var grouped := if f.groupBy.None? then selected
                           else JoinLines(Grouped(f.groupBy.value, LinesOf(selected)));
            var head := FirstLines(grouped, f.headLines);
            var capped := FirstLines(LastLines(head, f.tailLines), f.maxLines);
            Outcome(f, content, failed) == if !failed && Collapse(f.matchOutput, clean).Some?
                                           then Collapse(f.matchOutput, clean).value else capped
  {
  }

  /** A text falls back exactly when there is a fallback and all its characters are white space. */
  lemma {:induction false} FallsBackIfBlank(f: Filter, t: Text)
    ensures FallsBack(f, t) <==> f.onEmpty.Some? && forall c :: Has(t, c) ==> IsWhitespace(c)
  {
    BlankMeans(t);
  }

  lemma {:induction false} BlankMeans(t: Text)
    ensures Blank(t) <==> forall c :: Has(t, c) ==> IsWhitespace(c)
  {
    if t.Cons? {
      BlankMeans(t.tail);
      assert Has(t, t.head);
      assert forall c :: Has(t.tail, c) ==> Has(t, c);
    }
  }

  // ----- What a group keeps -----

  /** A line is in the group of its key, in its place, and in no other. */
  lemma {:induction false} LineIsInItsGroup(key: Text -> Option<Text>, before: List<Text>, line: Text,
          after: List<Text>, k: Text)
    ensures GroupOf(key, Append(before, Cons(line, after)), k)
         == Append(GroupOf(key, before, k),
                   if key(line) == Some(k) then Cons(line, GroupOf(key, after, k)) else GroupOf(key, after, k))
    ensures KeysOf(key, Append(before, Cons(line, after)))
         == Append(KeysOf(key, before),
                   if key(line).Some? then Cons(key(line).value, KeysOf(key, after)) else KeysOf(key, after))
    ensures GroupOf(key, Nil, k) == Nil && KeysOf(key, Nil) == Nil
  {
    if before.Cons? {
      LineIsInItsGroup(key, before.tail, line, after, k);
    }
  }

  lemma {:induction false} GroupOfAppend(key: Text -> Option<Text>, a: List<Text>, b: List<Text>, k: Text)
    ensures GroupOf(key, Append(a, b), k) == Append(GroupOf(key, a, k), GroupOf(key, b, k))
    ensures KeysOf(key, Append(a, b)) == Append(KeysOf(key, a), KeysOf(key, b))
  {
    if a.Cons? {
      GroupOfAppend(key, a.tail, b, k);
    }
  }

  /** Every line has the key `x`. */
  ghost predicate AllOf(key: Text -> Option<Text>, lines: List<Text>, x: Text) {
    lines.Cons? ==> key(lines.head) == Some(x) && AllOf(key, lines.tail, x)
  }

  lemma {:induction false} GroupHasItsKey(key: Text -> Option<Text>, lines: List<Text>, x: Text, n: nat)
    ensures AllOf(key, GroupOf(key, lines, x), x) && AllOf(key, Take(GroupOf(key, lines, x), n), x)
  {
    if lines.Cons? {
      GroupHasItsKey(key, lines.tail, x, if n == 0 then 0 else n - 1);
      GroupHasItsKey(key, lines.tail, x, n);
    }
  }

  lemma {:induction false} GroupOfGroup(key: Text -> Option<Text>, group: List<Text>, x: Text, k: Text)
    requires AllOf(key, group, x)
    ensures GroupOf(key, group, k) == if k == x then group else Nil
    ensures Has(KeysOf(key, group), k) <==> k == x && group.Cons?
  {
    if group.Cons? {
      GroupOfGroup(key, group.tail, x, k);
    }
  }

  lemma {:induction false} GroupOfBlocks(key: Text -> Option<Text>, lines: List<Text>, n: nat, keys: List<Text>,
          k: Text)
    requires Distinct(keys)
    ensures GroupOf(key, Blocks(key, lines, n, keys), k)
         == if Has(keys, k) then Take(GroupOf(key, lines, k), n) else Nil
    ensures Has(KeysOf(key, Blocks(key, lines, n, keys)), k) ==> Has(keys, k)
  {
    if keys.Cons? {
      var group := Take(GroupOf(key, lines, keys.head), n);
      GroupOfBlocks(key, lines, n, keys.tail, k);
      GroupHasItsKey(key, lines, keys.head, n);
      GroupOfGroup(key, group, keys.head, k);
      GroupOfAppend(key, group, Blocks(key, lines, n, keys.tail), k);
      HasAppend(KeysOf(key, group), KeysOf(key, Blocks(key, lines, n, keys.tail)), k);
      AppendNil(group);
    }
  }

  /** The lines of a key stand together. */
  ghost predicate Together(key: Text -> Option<Text>, lines: List<Text>) {
    lines.Cons? ==>
      && Together(key, lines.tail) && key(lines.head).Some?
      && (lines.tail.Cons? && key(lines.tail.head) != key(lines.head)
          ==> !Has(KeysOf(key, lines.tail), key(lines.head).value))
  }

  lemma {:induction false} TogetherAppend(key: Text -> Option<Text>, group: List<Text>, rest: List<Text>, x: Text)
    requires AllOf(key, group, x) && Together(key, rest) && !Has(KeysOf(key, rest), x)
    ensures Together(key, Append(group, rest))
  {
    if group.Cons? {
      TogetherAppend(key, group.tail, rest, x);
    }
  }

  lemma {:induction false} BlocksStandTogether(key: Text -> Option<Text>, lines: List<Text>, n: nat, keys: List<Text>)
    requires Distinct(keys)
    ensures Together(key, Blocks(key, lines, n, keys))
  {
    if keys.Cons? {
      BlocksStandTogether(key, lines, n, keys.tail);
      GroupHasItsKey(key, lines, keys.head, n);
      GroupOfBlocks(key, lines, n, keys.tail, keys.head);
      TogetherAppend(key, Take(GroupOf(key, lines, keys.head), n), Blocks(key, lines, n, keys.tail), keys.head);
    }
  }

  /** Every key has a line. */
  ghost predicate AllKeysUsed(key: Text -> Option<Text>, lines: List<Text>, keys: List<Text>) {
    keys.Cons? ==> GroupOf(key, lines, keys.head).Cons? && AllKeysUsed(key, lines, keys.tail)
  }

  lemma {:induction false} KeysAreUsed(key: Text -> Option<Text>, lines: List<Text>, keys: List<Text>)
    requires forall k :: Has(keys, k) ==> Has(KeysOf(key, lines), k)
    ensures AllKeysUsed(key, lines, keys)
  {
    if keys.Cons? {
      assert Has(keys, keys.head);
      assert forall k :: Has(keys.tail, k) ==> Has(keys, k);
      UsedKey(key, lines, keys.head);
      KeysAreUsed(key, lines, keys.tail);
    }
  }

  lemma {:induction false} UsedKey(key: Text -> Option<Text>, lines: List<Text>, k: Text)
    requires Has(KeysOf(key, lines), k)
    ensures GroupOf(key, lines, k).Cons?
  {
    if key(lines.head) != Some(k) {
      UsedKey(key, lines.tail, k);
    }
  }

  lemma {:induction false} UnionWithGroup(key: Text -> Option<Text>, group: List<Text>, x: Text, seen: List<Text>)
    requires AllOf(key, group, x) && (group.Cons? || Has(seen, x))
    ensures Union(seen, KeysOf(key, group)) == PushNew(seen, x)
  {
    if group.Cons? {
      PushMembers(seen, x, x);
      UnionWithGroup(key, group.tail, x, PushNew(seen, x));
    }
  }

  lemma {:induction false} OrderOfBlocks(key: Text -> Option<Text>, lines: List<Text>, n: nat, seen: List<Text>,
          keys: List<Text>)
    requires n > 0 && AllKeysUsed(key, lines, keys)
    ensures Union(seen, KeysOf(key, Blocks(key, lines, n, keys))) == Union(seen, keys)
    decreases keys
  {
    if keys.Cons? {
      var group := Take(GroupOf(key, lines, keys.head), n);
      var rest := Blocks(key, lines, n, keys.tail);
      GroupHasItsKey(key, lines, keys.head, n);
      UnionWithGroup(key, group, keys.head, seen);
      GroupOfAppend(key, group, rest, keys.head);
      UnionOfAppend(seen, KeysOf(key, group), KeysOf(key, rest));
      OrderOfBlocks(key, lines, n, PushNew(seen, keys.head), keys.tail);
    }
  }

  lemma {:induction false} PartIsDistinct(l: List<Text>, n: nat, x: Text)
    requires Distinct(l)
    ensures Distinct(Take(l, n))
    ensures Has(Take(l, n), x) <==> IndexOf(l, x) < n && Has(l, x)
  {
    if l.Cons? && n > 0 {
      PartIsDistinct(l.tail, n - 1, x);
      PartIsDistinct(l.tail, n - 1, l.head);
    }
  }

  lemma {:induction false} UnionOfDistinct(seen: List<Text>, l: List<Text>)
    requires Distinct(l) && forall x :: Has(l, x) ==> !Has(seen, x)
    ensures Union(seen, l) == Append(seen, l)
    decreases l
  {
    if l.Cons? {
      assert Has(l, l.head);
      forall x | Has(l.tail, x) ensures !Has(Push(seen, l.head), x) {
        assert Has(l, x);
        PushMembers(seen, l.head, x);
      }
      UnionOfDistinct(Push(seen, l.head), l.tail);
      PushAppend(seen, l.head, l.tail);
    } else {
      AppendNil(seen);
    }
  }

  /**
   Grouping keeps, of the first `maxGroups` keys to appear and of no others, the first `maxPerGroup` lines in their
   order; the lines of a key stand together, the keys in order of first appearance; and if keys were left out, the
   marker with their number comes last.
   */
  lemma {:induction false} GroupingKeepsTheFirst(gb: GroupBy, lines: List<Text>, k: Text) returns (kept: List<Text>)
    ensures var keys := GroupOrder(gb.key, lines);
            Grouped(gb, lines)
            == Append(kept, if Size(keys) > gb.maxGroups then Cons(gb.marker(Size(keys) - gb.maxGroups), Nil) else Nil)
    ensures GroupOf(gb.key, kept, k)
         == if IndexOf(GroupOrder(gb.key, lines), k) < gb.maxGroups then Take(GroupOf(gb.key, lines, k), gb.maxPerGroup)
            else Nil
    ensures Together(gb.key, kept)
    ensures gb.maxPerGroup > 0 ==> GroupOrder(gb.key, kept) == Take(GroupOrder(gb.key, lines), gb.maxGroups)
  {
    var keys := GroupOrder(gb.key, lines);
    var first := Take(keys, gb.maxGroups);
    kept := Blocks(gb.key, lines, gb.maxPerGroup, first);
    UnionKeepsDistinct(Nil, KeysOf(gb.key, lines));
    PartIsDistinct(keys, gb.maxGroups, k);
    GroupOfBlocks(gb.key, lines, gb.maxPerGroup, first, k);
    BlocksStandTogether(gb.key, lines, gb.maxPerGroup, first);
    UnionMembers(Nil, KeysOf(gb.key, lines), k);
    if !Has(KeysOf(gb.key, lines), k) {
      UnusedKey(gb.key, lines, k);
    }
    if gb.maxPerGroup > 0 {
      forall x | Has(first, x) ensures Has(KeysOf(gb.key, lines), x) {
        PartIsDistinct(keys, gb.maxGroups, x);
        UnionMembers(Nil, KeysOf(gb.key, lines), x);
      }
      KeysAreUsed(gb.key, lines, first);
      OrderOfBlocks(gb.key, lines, gb.maxPerGroup, Nil, first);
      UnionOfDistinct(Nil, first);
    }
  }

  lemma {:induction false} UnusedKey(key: Text -> Option<Text>, lines: List<Text>, k: Text)
    requires !Has(KeysOf(key, lines), k)
    ensures GroupOf(key, lines, k) == Nil
  {
    if lines.Cons? {
      UnusedKey(key, lines.tail, k);
    }
  }
}
