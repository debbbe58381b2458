/**
 What ageing does (proxy/src/transform.rs), told from the message array alone: which words are paths, which results
 are replaced, what the stub that replaces one says, and how many bytes are gone afterwards.
 */
module AgeingRules {
  import opened Prelude
  import opened Lines
  import opened Ageing
  import Glob

  // ----- Words and paths -----

  /** The pieces between white space, empty ones included. */
  function Pieces(t: Text): List<Text> {
    if t.Nil? then Cons(Nil, Nil)
    else
      var rest := Pieces(t.tail);
      if IsWhitespace(t.head) then Cons(Nil, rest)
      else if rest.Nil? then Cons(Cons(t.head, Nil), Nil)
      else Cons(Cons(t.head, rest.head), rest.tail)
  }

  function NonEmpty(l: List<Text>): List<Text> {
    if l.Nil? then Nil else if l.head.Nil? then NonEmpty(l.tail) else Cons(l.head, NonEmpty(l.tail))
  }

  lemma {:induction false} PiecesOfWord(t: Text)
    ensures Pieces(t).Cons? && Pieces(t).head == FirstWord(t)
    ensures NonEmpty(Pieces(t).tail) == NonEmpty(Pieces(AfterWord(t))) || AfterWord(t).Nil?
    ensures AfterWord(t).Nil? ==> Pieces(t).tail == Nil
    ensures AfterWord(t).Cons? ==> IsWhitespace(AfterWord(t).head)
  {
    if t.Cons? {
      PiecesOfWord(t.tail);
    }
  }

  /** The words of a text are its non-empty pieces. */
  lemma {:induction false} WordsAreNonEmptyPieces(t: Text)
    ensures Words(t) == NonEmpty(Pieces(t))
    decreases Size(t)
  {
    if t.Cons? {
      PiecesOfWord(t);
      if IsWhitespace(t.head) {
        WordsAreNonEmptyPieces(t.tail);
      } else {
        WordsAreNonEmptyPieces(AfterWord(t));
      }
    }
  }

  /** The characters that are trimmed from both ends of a word. */
  ghost predicate Trimmed(c: char) {
    c in "\"'`,)]}"
  }

  ghost predicate AllTrimmed(t: Text) {
    t.Cons? ==> Trimmed(t.head) && AllTrimmed(t.tail)
  }

  ghost predicate EndsIn(t: Text, c: char) {
    t.Cons? && if t.tail.Nil? then t.head == c else EndsIn(t.tail, c)
  }

  lemma {:induction false} QuotingIsTrimmed(c: char)
    ensures IsQuoting(c) <==> Trimmed(c)
  {
    var s := "\"'`,)]}";
    assert s[0] == '"' && s[1] == '\'' && s[2] == '`' && s[3] == ',' && s[4] == ')' && s[5] == ']' && s[6] == '}';
  }

  lemma {:induction false} TrimmedStart(t: Text) returns (before: Text)
    ensures t == Append(before, TrimStart(t)) && AllTrimmed(before)
    ensures TrimStart(t).Cons? ==> !Trimmed(TrimStart(t).head)
  {
    before := Nil;
    if t.Cons? {
      QuotingIsTrimmed(t.head);
      if IsQuoting(t.head) {
        before := TrimmedStart(t.tail);
        before := Cons(t.head, before);
      }
    }
  }

  lemma {:induction false} TrimmedEnd(t: Text, c: char) returns (after: Text)
    ensures t == Append(TrimEnd(t), after) && AllTrimmed(after)
    ensures EndsIn(TrimEnd(t), c) ==> !Trimmed(c)
    ensures TrimEnd(t).Cons? ==> t.Cons? && TrimEnd(t).head == t.head
  {
    after := Nil;
    if t.Cons? {
      after := TrimmedEnd(t.tail, c);
      QuotingIsTrimmed(t.head);
      if TrimEnd(t.tail).Nil? && IsQuoting(t.head) {
        after := Cons(t.head, after);
      }
    }
  }

  /** A path is its word without the seven characters at either end. */
  lemma {:induction false} TrimIsExact(word: Text, c: char) returns (before: Text, after: Text)
    ensures word == Append(before, Append(Trim(word), after)) && AllTrimmed(before) && AllTrimmed(after)
    ensures Trim(word).Cons? ==> !Trimmed(Trim(word).head)
    ensures EndsIn(Trim(word), c) ==> !Trimmed(c)
  {
    before := TrimmedStart(word);
    after := TrimmedEnd(TrimStart(word), c);
  }

  function TrimmedWords(words: List<Text>): List<Text> {
    if words.Nil? then Nil
    else if Has(words.head, '/') || Has(words.head, '\\') then Cons(Trim(words.head), TrimmedWords(words.tail))
    else TrimmedWords(words.tail)
  }

  lemma {:induction false} SlashIsEither(t: Text)
    ensures HasSlash(t) <==> Has(t, '/') || Has(t, '\\')
  {
    if t.Cons? {
      SlashIsEither(t.tail);
    }
  }

  lemma {:induction false} PathsAreTrimmedWords(words: List<Text>)
    ensures PathsAmong(words) == TrimmedWords(words)
  {
    if words.Cons? {
      SlashIsEither(words.head);
      PathsAreTrimmedWords(words.tail);
      if HasSlash(words.head) {
        SlashMakesPath(words.head);
      }
    }
  }

  /** The paths of a text: of its pieces between white space, those with a slash or a backslash, trimmed, in order. */
  lemma {:induction false} PathsOfText(t: Text)
    ensures PathsOf(t) == TrimmedWords(NonEmpty(Pieces(t)))
  {
    WordsAreNonEmptyPieces(t);
    PathsAreTrimmedWords(Words(t));
  }

  // ----- Which results are replaced -----

  /** Some of the paths is part of some of the recent ones. */
  ghost predicate SomePart(paths: List<Text>, recent: List<Text>) {
    exists p: Text, q: Text :: Has(paths, p) && Has(recent, q) && Contains(q, p)
  }

  lemma {:induction false} MentionedIn(p: Text, recent: List<Text>, q: Text)
    requires Has(recent, q) && Contains(q, p)
    ensures MentionedBy(p, recent)
  {
    if recent.head != q {
      MentionedIn(p, recent.tail, q);
    }
  }

  lemma {:induction false} WhereMentioned(p: Text, recent: List<Text>) returns (q: Text)
    requires MentionedBy(p, recent)
    ensures Has(recent, q) && Contains(q, p)
  {
    if Contains(recent.head, p) {
      q := recent.head;
    } else {
      q := WhereMentioned(p, recent.tail);
    }
  }

  lemma {:induction false} ReferencedBy(paths: List<Text>, recent: List<Text>, p: Text)
    requires Has(paths, p) && MentionedBy(p, recent)
    ensures CrossReferenced(paths, recent)
  {
    if paths.head != p {
      ReferencedBy(paths.tail, recent, p);
    }
  }

  lemma {:induction false} WhatIsReferenced(paths: List<Text>, recent: List<Text>) returns (p: Text)
    requires CrossReferenced(paths, recent)
    ensures Has(paths, p) && MentionedBy(p, recent)
  {
    if MentionedBy(paths.head, recent) {
      p := paths.head;
    } else {
      p := WhatIsReferenced(paths.tail, recent);
    }
  }

  lemma {:induction false} CrossReferenceIsContained(paths: List<Text>, recent: List<Text>)
    ensures CrossReferenced(paths, recent) <==> SomePart(paths, recent)
  {
    if CrossReferenced(paths, recent) {
      var p := WhatIsReferenced(paths, recent);
      var q := WhereMentioned(p, recent);
      assert Has(paths, p) && Has(recent, q) && Contains(q, p);
    }
    if p: Text, q: Text :| Has(paths, p) && Has(recent, q) && Contains(q, p) {
      MentionedIn(p, recent, q);
      ReferencedBy(paths, recent, p);
    }
  }

  /**
   The message is neither the assistant's nor the system's, and stands before the last `floor` and, counting itself,
   more than `maxAge` messages from the end; and there is a text, no path of which is part of one that the last `floor`
   messages mention.
   */
  ghost predicate ShouldAge(l: List<Message>, maxAge: nat, floor: nat, i: nat, m: Message, text: Text) {
    && m.role != Assistant && m.role != System && i + floor < Size(l) && i + maxAge < Size(l)
    && text != Nil && !SomePart(PathsOf(text), RecentPaths(l, floor))
  }

  /** Block `j` of message `i` is replaced exactly when it is a tool result and its text should age. */
  lemma {:induction false} AgedExactly(l: List<Message>, maxAge: nat, floor: nat, isTool: Block -> bool, i: nat, j: nat)
    requires i < Size(l) && Nth(l, i).content.Blocks? && j < Size(Nth(l, i).content.blocks)
    ensures var b := Nth(Nth(l, i).content.blocks, j);
            AgedAt(l, maxAge, floor, isTool, i, j)
            <==> isTool(b) && ShouldAge(l, maxAge, floor, i, Nth(l, i), OriginalText(b.content))
  {
    var text := OriginalText(Nth(Nth(l, i).content.blocks, j).content);
    CrossReferenceIsContained(PathsOf(text), RecentPaths(l, floor));
  }

  // ----- What the stub says -----

  ghost predicate IsDigit(c: char) {
    '0' <= c <= '9'
  }

  ghost predicate AllDigits(t: Text) {
    t.Cons? ==> IsDigit(t.head) && AllDigits(t.tail)
  }

  /** The number that digits stand for, with `high` read before them. */
  ghost function Value(t: Text, high: nat): nat {
    if t.Nil? || !IsDigit(t.head) then high else Value(t.tail, 10 * high + (t.head as int - '0' as int))
  }

  /** The digits of a number in front of a text. */
  lemma {:induction false} DecimalReads(n: nat, more: Text) returns (digits: Text)
    ensures Decimal(n, more) == Append(digits, more)
    ensures digits.Cons? && AllDigits(digits) && Value(digits, 0) == n
    ensures digits.head == '0' ==> digits.tail == Nil
  {
    if n < 10 {
      digits := Cons(Digit(n), Nil);
      assert Value(digits, 0) == Value(Nil, n) == n;
    } else {
      var last := Cons(Digit(n % 10), Nil);
      var high := DecimalReads(n / 10, Cons(Digit(n % 10), more));
      digits := Append(high, last);
      AppendAssociative(high, last, more);
      ValueAppend(high, last, 0);
      DigitsAppend(high, last);
      assert Value(last, n / 10) == Value(Nil, 10 * (n / 10) + n % 10) == n;
      if high.head == '0' {
        assert false;
      }
    }
  }

  lemma {:induction false} ValueAppend(a: Text, b: Text, high: nat)
    requires AllDigits(a)
    ensures Value(Append(a, b), high) == Value(b, Value(a, high))
  {
    if a.Cons? {
      ValueAppend(a.tail, b, 10 * high + (a.head as int - '0' as int));
    }
  }

  lemma {:induction false} DigitsAppend(a: Text, b: Text)
    requires AllDigits(a) && AllDigits(b)
    ensures AllDigits(Append(a, b))
  {
    if a.Cons? {
      DigitsAppend(a.tail, b);
    }
  }

  /** Two numbers in a wording, each after its own words. */
  lemma {:induction false} NumbersInWording(before: Text, m: nat, between: Text, n: nat, after: Text)
          returns (first: Text, second: Text)
    ensures Append(before, Decimal(m, Append(between, Decimal(n, after))))
         == Append(before, Append(first, Append(between, Append(second, after))))
    ensures AllDigits(first) && Value(first, 0) == m && AllDigits(second) && Value(second, 0) == n
  {
    second := DecimalReads(n, after);
    first := DecimalReads(m, Append(between, Decimal(n, after)));
  }

  /** A quarter of the bytes, rounded down, and one. */
  ghost function Tokens(text: Text): nat {
    ByteLen(text) / 4 + 1
  }

  /**
   The stub for a result says, after the words for it, a quarter of the bytes of its text, rounded down, and one; and
   after the words for that, the number of its message. It replaces the content and nothing else.
   */
  lemma {:induction false} StubNumbers(b: Block, i: nat) returns (tokens: Text, turn: Text)
    ensures StubFor(b, i)
         == Framed(Chars("[aged:"), ToolName(b.meta),
              Append(Chars("output, "), Append(tokens, Append(Chars(" tokens, turn "), Append(turn, Chars("]"))))))
    ensures AllDigits(tokens) && Value(tokens, 0) == Tokens(OriginalText(b.content))
    ensures AllDigits(turn) && Value(turn, 0) == i
    ensures Stubbed(b, i) == Block(b.meta, Plain(StubFor(b, i)))
  {
    var n := EstimateTokens(OriginalText(b.content));
    StubIsFramed(ToolName(b.meta), n, i);
    tokens, turn := NumbersInWording(Chars("output, "), n, Chars(" tokens, turn "), i, Chars("]"));
  }

  /** Lengths are those of the UTF-8 encoding. */
  lemma {:induction false} ByteLenIsEncoded(s: string)
    ensures ByteLen(Chars(s)) == |Glob.Encode(s)|
  {
    if s != "" {
      ByteLenIsEncoded(s[1..]);
    }
  }

  // ----- The text of a result -----

  /** The parts of a result that are texts, each on lines of its own, in order. */
  lemma {:induction false} TextOfParts(before: List<Part>, part: Part, after: List<Part>)
    ensures Texts(Append(before, Cons(part, after)))
         == Append(Texts(before), if part.text.None? then Texts(after) else Cons(part.text.value, Texts(after)))
    ensures OriginalText(Parts(before)) == JoinLines(Texts(before)) && Texts(Nil) == Nil
    ensures forall t :: OriginalText(Plain(t)) == t
    ensures forall unread :: OriginalText(Other(unread)) == Nil
  {
    if before.Cons? {
      TextOfParts(before.tail, part, after);
    }
  }

  // ----- The bytes saved -----

  /** The bytes of the texts of tool results. */
  ghost function BytesIn(blocks: List<Block>): nat {
    if blocks.Nil? then 0 else ByteLen(OriginalText(blocks.head.content)) + BytesIn(blocks.tail)
  }

  ghost function BytesOf(l: List<Message>): nat {
    if l.Nil? then 0 else (if l.head.content.Blocks? then BytesIn(l.head.content.blocks) else 0) + BytesOf(l.tail)
  }

  /** What the stubs that are longer than their texts add. */
  ghost function AddedIn(before: List<Block>, after: List<Block>): nat
    requires Size(before) == Size(after)
  {
    if before.Nil? then 0
    else
      var was, now := ByteLen(OriginalText(before.head.content)), ByteLen(OriginalText(after.head.content));
      (if was < now then now - was else 0) + AddedIn(before.tail, after.tail)
  }

  lemma {:induction false} BytesInBalance(w: Window, isTool: Block -> bool, i: nat, blocks: List<Block>)
    ensures Size(AgedBlocks(w, isTool, i, blocks)) == Size(blocks)
    ensures BytesIn(AgedBlocks(w, isTool, i, blocks)) + SavedIn(w, isTool, i, blocks)
         == BytesIn(blocks) + AddedIn(blocks, AgedBlocks(w, isTool, i, blocks))
  {
    if blocks.Cons? {
      BytesInBalance(w, isTool, i, blocks.tail);
    }
  }

  ghost predicate SameShape(before: List<Message>, after: List<Message>) {
    if before.Nil? then after.Nil?
    else
      && after.Cons? && SameShape(before.tail, after.tail)
      && (before.head.content.Blocks? <==> after.head.content.Blocks?)
      && (before.head.content.Blocks? ==> Size(before.head.content.blocks) == Size(after.head.content.blocks))
  }

  ghost function Added(before: List<Message>, after: List<Message>): nat
    requires SameShape(before, after)
  {
    if before.Nil? then 0
    else
      (if before.head.content.Blocks? then AddedIn(before.head.content.blocks, after.head.content.blocks) else 0)
      + Added(before.tail, after.tail)
  }

  lemma {:induction false} NothingAdded(blocks: List<Block>)
    ensures AddedIn(blocks, blocks) == 0
  {
    if blocks.Cons? {
      NothingAdded(blocks.tail);
    }
  }

  lemma {:induction false} BytesBalance(w: Window, isTool: Block -> bool, i: nat, l: List<Message>)
    ensures SameShape(l, AgedMessages(w, isTool, i, l))
    ensures BytesOf(AgedMessages(w, isTool, i, l)) + SavedBytes(w, isTool, i, l)
         == BytesOf(l) + Added(l, AgedMessages(w, isTool, i, l))
    decreases l
  {
    if l.Cons? {
      BytesBalance(w, isTool, i + 1, l.tail);
      if l.head.content.Blocks? {
        BytesInBalance(w, isTool, i, l.head.content.blocks);
        NothingAdded(l.head.content.blocks);
      }
    }
  }

  /**
   The bytes recorded as removed are those of the texts before a pass, less those after it, plus what stubs longer than
   their texts added: exactly the difference when no stub is longer.
   */
  lemma {:induction false} RemovedBytesBalance(l: List<Message>, maxAge: nat, floor: nat, isTool: Block -> bool)
    ensures SameShape(l, Pass(l, maxAge, floor, isTool))
    ensures SavedBytes(WindowOf(l, maxAge, floor), isTool, 0, l)
         == BytesOf(l) - BytesOf(Pass(l, maxAge, floor, isTool)) + Added(l, Pass(l, maxAge, floor, isTool))
  {
    BytesBalance(WindowOf(l, maxAge, floor), isTool, 0, l);
  }
}
