/**
 Sliding-window ageing of tool results (proxy/src/transform.rs): old tool results that nothing recent
 refers to are replaced by a stub, in place.
 */
module Ageing {
  import opened Prelude
  import opened Lines

  /** `unread` collects the string values the code never looks at, such as those of a tool's input. */
  datatype Meta = Meta(toolUseId: Option<Text>, name: Option<Text>, text: Option<Text>, unread: List<Text>,
      rest: string)
  datatype Part = Part(text: Option<Text>, unread: List<Text>)
  datatype Content = Plain(text: Text) | Parts(parts: List<Part>) | Other(unread: List<Text>)
  datatype Block = Block(meta: Meta, content: Content)

  datatype Role = Assistant | System | OtherRole(name: Text) | NoRole
  /** The content of a message: a list of blocks, a plain string, or something else. */
  datatype MessageContent = Blocks(blocks: List<Block>) | PlainString(text: Text) | NoBlocks(unread: List<Text>)
  datatype Message = Message(role: Role, content: MessageContent, text: Option<Text>, unread: List<Text>, rest: string)

  // ----- Path-like words -----

  /** The word at the start of a text, and what follows it. */
  function FirstWord(t: Text): Text {
    if t.Nil? || IsWhitespace(t.head) then Nil else Cons(t.head, FirstWord(t.tail))
  }

  function AfterWord(t: Text): (r: Text)
    ensures Size(r) <= Size(t)
  {
    if t.Nil? || IsWhitespace(t.head) then t else AfterWord(t.tail)
  }

  /** `split_whitespace`. */
  function Words(t: Text): List<Text>
    decreases Size(t)
  {
    if t.Nil? then Nil
    else if IsWhitespace(t.head) then Words(t.tail)
    else Cons(FirstWord(t), Words(AfterWord(t)))
  }

  predicate IsSlash(c: char) {
    c == '/' || c == '\\'
  }

  predicate HasSlash(t: Text) {
    t.Cons? && (IsSlash(t.head) || HasSlash(t.tail))
  }

  predicate IsQuoting(c: char) {
    c == '"' || c == '\'' || c == '`' || c == ',' || c == ')' || c == ']' || c == '}'
  }

  function TrimStart(t: Text): Text {
    if t.Cons? && IsQuoting(t.head) then TrimStart(t.tail) else t
  }

  function TrimEnd(t: Text): Text {
    if t.Nil? then Nil
    else
      var rest := TrimEnd(t.tail);
      if rest.Nil? && IsQuoting(t.head) then Nil else Cons(t.head, rest)
  }

  function Trim(t: Text): Text {
    TrimEnd(TrimStart(t))
  }

  /** The filter the code applies to a trimmed word. */
  predicate Worthwhile(t: Text) {
    t.Cons? && (Has(t, '.') || HasSlash(t))
  }

  function PathsAmong(words: List<Text>): List<Text> {
    if words.Nil? then Nil
    else if HasSlash(words.head) && Worthwhile(Trim(words.head)) then Cons(Trim(words.head), PathsAmong(words.tail))
    else PathsAmong(words.tail)
  }

  function PathsOf(t: Text): List<Text> {
    PathsAmong(Words(t))
  }

  lemma {:induction false} TrimKeepsSlash(t: Text)
    requires HasSlash(t)
    ensures HasSlash(TrimStart(t)) && HasSlash(TrimEnd(t))
  {
    if !IsSlash(t.head) {
      TrimKeepsSlash(t.tail);
    }
  }

  /** Every word with a slash is a path: trimming leaves the slash, so the second test never fails. */
  lemma {:induction false} SlashMakesPath(word: Text)
    requires HasSlash(word)
    ensures Worthwhile(Trim(word))
  {
    TrimKeepsSlash(word);
    TrimKeepsSlash(TrimStart(word));
  }

  // ----- What a message and a block say -----

  function OptionalPaths(t: Option<Text>): List<Text> {
    if t.None? then Nil else PathsOf(t.value)
  }

  function PartPaths(parts: List<Part>): List<Text> {
    if parts.Nil? then Nil else Append(OptionalPaths(parts.head.text), PartPaths(parts.tail))
  }

  function ContentPaths(c: Content): List<Text> {
    match c
    case Plain(t) => PathsOf(t)
    case Parts(parts) => PartPaths(parts)
    case Other(_) => Nil
  }

  function BlockPaths(blocks: List<Block>): List<Text> {
    if blocks.Nil? then Nil
    else Append(Append(OptionalPaths(blocks.head.meta.text), ContentPaths(blocks.head.content)),
        BlockPaths(blocks.tail))
  }

  function MessagePaths(m: Message): List<Text> {
    Append(if m.content.Blocks? then BlockPaths(m.content.blocks) else Nil, OptionalPaths(m.text))
  }

  function AllPaths(l: List<Message>): List<Text> {
    if l.Nil? then Nil else Append(MessagePaths(l.head), AllPaths(l.tail))
  }

  /** The paths mentioned in the last `floor` messages. */
  function RecentPaths(l: List<Message>, floor: nat): List<Text> {
    AllPaths(Drop(l, SaturatingSub(Size(l), floor)))
  }

  function Texts(parts: List<Part>): List<Text> {
    if parts.Nil? then Nil
    else if parts.head.text.None? then Texts(parts.tail)
    else Cons(parts.head.text.value, Texts(parts.tail))
  }

  function OriginalText(c: Content): Text {
    match c
    case Plain(t) => t
    case Parts(parts) => JoinLines(Texts(parts))
    case Other(_) => Nil
  }

  function ToolName(m: Meta): Text {
    if m.toolUseId.Some? then m.toolUseId.value
    else if m.name.Some? then m.name.value
    else Chars("unknown")
  }

  predicate MentionedBy(p: Text, recent: List<Text>) {
    recent.Cons? && (Contains(recent.head, p) || MentionedBy(p, recent.tail))
  }

  /** Some path is a part of some recent one. */
  predicate CrossReferenced(paths: List<Text>, recent: List<Text>) {
    paths.Cons? && (MentionedBy(paths.head, recent) || CrossReferenced(paths.tail, recent))
  }

  // ----- The stub -----

  function Utf8Len(c: char): nat {
    if c as int < 0x80 then 1 else if c as int < 0x800 then 2 else if c as int < 0x10000 then 3 else 4
  }

  /** The length of a text in bytes. */
  function ByteLen(t: Text): nat {
    if t.Nil? then 0 else Utf8Len(t.head) + ByteLen(t.tail)
  }

  function EstimateTokens(t: Text): nat {
    ByteLen(t) / 4 + 1
  }

  function Digit(n: nat): char
    requires n < 10
  {
    ('0' as int + n) as char
  }

  function Decimal(n: nat, more: Text): Text {
    if n < 10 then Cons(Digit(n), more) else Decimal(n / 10, Cons(Digit(n % 10), more))
  }

  /** "output, N tokens, turn I]" */
  function StubTail(tokens: nat, turn: nat): Text {
    Append(Chars("output, "), Decimal(tokens, Append(Chars(" tokens, turn "), Decimal(turn, Chars("]")))))
  }

  /** "[aged: NAME output, N tokens, turn I]" */
  function Stub(name: Text, tokens: nat, turn: nat): Text {
    Append(Chars("[aged:"), Cons(' ', Append(name, Cons(' ', StubTail(tokens, turn)))))
  }

  function StubFor(b: Block, turn: nat): Text {
    Stub(ToolName(b.meta), EstimateTokens(OriginalText(b.content)), turn)
  }

  function Stubbed(b: Block, turn: nat): Block {
    b.(content := Plain(StubFor(b, turn)))
  }

  // ----- The policy, block by block -----

  /** Everything the decision about one block depends on besides the block itself. */
  datatype Window = Window(total: nat, maxAge: nat, floor: nat, recent: List<Text>)

  function WindowOf(l: List<Message>, maxAge: nat, floor: nat): Window {
    Window(Size(l), maxAge, floor, RecentPaths(l, floor))
  }

  predicate OpenMessage(w: Window, i: nat, role: Role) {
    i < SaturatingSub(w.total, w.floor) && role != Assistant && role != System
  }

  predicate Ages(w: Window, isTool: Block -> bool, i: nat, b: Block) {
    && isTool(b)
    && OriginalText(b.content).Cons?
    && !CrossReferenced(PathsOf(OriginalText(b.content)), w.recent)
    && SaturatingSub(w.total, i) > w.maxAge
  }

  /** Block `j` of message `i` is replaced. */
  predicate AgedAt(l: List<Message>, maxAge: nat, floor: nat, isTool: Block -> bool, i: nat, j: nat) {
    && i < Size(l) && Nth(l, i).content.Blocks? && j < Size(Nth(l, i).content.blocks)
    && OpenMessage(WindowOf(l, maxAge, floor), i, Nth(l, i).role)
    && Ages(WindowOf(l, maxAge, floor), isTool, i, Nth(Nth(l, i).content.blocks, j))
  }

  // ----- The result of a pass -----

  function AgedBlocks(w: Window, isTool: Block -> bool, i: nat, blocks: List<Block>): List<Block> {
    if blocks.Nil? then Nil
    else Cons(if Ages(w, isTool, i, blocks.head) then Stubbed(blocks.head, i) else blocks.head,
              AgedBlocks(w, isTool, i, blocks.tail))
  }

  function AgedMessage(w: Window, isTool: Block -> bool, i: nat, m: Message): Message {
    if OpenMessage(w, i, m.role) && m.content.Blocks?
        then m.(content := Blocks(AgedBlocks(w, isTool, i, m.content.blocks)))
    else m
  }

  function AgedMessages(w: Window, isTool: Block -> bool, i: nat, l: List<Message>): List<Message>
    decreases l
  {
    if l.Nil? then Nil else Cons(AgedMessage(w, isTool, i, l.head), AgedMessages(w, isTool, i + 1, l.tail))
  }

  function AgedIn(w: Window, isTool: Block -> bool, i: nat, blocks: List<Block>): nat {
    if blocks.Nil? then 0 else (if Ages(w, isTool, i, blocks.head) then 1 else 0) + AgedIn(w, isTool, i, blocks.tail)
  }

  function BlocksOf(w: Window, i: nat, m: Message): List<Block> {
    if OpenMessage(w, i, m.role) && m.content.Blocks? then m.content.blocks else Nil
  }

  function AgedCount(w: Window, isTool: Block -> bool, i: nat, l: List<Message>): nat
    decreases l
  {
    if l.Nil? then 0 else AgedIn(w, isTool, i, BlocksOf(w, i, l.head)) + AgedCount(w, isTool, i + 1, l.tail)
  }

  function SavedBy(b: Block, i: nat): nat {
    SaturatingSub(ByteLen(OriginalText(b.content)), ByteLen(StubFor(b, i)))
  }

  function SavedIn(w: Window, isTool: Block -> bool, i: nat, blocks: List<Block>): nat {
    if blocks.Nil? then 0
    else (if Ages(w, isTool, i, blocks.head) then SavedBy(blocks.head, i) else 0) + SavedIn(w, isTool, i, blocks.tail)
  }

  function SavedBytes(w: Window, isTool: Block -> bool, i: nat, l: List<Message>): nat
    decreases l
  {
    if l.Nil? then 0 else SavedIn(w, isTool, i, BlocksOf(w, i, l.head)) + SavedBytes(w, isTool, i + 1, l.tail)
  }

  function Pass(l: List<Message>, maxAge: nat, floor: nat, isTool: Block -> bool): List<Message> {
    AgedMessages(WindowOf(l, maxAge, floor), isTool, 0, l)
  }

  // ----- Frame: what a pass changes, position by position -----

  lemma {:induction false} AgedBlockAt(w: Window, isTool: Block -> bool, i: nat, blocks: List<Block>, j: nat)
    ensures Size(AgedBlocks(w, isTool, i, blocks)) == Size(blocks)
    ensures j < Size(blocks) ==>
              (Nth(AgedBlocks(w, isTool, i, blocks), j)
            == if Ages(w, isTool, i, Nth(blocks, j)) then Stubbed(Nth(blocks, j), i) else Nth(blocks, j))
  {
    if blocks.Cons? {
      AgedBlockAt(w, isTool, i, blocks.tail, if j == 0 then 0 else j - 1);
    }
  }

  lemma {:induction false} AgedMessageAt(w: Window, isTool: Block -> bool, i: nat, l: List<Message>, k: nat)
    ensures Size(AgedMessages(w, isTool, i, l)) == Size(l)
    ensures k < Size(l) ==> Nth(AgedMessages(w, isTool, i, l), k) == AgedMessage(w, isTool, i + k, Nth(l, k))
    decreases l
  {
    if l.Cons? {
      AgedMessageAt(w, isTool, i + 1, l.tail, if k == 0 then 0 else k - 1);
    }
  }

  /** Exactly the aged positions change, and only in their content; number, order and roles stay. */
  lemma {:induction false} PassIsPointwise(l: List<Message>, maxAge: nat, floor: nat, isTool: Block -> bool, i: nat,
          j: nat)
    ensures Size(Pass(l, maxAge, floor, isTool)) == Size(l)
    ensures i < Size(l) ==>
              var m := Nth(l, i);
              var m' := Nth(Pass(l, maxAge, floor, isTool), i);
              && m' == m.(content := m'.content) && (m'.content.Blocks? <==> m.content.Blocks?)
              && (m.content.Blocks? ==> Size(m'.content.blocks) == Size(m.content.blocks))
              && (m.content.Blocks? && j < Size(m.content.blocks) ==>
                    var b := Nth(m.content.blocks, j);
                    Nth(m'.content.blocks, j) == if AgedAt(l, maxAge, floor, isTool, i, j) then Stubbed(b, i) else b)
  {
    var w := WindowOf(l, maxAge, floor);
    AgedMessageAt(w, isTool, 0, l, i);
    if i < Size(l) && Nth(l, i).content.Blocks? {
      AgedBlockAt(w, isTool, i, Nth(l, i).content.blocks, j);
    }
  }

  // ----- The loops -----

  method ExtractPathStringsFromText(text: Text, paths: List<Text>) returns (r: List<Text>)
    ensures r == Append(paths, PathsOf(text))
  {
    r := paths;
    var words := Words(text);
    while words.Cons?
      invariant Append(r, PathsAmong(words)) == Append(paths, PathsOf(text))
      decreases words
    {
      if HasSlash(words.head) {
        var trimmed := Trim(words.head);
        if Worthwhile(trimmed) {
          PushAppend(r, trimmed, PathsAmong(words.tail));
          r := Push(r, trimmed);
        }
      }
      words := words.tail;
    }
    AppendNil(r);
  }

  method ExtractFromOptional(text: Option<Text>, paths: List<Text>) returns (r: List<Text>)
    ensures r == Append(paths, OptionalPaths(text))
  {
    r := paths;
    if text.Some? {
      r := ExtractPathStringsFromText(text.value, r);
    } else {
      AppendNil(paths);
    }
  }

  method ExtractFromContent(c: Content, paths: List<Text>) returns (r: List<Text>)
    ensures r == Append(paths, ContentPaths(c))
  {
    r := paths;
    AppendNil(r);
    if c.Plain? {
      r := ExtractPathStringsFromText(c.text, r);
    } else if c.Parts? {
      var rest := c.parts;
      while rest.Cons?
        invariant Append(r, PartPaths(rest)) == Append(paths, PartPaths(c.parts))
        decreases rest
      {
        AppendAssociative(r, OptionalPaths(rest.head.text), PartPaths(rest.tail));
        r := ExtractFromOptional(rest.head.text, r);
        rest := rest.tail;
      }
      AppendNil(r);
    }
  }

  method ExtractPathStrings(m: Message, paths: List<Text>) returns (r: List<Text>)
    ensures r == Append(paths, MessagePaths(m))
  {
    r := paths;
    AppendNil(r);
    if m.content.Blocks? {
      var rest := m.content.blocks;
      while rest.Cons?
        invariant Append(r, BlockPaths(rest)) == Append(paths, BlockPaths(m.content.blocks))
        decreases rest
      {
        ghost var textPaths, contentPaths := OptionalPaths(rest.head.meta.text), ContentPaths(rest.head.content);
        AppendAssociative(r, Append(textPaths, contentPaths), BlockPaths(rest.tail));
        AppendAssociative(r, textPaths, contentPaths);
        r := ExtractFromOptional(rest.head.meta.text, r);
        r := ExtractFromContent(rest.head.content, r);
        rest := rest.tail;
      }
      AppendNil(r);
      AppendAssociative(paths, BlockPaths(m.content.blocks), OptionalPaths(m.text));
    }
    r := ExtractFromOptional(m.text, r);
  }

  method CollectRecentPaths(l: List<Message>, floor: nat) returns (r: List<Text>)
    ensures r == RecentPaths(l, floor)
  {
    r := Nil;
    var rest := Drop(l, SaturatingSub(Size(l), floor));
    while rest.Cons?
      invariant Append(r, AllPaths(rest)) == RecentPaths(l, floor)
      decreases rest
    {
      AppendAssociative(r, MessagePaths(rest.head), AllPaths(rest.tail));
      r := ExtractPathStrings(rest.head, r);
      rest := rest.tail;
    }
    AppendNil(r);
  }

  method AgeBlocks(w: Window, isTool: Block -> bool, i: nat, blocks: List<Block>)
    returns (r: List<Block>, aged: nat, saved: nat)
    ensures r == AgedBlocks(w, isTool, i, blocks)
    ensures aged == AgedIn(w, isTool, i, blocks)
    ensures saved == SavedIn(w, isTool, i, blocks)
  {
    r, aged, saved := Nil, 0, 0;
    var rest := blocks;
    while rest.Cons?
      invariant Append(r, AgedBlocks(w, isTool, i, rest)) == AgedBlocks(w, isTool, i, blocks)
      invariant aged + AgedIn(w, isTool, i, rest) == AgedIn(w, isTool, i, blocks)
      invariant saved + SavedIn(w, isTool, i, rest) == SavedIn(w, isTool, i, blocks)
      decreases rest
    {
      var block := rest.head;
      var original := OriginalText(block.content);
      if isTool(block) && original.Cons? && !CrossReferenced(PathsOf(original), w.recent)
         && SaturatingSub(w.total, i) > w.maxAge {
        var stub := Stub(ToolName(block.meta), EstimateTokens(original), i);
        block := block.(content := Plain(stub));
        aged, saved := aged + 1, saved + SaturatingSub(ByteLen(original), ByteLen(stub));
      }
      PushAppend(r, block, AgedBlocks(w, isTool, i, rest.tail));
      r, rest := Push(r, block), rest.tail;
    }
    AppendNil(r);
  }

  datatype SlidingWindowStats = SlidingWindowStats(itemsAged: nat, bytesRemoved: nat, cumulativeBytesRemoved: nat)

  function Record(s: SlidingWindowStats, bytes: nat): SlidingWindowStats {
    SlidingWindowStats(s.itemsAged + 1, s.bytesRemoved + bytes, s.cumulativeBytesRemoved + bytes)
  }

  method AgeToolResults(l: List<Message>, stats: SlidingWindowStats, maxAge: nat, floor: nat, isTool: Block -> bool)
    returns (r: List<Message>, s: SlidingWindowStats, aged: nat)
    ensures r == Pass(l, maxAge, floor, isTool)
    ensures aged == AgedCount(WindowOf(l, maxAge, floor), isTool, 0, l)
    ensures var saved := SavedBytes(WindowOf(l, maxAge, floor), isTool, 0, l);
            s == if aged == 0 then stats
                 else stats.(itemsAged := stats.itemsAged + 1, bytesRemoved := stats.bytesRemoved + saved,
                             cumulativeBytesRemoved := stats.cumulativeBytesRemoved + saved)
    // one call raises the counter of aged items by one, however many positions it aged
    ensures var positions := AgedSet(WindowOf(l, maxAge, floor), isTool, 0, l);
            s.itemsAged == stats.itemsAged + |positions| <==> |positions| <= 1
  {
    var recent := CollectRecentPaths(l, floor);
    var w := Window(Size(l), maxAge, floor, recent);
    r, aged := Nil, 0;
    var bytesRemoved, i, rest := 0, 0, l;
    while rest.Cons?
      invariant Append(r, AgedMessages(w, isTool, i, rest)) == AgedMessages(w, isTool, 0, l)
      invariant aged + AgedCount(w, isTool, i, rest) == AgedCount(w, isTool, 0, l)
      invariant bytesRemoved + SavedBytes(w, isTool, i, rest) == SavedBytes(w, isTool, 0, l)
      decreases rest
    {
      var msg := rest.head;
      if i < SaturatingSub(w.total, w.floor) && msg.role != Assistant && msg.role != System && msg.content.Blocks? {
        var blocks, n, saved := AgeBlocks(w, isTool, i, msg.content.blocks);
        msg := msg.(content := Blocks(blocks));
        aged, bytesRemoved := aged + n, bytesRemoved + saved;
      }
      PushAppend(r, msg, AgedMessages(w, isTool, i + 1, rest.tail));
      r, rest, i := Push(r, msg), rest.tail, i + 1;
    }
    AppendNil(r);
    s := if aged > 0 then Record(stats, bytesRemoved) else stats;
    AgedSetSize(w, isTool, 0, l);
  }

  /** A message of two tool results without paths, as a conversation of its own, ages two of them in one call. */
  lemma {:induction false} TwoAgeInOneCall(b: Block, c: Block, m: Message, isTool: Block -> bool)
    requires m.role != Assistant && m.role != System && m.content == Blocks(Cons(b, Cons(c, Nil)))
    requires isTool(b) && OriginalText(b.content).Cons? && PathsOf(OriginalText(b.content)) == Nil
    requires isTool(c) && OriginalText(c.content).Cons? && PathsOf(OriginalText(c.content)) == Nil
    ensures var l := Cons(m, Nil);
            |AgedSet(WindowOf(l, 0, 0), isTool, 0, l)| == AgedCount(WindowOf(l, 0, 0), isTool, 0, l) == 2
  {
    var l := Cons(m, Nil);
    var w := WindowOf(l, 0, 0);
    AgedSetSize(w, isTool, 0, l);
    assert Size(l) == 1 && OpenMessage(w, 0, m.role);
    assert !CrossReferenced(Nil, w.recent);
    assert Ages(w, isTool, 0, b) && Ages(w, isTool, 0, c);
    assert AgedIn(w, isTool, 0, Cons(c, Nil)) == 1;
    assert AgedCount(w, isTool, 1, Nil) == 0;
  }

  // ----- The returned count is the number of aged positions -----

  ghost function Positions(w: Window, isTool: Block -> bool, i: nat, blocks: List<Block>, j: nat): set<(nat, nat)>
    decreases blocks
  {
    if blocks.Nil? then {}
    else (if Ages(w, isTool, i, blocks.head) then {(i, j)} else {}) + Positions(w, isTool, i, blocks.tail, j + 1)
  }

  /** All aged positions, as a set. */
  ghost function AgedSet(w: Window, isTool: Block -> bool, i: nat, l: List<Message>): set<(nat, nat)>
    decreases l
  {
    if l.Nil? then {}
    else Positions(w, isTool, i, BlocksOf(w, i, l.head), 0) + AgedSet(w, isTool, i + 1, l.tail)
  }

  ghost predicate AgesIn(w: Window, isTool: Block -> bool, i: nat, blocks: List<Block>, j: nat) {
    j < Size(blocks) && Ages(w, isTool, i, Nth(blocks, j))
  }

  lemma {:induction false} PositionsFacts(w: Window, isTool: Block -> bool, i: nat, blocks: List<Block>, j: nat,
          m: nat, n: nat)
    ensures (m, n) in Positions(w, isTool, i, blocks, j) <==> m == i && j <= n && AgesIn(w, isTool, i, blocks, n - j)
    decreases blocks
  {
    if blocks.Cons? {
      PositionsFacts(w, isTool, i, blocks.tail, j + 1, m, n);
    }
  }

  lemma {:induction false} PositionsSize(w: Window, isTool: Block -> bool, i: nat, blocks: List<Block>, j: nat)
    ensures |Positions(w, isTool, i, blocks, j)| == AgedIn(w, isTool, i, blocks)
    decreases blocks
  {
    if blocks.Cons? {
      PositionsSize(w, isTool, i, blocks.tail, j + 1);
      PositionsFacts(w, isTool, i, blocks.tail, j + 1, i, j);
    }
  }

  /** Block `j` ages of the message `k` places into the list, whose first message is number `i`. */
  ghost predicate AgesFrom(w: Window, isTool: Block -> bool, i: nat, l: List<Message>, k: nat, j: nat)
    decreases l
  {
    l.Cons?
    && (if k == 0 then AgesIn(w, isTool, i, BlocksOf(w, i, l.head), j)
        else AgesFrom(w, isTool, i + 1, l.tail, k - 1, j))
  }

  lemma {:induction false} AgesFromAt(w: Window, isTool: Block -> bool, i: nat, l: List<Message>, k: nat, j: nat)
    ensures AgesFrom(w, isTool, i, l, k, j)
       <==> k < Size(l) && AgesIn(w, isTool, i + k, BlocksOf(w, i + k, Nth(l, k)), j)
    decreases l
  {
    if l.Cons? && k > 0 {
      AgesFromAt(w, isTool, i + 1, l.tail, k - 1, j);
      assert i + 1 + (k - 1) == i + k;
    }
  }

  lemma {:induction false} AgedSetFacts(w: Window, isTool: Block -> bool, i: nat, l: List<Message>, m: nat, n: nat)
    ensures (m, n) in AgedSet(w, isTool, i, l) <==> i <= m && AgesFrom(w, isTool, i, l, m - i, n)
    decreases l
  {
    if l.Cons? {
      PositionsFacts(w, isTool, i, BlocksOf(w, i, l.head), 0, m, n);
      AgedSetFacts(w, isTool, i + 1, l.tail, m, n);
    }
  }

  lemma {:induction false} AgedSetSize(w: Window, isTool: Block -> bool, i: nat, l: List<Message>)
    ensures |AgedSet(w, isTool, i, l)| == AgedCount(w, isTool, i, l)
    decreases l
  {
    if l.Cons? {
      var here, later := Positions(w, isTool, i, BlocksOf(w, i, l.head), 0), AgedSet(w, isTool, i + 1, l.tail);
      AgedSetSize(w, isTool, i + 1, l.tail);
      PositionsSize(w, isTool, i, BlocksOf(w, i, l.head), 0);
      assert here !! later by {
        forall p | p in here ensures p !in later {
          PositionsFacts(w, isTool, i, BlocksOf(w, i, l.head), 0, p.0, p.1);
          AgedSetFacts(w, isTool, i + 1, l.tail, p.0, p.1);
        }
      }
      assert |here + later| == |here| + |later|;
    }
  }

  lemma {:induction false} AgedAtMeaning(l: List<Message>, maxAge: nat, floor: nat, isTool: Block -> bool, i: nat,
          j: nat)
    ensures AgesFrom(WindowOf(l, maxAge, floor), isTool, 0, l, i, j) <==> AgedAt(l, maxAge, floor, isTool, i, j)
  {
    AgesFromAt(WindowOf(l, maxAge, floor), isTool, 0, l, i, j);
  }

  /** The count a pass returns is the size of the set of positions it ages. */
  lemma {:induction false} CountIsAgedPositions(l: List<Message>, maxAge: nat, floor: nat, isTool: Block -> bool,
          i: nat, j: nat)
    ensures var aged := AgedSet(WindowOf(l, maxAge, floor), isTool, 0, l);
            && AgedCount(WindowOf(l, maxAge, floor), isTool, 0, l) == |aged|
            && ((i, j) in aged <==> AgedAt(l, maxAge, floor, isTool, i, j))
  {
    AgedSetSize(WindowOf(l, maxAge, floor), isTool, 0, l);
    AgedSetFacts(WindowOf(l, maxAge, floor), isTool, 0, l, i, j);
    AgedAtMeaning(l, maxAge, floor, isTool, i, j);
  }

  // ----- A larger limit or floor ages less -----

  lemma {:induction false} MentionedAppend(p: Text, a: List<Text>, b: List<Text>)
    ensures MentionedBy(p, Append(a, b)) <==> MentionedBy(p, a) || MentionedBy(p, b)
  {
    if a.Cons? {
      MentionedAppend(p, a.tail, b);
    }
  }

  lemma {:induction false} CrossReferencedAppend(paths: List<Text>, a: List<Text>, b: List<Text>)
    ensures CrossReferenced(paths, Append(a, b)) <==> CrossReferenced(paths, a) || CrossReferenced(paths, b)
  {
    if paths.Cons? {
      MentionedAppend(paths.head, a, b);
      CrossReferencedAppend(paths.tail, a, b);
    }
  }

  lemma {:induction false} LaterMessagesSayLess(paths: List<Text>, l: List<Message>, m: nat, n: nat)
    requires m <= n && CrossReferenced(paths, AllPaths(Drop(l, n)))
    ensures CrossReferenced(paths, AllPaths(Drop(l, m)))
  {
    if l.Cons? && m < n {
      if m > 0 {
        LaterMessagesSayLess(paths, l.tail, m - 1, n - 1);
      } else {
        LaterMessagesSayLess(paths, l.tail, 0, n - 1);
        CrossReferencedAppend(paths, MessagePaths(l.head), AllPaths(l.tail));
      }
    }
  }

  /** The set of aged positions only shrinks as the age limit or the floor grows. */
  lemma {:induction false} LargerWindowAgesLess(l: List<Message>, maxAge: nat, floor: nat, maxAge': nat, floor': nat,
          isTool: Block -> bool, i: nat, j: nat)
    requires maxAge <= maxAge' && floor <= floor' && AgedAt(l, maxAge', floor', isTool, i, j)
    ensures AgedAt(l, maxAge, floor, isTool, i, j)
  {
    var paths := PathsOf(OriginalText(Nth(Nth(l, i).content.blocks, j).content));
    if CrossReferenced(paths, RecentPaths(l, floor)) {
      LaterMessagesSayLess(paths, l, SaturatingSub(Size(l), floor'), SaturatingSub(Size(l), floor));
    }
  }

  // ----- A second pass -----

  lemma {:induction false} FirstWordAppend(a: Text, b: Text)
    requires b.Cons? && IsWhitespace(b.head)
    ensures FirstWord(Append(a, b)) == FirstWord(a)
    ensures AfterWord(Append(a, b)) == Append(AfterWord(a), b)
  {
    if a.Cons? {
      FirstWordAppend(a.tail, b);
    }
  }

  /** Words do not run across white space. */
  lemma {:induction false} WordsAppend(a: Text, b: Text)
    requires b.Cons? && IsWhitespace(b.head)
    ensures Words(Append(a, b)) == Append(Words(a), Words(b))
    decreases Size(a)
  {
    if a.Cons? {
      if IsWhitespace(a.head) {
        WordsAppend(a.tail, b);
      } else {
        FirstWordAppend(a, b);
        WordsAppend(AfterWord(a), b);
      }
    }
  }

  lemma {:induction false} PathsAmongAppend(a: List<Text>, b: List<Text>)
    ensures PathsAmong(Append(a, b)) == Append(PathsAmong(a), PathsAmong(b))
  {
    if a.Cons? {
      PathsAmongAppend(a.tail, b);
    }
  }

  lemma {:induction false} PathsAppend(a: Text, b: Text)
    ensures PathsOf(Append(a, Cons(' ', b))) == Append(PathsOf(a), PathsOf(b))
  {
    assert IsWhitespace(' ');
    WordsAppend(a, Cons(' ', b));
    PathsAmongAppend(Words(a), Words(b));
  }

  lemma {:induction false} WordsWithoutSlash(t: Text)
    requires !HasSlash(t)
    ensures !HasSlash(FirstWord(t)) && !HasSlash(AfterWord(t))
  {
    if t.Cons? {
      WordsWithoutSlash(t.tail);
    }
  }

  lemma {:induction false} NoSlashNoPaths(t: Text)
    requires !HasSlash(t)
    ensures PathsOf(t) == Nil
    decreases Size(t)
  {
    if t.Cons? {
      if IsWhitespace(t.head) {
        NoSlashNoPaths(t.tail);
      } else {
        WordsWithoutSlash(t);
        NoSlashNoPaths(AfterWord(t));
      }
    }
  }

  lemma {:induction false} SlashAppend(a: Text, b: Text)
    ensures HasSlash(Append(a, b)) <==> HasSlash(a) || HasSlash(b)
  {
    if a.Cons? {
      SlashAppend(a.tail, b);
    }
  }

  lemma {:induction false} DecimalHasNoSlash(n: nat, more: Text)
    requires !HasSlash(more)
    ensures !HasSlash(Decimal(n, more))
  {
    if n >= 10 {
      DecimalHasNoSlash(n / 10, Cons(Digit(n % 10), more));
    }
  }

  ghost predicate SlashFree(s: string) {
    forall i :: 0 <= i < |s| ==> !IsSlash(s[i])
  }

  lemma {:induction false} CharsHaveNoSlash(s: string)
    requires SlashFree(s)
    ensures !HasSlash(Chars(s))
  {
    if s != "" {
      assert !IsSlash(s[0]);
      CharsHaveNoSlash(s[1..]);
    }
  }

  lemma {:induction false} WordingIsSlashFree()
    ensures SlashFree("[aged:") && SlashFree("output, ") && SlashFree(" tokens, turn ") && SlashFree("]")
  {
  }

  lemma {:induction false} NumbersHaveNoSlash(before: Text, m: nat, between: Text, n: nat, after: Text)
    requires !HasSlash(before) && !HasSlash(between) && !HasSlash(after)
    ensures !HasSlash(Append(before, Decimal(m, Append(between, Decimal(n, after)))))
  {
    DecimalHasNoSlash(n, after);
    SlashAppend(between, Decimal(n, after));
    DecimalHasNoSlash(m, Append(between, Decimal(n, after)));
    SlashAppend(before, Decimal(m, Append(between, Decimal(n, after))));
  }

  lemma {:induction false} StubTailHasNoSlash(tokens: nat, turn: nat)
    ensures !HasSlash(StubTail(tokens, turn))
  {
    WordingIsSlashFree();
    CharsHaveNoSlash("output, ");
    CharsHaveNoSlash(" tokens, turn ");
    CharsHaveNoSlash("]");
    NumbersHaveNoSlash(Chars("output, "), tokens, Chars(" tokens, turn "), turn, Chars("]"));
  }

  lemma {:induction false} PathsInTheMiddle(before: Text, name: Text, after: Text)
    requires !HasSlash(before) && !HasSlash(after)
    ensures PathsOf(Append(before, Cons(' ', Append(name, Cons(' ', after))))) == PathsOf(name)
  {
    PathsAppend(before, Append(name, Cons(' ', after)));
    PathsAppend(name, after);
    NoSlashNoPaths(before);
    NoSlashNoPaths(after);
    AppendNil(PathsOf(name));
  }

  /** The only paths in a stub are those in the tool's name. */
  lemma {:induction false} StubPaths(name: Text, tokens: nat, turn: nat)
    ensures PathsOf(Stub(name, tokens, turn)) == PathsOf(name)
  {
    WordingIsSlashFree();
    CharsHaveNoSlash("[aged:");
    StubTailHasNoSlash(tokens, turn);
    PathsInTheMiddle(Chars("[aged:"), name, StubTail(tokens, turn));
  }

  lemma {:induction false} FloorUntouched(w: Window, isTool: Block -> bool, i: nat, l: List<Message>, n: nat)
    requires i + n >= SaturatingSub(w.total, w.floor)
    ensures Drop(AgedMessages(w, isTool, i, l), n) == Drop(l, n)
    decreases l
  {
    if l.Cons? {
      FloorUntouched(w, isTool, i + 1, l.tail, if n == 0 then 0 else n - 1);
    }
  }

  /** A pass leaves the window as it was: same length, same recent paths. */
  lemma {:induction false} PassKeepsWindow(l: List<Message>, maxAge: nat, floor: nat, isTool: Block -> bool)
    ensures WindowOf(Pass(l, maxAge, floor, isTool), maxAge, floor) == WindowOf(l, maxAge, floor)
  {
    AgedMessageAt(WindowOf(l, maxAge, floor), isTool, 0, l, 0);
    FloorUntouched(WindowOf(l, maxAge, floor), isTool, 0, l, SaturatingSub(Size(l), floor));
  }

  lemma {:induction false} StubText(b: Block, i: nat)
    ensures StubFor(b, i).Cons? && PathsOf(StubFor(b, i)) == PathsOf(ToolName(b.meta))
  {
    StubPaths(ToolName(b.meta), EstimateTokens(OriginalText(b.content)), i);
  }

  lemma {:induction false} PlainAges(w: Window, isTool: Block -> bool, i: nat, b: Block, paths: List<Text>)
    requires b.content.Plain? && b.content.text.Cons? && PathsOf(b.content.text) == paths
    ensures Ages(w, isTool, i, b)
       <==> isTool(b) && !CrossReferenced(paths, w.recent) && SaturatingSub(w.total, i) > w.maxAge
  {
  }

  /**
   Exactly which positions a second pass ages: those the first one aged whose stub still reads as a
   tool result and whose tool name mentions no path of the floor.
   */
  lemma {:induction false} SecondPass(l: List<Message>, maxAge: nat, floor: nat, isTool: Block -> bool, i: nat, j: nat)
    ensures AgedAt(Pass(l, maxAge, floor, isTool), maxAge, floor, isTool, i, j)
       <==> && AgedAt(l, maxAge, floor, isTool, i, j)
            && var b := Nth(Nth(l, i).content.blocks, j);
               isTool(Stubbed(b, i)) && !CrossReferenced(PathsOf(ToolName(b.meta)), RecentPaths(l, floor))
  {
    PassIsPointwise(l, maxAge, floor, isTool, i, j);
    PassKeepsWindow(l, maxAge, floor, isTool);
    if i < Size(l) && Nth(l, i).content.Blocks? && j < Size(Nth(l, i).content.blocks) {
      var b := Nth(Nth(l, i).content.blocks, j);
      StubText(b, i);
      PlainAges(WindowOf(l, maxAge, floor), isTool, i, Stubbed(b, i), PathsOf(ToolName(b.meta)));
    }
  }

  /** With tool names free of slashes and a test that ignores contents, ageing again ages the same positions. */
  lemma {:induction false} SecondPassAgesTheSame(l: List<Message>, maxAge: nat, floor: nat, isTool: Block -> bool,
          i: nat, j: nat)
    requires forall b: Block, c: Content :: isTool(b.(content := c)) == isTool(b)
    requires AgedAt(l, maxAge, floor, isTool, i, j) ==> !HasSlash(ToolName(Nth(Nth(l, i).content.blocks, j).meta))
    ensures AgedAt(Pass(l, maxAge, floor, isTool), maxAge, floor, isTool, i, j)
       <==> AgedAt(l, maxAge, floor, isTool, i, j)
  {
    SecondPass(l, maxAge, floor, isTool, i, j);
    if AgedAt(l, maxAge, floor, isTool, i, j) {
      NoSlashNoPaths(ToolName(Nth(Nth(l, i).content.blocks, j).meta));
    }
  }

  // ----- The tool's name in the stub -----

  /** What stands between two fixed texts, set off by blanks. */
  function Framed(before: Text, slot: Text, after: Text): Text {
    Append(before, Cons(' ', Append(slot, Cons(' ', after))))
  }

  lemma {:induction false} SameAfter(before: Text, x: Text, y: Text)
    requires Append(before, x) == Append(before, y)
    ensures x == y
  {
    if before.Cons? {
      SameAfter(before.tail, x, y);
    }
  }

  lemma {:induction false} SameBefore(x: Text, y: Text, after: Text)
    requires Append(x, after) == Append(y, after)
    ensures x == y
  {
    SizeAppend(x, after);
    SizeAppend(y, after);
    if x.Cons? && y.Cons? {
      SameBefore(x.tail, y.tail, after);
    }
  }

  lemma {:induction false} SlotIsRead(before: Text, x: Text, y: Text, after: Text)
    ensures Framed(before, x, after) == Framed(before, y, after) <==> x == y
  {
    if Framed(before, x, after) == Framed(before, y, after) {
      SameAfter(before, Cons(' ', Append(x, Cons(' ', after))), Cons(' ', Append(y, Cons(' ', after))));
      SameBefore(x, y, Cons(' ', after));
    }
  }

  lemma {:induction false} StubIsFramed(name: Text, tokens: nat, turn: nat)
    ensures Stub(name, tokens, turn) == Framed(Chars("[aged:"), name, StubTail(tokens, turn))
  {
  }

  /** The stub of block `b` at message `i` with `name` between "[aged: " and " output". */
  ghost predicate Names(b: Block, i: nat, name: Text) {
    StubFor(b, i) == Stub(name, EstimateTokens(OriginalText(b.content)), i)
  }

  /**
   The stub is documented to contain the original tool's name. In its place it names the tool exactly when the
   block's identifier is that name; or there is no identifier and its name field is; or there is neither and the
   tool is called "unknown".
   */
  lemma {:induction false} NameInStub(b: Block, i: nat, tool: Text)
    ensures Names(b, i, tool)
       <==> if b.meta.toolUseId.Some? then b.meta.toolUseId == Some(tool)
            else if b.meta.name.Some? then b.meta.name == Some(tool)
            else tool == Chars("unknown")
  {
    var tokens := EstimateTokens(OriginalText(b.content));
    StubIsFramed(tool, tokens, i);
    StubIsFramed(ToolName(b.meta), tokens, i);
    SlotIsRead(Chars("[aged:"), ToolName(b.meta), tool, StubTail(tokens, i));
  }

  predicate IsCapital(c: char) {
    'A' <= c <= 'Z'
  }

  ghost predicate CapitalFree(s: string) {
    forall i :: 0 <= i < |s| ==> !IsCapital(s[i])
  }

  lemma {:induction false} NoCapitalInWording()
    ensures CapitalFree("[aged:") && CapitalFree("output, ") && CapitalFree(" tokens, turn ") && CapitalFree("]")
  {
  }

  lemma {:induction false} NoCapitalInChars(s: string, c: char)
    requires CapitalFree(s) && IsCapital(c)
    ensures !Has(Chars(s), c)
  {
    if s != "" {
      assert !IsCapital(s[0]);
      NoCapitalInChars(s[1..], c);
    }
  }

  lemma {:induction false} NoCapitalInNumber(n: nat, more: Text, c: char)
    requires IsCapital(c) && !Has(more, c)
    ensures !Has(Decimal(n, more), c)
  {
    if n >= 10 {
      NoCapitalInNumber(n / 10, Cons(Digit(n % 10), more), c);
    }
  }

  lemma {:induction false} NoCapitalAround(before: Text, m: nat, between: Text, n: nat, after: Text, c: char)
    requires IsCapital(c) && !Has(before, c) && !Has(between, c) && !Has(after, c)
    ensures !Has(Append(before, Decimal(m, Append(between, Decimal(n, after)))), c)
  {
    NoCapitalInNumber(n, after, c);
    HasAppend(between, Decimal(n, after), c);
    NoCapitalInNumber(m, Append(between, Decimal(n, after)), c);
    HasAppend(before, Decimal(m, Append(between, Decimal(n, after))), c);
  }

  lemma {:induction false} NoCapitalInTail(tokens: nat, turn: nat, c: char)
    requires IsCapital(c)
    ensures !Has(StubTail(tokens, turn), c)
  {
    NoCapitalInWording();
    NoCapitalInChars("output, ", c);
    NoCapitalInChars(" tokens, turn ", c);
    NoCapitalInChars("]", c);
    NoCapitalAround(Chars("output, "), tokens, Chars(" tokens, turn "), turn, Chars("]"), c);
  }

  lemma {:induction false} CapitalsOfFrame(before: Text, slot: Text, after: Text, c: char)
    requires IsCapital(c) && !Has(before, c) && !Has(after, c) && !Has(slot, c)
    ensures !Has(Framed(before, slot, after), c)
  {
    HasAppend(slot, Cons(' ', after), c);
    HasAppend(before, Cons(' ', Append(slot, Cons(' ', after))), c);
  }

  lemma {:induction false} ContainedCharacter(t: Text, p: Text, c: char)
    requires Contains(t, p) && Has(p, c)
    ensures Has(t, c)
  {
    if StartsWith(t, p) {
      StartingCharacter(t, p, c);
    } else {
      ContainedCharacter(t.tail, p, c);
    }
  }

  lemma {:induction false} StartingCharacter(t: Text, p: Text, c: char)
    requires StartsWith(t, p) && Has(p, c)
    ensures Has(t, c)
  {
    if p.head != c {
      StartingCharacter(t.tail, p.tail, c);
    }
  }

  /** A tool whose name has a capital letter that the block's own name does not have is nowhere in the stub. */
  lemma {:induction false} ToolNameIsLost(b: Block, i: nat, tool: Text, c: char)
    requires IsCapital(c) && Has(tool, c) && !Has(ToolName(b.meta), c)
    ensures !Contains(StubFor(b, i), tool)
  {
    var tokens := EstimateTokens(OriginalText(b.content));
    StubIsFramed(ToolName(b.meta), tokens, i);
    NoCapitalInWording();
    NoCapitalInChars("[aged:", c);
    NoCapitalInTail(tokens, i, c);
    CapitalsOfFrame(Chars("[aged:"), ToolName(b.meta), StubTail(tokens, i), c);
    if Contains(StubFor(b, i), tool) {
      ContainedCharacter(StubFor(b, i), tool, c);
      assert false;
    }
  }

  /** The result of a call "t1" of the tool "Read" is such a block. */
  lemma {:induction false} ReadIsNotNamed(b: Block, i: nat)
    requires b.meta.toolUseId == Some(Cons('t', Cons('1', Nil)))
    ensures !Contains(StubFor(b, i), Cons('R', Cons('e', Cons('a', Cons('d', Nil)))))
  {
    ToolNameIsLost(b, i, Cons('R', Cons('e', Cons('a', Cons('d', Nil)))), 'R');
  }
}
