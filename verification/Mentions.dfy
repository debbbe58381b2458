/**
 The documented rule of ageing (proxy/src/transform.rs) that a tool result is kept when one of its paths
 appears anywhere later, against what the code looks at. A path appears in a message when some string of
 the message contains it; nothing here depends on how the code finds paths.
 */
module Mentions {
  import opened Prelude
  import opened Lines
  import opened Ageing

  // ----- The strings of a message -----

  function OptionalText(t: Option<Text>): List<Text> {
    if t.None? then Nil else Cons(t.value, Nil)
  }

  function PartStrings(parts: List<Part>, readOnly: bool): List<Text> {
    if parts.Nil? then Nil
    else Append(Append(OptionalText(parts.head.text), if readOnly then Nil else parts.head.unread),
                PartStrings(parts.tail, readOnly))
  }

  function ContentStrings(c: Content, readOnly: bool): List<Text> {
    match c
    case Plain(t) => Cons(t, Nil)
    case Parts(parts) => PartStrings(parts, readOnly)
    case Other(unread) => if readOnly then Nil else unread
  }

  function MetaStrings(m: Meta, readOnly: bool): List<Text> {
    Append(OptionalText(m.text),
           if readOnly then Nil else Append(OptionalText(m.toolUseId), Append(OptionalText(m.name), m.unread)))
  }

  function BlockStrings(blocks: List<Block>, readOnly: bool): List<Text> {
    if blocks.Nil? then Nil
    else Append(Append(MetaStrings(blocks.head.meta, readOnly), ContentStrings(blocks.head.content, readOnly)),
                BlockStrings(blocks.tail, readOnly))
  }

  function BodyStrings(c: MessageContent, readOnly: bool): List<Text> {
    match c
    case Blocks(blocks) => BlockStrings(blocks, readOnly)
    case PlainString(t) => if readOnly then Nil else Cons(t, Nil)
    case NoBlocks(unread) => if readOnly then Nil else unread
  }

  /** All strings of a message, or only those in the fields the path extraction reads. */
  function MessageStrings(m: Message, readOnly: bool): List<Text> {
    Append(Append(BodyStrings(m.content, readOnly), OptionalText(m.text)),
           if readOnly then Nil else if m.role.OtherRole? then Cons(m.role.name, m.unread) else m.unread)
  }

  function Strings(l: List<Message>, readOnly: bool): List<Text> {
    if l.Nil? then Nil else Append(MessageStrings(l.head, readOnly), Strings(l.tail, readOnly))
  }

  // ----- What makes a path -----

  predicate NoSpace(t: Text) {
    t.Cons? ==> !IsWhitespace(t.head) && NoSpace(t.tail)
  }

  predicate EndsUnquoted(t: Text) {
    t.Cons? && if t.tail.Nil? then !IsQuoting(t.head) else EndsUnquoted(t.tail)
  }

  /** A word with a slash, without quotes, commas or closing brackets around it. */
  predicate IsPath(p: Text) {
    p.Cons? && HasSlash(p) && NoSpace(p) && !IsQuoting(p.head) && EndsUnquoted(p)
  }

  predicate AllPathLike(l: List<Text>) {
    l.Cons? ==> IsPath(l.head) && AllPathLike(l.tail)
  }

  lemma {:induction false} FirstWordHasNoSpace(t: Text)
    ensures NoSpace(FirstWord(t))
  {
    if t.Cons? {
      FirstWordHasNoSpace(t.tail);
    }
  }

  lemma {:induction false} TrimStartFacts(t: Text)
    ensures NoSpace(t) ==> NoSpace(TrimStart(t))
    ensures TrimStart(t).Cons? ==> !IsQuoting(TrimStart(t).head)
  {
    if t.Cons? {
      TrimStartFacts(t.tail);
    }
  }

  lemma {:induction false} TrimEndFacts(t: Text)
    ensures NoSpace(t) ==> NoSpace(TrimEnd(t))
    ensures TrimEnd(t).Cons? ==> EndsUnquoted(TrimEnd(t)) && t.Cons? && TrimEnd(t).head == t.head
  {
    if t.Cons? {
      TrimEndFacts(t.tail);
    }
  }

  lemma {:induction false} TrimmedIsPath(word: Text)
    requires HasSlash(word) && NoSpace(word)
    ensures IsPath(Trim(word))
  {
    TrimKeepsSlash(word);
    TrimKeepsSlash(TrimStart(word));
    TrimStartFacts(word);
    TrimEndFacts(TrimStart(word));
  }

  lemma {:induction false} ExtractedArePaths(t: Text)
    ensures AllPathLike(PathsOf(t))
    decreases Size(t)
  {
    if t.Cons? {
      if IsWhitespace(t.head) {
        ExtractedArePaths(t.tail);
      } else {
        ExtractedArePaths(AfterWord(t));
        FirstWordHasNoSpace(t);
        if HasSlash(FirstWord(t)) {
          TrimmedIsPath(FirstWord(t));
        }
      }
    }
  }

  // ----- A path occurs in a text exactly when it is part of an extracted path -----

  lemma {:induction false} StartsInPrefix(a: Text, b: Text, p: Text)
    requires NoSpace(p) && (b.Cons? ==> IsWhitespace(b.head))
    ensures StartsWith(Append(a, b), p) <==> StartsWith(a, p)
  {
    if a.Cons? && p.Cons? {
      StartsInPrefix(a.tail, b, p.tail);
    }
  }

  lemma {:induction false} WithinAWord(a: Text, b: Text, p: Text)
    requires NoSpace(p) && (b.Cons? ==> IsWhitespace(b.head))
    ensures Contains(Append(a, b), p) <==> Contains(a, p) || Contains(b, p)
  {
    StartsInPrefix(a, b, p);
    if a.Cons? {
      WithinAWord(a.tail, b, p);
    }
  }

  lemma {:induction false} SplitAtWord(t: Text)
    ensures t == Append(FirstWord(t), AfterWord(t))
    ensures AfterWord(t).Cons? ==> IsWhitespace(AfterWord(t).head)
  {
    if t.Cons? {
      SplitAtWord(t.tail);
    }
  }

  lemma {:induction false} InTrimStart(t: Text, p: Text)
    requires p.Cons? && !IsQuoting(p.head)
    ensures Contains(TrimStart(t), p) <==> Contains(t, p)
  {
    if t.Cons? {
      InTrimStart(t.tail, p);
    }
  }

  lemma {:induction false} StartsBeforeTrim(t: Text, p: Text)
    requires EndsUnquoted(p)
    ensures StartsWith(TrimEnd(t), p) <==> StartsWith(t, p)
  {
    if t.Cons? && p.tail.Cons? {
      StartsBeforeTrim(t.tail, p.tail);
    }
  }

  lemma {:induction false} InTrimEnd(t: Text, p: Text)
    requires EndsUnquoted(p)
    ensures Contains(TrimEnd(t), p) <==> Contains(t, p)
  {
    StartsBeforeTrim(t, p);
    if t.Cons? {
      InTrimEnd(t.tail, p);
    }
  }

  lemma {:induction false} ContainedSlash(t: Text, p: Text)
    requires HasSlash(p) && Contains(t, p)
    ensures HasSlash(t)
  {
    if StartsWith(t, p) {
      StartingSlash(t, p);
    } else {
      ContainedSlash(t.tail, p);
    }
  }

  lemma {:induction false} StartingSlash(t: Text, p: Text)
    requires HasSlash(p) && StartsWith(t, p)
    ensures HasSlash(t)
  {
    if !IsSlash(p.head) {
      StartingSlash(t.tail, p.tail);
    }
  }

  /** What the words of a text yield mentions a path exactly when the text does. */
  lemma {:induction false} ExtractionFindsMentions(t: Text, p: Text)
    requires IsPath(p)
    ensures MentionedBy(p, PathsOf(t)) <==> Contains(t, p)
    decreases Size(t)
  {
    if t.Cons? {
      if IsWhitespace(t.head) {
        ExtractionFindsMentions(t.tail, p);
      } else {
        var word := FirstWord(t);
        ExtractionFindsMentions(AfterWord(t), p);
        SplitAtWord(t);
        WithinAWord(word, AfterWord(t), p);
        if HasSlash(word) {
          SlashMakesPath(word);
          InTrimStart(word, p);
          InTrimEnd(TrimStart(word), p);
        } else if Contains(word, p) {
          ContainedSlash(word, p);
        }
      }
    }
  }

  // ----- Lifted to messages -----

  lemma {:induction false} OptionalMentions(t: Option<Text>, p: Text)
    requires IsPath(p)
    ensures MentionedBy(p, OptionalPaths(t)) <==> MentionedBy(p, OptionalText(t))
  {
    if t.Some? {
      ExtractionFindsMentions(t.value, p);
    }
  }

  lemma {:induction false} PartMentions(parts: List<Part>, p: Text)
    requires IsPath(p)
    ensures MentionedBy(p, PartPaths(parts)) <==> MentionedBy(p, PartStrings(parts, true))
  {
    if parts.Cons? {
      OptionalMentions(parts.head.text, p);
      PartMentions(parts.tail, p);
      MentionedAppend(p, OptionalPaths(parts.head.text), PartPaths(parts.tail));
      AppendNil(OptionalText(parts.head.text));
      MentionedAppend(p, OptionalText(parts.head.text), PartStrings(parts.tail, true));
    }
  }

  lemma {:induction false} ContentMentions(c: Content, p: Text)
    requires IsPath(p)
    ensures MentionedBy(p, ContentPaths(c)) <==> MentionedBy(p, ContentStrings(c, true))
  {
    match c
    case Plain(t) => ExtractionFindsMentions(t, p);
    case Parts(parts) => PartMentions(parts, p);
    case Other(_) =>
  }

  lemma {:induction false} BlockMentions(blocks: List<Block>, p: Text)
    requires IsPath(p)
    ensures MentionedBy(p, BlockPaths(blocks)) <==> MentionedBy(p, BlockStrings(blocks, true))
  {
    if blocks.Cons? {
      var b := blocks.head;
      OptionalMentions(b.meta.text, p);
      ContentMentions(b.content, p);
      BlockMentions(blocks.tail, p);
      AppendNil(OptionalText(b.meta.text));
      MentionedAppend(p, OptionalPaths(b.meta.text), ContentPaths(b.content));
      MentionedAppend(p, Append(OptionalPaths(b.meta.text), ContentPaths(b.content)), BlockPaths(blocks.tail));
      MentionedAppend(p, MetaStrings(b.meta, true), ContentStrings(b.content, true));
      MentionedAppend(p, Append(MetaStrings(b.meta, true), ContentStrings(b.content, true)),
          BlockStrings(blocks.tail, true));
    }
  }

  lemma {:induction false} MessageMentions(m: Message, p: Text)
    requires IsPath(p)
    ensures MentionedBy(p, MessagePaths(m)) <==> MentionedBy(p, MessageStrings(m, true))
  {
    OptionalMentions(m.text, p);
    var body := BodyStrings(m.content, true);
    if m.content.Blocks? {
      BlockMentions(m.content.blocks, p);
      MentionedAppend(p, BlockPaths(m.content.blocks), OptionalPaths(m.text));
    }
    AppendNil(Append(body, OptionalText(m.text)));
    MentionedAppend(p, body, OptionalText(m.text));
  }

  lemma {:induction false} AllMentions(l: List<Message>, p: Text)
    requires IsPath(p)
    ensures MentionedBy(p, AllPaths(l)) <==> MentionedBy(p, Strings(l, true))
  {
    if l.Cons? {
      MessageMentions(l.head, p);
      AllMentions(l.tail, p);
      MentionedAppend(p, MessagePaths(l.head), AllPaths(l.tail));
      MentionedAppend(p, MessageStrings(l.head, true), Strings(l.tail, true));
    }
  }

  /** Comparing with extracted paths is looking the paths up in the strings the extraction reads. */
  lemma {:induction false} CrossReferenceIsMention(paths: List<Text>, l: List<Message>)
    requires AllPathLike(paths)
    ensures CrossReferenced(paths, AllPaths(l)) <==> CrossReferenced(paths, Strings(l, true))
  {
    if paths.Cons? {
      AllMentions(l, paths.head);
      CrossReferenceIsMention(paths.tail, l);
    }
  }

  // ----- Every string that is read is a string of the message -----

  lemma {:induction false} ReadPartsAreSaid(parts: List<Part>, p: Text)
    requires MentionedBy(p, PartStrings(parts, true))
    ensures MentionedBy(p, PartStrings(parts, false))
  {
    var read, said := OptionalText(parts.head.text), Append(OptionalText(parts.head.text), parts.head.unread);
    AppendNil(read);
    MentionedAppend(p, read, parts.head.unread);
    MentionedAppend(p, read, PartStrings(parts.tail, true));
    MentionedAppend(p, said, PartStrings(parts.tail, false));
    if MentionedBy(p, PartStrings(parts.tail, true)) {
      ReadPartsAreSaid(parts.tail, p);
    }
  }

  lemma {:induction false} ReadBlockIsSaid(b: Block, p: Text)
    requires MentionedBy(p, Append(MetaStrings(b.meta, true), ContentStrings(b.content, true)))
    ensures MentionedBy(p, Append(MetaStrings(b.meta, false), ContentStrings(b.content, false)))
  {
    MentionedAppend(p, MetaStrings(b.meta, true), ContentStrings(b.content, true));
    MentionedAppend(p, MetaStrings(b.meta, false), ContentStrings(b.content, false));
    AppendNil(OptionalText(b.meta.text));
    MentionedAppend(p, OptionalText(b.meta.text),
        Append(OptionalText(b.meta.toolUseId), Append(OptionalText(b.meta.name), b.meta.unread)));
    if b.content.Parts? && MentionedBy(p, PartStrings(b.content.parts, true)) {
      ReadPartsAreSaid(b.content.parts, p);
    }
  }

  lemma {:induction false} ReadBlocksAreSaid(blocks: List<Block>, p: Text)
    requires MentionedBy(p, BlockStrings(blocks, true))
    ensures MentionedBy(p, BlockStrings(blocks, false))
  {
    var b := blocks.head;
    var read := Append(MetaStrings(b.meta, true), ContentStrings(b.content, true));
    var said := Append(MetaStrings(b.meta, false), ContentStrings(b.content, false));
    MentionedAppend(p, read, BlockStrings(blocks.tail, true));
    MentionedAppend(p, said, BlockStrings(blocks.tail, false));
    if MentionedBy(p, read) {
      ReadBlockIsSaid(b, p);
    } else {
      ReadBlocksAreSaid(blocks.tail, p);
    }
  }

  lemma {:induction false} ReadMessageIsSaid(m: Message, p: Text)
    requires MentionedBy(p, MessageStrings(m, true))
    ensures MentionedBy(p, MessageStrings(m, false))
  {
    var read := Append(BodyStrings(m.content, true), OptionalText(m.text));
    var said := Append(BodyStrings(m.content, false), OptionalText(m.text));
    AppendNil(read);
    MentionedAppend(p, BodyStrings(m.content, true), OptionalText(m.text));
    MentionedAppend(p, BodyStrings(m.content, false), OptionalText(m.text));
    MentionedAppend(p, said, if m.role.OtherRole? then Cons(m.role.name, m.unread) else m.unread);
    if m.content.Blocks? && MentionedBy(p, BlockStrings(m.content.blocks, true)) {
      ReadBlocksAreSaid(m.content.blocks, p);
    }
  }

  lemma {:induction false} ReadIsSaid(l: List<Message>, p: Text)
    requires MentionedBy(p, Strings(l, true))
    ensures MentionedBy(p, Strings(l, false))
  {
    MentionedAppend(p, MessageStrings(l.head, true), Strings(l.tail, true));
    MentionedAppend(p, MessageStrings(l.head, false), Strings(l.tail, false));
    if MentionedBy(p, MessageStrings(l.head, true)) {
      ReadMessageIsSaid(l.head, p);
    } else {
      ReadIsSaid(l.tail, p);
    }
  }

  lemma {:induction false} ReadReferenceIsMention(paths: List<Text>, l: List<Message>)
    requires CrossReferenced(paths, Strings(l, true))
    ensures CrossReferenced(paths, Strings(l, false))
  {
    if MentionedBy(paths.head, Strings(l, true)) {
      ReadIsSaid(l, paths.head);
    } else {
      ReadReferenceIsMention(paths.tail, l);
    }
  }

  lemma {:induction false} LaterMessagesMentionLess(paths: List<Text>, l: List<Message>, m: nat, n: nat)
    requires m <= n && CrossReferenced(paths, Strings(Drop(l, n), false))
    ensures CrossReferenced(paths, Strings(Drop(l, m), false))
  {
    if l.Cons? && m < n {
      if m > 0 {
        LaterMessagesMentionLess(paths, l.tail, m - 1, n - 1);
      } else {
        LaterMessagesMentionLess(paths, l.tail, 0, n - 1);
        CrossReferencedAppend(paths, MessageStrings(l.head, false), Strings(l.tail, false));
      }
    }
  }

  // ----- The rule -----

  /** A tool result in the reach of ageing, but for the check for mentions. */
  ghost predicate Candidate(l: List<Message>, maxAge: nat, floor: nat, isTool: Block -> bool, i: nat, j: nat) {
    && i < Size(l) && Nth(l, i).content.Blocks? && j < Size(Nth(l, i).content.blocks)
    && OpenMessage(WindowOf(l, maxAge, floor), i, Nth(l, i).role)
    && isTool(Nth(Nth(l, i).content.blocks, j)) && OriginalText(Nth(Nth(l, i).content.blocks, j).content).Cons?
    && SaturatingSub(Size(l), i) > maxAge
  }

  function PathsAt(l: List<Message>, i: nat, j: nat): List<Text>
    requires i < Size(l) && Nth(l, i).content.Blocks? && j < Size(Nth(l, i).content.blocks)
  {
    PathsOf(OriginalText(Nth(Nth(l, i).content.blocks, j).content))
  }

  /** What comes after block `j` of message `i`: the rest of its message, and the later messages. */
  function After(l: List<Message>, i: nat, j: nat): List<Message>
    requires i < Size(l) && Nth(l, i).content.Blocks? && j < Size(Nth(l, i).content.blocks)
  {
    Cons(Nth(l, i).(content := Blocks(Drop(Nth(l, i).content.blocks, j + 1))), Drop(l, i + 1))
  }

  /**
   One of the result's paths appears in some later string: in a later block of its own message, in that
   message's other fields, or in a later message.
   */
  ghost predicate MentionedLater(l: List<Message>, i: nat, j: nat)
    requires i < Size(l) && Nth(l, i).content.Blocks? && j < Size(Nth(l, i).content.blocks)
  {
    CrossReferenced(PathsAt(l, i, j), Strings(After(l, i, j), false))
  }

  /** One of them appears in a message of the floor, in a field the extraction reads. */
  ghost predicate MentionedInReach(l: List<Message>, floor: nat, i: nat, j: nat)
    requires i < Size(l) && Nth(l, i).content.Blocks? && j < Size(Nth(l, i).content.blocks)
  {
    CrossReferenced(PathsAt(l, i, j), Strings(Drop(l, SaturatingSub(Size(l), floor)), true))
  }

  /** What the mention check keeps, said without path extraction; and it keeps nothing that is not mentioned later. */
  lemma {:induction false} KeptIfMentionedInReach(l: List<Message>, maxAge: nat, floor: nat, isTool: Block -> bool,
          i: nat, j: nat)
    requires Candidate(l, maxAge, floor, isTool, i, j)
    ensures AgedAt(l, maxAge, floor, isTool, i, j) <==> !MentionedInReach(l, floor, i, j)
    ensures MentionedInReach(l, floor, i, j) ==> MentionedLater(l, i, j)
  {
    var paths, n := PathsAt(l, i, j), SaturatingSub(Size(l), floor);
    ExtractedArePaths(OriginalText(Nth(Nth(l, i).content.blocks, j).content));
    CrossReferenceIsMention(paths, Drop(l, n));
    if MentionedInReach(l, floor, i, j) {
      ReadReferenceIsMention(paths, Drop(l, n));
      LaterMessagesMentionLess(paths, l, i + 1, n);
      CrossReferencedAppend(paths, MessageStrings(After(l, i, j).head, false), Strings(Drop(l, i + 1), false));
    }
  }

  /** The documented rule at one tool result: if a path of it appears anywhere later, it is kept. */
  ghost predicate RuleHolds(l: List<Message>, maxAge: nat, floor: nat, isTool: Block -> bool, i: nat, j: nat)
    requires i < Size(l) && Nth(l, i).content.Blocks? && j < Size(Nth(l, i).content.blocks)
  {
    MentionedLater(l, i, j) ==> !AgedAt(l, maxAge, floor, isTool, i, j)
  }

  /**
   The documented rule holds at a candidate exactly when it is not mentioned later at all, or is mentioned
   inside the floor in a field that is read. Mentions before the floor, the rest of its own message included, in
   string contents, in tool inputs and in other fields do not protect it.
   */
  lemma {:induction false} LaterMentionRule(l: List<Message>, maxAge: nat, floor: nat, isTool: Block -> bool, i: nat,
          j: nat)
    requires Candidate(l, maxAge, floor, isTool, i, j)
    ensures RuleHolds(l, maxAge, floor, isTool, i, j) <==> !MentionedLater(l, i, j) || MentionedInReach(l, floor, i, j)
  {
    KeptIfMentionedInReach(l, maxAge, floor, isTool, i, j);
  }

  // ----- Inputs at which the rule fails -----

  /** "a/b" */
  function SomePath(): Text {
    Cons('a', Cons('/', Cons('b', Nil)))
  }

  lemma {:induction false} SomePathIsExtracted()
    ensures PathsOf(SomePath()) == Cons(SomePath(), Nil)
  {
    var p := SomePath();
    assert FirstWord(p.tail.tail) == p.tail.tail && AfterWord(p.tail.tail) == Nil;
    assert FirstWord(p) == p && AfterWord(p) == Nil;
    assert TrimEnd(p.tail.tail) == p.tail.tail;
    assert Trim(p) == p && HasSlash(p);
    assert Words(p) == Cons(p, Nil);
  }

  function User(content: MessageContent): Message {
    Message(OtherRole(Nil), content, None, Nil, "")
  }

  /** A tool result whose text is the path, other blocks beside it, then two messages, with a floor of one. */
  function Conversation(result: Meta, beside: List<Block>, later: MessageContent, last: MessageContent): List<Message> {
    Cons(User(Blocks(Cons(Block(result, Plain(SomePath())), beside))), Cons(User(later), Cons(User(last), Nil)))
  }

  lemma {:induction false} UserSaysItsContent(content: MessageContent, readOnly: bool)
    ensures MentionedBy(SomePath(), MessageStrings(User(content), readOnly))
       <==> MentionedBy(SomePath(), BodyStrings(content, readOnly))
  {
    var body := BodyStrings(content, readOnly);
    AppendNil(body);
    MentionedAppend(SomePath(), Append(body, Nil), if readOnly then Nil else Cons(Nil, Nil));
  }

  lemma {:induction false} PartsOfConversation(result: Meta, beside: List<Block>, later: MessageContent,
          last: MessageContent)
    ensures var l := Conversation(result, beside, later, last);
            && Size(l) == 3 && Drop(l, 2) == Cons(User(last), Nil)
            && After(l, 0, 0) == Cons(User(Blocks(beside)), Cons(User(later), Cons(User(last), Nil)))
  {
    var l := Conversation(result, beside, later, last);
    assert Drop(l.tail, 0) == l.tail && Drop(l.tail.tail, 0) == l.tail.tail;
    assert Drop(l.tail, 1) == Drop(l.tail.tail, 0);
    assert Drop(l, 1) == Drop(l.tail, 0) && Drop(l, 2) == Drop(l.tail, 1);
    assert Size(l.tail.tail) == 1 && Size(l.tail) == 2;
    assert Drop(l.head.content.blocks, 1) == Drop(beside, 0) == beside;
  }

  lemma {:induction false} FirstSays(content: MessageContent, rest: List<Message>)
    ensures MentionedBy(SomePath(), Strings(Cons(User(content), rest), false))
       <==> MentionedBy(SomePath(), BodyStrings(content, false)) || MentionedBy(SomePath(), Strings(rest, false))
  {
    UserSaysItsContent(content, false);
    MentionedAppend(SomePath(), MessageStrings(User(content), false), Strings(rest, false));
  }

  lemma {:induction false} LastReads(content: MessageContent)
    ensures MentionedBy(SomePath(), Strings(Cons(User(content), Nil), true))
       <==> MentionedBy(SomePath(), BodyStrings(content, true))
  {
    UserSaysItsContent(content, true);
    MentionedAppend(SomePath(), MessageStrings(User(content), true), Nil);
    assert Strings(Nil, true) == Nil;
  }

  lemma {:induction false} OnePath(p: Text, texts: List<Text>)
    ensures CrossReferenced(Cons(p, Nil), texts) <==> MentionedBy(p, texts)
  {
    assert !CrossReferenced(Nil, texts);
  }

  lemma {:induction false} FirstResultFails(result: Meta, beside: List<Block>, later: MessageContent,
          last: MessageContent, isTool: Block -> bool)
    requires isTool(Block(result, Plain(SomePath())))
    requires || MentionedBy(SomePath(), BodyStrings(Blocks(beside), false))
             || MentionedBy(SomePath(), BodyStrings(later, false)) || MentionedBy(SomePath(), BodyStrings(last, false))
    requires !MentionedBy(SomePath(), BodyStrings(last, true))
    ensures Candidate(Conversation(result, beside, later, last), 0, 1, isTool, 0, 0)
    ensures !RuleHolds(Conversation(result, beside, later, last), 0, 1, isTool, 0, 0)
  {
    var l := Conversation(result, beside, later, last);
    SomePathIsExtracted();
    PartsOfConversation(result, beside, later, last);
    FirstSays(Blocks(beside), Cons(User(later), Cons(User(last), Nil)));
    FirstSays(later, Cons(User(last), Nil));
    FirstSays(last, Nil);
    LastReads(last);
    assert Nth(l, 0) == l.head && Nth(l.head.content.blocks, 0) == Block(result, Plain(SomePath()));
    assert PathsAt(l, 0, 0) == Cons(SomePath(), Nil);
    OnePath(SomePath(), Strings(After(l, 0, 0), false));
    OnePath(SomePath(), Strings(Drop(l, 2), true));
    KeptIfMentionedInReach(l, 0, 1, isTool, 0, 0);
  }

  lemma {:induction false} SomePathSaysItself()
    ensures Contains(SomePath(), SomePath())
  {
  }

  lemma {:induction false} HasMentions(l: List<Text>)
    requires Has(l, SomePath())
    ensures MentionedBy(SomePath(), l)
  {
    SomePathSaysItself();
    if l.head != SomePath() {
      HasMentions(l.tail);
    }
  }

  /** A list of one block without content says what its fields say. */
  lemma {:induction false} OneBlock(meta: Meta, readOnly: bool)
    ensures BodyStrings(Blocks(Cons(Block(meta, Other(Nil)), Nil)), readOnly) == MetaStrings(meta, readOnly)
  {
    AppendNil(MetaStrings(meta, readOnly));
    assert BlockStrings(Nil, readOnly) == Nil;
    assert BlockStrings(Cons(Block(meta, Other(Nil)), Nil), readOnly)
        == Append(Append(MetaStrings(meta, readOnly), Nil), Nil);
  }

  function Says(meta: Meta): List<Block> {
    Cons(Block(meta, Other(Nil)), Nil)
  }

  /** A later message whose content is a plain string. */
  lemma {:induction false} StringContentIsOverlooked(result: Meta, isTool: Block -> bool)
    requires isTool(Block(result, Plain(SomePath())))
    ensures !RuleHolds(Conversation(result, Nil, Blocks(Nil), PlainString(SomePath())), 0, 1, isTool, 0, 0)
  {
    HasMentions(Cons(SomePath(), Nil));
    FirstResultFails(result, Nil, Blocks(Nil), PlainString(SomePath()), isTool);
  }

  /** A later tool input that names the file. */
  lemma {:induction false} ToolInputIsOverlooked(result: Meta, use: Meta, isTool: Block -> bool)
    requires isTool(Block(result, Plain(SomePath())))
    requires use.text.None? && Has(use.unread, SomePath())
    ensures !RuleHolds(Conversation(result, Nil, Blocks(Nil), Blocks(Says(use))), 0, 1, isTool, 0, 0)
  {
    HasMentions(use.unread);
    MentionedAppend(SomePath(), OptionalText(use.name), use.unread);
    MentionedAppend(SomePath(), OptionalText(use.toolUseId), Append(OptionalText(use.name), use.unread));
    OneBlock(use, false);
    OneBlock(use, true);
    FirstResultFails(result, Nil, Blocks(Nil), Blocks(Says(use)), isTool);
  }

  /** A text between the result and the floor. */
  lemma {:induction false} MentionBeforeFloorIsOverlooked(result: Meta, says: Meta, isTool: Block -> bool)
    requires isTool(Block(result, Plain(SomePath()))) && says.text == Some(SomePath())
    ensures !RuleHolds(Conversation(result, Nil, Blocks(Says(says)), Blocks(Nil)), 0, 1, isTool, 0, 0)
  {
    HasMentions(MetaStrings(says, false));
    OneBlock(says, false);
    FirstResultFails(result, Nil, Blocks(Says(says)), Blocks(Nil), isTool);
  }

  /** A text beside the result, in its own message. */
  lemma {:induction false} MentionBesideIsOverlooked(result: Meta, says: Meta, isTool: Block -> bool)
    requires isTool(Block(result, Plain(SomePath()))) && says.text == Some(SomePath())
    ensures !RuleHolds(Conversation(result, Says(says), Blocks(Nil), Blocks(Nil)), 0, 1, isTool, 0, 0)
  {
    HasMentions(MetaStrings(says, false));
    OneBlock(says, false);
    FirstResultFails(result, Says(says), Blocks(Nil), Blocks(Nil), isTool);
  }
}
