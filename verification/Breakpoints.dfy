/**
 Prompt-cache breakpoint injection (proxy/src/cache.rs): up to four blocks of a request are marked in
 place, guarded by a detector and a stripper of marks the client sent.
 */
module Breakpoints {
  import opened Prelude

  const SMALL_BLOCK_THRESHOLD: nat := 500
  const MAX_SLOTS: nat := 4

  datatype CacheControl = Ephemeral | EphemeralFor(ttl: string) | ClientSent(json: string)

  /** A tool, system or content block: the fields the code looks at, the rest of the object, and its mark. */
  datatype Block = Block(kind: Option<string>, text: Option<seq<bv8>>, rest: string, mark: Option<CacheControl>)
  /** `content` is absent when it is not a list of blocks. */
  datatype Message = Message(content: Option<List<Block>>, rest: string)
  datatype Body =
    | NotAnObject(json: string)
    | Object(tools: Option<List<Block>>, system: Option<List<Block>>, messages: Option<List<Message>>, rest: string)

  datatype CacheStats = CacheStats(
    totalInjected: nat, toolsSlots: nat, systemSlots: nat, messagesSlots: nat, tailSlots: nat,
    smallBlocksFiltered: nat, clientBreakpointsStripped: nat, clientBreakpointsPreserved: nat,
    cacheReadTokens: nat, cacheCreationTokens: nat)

  predicate Cacheable(b: Block) {
    b.kind == Some("text") || b.kind == Some("tool_result") || b.kind == Some("image")
  }

  predicate Large(b: Block) {
    b.text.Some? && |b.text.value| > SMALL_BLOCK_THRESHOLD
  }

  predicate Small(b: Block) {
    b.text.None? || |b.text.value| < SMALL_BLOCK_THRESHOLD
  }

  /** The characters of a UTF-8 text: its bytes, less those that continue a character. */
  function Characters(t: seq<bv8>): nat {
    if t == [] then 0 else (if 0x80 <= t[0] < 0xC0 then 0 else 1) + Characters(t[1..])
  }

  lemma {:induction false} NoMoreCharactersThanBytes(t: seq<bv8>)
    ensures Characters(t) <= |t|
  {
    if t != [] {
      NoMoreCharactersThanBytes(t[1..]);
    }
  }

  /**
   Slot two is documented to want more than 500 characters. On a block with a text the code, which counts bytes,
   agrees exactly when the text does not have more than 500 bytes in at most 500 characters.
   */
  lemma {:induction false} LargeInCharacters(b: Block)
    requires b.text.Some?
    ensures (Large(b) <==> Characters(b.text.value) > SMALL_BLOCK_THRESHOLD)
       <==> !(Characters(b.text.value) <= SMALL_BLOCK_THRESHOLD < |b.text.value|)
  {
    NoMoreCharactersThanBytes(b.text.value);
  }

  /** `n` letters of two bytes. */
  function Accented(n: nat): seq<bv8> {
    if n == 0 then [] else [0xC3, 0xA9] + Accented(n - 1)
  }

  lemma {:induction false} AccentedFacts(n: nat)
    ensures |Accented(n)| == 2 * n && Characters(Accented(n)) == n
  {
    if n > 0 {
      AccentedFacts(n - 1);
      assert Accented(n)[1..][1..] == Accented(n - 1);
      assert Accented(n)[0] == 0xC3 && Accented(n)[1..][0] == 0xA9;
    }
  }

  /** A block of 300 accented letters is taken, although it has fewer than 500 characters. */
  lemma {:induction false} AccentedBlockIsLarge(b: Block)
    requires b.text == Some(Accented(300))
    ensures Large(b) && Characters(b.text.value) == 300
  {
    AccentedFacts(300);
  }

  predicate AnyBlock(b: Block) {
    true
  }

  // ----- Marks on a list of blocks -----

  predicate Marked(l: List<Block>) {
    l.Cons? && (l.head.mark.Some? || Marked(l.tail))
  }

  function Marks(l: List<Block>): nat {
    if l.Nil? then 0 else (if l.head.mark.Some? then 1 else 0) + Marks(l.tail)
  }

  function Erase(l: List<Block>): List<Block> {
    if l.Nil? then Nil else Cons(l.head.(mark := None), Erase(l.tail))
  }

  predicate AnySuch(l: List<Block>, p: Block -> bool) {
    l.Cons? && (p(l.head) || AnySuch(l.tail, p))
  }

  /** Marking the last block that satisfies `p`, if there is one. */
  function MarkLast(l: List<Block>, p: Block -> bool, c: CacheControl): List<Block> {
    if l.Nil? then Nil
    else if AnySuch(l.tail, p) then Cons(l.head, MarkLast(l.tail, p, c))
    else if p(l.head) then Cons(l.head.(mark := Some(c)), l.tail)
    else l
  }

  /** `k` is the position of the last block satisfying `p`. */
  ghost predicate IsLast(l: List<Block>, p: Block -> bool, k: nat) {
    l.Cons? && if k == 0 then p(l.head) && !AnySuch(l.tail, p) else IsLast(l.tail, p, k - 1)
  }

  /** Position by position: exactly the last block satisfying `p` changes, and only in its mark. */
  lemma {:induction false} MarkLastPointwise(l: List<Block>, p: Block -> bool, c: CacheControl, k: nat)
    requires k < Size(l)
    ensures Size(MarkLast(l, p, c)) == Size(l)
    ensures Nth(MarkLast(l, p, c), k) == if IsLast(l, p, k) then Nth(l, k).(mark := Some(c)) else Nth(l, k)
  {
    SameSize(l, p, c);
    if k > 0 {
      MarkLastPointwise(l.tail, p, c, k - 1);
      if IsLast(l.tail, p, k - 1) {
        LastIsThere(l.tail, p, k - 1);
      }
    }
  }

  lemma {:induction false} LastIsThere(l: List<Block>, p: Block -> bool, k: nat)
    requires IsLast(l, p, k)
    ensures AnySuch(l, p)
  {
    if k > 0 {
      LastIsThere(l.tail, p, k - 1);
    }
  }

  lemma {:induction false} SameSize(l: List<Block>, p: Block -> bool, c: CacheControl)
    ensures Size(MarkLast(l, p, c)) == Size(l)
  {
    if l.Cons? {
      SameSize(l.tail, p, c);
    }
  }

  lemma {:induction false} MarkLastFacts(l: List<Block>, p: Block -> bool, c: CacheControl)
    ensures Erase(MarkLast(l, p, c)) == Erase(l)
    ensures !AnySuch(l, p) ==> MarkLast(l, p, c) == l
    ensures AnySuch(l, p) ==> Marked(MarkLast(l, p, c))
    ensures AnySuch(l, p) && !Marked(l) ==> Marks(MarkLast(l, p, c)) == 1
  {
    UnmarkedFacts(l);
    if l.Cons? {
      UnmarkedFacts(l.tail);
      MarkLastFacts(l.tail, p, c);
    }
  }

  lemma {:induction false} UnmarkedFacts(l: List<Block>)
    ensures Marked(l) <==> Marks(l) > 0
    ensures !Marked(l) <==> Erase(l) == l
    ensures !Marked(Erase(l))
  {
    if l.Cons? {
      UnmarkedFacts(l.tail);
    }
  }

  // ----- Marks in a body -----

  predicate MarkedMessages(l: List<Message>) {
    l.Cons? && ((l.head.content.Some? && Marked(l.head.content.value)) || MarkedMessages(l.tail))
  }

  function MessageMarks(l: List<Message>): nat {
    if l.Nil? then 0 else (if l.head.content.Some? then Marks(l.head.content.value) else 0) + MessageMarks(l.tail)
  }

  function EraseMessages(l: List<Message>): List<Message> {
    if l.Nil? then Nil
    else
      Cons(if l.head.content.Some? then l.head.(content := Some(Erase(l.head.content.value))) else l.head,
           EraseMessages(l.tail))
  }

  predicate HasAny(b: Body) {
    && b.Object?
    && (|| (b.tools.Some? && Marked(b.tools.value))
        || (b.system.Some? && Marked(b.system.value))
        || (b.messages.Some? && MarkedMessages(b.messages.value)))
  }

  function BodyMarks(b: Body): nat {
    if b.NotAnObject? then 0
    else
      (if b.tools.Some? then Marks(b.tools.value) else 0)
      + (if b.system.Some? then Marks(b.system.value) else 0)
      + (if b.messages.Some? then MessageMarks(b.messages.value) else 0)
  }

  function EraseBody(b: Body): Body {
    if b.NotAnObject? then b
    else b.(tools := if b.tools.Some? then Some(Erase(b.tools.value)) else None,
            system := if b.system.Some? then Some(Erase(b.system.value)) else None,
            messages := if b.messages.Some? then Some(EraseMessages(b.messages.value)) else None)
  }

  lemma {:induction false} UnmarkedMessages(l: List<Message>)
    ensures MarkedMessages(l) <==> MessageMarks(l) > 0
    ensures !MarkedMessages(l) <==> EraseMessages(l) == l
  {
    if l.Cons? {
      UnmarkedMessages(l.tail);
      if l.head.content.Some? {
        UnmarkedFacts(l.head.content.value);
      }
    }
  }

  /** The detector fires exactly when there is something to strip, and otherwise stripping is the identity. */
  lemma {:induction false} DetectorAndStripperAgree(b: Body)
    ensures HasAny(b) <==> BodyMarks(b) > 0
    ensures !HasAny(b) <==> EraseBody(b) == b
  {
    if b.Object? {
      if b.tools.Some? {
        UnmarkedFacts(b.tools.value);
      }
      if b.system.Some? {
        UnmarkedFacts(b.system.value);
      }
      if b.messages.Some? {
        UnmarkedMessages(b.messages.value);
      }
    }
  }

  // ----- The loops of the detector and the stripper -----

  method DetectBlocks(l: List<Block>) returns (found: bool)
    ensures found <==> Marked(l)
  {
    var rest := l;
    while rest.Cons?
      invariant Marked(l) <==> Marked(rest)
      decreases rest
    {
      if rest.head.mark.Some? {
        return true;
      }
      rest := rest.tail;
    }
    return false;
  }

  method HasAnyBreakpoints(b: Body) returns (found: bool)
    ensures found <==> HasAny(b)
  {
    found := false;
    if b.NotAnObject? {
      return;
    }
    if b.tools.Some? {
      found := DetectBlocks(b.tools.value);
      if found {
        return;
      }
    }
    if b.system.Some? {
      found := DetectBlocks(b.system.value);
      if found {
        return;
      }
    }
    if b.messages.Some? {
      var rest := b.messages.value;
      while rest.Cons?
        invariant MarkedMessages(b.messages.value) <==> MarkedMessages(rest)
        decreases rest
      {
        if rest.head.content.Some? {
          found := DetectBlocks(rest.head.content.value);
          if found {
            return;
          }
        }
        rest := rest.tail;
      }
      found := false;
    }
  }

  function RevOnto<T>(done: List<T>, rest: List<T>): List<T>
    decreases done
  {
    if done.Nil? then rest else RevOnto(done.tail, Cons(done.head, rest))
  }

  lemma {:induction false} EraseRev(done: List<Block>, rest: List<Block>)
    ensures Erase(RevOnto(done, rest)) == RevOnto(Erase(done), Erase(rest))
    ensures Marks(RevOnto(done, rest)) == Marks(done) + Marks(rest)
    decreases done
  {
    if done.Cons? {
      EraseRev(done.tail, Cons(done.head, rest));
    }
  }

  /** Removing the marks of a list in place, counting them; `seen` holds the blocks already visited, last first. */
  method StripBlocks(l: List<Block>) returns (r: List<Block>, count: nat)
    ensures r == Erase(l) && count == Marks(l)
  {
    count := 0;
    var seen: List<Block>, rest := Nil, l;
    while rest.Cons?
      invariant RevOnto(seen, Erase(rest)) == Erase(l)
      invariant count + Marks(rest) == Marks(l)
      decreases rest
    {
      if rest.head.mark.Some? {
        count := count + 1;
      }
      seen := Cons(rest.head.(mark := None), seen);
      rest := rest.tail;
    }
    r := RevOnto(seen, Nil);
  }

  method StripExistingBreakpoints(b: Body) returns (r: Body, count: nat)
    ensures r == EraseBody(b) && count == BodyMarks(b)
  {
    r, count := b, 0;
    if b.NotAnObject? {
      return;
    }
    if r.tools.Some? {
      var l, n := StripBlocks(r.tools.value);
      r, count := r.(tools := Some(l)), count + n;
    }
    if r.system.Some? {
      var l, n := StripBlocks(r.system.value);
      r, count := r.(system := Some(l)), count + n;
    }
    if r.messages.Some? {
      var seen: List<Message>, rest := Nil, r.messages.value;
      ghost var before := count;
      while rest.Cons?
        invariant RevOnto(seen, EraseMessages(rest)) == EraseMessages(r.messages.value)
        invariant count + MessageMarks(rest) == before + MessageMarks(r.messages.value)
        decreases rest
      {
        var msg := rest.head;
        if msg.content.Some? {
          var l, n := StripBlocks(msg.content.value);
          msg, count := msg.(content := Some(l)), count + n;
        }
        seen := Cons(msg, seen);
        rest := rest.tail;
      }
      r := r.(messages := Some(RevOnto(seen, Nil)));
    }
  }

  /** Slot 2's filter: a small system block gives up its mark. */
  function FilterSmall(l: List<Block>): List<Block> {
    if l.Nil? then Nil
    else Cons(if Small(l.head) then l.head.(mark := None) else l.head, FilterSmall(l.tail))
  }

  method FilterSmallBlocks(l: List<Block>) returns (r: List<Block>, filtered: nat)
    ensures r == FilterSmall(l)
    ensures !Marked(l) ==> r == l && filtered == 0
  {
    filtered := 0;
    var seen: List<Block>, rest := Nil, l;
    while rest.Cons?
      invariant RevOnto(seen, FilterSmall(rest)) == FilterSmall(l)
      invariant RevOnto(seen, rest) == l || Marked(l)
      invariant !Marked(l) ==> !Marked(rest) && filtered == 0
      decreases rest
    {
      var block := rest.head;
      if Small(block) && block.mark.Some? {
        filtered := filtered + 1;
        block := block.(mark := None);
      }
      seen := Cons(block, seen);
      rest := rest.tail;
    }
    r := RevOnto(seen, Nil);
  }

  // ----- The reference result of an injection -----

  predicate HasCacheable(m: Message) {
    m.content.Some? && AnySuch(m.content.value, Cacheable)
  }

  predicate AnyCacheable(l: List<Message>) {
    l.Cons? && (HasCacheable(l.head) || AnyCacheable(l.tail))
  }

  function MarkMessage(m: Message, c: CacheControl): Message {
    if m.content.None? then m else m.(content := Some(MarkLast(m.content.value, Cacheable, c)))
  }

  function MarkFirst(l: List<Message>): List<Message> {
    if l.Nil? then Nil else Cons(MarkMessage(l.head, Ephemeral), l.tail)
  }

  /** Marking the last cacheable block of the last message that has one. */
  function MarkTail(l: List<Message>, c: CacheControl): List<Message> {
    if l.Nil? then Nil
    else if AnyCacheable(l.tail) then Cons(l.head, MarkTail(l.tail, c))
    else Cons(MarkMessage(l.head, c), l.tail)
  }

  function InjectedTools(tools: Option<List<Block>>): Option<List<Block>> {
    if tools.None? then None else Some(MarkLast(tools.value, AnyBlock, Ephemeral))
  }

  function InjectedSystem(system: Option<List<Block>>): Option<List<Block>> {
    if system.None? then None else Some(MarkLast(system.value, Large, Ephemeral))
  }

  function InjectedMessages(messages: Option<List<Message>>, ttl: string): Option<List<Message>> {
    if messages.None? then None else Some(MarkTail(MarkFirst(messages.value), EphemeralFor(ttl)))
  }

  /** The body after injection. */
  function Injected(b: Body, ttl: string): Body {
    if b.NotAnObject? || HasAny(b) then b
    else Object(InjectedTools(b.tools), InjectedSystem(b.system), InjectedMessages(b.messages, ttl), b.rest)
  }

  predicate ToolsSlot(b: Body) { b.Object? && b.tools.Some? && b.tools.value.Cons? }
  predicate SystemSlot(b: Body) { b.Object? && b.system.Some? && AnySuch(b.system.value, Large) }
  predicate MessagesSlot(b: Body) {
    b.Object? && b.messages.Some? && b.messages.value.Cons? && HasCacheable(b.messages.value.head)
  }
  predicate TailSlot(b: Body) { b.Object? && b.messages.Some? && AnyCacheable(b.messages.value) }

  /** Slots three and four fall on one block: only the first message has a cacheable block. */
  predicate SlotsShared(b: Body) {
    MessagesSlot(b) && !AnyCacheable(b.messages.value.tail)
  }

  function Slots(b: Body): nat {
    if HasAny(b) then 0
    else One(ToolsSlot(b)) + One(SystemSlot(b)) + One(MessagesSlot(b)) + One(TailSlot(b))
  }

  function StatsAfter(b: Body, s: CacheStats): CacheStats {
    if b.NotAnObject? then s
    else if HasAny(b) then s.(clientBreakpointsPreserved := s.clientBreakpointsPreserved + 1)
    else s.(totalInjected := s.totalInjected + One(Slots(b) > 0),
            toolsSlots := s.toolsSlots + One(ToolsSlot(b)),
            systemSlots := s.systemSlots + One(SystemSlot(b)),
            messagesSlots := s.messagesSlots + One(MessagesSlot(b)),
            tailSlots := s.tailSlots + One(TailSlot(b)))
  }

  // ----- What the injection means -----

  lemma {:induction false} MarkMessageFacts(m: Message, c: CacheControl)
    ensures HasCacheable(MarkMessage(m, c)) <==> HasCacheable(m)
    ensures EraseMessages(Cons(MarkMessage(m, c), Nil)) == EraseMessages(Cons(m, Nil))
    ensures !HasCacheable(m) ==> MarkMessage(m, c) == m
  {
    if m.content.Some? {
      MarkLastFacts(m.content.value, Cacheable, c);
      StillCacheable(m.content.value, c);
    }
  }

  lemma {:induction false} StillCacheable(l: List<Block>, c: CacheControl)
    ensures AnySuch(MarkLast(l, Cacheable, c), Cacheable) <==> AnySuch(l, Cacheable)
  {
    if l.Cons? {
      StillCacheable(l.tail, c);
    }
  }

  lemma {:induction false} MarkTailErases(l: List<Message>, c: CacheControl)
    ensures EraseMessages(MarkTail(l, c)) == EraseMessages(l)
  {
    if l.Cons? {
      MarkTailErases(l.tail, c);
      MarkMessageFacts(l.head, c);
    }
  }

  /** Erasing the marks of an injected body gives back the body without its marks. */
  lemma {:induction false} ErasingUndoesInjection(b: Body, ttl: string)
    ensures EraseBody(Injected(b, ttl)) == EraseBody(b)
    ensures !HasAny(b) ==> EraseBody(Injected(b, ttl)) == b
  {
    DetectorAndStripperAgree(b);
    if b.Object? && !HasAny(b) {
      if b.tools.Some? {
        MarkLastFacts(b.tools.value, AnyBlock, Ephemeral);
      }
      if b.system.Some? {
        MarkLastFacts(b.system.value, Large, Ephemeral);
      }
      if b.messages.Some? {
        MarkTailErases(MarkFirst(b.messages.value), EphemeralFor(ttl));
        if b.messages.value.Cons? {
          MarkMessageFacts(b.messages.value.head, Ephemeral);
        }
      }
    }
  }

  lemma {:induction false} MarkTailCounts(l: List<Message>, c: CacheControl)
    requires !MarkedMessages(l)
    ensures MessageMarks(MarkTail(l, c)) == One(AnyCacheable(l))
  {
    if l.Cons? {
      MarkTailCounts(l.tail, c);
      UnmarkedMessages(l.tail);
      if l.head.content.Some? {
        MarkLastFacts(l.head.content.value, Cacheable, c);
        UnmarkedFacts(l.head.content.value);
      }
    }
  }

  /** Marking the marked block again replaces its mark. */
  lemma {:induction false} RemarkLast(l: List<Block>, p: Block -> bool, c: CacheControl, d: CacheControl)
    requires forall b, m :: p(b) <==> p(b.(mark := m))
    ensures MarkLast(MarkLast(l, p, c), p, d) == MarkLast(l, p, d)
    ensures AnySuch(MarkLast(l, p, c), p) <==> AnySuch(l, p)
  {
    if l.Cons? {
      RemarkLast(l.tail, p, c, d);
    }
  }

  lemma {:induction false} MessageSlotsCount(l: List<Message>, ttl: string)
    requires !MarkedMessages(l) && l.Cons?
    ensures MessageMarks(MarkTail(MarkFirst(l), EphemeralFor(ttl)))
         == One(AnyCacheable(l)) + One(HasCacheable(l.head) && AnyCacheable(l.tail))
    ensures var c := if AnyCacheable(l.tail) then Ephemeral else EphemeralFor(ttl);
            HasCacheable(l.head) ==> MarkTail(MarkFirst(l), EphemeralFor(ttl)).head == MarkMessage(l.head, c)
  {
    MarkMessageFacts(l.head, Ephemeral);
    MarkTailCounts(l.tail, EphemeralFor(ttl));
    UnmarkedMessages(l.tail);
    if l.head.content.Some? {
      var blocks := l.head.content.value;
      MarkLastFacts(blocks, Cacheable, Ephemeral);
      MarkLastFacts(blocks, Cacheable, EphemeralFor(ttl));
      RemarkLast(blocks, Cacheable, Ephemeral, EphemeralFor(ttl));
      UnmarkedFacts(blocks);
    }
  }

  lemma {:induction false} BlockSlotCount(l: List<Block>, p: Block -> bool)
    requires !Marked(l)
    ensures Marks(MarkLast(l, p, Ephemeral)) == One(AnySuch(l, p))
  {
    MarkLastFacts(l, p, Ephemeral);
    UnmarkedFacts(l);
  }

  lemma {:induction false} ToolsCount(b: Body)
    requires b.Object? && !HasAny(b) && b.tools.Some?
    ensures Marks(InjectedTools(b.tools).value) == One(ToolsSlot(b))
  {
    BlockSlotCount(b.tools.value, AnyBlock);
  }

  lemma {:induction false} SystemCount(b: Body)
    requires b.Object? && !HasAny(b) && b.system.Some?
    ensures Marks(InjectedSystem(b.system).value) == One(SystemSlot(b))
  {
    BlockSlotCount(b.system.value, Large);
  }

  lemma {:induction false} MessagesCount(b: Body, ttl: string)
    requires b.Object? && !HasAny(b) && b.messages.Some?
    ensures MessageMarks(InjectedMessages(b.messages, ttl).value)
              == One(MessagesSlot(b)) + One(TailSlot(b)) - One(SlotsShared(b))
  {
    if b.messages.value.Cons? {
      MessageSlotsCount(b.messages.value, ttl);
    }
  }

  /**
   On a body without marks at most four blocks are marked: one per slot counted, or one fewer exactly
   when slots three and four share a block.
   */
  lemma {:induction false} MarksPerSlot(b: Body, ttl: string)
    requires !HasAny(b)
    ensures BodyMarks(Injected(b, ttl)) == Slots(b) - One(SlotsShared(b))
    ensures Slots(b) <= MAX_SLOTS
  {
    if b.Object? {
      if b.tools.Some? {
        ToolsCount(b);
      }
      if b.system.Some? {
        SystemCount(b);
      }
      if b.messages.Some? {
        MessagesCount(b, ttl);
      }
    }
  }

  /**
   The first message's block keeps the long-lived mark the documentation gives slot three exactly when
   a later message has a cacheable block; otherwise it carries the tail's.
   */
  lemma {:induction false} FirstMessageMark(b: Body, ttl: string)
    requires !HasAny(b) && MessagesSlot(b)
    ensures Injected(b, ttl).messages.value.Cons?
    ensures Injected(b, ttl).messages.value.head == MarkMessage(b.messages.value.head, Ephemeral) <==> !SlotsShared(b)
    ensures var marked := Cons(MarkMessage(b.messages.value.head, EphemeralFor(ttl)), b.messages.value.tail);
            SlotsShared(b) ==> Injected(b, ttl).messages.value == marked
  {
    var l := b.messages.value;
    MessageSlotsCount(l, ttl);
    MarkMessageFacts(l.head, Ephemeral);
    DifferentMarks(l.head.content.value, ttl);
  }

  /** Without a TTL of its own, a mark lives for the default hour. */
  predicate OneHour(c: CacheControl) {
    c == Ephemeral || c == EphemeralFor("1h")
  }

  /** The mark of the last cacheable block. */
  function LastMark(l: List<Block>): Option<CacheControl> {
    if l.Nil? then None
    else if AnySuch(l.tail, Cacheable) then LastMark(l.tail)
    else if Cacheable(l.head) then l.head.mark
    else None
  }

  lemma {:induction false} LastMarkIsNew(l: List<Block>, c: CacheControl)
    requires AnySuch(l, Cacheable)
    ensures LastMark(MarkLast(l, Cacheable, c)) == Some(c)
  {
    StillCacheable(l.tail, c);
    if AnySuch(l.tail, Cacheable) {
      LastMarkIsNew(l.tail, c);
    }
  }

  /** The mark on slot three's block after an injection. */
  function SlotThreeMark(b: Body): Option<CacheControl> {
    if b.Object? && b.messages.Some? && b.messages.value.Cons? && b.messages.value.head.content.Some?
    then LastMark(b.messages.value.head.content.value)
    else None
  }

  /**
   Slot three has the documented life of an hour exactly when its block is not the tail's too, or the tail's
   TTL is an hour itself.
   */
  lemma {:induction false} SlotThreeLifetime(b: Body, ttl: string)
    requires !HasAny(b) && MessagesSlot(b)
    ensures SlotThreeMark(Injected(b, ttl)) == Some(if SlotsShared(b) then EphemeralFor(ttl) else Ephemeral)
    ensures OneHour(SlotThreeMark(Injected(b, ttl)).value) <==> !SlotsShared(b) || ttl == "1h"
  {
    var content := b.messages.value.head.content.value;
    FirstMessageMark(b, ttl);
    LastMarkIsNew(content, Ephemeral);
    LastMarkIsNew(content, EphemeralFor(ttl));
  }

  /** A request of one text message is such a body. */
  lemma {:induction false} SharedSlotOfOneMessage(block: Block, rest: string)
    requires block.kind == Some("text") && block.mark.None?
    ensures var b := Object(None, None, Some(Cons(Message(Some(Cons(block, Nil)), rest), Nil)), rest);
            !HasAny(b) && SlotsShared(b) && !OneHour(SlotThreeMark(Injected(b, "5m")).value)
  {
    var m := Message(Some(Cons(block, Nil)), rest);
    var b := Object(None, None, Some(Cons(m, Nil)), rest);
    assert Cacheable(block) && AnySuch(m.content.value, Cacheable) && HasCacheable(m) && !AnyCacheable(Nil);
    assert !Marked(Nil) && !Marked(m.content.value);
    assert !MarkedMessages(Nil) && !MarkedMessages(Cons(m, Nil));
    SlotThreeLifetime(b, "5m");
    assert "5m"[0] != "1h"[0];
  }

  lemma {:induction false} DifferentMarks(l: List<Block>, ttl: string)
    requires AnySuch(l, Cacheable)
    ensures MarkLast(l, Cacheable, Ephemeral) != MarkLast(l, Cacheable, EphemeralFor(ttl))
  {
    if AnySuch(l.tail, Cacheable) {
      DifferentMarks(l.tail, ttl);
    }
  }

  /** Injecting again never changes a body. */
  lemma {:induction false} InjectingTwice(b: Body, ttl: string, ttl': string)
    ensures Injected(Injected(b, ttl), ttl') == Injected(b, ttl)
    ensures Slots(Injected(b, ttl)) == 0
  {
    if b.Object? && !HasAny(b) {
      MarksPerSlot(b, ttl);
      DetectorAndStripperAgree(Injected(b, ttl));
      if Slots(b) == 0 {
        NothingToMark(b, ttl);
      } else {
        assert One(SlotsShared(b)) < Slots(b);
      }
    }
  }

  lemma {:induction false} NothingToMark(b: Body, ttl: string)
    requires b.Object? && !HasAny(b) && Slots(b) == 0
    ensures Injected(b, ttl) == b
  {
    if b.tools.Some? {
      MarkLastFacts(b.tools.value, AnyBlock, Ephemeral);
    }
    if b.system.Some? {
      MarkLastFacts(b.system.value, Large, Ephemeral);
    }
    if b.messages.Some? && b.messages.value.Cons? {
      MarkMessageFacts(b.messages.value.head, Ephemeral);
      MarkMessageFacts(b.messages.value.head, EphemeralFor(ttl));
    }
  }

  // ----- The loops of slot four, and the whole injection -----

  lemma {:induction false} RevOntoCacheable(done: List<Block>, rest: List<Block>, c: CacheControl)
    requires AnySuch(rest, Cacheable)
    ensures AnySuch(RevOnto(done, rest), Cacheable)
    ensures MarkLast(RevOnto(done, rest), Cacheable, c) == RevOnto(done, MarkLast(rest, Cacheable, c))
    decreases done
  {
    if done.Cons? {
      RevOntoCacheable(done.tail, Cons(done.head, rest), c);
    }
  }

  /** The inner loop of slot four: from the last block backwards, mark the first cacheable one met. */
  method MarkLastCacheable(l: List<Block>, c: CacheControl) returns (r: List<Block>, found: bool)
    ensures found <==> AnySuch(l, Cacheable)
    ensures r == MarkLast(l, Cacheable, c)
  {
    found := false;
    var back, after := RevOnto(l, Nil), Nil;
    RevRev(l, Nil);
    while back.Cons? && !found
      invariant !found ==> !AnySuch(after, Cacheable) && RevOnto(back, after) == l
      invariant found ==> AnySuch(l, Cacheable) && RevOnto(back, after) == MarkLast(l, Cacheable, c)
      decreases back
    {
      var block := back.head;
      if Cacheable(block) {
        RevOntoCacheable(back.tail, Cons(block, after), c);
        block := block.(mark := Some(c));
        found := true;
      }
      back, after := back.tail, Cons(block, after);
    }
    r := RevOnto(back, after);
    if !found {
      MarkLastFacts(l, Cacheable, c);
    }
  }

  lemma {:induction false} RevRev<T>(l: List<T>, done: List<T>)
    ensures RevOnto(RevOnto(l, done), Nil) == RevOnto(done, l)
    decreases l
  {
    if l.Cons? {
      RevRev(l.tail, Cons(l.head, done));
    }
  }

  lemma {:induction false} RevOntoTail(done: List<Message>, rest: List<Message>, c: CacheControl)
    requires AnyCacheable(rest)
    ensures AnyCacheable(RevOnto(done, rest))
    ensures MarkTail(RevOnto(done, rest), c) == RevOnto(done, MarkTail(rest, c))
    decreases done
  {
    if done.Cons? {
      RevOntoTail(done.tail, Cons(done.head, rest), c);
    }
  }

  lemma {:induction false} NoTail(l: List<Message>, c: CacheControl)
    requires !AnyCacheable(l)
    ensures MarkTail(l, c) == l
  {
    if l.Cons? {
      MarkMessageFacts(l.head, c);
    }
  }

  /** The outer loop of slot four, over the messages from the last one backwards. */
  method MarkTailBlock(l: List<Message>, c: CacheControl) returns (r: List<Message>, found: bool)
    ensures found <==> AnyCacheable(l)
    ensures r == MarkTail(l, c)
  {
    found := false;
    var back, after := RevOnto(l, Nil), Nil;
    RevRev(l, Nil);
    while back.Cons? && !found
      invariant !found ==> !AnyCacheable(after) && RevOnto(back, after) == l
      invariant found ==> AnyCacheable(l) && RevOnto(back, after) == MarkTail(l, c)
      decreases back
    {
      var msg := back.head;
      if msg.content.Some? {
        var blocks;
        blocks, found := MarkLastCacheable(msg.content.value, c);
        if found {
          RevOntoTail(back.tail, Cons(msg, after), c);
          msg := msg.(content := Some(blocks));
        }
      }
      back, after := back.tail, Cons(msg, after);
    }
    r := RevOnto(back, after);
    if !found {
      NoTail(l, c);
    }
  }

  method PlaceToolsSlot(tools: Option<List<Block>>) returns (r: Option<List<Block>>, placed: bool)
    ensures r == InjectedTools(tools)
    ensures placed <==> tools.Some? && tools.value.Cons?
  {
    r, placed := tools, false;
    if tools.Some? {
      MarkLastFacts(tools.value, AnyBlock, Ephemeral);
      if tools.value.Cons? {
        r, placed := Some(MarkLast(tools.value, AnyBlock, Ephemeral)), true;
      }
    }
  }

  method PlaceSystemSlot(system: Option<List<Block>>) returns (r: Option<List<Block>>, placed: bool, filtered: nat)
    requires system.Some? ==> !Marked(system.value)
    ensures r == InjectedSystem(system) && filtered == 0
    ensures placed <==> system.Some? && AnySuch(system.value, Large)
  {
    r, placed, filtered := system, false, 0;
    if system.Some? {
      MarkLastFacts(system.value, Large, Ephemeral);
      if AnySuch(system.value, Large) {
        var blocks;
        blocks, filtered := FilterSmallBlocks(system.value);
        r, placed := Some(MarkLast(blocks, Large, Ephemeral)), true;
      }
    }
  }

  method PlaceMessagesSlot(messages: Option<List<Message>>) returns (r: Option<List<Message>>, placed: bool)
    ensures r == if messages.None? then None else Some(MarkFirst(messages.value))
    ensures placed <==> messages.Some? && messages.value.Cons? && HasCacheable(messages.value.head)
  {
    r, placed := messages, false;
    if messages.Some? && messages.value.Cons? {
      MarkMessageFacts(messages.value.head, Ephemeral);
      if HasCacheable(messages.value.head) {
        r, placed := Some(MarkFirst(messages.value)), true;
      }
    }
  }

  lemma {:induction false} MarkFirstCacheable(l: List<Message>)
    ensures AnyCacheable(MarkFirst(l)) <==> AnyCacheable(l)
  {
    if l.Cons? {
      MarkMessageFacts(l.head, Ephemeral);
    }
  }

  /** The four slots, on a body whose marks have been stripped. */
  method PlaceSlots(body: Body, tailTtl: string, stats: CacheStats) returns (b: Body, s: CacheStats, slots: nat)
    requires body.Object? && !HasAny(body)
    ensures b == Injected(body, tailTtl)
    ensures slots == Slots(body)
    ensures s == StatsAfter(body, stats)
  {
    s, slots := stats, 0;
    var tools, placed := PlaceToolsSlot(body.tools);
    if placed {
      slots, s := slots + 1, s.(toolsSlots := s.toolsSlots + 1);
    }
    assert slots < MAX_SLOTS; // here and below, the early return of the source is never taken

    var system, filtered;
    system, placed, filtered := PlaceSystemSlot(body.system);
    s := s.(smallBlocksFiltered := s.smallBlocksFiltered + filtered);
    if placed {
      slots, s := slots + 1, s.(systemSlots := s.systemSlots + 1);
    }
    assert slots < MAX_SLOTS;

    var messages;
    messages, placed := PlaceMessagesSlot(body.messages);
    if placed {
      slots, s := slots + 1, s.(messagesSlots := s.messagesSlots + 1);
    }
    assert slots < MAX_SLOTS;

    if messages.Some? {
      MarkFirstCacheable(body.messages.value);
      var l;
      l, placed := MarkTailBlock(messages.value, EphemeralFor(tailTtl));
      messages := Some(l);
      if placed {
        slots, s := slots + 1, s.(tailSlots := s.tailSlots + 1);
      }
    }
    b := Object(tools, system, messages, body.rest);
    if slots > 0 {
      s := s.(totalInjected := s.totalInjected + 1);
    }
  }

  /**
   The whole injection. In every case the counters for stripped client marks and filtered small blocks
   stay where they were: the two phases they belong to never find anything.
   */
  method InjectBreakpoints(body: Body, tailTtl: string, stats: CacheStats)
    returns (b: Body, s: CacheStats, slots: nat)
    ensures b == Injected(body, tailTtl)
    ensures slots == Slots(body)
    ensures s == StatsAfter(body, stats)
  {
    b, s, slots := body, stats, 0;
    if body.NotAnObject? {
      return;
    }
    var preserved := HasAnyBreakpoints(b);
    if preserved {
      s := s.(clientBreakpointsPreserved := s.clientBreakpointsPreserved + 1);
      return;
    }
    DetectorAndStripperAgree(b);
    var stripped;
    b, stripped := StripExistingBreakpoints(b);
    s := s.(clientBreakpointsStripped := s.clientBreakpointsStripped + stripped);
    b, s, slots := PlaceSlots(b, tailTtl, s);
  }
}
