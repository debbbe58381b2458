/**
 Where the marks of an injection stand (proxy/src/cache.rs): for every block of a body, its mark afterwards, told from
 the kinds, the texts and the positions of the blocks.
 */
module SlotPlaces {
  import opened Prelude
  import opened Breakpoints

  /** A block of text, a tool's result or an image. */
  ghost predicate Promptlike(b: Block) {
    b.kind == Some("text") || b.kind == Some("tool_result") || b.kind == Some("image")
  }

  /** Block `j` is the last such block of the list. */
  ghost predicate LastPromptlike(l: List<Block>, j: nat) {
    j < Size(l) && Promptlike(Nth(l, j)) && forall k :: j < k < Size(l) ==> !Promptlike(Nth(l, k))
  }

  ghost predicate NonePromptlike(m: Message) {
    m.content.Some? ==> forall k :: 0 <= k < Size(m.content.value) ==> !Promptlike(Nth(m.content.value, k))
  }

  /** Block `j` of message `i` is the last such block of all messages. */
  ghost predicate IsTail(l: List<Message>, i: nat, j: nat) {
    && i < Size(l) && Nth(l, i).content.Some? && LastPromptlike(Nth(l, i).content.value, j)
    && forall k :: i < k < Size(l) ==> NonePromptlike(Nth(l, k))
  }

  /** The last block of the first message. */
  ghost predicate IsOpening(l: List<Message>, i: nat, j: nat) {
    i == 0 && l.Cons? && l.head.content.Some? && LastPromptlike(l.head.content.value, j)
  }

  /** The last system block with a text of more than 500 bytes. */
  ghost predicate LastLong(l: List<Block>, j: nat) {
    && j < Size(l) && IsLong(Nth(l, j))
    && forall k :: j < k < Size(l) ==> !IsLong(Nth(l, k))
  }

  ghost predicate IsLong(b: Block) {
    b.text.Some? && |b.text.value| > 500
  }

  // ----- One list of blocks -----

  lemma {:induction false} SuchIsSome(l: List<Block>, p: Block -> bool, k: nat)
    requires k < Size(l) && p(Nth(l, k))
    ensures AnySuch(l, p)
  {
    if k > 0 {
      SuchIsSome(l.tail, p, k - 1);
    }
  }

  lemma {:induction false} SomeIsThere(l: List<Block>, p: Block -> bool) returns (k: nat)
    requires AnySuch(l, p)
    ensures k < Size(l) && p(Nth(l, k))
  {
    if p(l.head) {
      k := 0;
    } else {
      k := SomeIsThere(l.tail, p);
      k := k + 1;
    }
  }

  lemma {:induction false} LastIsSuch(l: List<Block>, p: Block -> bool, j: nat, k: nat)
    requires IsLast(l, p, j)
    ensures j < Size(l) && p(Nth(l, j))
    ensures j < k < Size(l) ==> !p(Nth(l, k))
  {
    if j > 0 {
      LastIsSuch(l.tail, p, j - 1, if k == 0 then 0 else k - 1);
    } else if 0 < k < Size(l) && p(Nth(l, k)) {
      SuchIsSome(l.tail, p, k - 1);
    }
  }

  /** A block satisfying `p` is the last one, or there is a later one. */
  lemma {:induction false} LaterSuch(l: List<Block>, p: Block -> bool, j: nat) returns (k: nat)
    requires j < Size(l) && p(Nth(l, j)) && !IsLast(l, p, j)
    ensures j < k < Size(l) && p(Nth(l, k))
  {
    if j > 0 {
      k := LaterSuch(l.tail, p, j - 1);
    } else {
      k := SomeIsThere(l.tail, p);
    }
    k := k + 1;
  }

  lemma {:induction false} CacheableIsPromptlike(b: Block)
    ensures Cacheable(b) <==> Promptlike(b)
  {
  }

  lemma {:induction false} LastCacheableAt(l: List<Block>, j: nat)
    ensures j < Size(l) && IsLast(l, Cacheable, j) <==> LastPromptlike(l, j)
  {
    if j < Size(l) {
      if IsLast(l, Cacheable, j) {
        forall k | j <= k < Size(l) ensures k == j <==> Promptlike(Nth(l, k)) {
          LastIsSuch(l, Cacheable, j, k);
        }
      } else if Promptlike(Nth(l, j)) {
        var k := LaterSuch(l, Cacheable, j);
        assert Promptlike(Nth(l, k));
      }
    }
  }

  lemma {:induction false} MessageHasCacheable(m: Message)
    ensures HasCacheable(m) <==> !NonePromptlike(m)
  {
    if HasCacheable(m) {
      var k := SomeIsThere(m.content.value, Cacheable);
      assert Promptlike(Nth(m.content.value, k));
    } else if m.content.Some? {
      forall k | 0 <= k < Size(m.content.value) ensures !Promptlike(Nth(m.content.value, k)) {
        if Promptlike(Nth(m.content.value, k)) {
          SuchIsSome(m.content.value, Cacheable, k);
        }
      }
    }
  }

  // ----- The messages -----

  lemma {:induction false} SomeIsCacheable(l: List<Message>, k: nat)
    requires k < Size(l) && !NonePromptlike(Nth(l, k))
    ensures AnyCacheable(l)
  {
    if k > 0 {
      SomeIsCacheable(l.tail, k - 1);
    } else {
      MessageHasCacheable(l.head);
    }
  }

  lemma {:induction false} CacheableIsSome(l: List<Message>) returns (k: nat)
    requires AnyCacheable(l)
    ensures k < Size(l) && !NonePromptlike(Nth(l, k))
  {
    MessageHasCacheable(l.head);
    if HasCacheable(l.head) {
      k := 0;
    } else {
      k := CacheableIsSome(l.tail);
      k := k + 1;
    }
  }

  lemma {:induction false} TailOfRest(l: List<Message>, i: nat, j: nat)
    requires l.Cons? && i > 0
    ensures IsTail(l, i, j) <==> IsTail(l.tail, i - 1, j)
  {
    if IsTail(l, i, j) {
      forall k | i - 1 < k < Size(l.tail) ensures NonePromptlike(Nth(l.tail, k)) {
        assert Nth(l.tail, k) == Nth(l, k + 1);
      }
    }
    if IsTail(l.tail, i - 1, j) {
      forall k | i < k < Size(l) ensures NonePromptlike(Nth(l, k)) {
        assert Nth(l, k) == Nth(l.tail, k - 1);
      }
    }
  }

  lemma {:induction false} TailInFirst(l: List<Message>, j: nat)
    requires l.Cons? && l.head.content.Some?
    ensures IsTail(l, 0, j) <==> LastPromptlike(l.head.content.value, j) && !AnyCacheable(l.tail)
  {
    if AnyCacheable(l.tail) {
      var k := CacheableIsSome(l.tail);
      assert Nth(l, k + 1) == Nth(l.tail, k);
    } else {
      forall k | 0 < k < Size(l) ensures NonePromptlike(Nth(l, k)) {
        if !NonePromptlike(Nth(l, k)) {
          SomeIsCacheable(l.tail, k - 1);
        }
      }
    }
  }

  /** Only the content of a message changes, and of its blocks only the marks. */
  ghost predicate SameButMarks(m: Message, m': Message) {
    && m' == m.(content := m'.content)
    && (m'.content.Some? <==> m.content.Some?)
    && (m.content.Some? ==> Size(m'.content.value) == Size(m.content.value))
  }

  function MarkAt(l: List<Message>, i: nat, j: nat): Option<CacheControl>
    requires i < Size(l) && Nth(l, i).content.Some? && j < Size(Nth(l, i).content.value)
  {
    Nth(Nth(l, i).content.value, j).mark
  }

  ghost predicate Position(l: List<Message>, i: nat, j: nat) {
    i < Size(l) && Nth(l, i).content.Some? && j < Size(Nth(l, i).content.value)
  }

  lemma {:induction false} MarkedMessageAt(m: Message, c: CacheControl, j: nat)
    ensures SameButMarks(m, MarkMessage(m, c))
    ensures m.content.Some? && j < Size(m.content.value) ==>
              var b := Nth(m.content.value, j);
              Nth(MarkMessage(m, c).content.value, j)
              == if LastPromptlike(m.content.value, j) then b.(mark := Some(c)) else b
  {
    if m.content.Some? {
      SameSize(m.content.value, Cacheable, c);
      if j < Size(m.content.value) {
        MarkLastPointwise(m.content.value, Cacheable, c, j);
        LastCacheableAt(m.content.value, j);
      }
    }
  }

  lemma {:induction false} MarkTailAt(l: List<Message>, c: CacheControl, i: nat, j: nat)
    ensures Size(MarkTail(l, c)) == Size(l)
    ensures i < Size(l) ==> SameButMarks(Nth(l, i), Nth(MarkTail(l, c), i))
    ensures Position(l, i, j) ==>
              var b := Nth(Nth(l, i).content.value, j);
              Nth(Nth(MarkTail(l, c), i).content.value, j) == if IsTail(l, i, j) then b.(mark := Some(c)) else b
    decreases l
  {
    if l.Cons? {
      MarkTailAt(l.tail, c, if i == 0 then 0 else i - 1, j);
      MarkedMessageAt(l.head, c, j);
      if i > 0 {
        TailOfRest(l, i, j);
        if Position(l, i, j) && IsTail(l, i, j) && !AnyCacheable(l.tail) {
          assert Promptlike(Nth(Nth(l, i).content.value, j));
          SomeIsCacheable(l.tail, i - 1);
        }
      } else if l.head.content.Some? {
        TailInFirst(l, j);
      }
    }
  }

  /** Every block keeps its kind, so marking the first message does not move the tail. */
  lemma {:induction false} MarkFirstAt(l: List<Message>, i: nat, j: nat)
    ensures Size(MarkFirst(l)) == Size(l)
    ensures i < Size(l) ==> SameButMarks(Nth(l, i), Nth(MarkFirst(l), i))
    ensures Position(l, i, j) ==>
              var b := Nth(Nth(l, i).content.value, j);
              Nth(Nth(MarkFirst(l), i).content.value, j)
              == if IsOpening(l, i, j) then b.(mark := Some(Ephemeral)) else b
  {
    if l.Cons? {
      MarkedMessageAt(l.head, Ephemeral, j);
    }
  }

  lemma {:induction false} KindsStay(m: Message, c: CacheControl, j: nat)
    requires m.content.Some?
    ensures LastPromptlike(MarkMessage(m, c).content.value, j) <==> LastPromptlike(m.content.value, j)
  {
    var l, l' := m.content.value, MarkMessage(m, c).content.value;
    MarkedMessageAt(m, c, j);
    forall k | 0 <= k < Size(l) ensures Size(l') == Size(l) && (Promptlike(Nth(l', k)) <==> Promptlike(Nth(l, k))) {
      MarkedMessageAt(m, c, k);
    }
  }

  lemma {:induction false} TailStays(l: List<Message>, i: nat, j: nat)
    ensures IsTail(MarkFirst(l), i, j) <==> IsTail(l, i, j)
  {
    if l.Cons? {
      if i > 0 {
        TailOfRest(l, i, j);
        TailOfRest(MarkFirst(l), i, j);
      } else if l.head.content.Some? {
        KindsStay(l.head, Ephemeral, j);
        TailInFirst(l, j);
        TailInFirst(MarkFirst(l), j);
      }
    }
  }

  lemma {:induction false} UnmarkedAt(l: List<Block>, j: nat)
    requires !Marked(l) && j < Size(l)
    ensures Nth(l, j).mark == None
  {
    if j > 0 {
      UnmarkedAt(l.tail, j - 1);
    }
  }

  lemma {:induction false} UnmarkedPosition(l: List<Message>, i: nat, j: nat)
    requires !MarkedMessages(l) && Position(l, i, j)
    ensures MarkAt(l, i, j) == None
  {
    if i > 0 {
      UnmarkedPosition(l.tail, i - 1, j);
    } else {
      UnmarkedAt(l.head.content.value, j);
    }
  }

  // ----- The whole body -----

  /**
   After an injection into a body without marks, the tail's mark stands on the last block of text, tool result or image
   of all messages; slot three's stands on the last such block of the first message, unless that is the tail; and no
   other block of a message is marked. Nothing but marks changes.
   */
  lemma {:induction false} MessageMarksStand(b: Body, ttl: string, i: nat, j: nat)
    requires b.Object? && !HasAny(b) && b.messages.Some? && i < Size(b.messages.value)
    ensures Injected(b, ttl).messages.Some? && Size(Injected(b, ttl).messages.value) == Size(b.messages.value)
    ensures SameButMarks(Nth(b.messages.value, i), Nth(Injected(b, ttl).messages.value, i))
    ensures Position(b.messages.value, i, j) ==>
              var l := b.messages.value;
              Nth(Nth(Injected(b, ttl).messages.value, i).content.value, j)
              == Nth(Nth(l, i).content.value, j).(mark := if IsTail(l, i, j) then Some(EphemeralFor(ttl))
                                                          else if IsOpening(l, i, j) then Some(Ephemeral)
                                                          else None)
  {
    var l := b.messages.value;
    MarkFirstAt(l, i, j);
    MarkTailAt(MarkFirst(l), EphemeralFor(ttl), i, j);
    TailStays(l, i, j);
    if Position(l, i, j) {
      UnmarkedPosition(l, i, j);
    }
  }

  /** The last tool is marked, and no other. */
  lemma {:induction false} ToolMarkStands(b: Body, ttl: string, j: nat)
    requires b.Object? && !HasAny(b) && b.tools.Some? && j < Size(b.tools.value)
    ensures Injected(b, ttl).tools.Some? && Size(Injected(b, ttl).tools.value) == Size(b.tools.value)
    ensures Nth(Injected(b, ttl).tools.value, j)
         == Nth(b.tools.value, j).(mark := if j == Size(b.tools.value) - 1 then Some(Ephemeral) else None)
  {
    var l := b.tools.value;
    MarkLastPointwise(l, AnyBlock, Ephemeral, j);
    UnmarkedAt(l, j);
    if IsLast(l, AnyBlock, j) {
      LastIsSuch(l, AnyBlock, j, Size(l) - 1);
    } else {
      var k := LaterSuch(l, AnyBlock, j);
    }
  }

  /** Of the system blocks, the last of more than 500 bytes is marked, and no other. */
  lemma {:induction false} SystemMarkStands(b: Body, ttl: string, j: nat)
    requires b.Object? && !HasAny(b) && b.system.Some? && j < Size(b.system.value)
    ensures Injected(b, ttl).system.Some? && Size(Injected(b, ttl).system.value) == Size(b.system.value)
    ensures Nth(Injected(b, ttl).system.value, j)
         == Nth(b.system.value, j).(mark := if LastLong(b.system.value, j) then Some(Ephemeral) else None)
  {
    var l := b.system.value;
    MarkLastPointwise(l, Large, Ephemeral, j);
    UnmarkedAt(l, j);
    if IsLast(l, Large, j) {
      forall k | j <= k < Size(l) ensures k == j <==> IsLong(Nth(l, k)) {
        LastIsSuch(l, Large, j, k);
      }
    } else if IsLong(Nth(l, j)) {
      var k := LaterSuch(l, Large, j);
      assert IsLong(Nth(l, k));
    }
  }

  // ----- The counters -----

  ghost predicate SomePromptlike(l: List<Message>) {
    exists i :: 0 <= i < Size(l) && !NonePromptlike(Nth(l, i))
  }

  lemma {:induction false} SomeIffCacheable(l: List<Message>)
    ensures SomePromptlike(l) <==> AnyCacheable(l)
    ensures l.Cons? ==> (HasCacheable(l.head) <==> !NonePromptlike(Nth(l, 0)))
  {
    if l.Cons? {
      MessageHasCacheable(l.head);
    }
    if AnyCacheable(l) {
      var k := CacheableIsSome(l);
    }
    if i :| 0 <= i < Size(l) && !NonePromptlike(Nth(l, i)) {
      SomeIsCacheable(l, i);
    }
  }

  function ToolMarks(b: Body): nat {
    if b.Object? && b.tools.Some? then Marks(b.tools.value) else 0
  }

  function SystemMarks(b: Body): nat {
    if b.Object? && b.system.Some? then Marks(b.system.value) else 0
  }

  /**
   For a body without marks, the counters of the slots grow by the marks placed on tools and on system blocks, by one
   for the first message if it has a block for it, and by one for the tail if there is one; their growth is the number
   returned, the request counts as injected if that is not zero, and no other counter moves.
   */
  lemma {:induction false} CountersCountMarks(b: Body, ttl: string, s: CacheStats)
    requires b.Object? && !HasAny(b)
    ensures var r, l := StatsAfter(b, s), if b.messages.Some? then b.messages.value else Nil;
            && r.toolsSlots == s.toolsSlots + ToolMarks(Injected(b, ttl))
            && r.systemSlots == s.systemSlots + SystemMarks(Injected(b, ttl))
            && r.messagesSlots == s.messagesSlots + (if l.Cons? && !NonePromptlike(Nth(l, 0)) then 1 else 0)
            && r.tailSlots == s.tailSlots + (if SomePromptlike(l) then 1 else 0)
            && Slots(b) == r.toolsSlots - s.toolsSlots + r.systemSlots - s.systemSlots
                           + r.messagesSlots - s.messagesSlots + r.tailSlots - s.tailSlots
            && r.totalInjected == s.totalInjected + (if Slots(b) > 0 then 1 else 0)
            && r == s.(toolsSlots := r.toolsSlots, systemSlots := r.systemSlots, messagesSlots := r.messagesSlots,
                       tailSlots := r.tailSlots, totalInjected := r.totalInjected)
  {
    if b.tools.Some? {
      ToolsCount(b);
    }
    if b.system.Some? {
      SystemCount(b);
    }
    SomeIffCacheable(if b.messages.Some? then b.messages.value else Nil);
  }

  /** A body that is no object, or has marks of the client's, stays as it is; only the counter of kept marks moves. */
  lemma {:induction false} OtherBodiesStay(b: Body, ttl: string, s: CacheStats)
    requires b.NotAnObject? || BodyMarks(b) > 0
    ensures Injected(b, ttl) == b && Slots(b) == 0
    ensures var kept := s.clientBreakpointsPreserved + if b.Object? then 1 else 0;
            StatsAfter(b, s) == s.(clientBreakpointsPreserved := kept)
  {
    DetectorAndStripperAgree(b);
  }
}
