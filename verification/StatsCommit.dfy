/**
 The statistics commit protocol of the proxy (proxy/src/server.rs): every request runs without a lock on
 counters of its own and adds them to the shared ones in short critical sections, interleaved at will.
 */
module StatsCommit {
  import opened Prelude
  import Ageing
  import Breakpoints

  type WindowStats = Ageing.SlidingWindowStats
  type CacheStats = Breakpoints.CacheStats

  datatype TransformStats = TransformStats(
    toolsDropped: nat, ansiSequencesStripped: nat, ansiBytesStripped: nat, bashGitTrims: nat,
    modelOverrides: nat, secretsScrubbed: nat, toolFiltersApplied: nat, slidingWindow: WindowStats)

  /** What one critical section adds: the counters of a request's pipeline, or the tokens its response reports. */
  datatype Commit = Request(transform: TransformStats, cache: CacheStats) | Tokens(read: nat, creation: nat)

  /** The shared counters, by name. */
  datatype Counter =
    | ToolsDropped | AnsiSequencesStripped | AnsiBytesStripped | BashGitTrims
    | ModelOverrides | SecretsScrubbed | ToolFiltersApplied
    | ItemsAged | BytesRemoved | CumulativeBytesRemoved
    | TotalInjected | ToolsSlots | SystemSlots | MessagesSlots | TailSlots
    | SmallBlocksFiltered | ClientBreakpointsStripped | ClientBreakpointsPreserved
    | CacheReadTokens | CacheCreationTokens

  function TransformCount(t: TransformStats, c: Counter): nat {
    match c
    case ToolsDropped => t.toolsDropped
    case AnsiSequencesStripped => t.ansiSequencesStripped
    case AnsiBytesStripped => t.ansiBytesStripped
    case BashGitTrims => t.bashGitTrims
    case ModelOverrides => t.modelOverrides
    case SecretsScrubbed => t.secretsScrubbed
    case ToolFiltersApplied => t.toolFiltersApplied
    case ItemsAged => t.slidingWindow.itemsAged
    case BytesRemoved => t.slidingWindow.bytesRemoved
    case CumulativeBytesRemoved => t.slidingWindow.cumulativeBytesRemoved
    case _ => 0
  }

  function CacheCount(s: CacheStats, c: Counter): nat {
    match c
    case TotalInjected => s.totalInjected
    case ToolsSlots => s.toolsSlots
    case SystemSlots => s.systemSlots
    case MessagesSlots => s.messagesSlots
    case TailSlots => s.tailSlots
    case SmallBlocksFiltered => s.smallBlocksFiltered
    case ClientBreakpointsStripped => s.clientBreakpointsStripped
    case ClientBreakpointsPreserved => s.clientBreakpointsPreserved
    case CacheReadTokens => s.cacheReadTokens
    case CacheCreationTokens => s.cacheCreationTokens
    case _ => 0
  }

  predicate PerRequest(c: Counter) {
    c.ItemsAged? || c.BytesRemoved?
  }

  /** What a commit adds to a counter; the two per-request counters are never carried over. */
  function Delta(e: Commit, c: Counter): nat {
    match e
    case Request(t, s) => if PerRequest(c) then 0 else TransformCount(t, c) + CacheCount(s, c)
    case Tokens(read, creation) => if c.CacheReadTokens? then read else if c.CacheCreationTokens? then creation else 0
  }

  function Total(run: List<Commit>, c: Counter): nat {
    if run.Nil? then 0 else Delta(run.head, c) + Total(run.tail, c)
  }

  lemma {:induction false} TotalPush(run: List<Commit>, e: Commit, c: Counter)
    ensures Total(Push(run, e), c) == Total(run, c) + Delta(e, c)
  {
    if run.Cons? {
      TotalPush(run.tail, e, c);
    }
  }

  // ----- The shared state -----

  /** `TransformStats::merge`. */
  function MergeTransform(t: TransformStats, other: TransformStats): (r: TransformStats)
    ensures forall c :: TransformCount(r, c) == TransformCount(t, c)
                                                 + if PerRequest(c) then 0 else TransformCount(other, c)
  {
    TransformStats(
      t.toolsDropped + other.toolsDropped,
      t.ansiSequencesStripped + other.ansiSequencesStripped,
      t.ansiBytesStripped + other.ansiBytesStripped,
      t.bashGitTrims + other.bashGitTrims,
      t.modelOverrides + other.modelOverrides,
      t.secretsScrubbed + other.secretsScrubbed,
      t.toolFiltersApplied + other.toolFiltersApplied,
      t.slidingWindow.(cumulativeBytesRemoved :=
        t.slidingWindow.cumulativeBytesRemoved + other.slidingWindow.cumulativeBytesRemoved))
  }

  /** `SlidingWindowStats::reset_request`. */
  function ResetRequest(t: TransformStats): (r: TransformStats)
    ensures forall c :: TransformCount(r, c) == if PerRequest(c) then 0 else TransformCount(t, c)
  {
    t.(slidingWindow := t.slidingWindow.(itemsAged := 0, bytesRemoved := 0))
  }

  /** `CacheStats::merge`. */
  function MergeCache(s: CacheStats, other: CacheStats): (r: CacheStats)
    ensures forall c :: CacheCount(r, c) == CacheCount(s, c) + CacheCount(other, c)
  {
    Breakpoints.CacheStats(
      s.totalInjected + other.totalInjected,
      s.toolsSlots + other.toolsSlots,
      s.systemSlots + other.systemSlots,
      s.messagesSlots + other.messagesSlots,
      s.tailSlots + other.tailSlots,
      s.smallBlocksFiltered + other.smallBlocksFiltered,
      s.clientBreakpointsStripped + other.clientBreakpointsStripped,
      s.clientBreakpointsPreserved + other.clientBreakpointsPreserved,
      s.cacheReadTokens + other.cacheReadTokens,
      s.cacheCreationTokens + other.cacheCreationTokens)
  }

  /** Field by field: what is shared after a commit; the two counters of a single request are zero. */
  ghost predicate TransformAdded(after: TransformStats, before: TransformStats, more: TransformStats) {
    && after.toolsDropped == before.toolsDropped + more.toolsDropped
    && after.ansiSequencesStripped == before.ansiSequencesStripped + more.ansiSequencesStripped
    && after.ansiBytesStripped == before.ansiBytesStripped + more.ansiBytesStripped
    && after.bashGitTrims == before.bashGitTrims + more.bashGitTrims
    && after.modelOverrides == before.modelOverrides + more.modelOverrides
    && after.secretsScrubbed == before.secretsScrubbed + more.secretsScrubbed
    && after.toolFiltersApplied == before.toolFiltersApplied + more.toolFiltersApplied
    && var (now, was, own) := (after.slidingWindow, before.slidingWindow, more.slidingWindow);
       && now.cumulativeBytesRemoved == was.cumulativeBytesRemoved + own.cumulativeBytesRemoved
       && now.itemsAged == now.bytesRemoved == 0
  }

  ghost predicate CacheAdded(after: CacheStats, before: CacheStats, more: CacheStats) {
    && after.totalInjected == before.totalInjected + more.totalInjected
    && after.toolsSlots == before.toolsSlots + more.toolsSlots
    && after.systemSlots == before.systemSlots + more.systemSlots
    && after.messagesSlots == before.messagesSlots + more.messagesSlots
    && after.tailSlots == before.tailSlots + more.tailSlots
    && after.smallBlocksFiltered == before.smallBlocksFiltered + more.smallBlocksFiltered
    && after.clientBreakpointsStripped == before.clientBreakpointsStripped + more.clientBreakpointsStripped
    && after.clientBreakpointsPreserved == before.clientBreakpointsPreserved + more.clientBreakpointsPreserved
    && after.cacheReadTokens == before.cacheReadTokens + more.cacheReadTokens
    && after.cacheCreationTokens == before.cacheCreationTokens + more.cacheCreationTokens
  }

  class ProxyState {
    var transformStats: TransformStats
    var cacheStats: CacheStats
    /** Every commit so far, in the order the lock was taken. */
    ghost var committed: List<Commit>

    /** Nothing is counted that no request committed, and the per-request counters are zero. */
    ghost predicate Valid()
      reads this
    {
      forall c :: Value(c) == Total(committed, c) && (PerRequest(c) ==> Value(c) == 0)
    }

    function Value(c: Counter): nat
      reads this
    {
      TransformCount(transformStats, c) + CacheCount(cacheStats, c)
    }

    constructor ()
      ensures Valid() && committed == Nil
    {
      transformStats := TransformStats(0, 0, 0, 0, 0, 0, 0, Ageing.SlidingWindowStats(0, 0, 0));
      cacheStats := Breakpoints.CacheStats(0, 0, 0, 0, 0, 0, 0, 0, 0, 0);
      committed := Nil;
    }

    /** The critical section after the pipeline has run. */
    method CommitRequest(transform: TransformStats, cache: CacheStats)
      requires Valid()
      modifies this
      ensures Valid() && committed == Push(old(committed), Request(transform, cache))
      ensures forall c :: Value(c) == old(Value(c)) + Delta(Request(transform, cache), c)
      ensures TransformAdded(transformStats, old(transformStats), transform)
      ensures CacheAdded(cacheStats, old(cacheStats), cache)
    {
      transformStats := MergeTransform(transformStats, transform);
      transformStats := ResetRequest(transformStats);
      cacheStats := MergeCache(cacheStats, cache);
      forall c
        ensures Total(Push(committed, Request(transform, cache)), c)
             == Total(committed, c) + Delta(Request(transform, cache), c)
      {
        TotalPush(committed, Request(transform, cache), c);
      }
      committed := Push(committed, Request(transform, cache));
    }

    /** The critical section after the response has arrived, taken only when it reports cached tokens. */
    method CommitTokens(read: nat, creation: nat)
      requires Valid()
      modifies this
      ensures Valid()
      ensures committed == (if read > 0 || creation > 0 then Push(old(committed), Tokens(read, creation))
                            else old(committed))
      ensures forall c :: Value(c) == old(Value(c)) + Delta(Tokens(read, creation), c)
      ensures transformStats == old(transformStats)
      ensures cacheStats == old(cacheStats).(cacheReadTokens := old(cacheStats.cacheReadTokens) + read,
                                             cacheCreationTokens := old(cacheStats.cacheCreationTokens) + creation)
    {
      if read > 0 || creation > 0 {
        cacheStats := cacheStats.(cacheReadTokens := cacheStats.cacheReadTokens + read,
                                  cacheCreationTokens := cacheStats.cacheCreationTokens + creation);
        forall c
          ensures Total(Push(committed, Tokens(read, creation)), c)
               == Total(committed, c) + Delta(Tokens(read, creation), c)
        {
          TotalPush(committed, Tokens(read, creation), c);
        }
        committed := Push(committed, Tokens(read, creation));
      }
    }
  }

  // ----- Interleavings -----

  /** Thread `k` is about to make commit `e`. */
  ghost predicate Ready(threads: List<List<Commit>>, k: nat, e: Commit) {
    threads.Cons?
    && if k == 0 then threads.head.Cons? && threads.head.head == e else Ready(threads.tail, k - 1, e)
  }

  ghost function Advance(threads: List<List<Commit>>, k: nat, e: Commit): List<List<Commit>>
    requires Ready(threads, k, e)
  {
    if k == 0 then Cons(threads.head.tail, threads.tail) else Cons(threads.head, Advance(threads.tail, k - 1, e))
  }

  ghost predicate AllDone(threads: List<List<Commit>>) {
    threads.Cons? ==> threads.head.Nil? && AllDone(threads.tail)
  }

  /** `run` is some interleaving of all the commits of the threads. */
  ghost predicate Interleaves(threads: List<List<Commit>>, run: List<Commit>)
    decreases run
  {
    if run.Nil? then AllDone(threads)
    else exists k :: Ready(threads, k, run.head) && Interleaves(Advance(threads, k, run.head), run.tail)
  }

  ghost function ThreadTotals(threads: List<List<Commit>>, c: Counter): nat {
    if threads.Nil? then 0 else Total(threads.head, c) + ThreadTotals(threads.tail, c)
  }

  lemma {:induction false} AdvanceTakesOne(threads: List<List<Commit>>, k: nat, e: Commit, c: Counter)
    requires Ready(threads, k, e)
    ensures ThreadTotals(threads, c) == Delta(e, c) + ThreadTotals(Advance(threads, k, e), c)
  {
    if k > 0 {
      AdvanceTakesOne(threads.tail, k - 1, e, c);
    }
  }

  lemma {:induction false} DoneAddsNothing(threads: List<List<Commit>>, c: Counter)
    requires AllDone(threads)
    ensures ThreadTotals(threads, c) == 0
  {
    if threads.Cons? {
      DoneAddsNothing(threads.tail, c);
    }
  }

  /** However the critical sections interleave, each shared counter is the sum of what the requests added. */
  lemma {:induction false} NoCommitIsLost(threads: List<List<Commit>>, run: List<Commit>, c: Counter)
    requires Interleaves(threads, run)
    ensures Total(run, c) == ThreadTotals(threads, c)
    decreases run
  {
    if run.Nil? {
      DoneAddsNothing(threads, c);
    } else {
      var k :| Ready(threads, k, run.head) && Interleaves(Advance(threads, k, run.head), run.tail);
      AdvanceTakesOne(threads, k, run.head, c);
      NoCommitIsLost(Advance(threads, k, run.head), run.tail, c);
    }
  }

  /** The order in which requests take the lock does not matter. */
  lemma {:induction false} OrderDoesNotMatter(threads: List<List<Commit>>, run: List<Commit>, run': List<Commit>,
          c: Counter)
    requires Interleaves(threads, run) && Interleaves(threads, run')
    ensures Total(run, c) == Total(run', c)
  {
    NoCommitIsLost(threads, run, c);
    NoCommitIsLost(threads, run', c);
  }

  // ----- What the cache counters of a whole run say -----

  ghost function Slots(run: List<Commit>): nat {
    Total(run, ToolsSlots) + Total(run, SystemSlots) + Total(run, MessagesSlots) + Total(run, TailSlots)
  }

  /** The cache counters of a request are those an injection leaves on fresh counters, or fresh ones. */
  ghost predicate FromInjection(s: CacheStats, zero: CacheStats) {
    s == zero || exists b: Breakpoints.Body :: s == Breakpoints.StatsAfter(b, zero)
  }

  ghost predicate AllFromInjection(run: List<Commit>, zero: CacheStats) {
    run.Cons? ==> (run.head.Request? ==> FromInjection(run.head.cache, zero)) && AllFromInjection(run.tail, zero)
  }

  ghost predicate Untouched(s: CacheStats) {
    forall c :: CacheCount(s, c) == 0
  }

  lemma {:induction false} InjectionDelta(s: CacheStats, zero: CacheStats)
    requires Untouched(zero) && FromInjection(s, zero)
    ensures s.smallBlocksFiltered == 0 && s.clientBreakpointsStripped == 0
    ensures s.messagesSlots <= s.tailSlots
    ensures s.totalInjected <= s.toolsSlots + s.systemSlots + s.messagesSlots + s.tailSlots <= 4 * s.totalInjected
  {
    assert CacheCount(zero, SmallBlocksFiltered) == 0 == CacheCount(zero, ClientBreakpointsStripped);
    assert CacheCount(zero, TotalInjected) == 0 == CacheCount(zero, ToolsSlots);
    assert CacheCount(zero, SystemSlots) == 0 == CacheCount(zero, MessagesSlots) == CacheCount(zero, TailSlots);
  }

  lemma {:induction false} NothingIsEverStripped(run: List<Commit>, zero: CacheStats)
    requires Untouched(zero) && AllFromInjection(run, zero)
    ensures Total(run, SmallBlocksFiltered) == 0 && Total(run, ClientBreakpointsStripped) == 0
  {
    if run.Cons? {
      NothingIsEverStripped(run.tail, zero);
      if run.head.Request? {
        InjectionDelta(run.head.cache, zero);
      }
    }
  }

  /** In every run, the first-message slot is never filled without the tail slot. */
  lemma {:induction false} TailCoversMessages(run: List<Commit>, zero: CacheStats)
    requires Untouched(zero) && AllFromInjection(run, zero)
    ensures Total(run, MessagesSlots) <= Total(run, TailSlots)
  {
    if run.Cons? {
      TailCoversMessages(run.tail, zero);
      if run.head.Request? {
        InjectionDelta(run.head.cache, zero);
      }
    }
  }

  ghost function SlotDelta(e: Commit): nat {
    Delta(e, ToolsSlots) + Delta(e, SystemSlots) + Delta(e, MessagesSlots) + Delta(e, TailSlots)
  }

  lemma {:induction false} CommitSlots(e: Commit, zero: CacheStats)
    requires Untouched(zero) && (e.Request? ==> FromInjection(e.cache, zero))
    ensures Delta(e, TotalInjected) <= SlotDelta(e) <= 4 * Delta(e, TotalInjected)
  {
    if e.Request? {
      InjectionDelta(e.cache, zero);
    }
  }

  /** In every run, the injected requests are those with at least one slot, and none has more than four. */
  lemma {:induction false} SlotsPerInjection(run: List<Commit>, zero: CacheStats)
    requires Untouched(zero) && AllFromInjection(run, zero)
    ensures Total(run, TotalInjected) <= Slots(run) <= 4 * Total(run, TotalInjected)
  {
    if run.Cons? {
      SlotsPerInjection(run.tail, zero);
      CommitSlots(run.head, zero);
      assert Slots(run) == SlotDelta(run.head) + Slots(run.tail);
    }
  }
}
