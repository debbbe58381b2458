/**
 The raw-token half of `LocalStateCache` (src/cache.rs): three maps and a generation clock implement a
 bounded cache. The class is proved to hold, after any sequence of stores, exactly the most recently
 stored distinct keys, each with its last count.
 */
module TokenCache {
  import opened Prelude

  const MAX_RAW_TOKEN_COUNT_ENTRIES: nat := 10_000

  // ----- The reference: what a history of stores should leave behind -----

  /** The stores since the cache was created or last cleared; the latest one is outermost. */
  datatype History = Fresh | Then(earlier: History, key: string, count: nat)

  ghost function Length(h: History): nat {
    if h.Fresh? then 0 else 1 + Length(h.earlier)
  }

  ghost predicate Stored(h: History, k: string) {
    h.Then? && (h.key == k || Stored(h.earlier, k))
  }

  ghost function LastCount(h: History, k: string): nat
    requires Stored(h, k)
  {
    if h.key == k then h.count else LastCount(h.earlier, k)
  }

  /** The keys stored after the last store of `k`. */
  ghost function Since(h: History, k: string): set<string>
    requires Stored(h, k)
  {
    if h.key == k then {} else {h.key} + Since(h.earlier, k)
  }

  /** `k` is among the `n` distinct keys stored most recently. */
  ghost predicate Retained(h: History, n: nat, k: string) {
    Stored(h, k) && |Since(h, k)| < n
  }

  // ----- The same, as a list of entries ordered by recency -----

  datatype Entries = NoEntries | Entry(key: string, count: nat, gen: nat, rest: Entries)

  ghost function Keys(l: Entries): set<string> {
    if l.NoEntries? then {} else {l.key} + Keys(l.rest)
  }

  ghost function Size(l: Entries): nat {
    if l.NoEntries? then 0 else 1 + Size(l.rest)
  }

  ghost function Without(l: Entries, k: string): Entries {
    if l.NoEntries? then NoEntries else if l.key == k then l.rest else Entry(l.key, l.count, l.gen, Without(l.rest, k))
  }

  ghost function Take(l: Entries, n: nat): Entries {
    if l.NoEntries? || n == 0 then NoEntries else Entry(l.key, l.count, l.gen, Take(l.rest, n - 1))
  }

  /** One entry per distinct key, the latest first, each with the count and position of its last store. */
  ghost function Recency(h: History): Entries {
    if h.Fresh? then NoEntries else Entry(h.key, h.count, Length(h.earlier), Without(Recency(h.earlier), h.key))
  }

  ghost function Kept(h: History, n: nat): Entries {
    Take(Recency(h), n)
  }

  /** Distinct keys, with generations that fall along the list, all below `bound`. */
  ghost predicate Sorted(l: Entries, bound: nat) {
    l.Entry? ==> l.gen < bound && l.key !in Keys(l.rest) && Sorted(l.rest, l.gen)
  }

  lemma {:induction false} SortedWeaken(l: Entries, b: nat, b': nat)
    requires Sorted(l, b) && b <= b'
    ensures Sorted(l, b')
  {
  }

  lemma {:induction false} WithoutFacts(l: Entries, k: string, b: nat)
    requires Sorted(l, b)
    ensures Sorted(Without(l, k), b)
    ensures Keys(Without(l, k)) == Keys(l) - {k}
    ensures k !in Keys(l) ==> Without(l, k) == l
    ensures k in Keys(l) ==> Size(Without(l, k)) + 1 == Size(l)
  {
    if l.Entry? {
      if l.key == k {
        SortedWeaken(l.rest, l.gen, b);
      } else {
        WithoutFacts(l.rest, k, l.gen);
      }
    }
  }

  lemma {:induction false} TakeFacts(l: Entries, n: nat, b: nat)
    requires Sorted(l, b)
    ensures Sorted(Take(l, n), b)
    ensures Keys(Take(l, n)) <= Keys(l)
    ensures Size(Take(l, n)) == if Size(l) <= n then Size(l) else n
    ensures Size(l) <= n ==> Take(l, n) == l
  {
    if l.Entry? && n > 0 {
      TakeFacts(l.rest, n - 1, l.gen);
    }
  }

  lemma {:induction false} RecencyFacts(h: History)
    ensures Sorted(Recency(h), Length(h))
    ensures forall k :: k in Keys(Recency(h)) <==> Stored(h, k)
  {
    if h.Then? {
      RecencyFacts(h.earlier);
      WithoutFacts(Recency(h.earlier), h.key, Length(h.earlier));
    }
  }

  /** The bounded list evolves on its own: a known key moves to the front, a new key pushes the oldest out. */
  lemma {:induction false} TakeWithout(l: Entries, n: nat, k: string, b: nat)
    requires Sorted(l, b)
    ensures k in Keys(Take(l, n)) ==> n > 0 && Take(Without(l, k), n - 1) == Without(Take(l, n), k)
    ensures k !in Keys(Take(l, n)) ==> Take(Without(l, k), n) == Take(l, n) || Size(Take(l, n)) == n
    ensures k !in Keys(Take(l, n)) && n > 0 ==> Take(Without(l, k), n - 1) == Take(Take(l, n), n - 1)
  {
    if l.Entry? && n > 0 {
      TakeTake(l.rest, n - 1);
      if l.key != k {
        TakeWithout(l.rest, n - 1, k, l.gen);
      }
      TakeFacts(l.rest, n - 1, l.gen);
    }
  }

  lemma {:induction false} TakeTake(l: Entries, n: nat)
    ensures n > 0 ==> Take(Take(l, n), n - 1) == Take(l, n - 1)
  {
    if l.Entry? && n > 1 {
      TakeTake(l.rest, n - 1);
    }
  }

  // ----- Retention in terms of the list -----

  /** The keys listed before `k`. */
  ghost function Ahead(l: Entries, k: string): set<string>
    requires k in Keys(l)
  {
    if l.key == k then {} else {l.key} + Ahead(l.rest, k)
  }

  lemma {:induction false} AheadWithout(l: Entries, x: string, k: string, b: nat)
    requires Sorted(l, b) && k in Keys(l) && k != x
    ensures k in Keys(Without(l, x)) && Ahead(Without(l, x), k) == Ahead(l, k) - {x}
  {
    WithoutFacts(l, x, b);
    if l.key != x && l.key != k {
      AheadWithout(l.rest, x, k, l.gen);
    } else if l.key == x {
      AheadAvoids(l.rest, k, x);
    }
  }

  lemma {:induction false} AheadAvoids(l: Entries, k: string, x: string)
    requires k in Keys(l) && x !in Keys(l)
    ensures x !in Ahead(l, k)
  {
    if l.key != k {
      AheadAvoids(l.rest, k, x);
    }
  }

  lemma {:induction false} AheadIsSince(h: History, k: string)
    requires Stored(h, k)
    ensures k in Keys(Recency(h)) && Ahead(Recency(h), k) == Since(h, k)
  {
    RecencyFacts(h);
    if h.key != k {
      AheadIsSince(h.earlier, k);
      RecencyFacts(h.earlier);
      AheadWithout(Recency(h.earlier), h.key, k, Length(h.earlier));
    }
  }

  lemma {:induction false} TakeByAhead(l: Entries, n: nat, k: string, b: nat)
    requires Sorted(l, b)
    ensures k in Keys(Take(l, n)) <==> k in Keys(l) && |Ahead(l, k)| < n
  {
    if l.Entry? && n > 0 {
      TakeByAhead(l.rest, n - 1, k, l.gen);
      if k in Keys(l.rest) {
        AheadAvoids(l.rest, k, l.key);
      }
    }
  }

  /** The list view and the history view agree: kept means fewer than `n` distinct keys stored since. */
  lemma {:induction false} KeptIsRetained(h: History, n: nat, k: string)
    ensures k in Keys(Kept(h, n)) <==> Retained(h, n, k)
  {
    RecencyFacts(h);
    TakeByAhead(Recency(h), n, k, Length(h));
    if Stored(h, k) {
      AheadIsSince(h, k);
    }
  }

  ghost function AllKeys(h: History): set<string> {
    if h.Fresh? then {} else {h.key} + AllKeys(h.earlier)
  }

  /** A cache of capacity `n` keeps all distinct keys while they fit, and exactly `n` of them afterwards. */
  lemma {:induction false} KeptSize(h: History, n: nat)
    ensures |Keys(Kept(h, n))| == if |AllKeys(h)| <= n then |AllKeys(h)| else n
  {
    RecencyFacts(h);
    TakeFacts(Recency(h), n, Length(h));
    SizeIsCardinality(Recency(h), Length(h));
    SizeIsCardinality(Kept(h, n), Length(h));
    RecencyKeys(h);
  }

  lemma {:induction false} RecencyKeys(h: History)
    ensures Keys(Recency(h)) == AllKeys(h)
  {
    if h.Then? {
      RecencyKeys(h.earlier);
      RecencyFacts(h.earlier);
      WithoutFacts(Recency(h.earlier), h.key, Length(h.earlier));
    }
  }

  lemma {:induction false} SizeIsCardinality(l: Entries, b: nat)
    requires Sorted(l, b)
    ensures |Keys(l)| == Size(l)
  {
    if l.Entry? {
      SizeIsCardinality(l.rest, l.gen);
    }
  }

  // ----- The maps that represent a list of entries -----

  ghost function CountsOf(l: Entries): map<string, nat> {
    if l.NoEntries? then map[] else CountsOf(l.rest)[l.key := l.count]
  }

  ghost function GenOf(l: Entries): map<string, nat> {
    if l.NoEntries? then map[] else GenOf(l.rest)[l.key := l.gen]
  }

  ghost function OrderOf(l: Entries): map<nat, string> {
    if l.NoEntries? then map[] else OrderOf(l.rest)[l.gen := l.key]
  }

  lemma {:induction false} MapAlgebra<K, V>(m: map<K, V>, k: K, v: V, x: K)
    ensures x != k ==> m[k := v] - {x} == (m - {x})[k := v]
    ensures k !in m ==> m[k := v] - {k} == m
    ensures (m - {k})[k := v] == m[k := v]
  {
  }

  lemma {:induction false} MapKeys(l: Entries, b: nat)
    requires Sorted(l, b)
    ensures CountsOf(l).Keys == GenOf(l).Keys == Keys(l)
    ensures forall g :: g in OrderOf(l) ==> g < b
    ensures |CountsOf(l)| == Size(l)
  {
    if l.Entry? {
      MapKeys(l.rest, l.gen);
    }
  }

  /** The two ordering maps are mutually inverse. */
  lemma {:induction false} OrderingsAreInverse(l: Entries, b: nat)
    requires Sorted(l, b)
    ensures forall k :: k in GenOf(l) ==> GenOf(l)[k] in OrderOf(l) && OrderOf(l)[GenOf(l)[k]] == k
    ensures forall g :: g in OrderOf(l) ==> OrderOf(l)[g] in GenOf(l) && GenOf(l)[OrderOf(l)[g]] == g
  {
    if l.Entry? {
      OrderingsAreInverse(l.rest, l.gen);
      MapKeys(l.rest, l.gen);
    }
  }

  /** Removing a key from the list is removing it from the maps keyed by it. */
  lemma {:induction false} MapsWithout(l: Entries, k: string, b: nat)
    requires Sorted(l, b) && k in Keys(l)
    ensures CountsOf(Without(l, k)) == CountsOf(l) - {k}
    ensures GenOf(Without(l, k)) == GenOf(l) - {k}
  {
    MapKeys(l.rest, l.gen);
    MapAlgebra(CountsOf(l.rest), l.key, l.count, k);
    MapAlgebra(GenOf(l.rest), l.key, l.gen, k);
    if l.key != k {
      MapsWithout(l.rest, k, l.gen);
    }
  }

  /** ... and its generation from the ordering. */
  lemma {:induction false} OrderWithout(l: Entries, k: string, b: nat)
    requires Sorted(l, b) && k in Keys(l)
    ensures k in GenOf(l) && GenOf(l)[k] < b
    ensures OrderOf(Without(l, k)) == OrderOf(l) - {GenOf(l)[k]}
  {
    MapKeys(l.rest, l.gen);
    if l.key == k {
      MapAlgebra(OrderOf(l.rest), l.gen, l.key, l.gen);
    } else {
      OrderWithout(l.rest, k, l.gen);
      MapAlgebra(OrderOf(l.rest), l.gen, l.key, GenOf(l.rest)[k]);
    }
  }

  ghost function Oldest(l: Entries): (e: Entries)
    requires l.Entry?
    ensures e.Entry?
  {
    if l.rest.NoEntries? then l else Oldest(l.rest)
  }

  lemma {:induction false} OldestEntry(l: Entries, b: nat)
    requires Sorted(l, b) && l.Entry?
    ensures Oldest(l).gen in OrderOf(l) && OrderOf(l)[Oldest(l).gen] == Oldest(l).key
    ensures Oldest(l).key in Keys(l) && Oldest(l).gen < b
    ensures Oldest(l).key in GenOf(l) && GenOf(l)[Oldest(l).key] == Oldest(l).gen
  {
    if l.rest.Entry? {
      OldestEntry(l.rest, l.gen);
    }
  }

  /** The least generation belongs to the end of the list. */
  lemma {:induction false} OldestIsLeast(l: Entries, b: nat)
    requires Sorted(l, b) && l.Entry?
    ensures Oldest(l).gen < b && forall g :: g in OrderOf(l) ==> Oldest(l).gen <= g
  {
    if l.rest.Entry? {
      OldestIsLeast(l.rest, l.gen);
    }
  }

  /** Taking one entry fewer drops exactly the oldest. */
  lemma {:induction false} TakeDropsOldest(l: Entries, b: nat)
    requires Sorted(l, b) && l.Entry?
    ensures Take(l, Size(l) - 1) == Without(l, Oldest(l).key)
  {
    if l.rest.Entry? {
      TakeDropsOldest(l.rest, l.gen);
      OldestEntry(l.rest, l.gen);
    }
  }

  predicate IsLeast(order: map<nat, string>, g: nat) {
    g in order && forall g' :: g' in order ==> g <= g'
  }

  lemma {:induction false} EvictionTarget(l: Entries, b: nat, oldest: nat)
    requires Sorted(l, b) && l.Entry?
    requires IsLeast(OrderOf(l), oldest)
    ensures oldest == Oldest(l).gen && OrderOf(l)[oldest] == Oldest(l).key
    ensures Oldest(l).key in Keys(l) && Oldest(l).key in GenOf(l) && GenOf(l)[Oldest(l).key] == oldest
  {
    OldestEntry(l, b);
    OldestIsLeast(l, b);
  }

  /** The three maps are those of the kept entries. */
  ghost predicate Represents(h: History, n: nat, counts: map<string, nat>, gen: map<string, nat>,
          order: map<nat, string>)
  {
    counts == CountsOf(Kept(h, n)) && gen == GenOf(Kept(h, n)) && order == OrderOf(Kept(h, n))
  }

  lemma {:induction false} RepresentsFacts(h: History, n: nat, counts: map<string, nat>, gen: map<string, nat>,
          order: map<nat, string>)
    requires Represents(h, n, counts, gen, order)
    ensures Sorted(Kept(h, n), Length(h))
    ensures counts.Keys == gen.Keys == Keys(Kept(h, n))
    ensures |counts| == Size(Kept(h, n)) <= n
  {
    RecencyFacts(h);
    TakeFacts(Recency(h), n, Length(h));
    MapKeys(Kept(h, n), Length(h));
  }

  /** Storing all of the listed keys, the head first. */
  ghost function StoreAll(h: History, keys: List<string>): History
    decreases keys
  {
    if keys.Nil? then h else StoreAll(Then(h, keys.head, 0), keys.tail)
  }

  ghost predicate AllNew(keys: List<string>, h: History) {
    keys.Cons? ==> !Stored(h, keys.head) && !Has(keys.tail, keys.head) && AllNew(keys.tail, h)
  }

  lemma {:induction false} StillNew(keys: List<string>, h: History, x: string)
    requires AllNew(keys, h) && !Has(keys, x)
    ensures AllNew(keys, Then(h, x, 0))
  {
    if keys.Cons? {
      StillNew(keys.tail, h, x);
    }
  }

  lemma {:induction false} SinceNewKeys(h: History, keys: List<string>, k: string)
    requires Stored(h, k) && AllNew(keys, h)
    ensures Stored(StoreAll(h, keys), k)
    ensures |Since(StoreAll(h, keys), k)| == |Since(h, k)| + Prelude.Size(keys)
    decreases keys
  {
    if keys.Cons? {
      StillNew(keys.tail, h, keys.head);
      SinceStored(h, k);
      assert Since(Then(h, keys.head, 0), k) == {keys.head} + Since(h, k);
      SinceNewKeys(Then(h, keys.head, 0), keys.tail, k);
    }
  }

  lemma {:induction false} SinceStored(h: History, k: string)
    requires Stored(h, k)
    ensures forall x :: x in Since(h, k) ==> Stored(h, x)
  {
    if h.key != k {
      SinceStored(h.earlier, k);
    }
  }

  /**
   The promise of an LRU cache to a key that was just looked up, to outlive the next `n` - 1 new keys, is kept
   exactly when it is also the key stored last.
   */
  lemma {:induction false} LookedUpKeySurvivesIff(h: History, n: nat, k: string, keys: List<string>)
    requires Retained(h, n, k) && AllNew(keys, h) && Prelude.Size(keys) == n - 1
    ensures Retained(StoreAll(h, keys), n, k) <==> h.key == k
  {
    SinceNewKeys(h, keys, k);
    assert h.key != k ==> h.key in Since(h, k);
  }

  /**
   Lookups leave no trace in a history, so they promote nothing: with x and y stored, and x looked up, 9999 new
   keys evict x and keep y.
   */
  lemma {:induction false} LookedUpKeyIsEvicted(x: string, y: string, i: nat, j: nat, keys: List<string>)
    requires x != y && AllNew(keys, Then(Then(Fresh, x, i), y, j))
    requires Prelude.Size(keys) == 9_999
    ensures var two := Then(Then(Fresh, x, i), y, j);
            && Retained(two, MAX_RAW_TOKEN_COUNT_ENTRIES, x)
            && !Retained(StoreAll(two, keys), MAX_RAW_TOKEN_COUNT_ENTRIES, x)
            && Retained(StoreAll(two, keys), MAX_RAW_TOKEN_COUNT_ENTRIES, y)
  {
    var two := Then(Then(Fresh, x, i), y, j);
    assert Since(two, x) == {y} && Since(two, y) == {};
    LookedUpKeySurvivesIff(two, MAX_RAW_TOKEN_COUNT_ENTRIES, x, keys);
    LookedUpKeySurvivesIff(two, MAX_RAW_TOKEN_COUNT_ENTRIES, y, keys);
  }

  // ----- The three ways a store can go -----

  /**
   After any history the three maps describe the same keys, as many as were stored or as fit; the two ordering
   maps are mutual inverses, and every generation is below the clock.
   */
  lemma {:induction false} MapsAgree(h: History, n: nat, counts: map<string, nat>, gen: map<string, nat>,
          order: map<nat, string>)
    requires Represents(h, n, counts, gen, order)
    ensures |counts| == if |AllKeys(h)| <= n then |AllKeys(h)| else n
    ensures counts.Keys == gen.Keys && forall k :: k in counts <==> Retained(h, n, k)
    ensures forall k :: k in gen ==> gen[k] < Length(h) && gen[k] in order && order[gen[k]] == k
    ensures forall g :: g in order ==> g < Length(h) && order[g] in gen && gen[order[g]] == g
  {
    RepresentsFacts(h, n, counts, gen, order);
    KeptSize(h, n);
    OrderingsAreInverse(Kept(h, n), Length(h));
    MapKeys(Kept(h, n), Length(h));
    assert counts.Keys == Keys(Kept(h, n)) && |counts.Keys| == |counts|;
    forall k ensures k in counts <==> Retained(h, n, k) {
      KeptIsRetained(h, n, k);
      assert k in counts <==> k in counts.Keys;
    }
  }

  lemma {:induction false} KeptKnown(h: History, n: nat, key: string, count: nat)
    requires key in Keys(Kept(h, n))
    ensures Kept(Then(h, key, count), n) == Entry(key, count, Length(h), Without(Kept(h, n), key))
  {
    RecencyFacts(h);
    TakeWithout(Recency(h), n, key, Length(h));
  }

  lemma {:induction false} KeptNew(h: History, n: nat, key: string, count: nat)
    requires n > 0 && key !in Keys(Kept(h, n))
    ensures Kept(Then(h, key, count), n) == Entry(key, count, Length(h), Take(Kept(h, n), n - 1))
  {
    RecencyFacts(h);
    TakeWithout(Recency(h), n, key, Length(h));
  }

  lemma {:induction false} KeptEvicts(h: History, n: nat, key: string, count: nat)
    requires n > 0 && key !in Keys(Kept(h, n)) && Size(Kept(h, n)) == n
    ensures Kept(Then(h, key, count), n) == Entry(key, count, Length(h), Without(Kept(h, n), Oldest(Kept(h, n)).key))
  {
    KeptNew(h, n, key, count);
    RecencyFacts(h);
    TakeFacts(Recency(h), n, Length(h));
    TakeDropsOldest(Kept(h, n), Length(h));
  }

  /** The new entry enters all three maps at once. */
  lemma {:induction false} Record(h: History, n: nat, key: string, count: nat, rest: Entries)
    requires Kept(Then(h, key, count), n) == Entry(key, count, Length(h), rest)
    ensures Represents(Then(h, key, count), n,
                       CountsOf(rest)[key := count], GenOf(rest)[key := Length(h)], OrderOf(rest)[Length(h) := key])
  {
  }

  /** A known key is promoted. */
  lemma {:induction false} StoreKnown(h: History, n: nat, key: string, count: nat, counts: map<string, nat>,
          gen: map<string, nat>, order: map<nat, string>)
    requires Represents(h, n, counts, gen, order) && key in gen
    ensures Represents(Then(h, key, count), n,
                       counts[key := count], gen[key := Length(h)], (order - {gen[key]})[Length(h) := key])
  {
    var kept := Kept(h, n);
    RepresentsFacts(h, n, counts, gen, order);
    KeptKnown(h, n, key, count);
    Record(h, n, key, count, Without(kept, key));
    MapsWithout(kept, key, Length(h));
    OrderWithout(kept, key, Length(h));
    MapAlgebra(counts, key, count, key);
    MapAlgebra(gen, key, Length(h), key);
  }

  /** A new key displaces the entry of least generation when the cache is full. */
  lemma {:induction false} StoreEvicting(h: History, n: nat, key: string, count: nat, counts: map<string, nat>,
          gen: map<string, nat>, order: map<nat, string>, oldest: nat)
    requires Represents(h, n, counts, gen, order) && key !in gen && 0 < n <= |counts|
    requires IsLeast(order, oldest)
    ensures Represents(Then(h, key, count), n,
                       (counts - {order[oldest]})[key := count], (gen - {order[oldest]})[key := Length(h)],
                       (order - {oldest})[Length(h) := key])
  {
    var kept := Kept(h, n);
    RepresentsFacts(h, n, counts, gen, order);
    EvictionTarget(kept, Length(h), oldest);
    KeptEvicts(h, n, key, count);
    Record(h, n, key, count, Without(kept, order[oldest]));
    MapsWithout(kept, order[oldest], Length(h));
    OrderWithout(kept, order[oldest], Length(h));
  }

  /** There is something to evict when the cache is full. */
  lemma {:induction false} HasOldest(h: History, n: nat, counts: map<string, nat>, gen: map<string, nat>,
          order: map<nat, string>)
    requires Represents(h, n, counts, gen, order) && 0 < n <= |counts|
    ensures exists g :: g in order && IsLeast(order, g)
  {
    RepresentsFacts(h, n, counts, gen, order);
    OldestEntry(Kept(h, n), Length(h));
    OldestIsLeast(Kept(h, n), Length(h));
    assert IsLeast(order, Oldest(Kept(h, n)).gen);
  }

  /** A new key is added while there is room. */
  lemma {:induction false} StoreFresh(h: History, n: nat, key: string, count: nat, counts: map<string, nat>,
          gen: map<string, nat>, order: map<nat, string>)
    requires Represents(h, n, counts, gen, order) && key !in gen && |counts| < n
    ensures Represents(Then(h, key, count), n, counts[key := count], gen[key := Length(h)], order[Length(h) := key])
  {
    RepresentsFacts(h, n, counts, gen, order);
    KeptNew(h, n, key, count);
    TakeFacts(Kept(h, n), n - 1, Length(h));
    Record(h, n, key, count, Kept(h, n));
  }

  class LocalStateCache {
    var rawTokenCounts: map<string, nat>
    var rawTokenGen: map<string, nat>
    var rawTokenOrder: map<nat, string>
    var rawTokenClock: nat
    ghost var history: History

    ghost predicate Valid()
      reads this
    {
      && rawTokenClock == Length(history)
      && Represents(history, MAX_RAW_TOKEN_COUNT_ENTRIES, rawTokenCounts, rawTokenGen, rawTokenOrder)
    }

    constructor ()
      ensures Valid() && history == Fresh
    {
      rawTokenCounts, rawTokenGen, rawTokenOrder, rawTokenClock := map[], map[], map[], 0;
      history := Fresh;
    }

    method StoreRawTokenCount(key: string, count: nat)
      requires Valid()
      modifies this
      ensures Valid() && history == Then(old(history), key, count)
    {
      ghost var h, n := history, MAX_RAW_TOKEN_COUNT_ENTRIES;
      ghost var counts, gen, order := rawTokenCounts, rawTokenGen, rawTokenOrder;
      if key in rawTokenGen {
        StoreKnown(h, n, key, count, counts, gen, order);
        rawTokenOrder := rawTokenOrder - {rawTokenGen[key]};
      } else if |rawTokenCounts| >= MAX_RAW_TOKEN_COUNT_ENTRIES {
        HasOldest(h, n, counts, gen, order);
        var oldestGen :| oldestGen in rawTokenOrder && IsLeast(rawTokenOrder, oldestGen);
        StoreEvicting(h, n, key, count, counts, gen, order, oldestGen);
        var oldestKey := rawTokenOrder[oldestGen];
        rawTokenOrder := rawTokenOrder - {oldestGen};
        rawTokenGen := rawTokenGen - {oldestKey};
        rawTokenCounts := rawTokenCounts - {oldestKey};
      } else {
        StoreFresh(h, n, key, count, counts, gen, order);
      }
      assert Represents(Then(h, key, count), n,
                        rawTokenCounts[key := count], rawTokenGen[key := rawTokenClock],
                            rawTokenOrder[rawTokenClock := key]);
      var clock := rawTokenClock;
      rawTokenClock := rawTokenClock + 1;
      rawTokenGen := rawTokenGen[key := clock];
      rawTokenOrder := rawTokenOrder[clock := key];
      rawTokenCounts := rawTokenCounts[key := count];
      history := Then(history, key, count);
    }

    /** A lookup sees the last stored count of a retained key, and nothing of any other key. */
    method GetRawTokenCount(key: string) returns (r: Option<nat>)
      requires Valid()
      ensures r == if Retained(history, 10_000, key) then Some(LastCount(history, key)) else None
    {
      ghost var n := MAX_RAW_TOKEN_COUNT_ENTRIES;
      RepresentsFacts(history, n, rawTokenCounts, rawTokenGen, rawTokenOrder);
      KeptIsRetained(history, n, key);
      if key in rawTokenCounts {
        r := Some(rawTokenCounts[key]);
        CountsAreLast(history, n, key);
      } else {
        r := None;
      }
    }

    method Clear()
      modifies this
      ensures Valid() && history == Fresh
    {
      rawTokenCounts, rawTokenGen, rawTokenOrder, rawTokenClock := map[], map[], map[], 0;
      history := Fresh;
    }
  }

  lemma {:induction false} CountsWithout(l: Entries, x: string, k: string, b: nat)
    requires Sorted(l, b) && k != x && k in CountsOf(l)
    ensures k in CountsOf(Without(l, x)) && CountsOf(Without(l, x))[k] == CountsOf(l)[k]
  {
    if l.key != x && l.key != k {
      CountsWithout(l.rest, x, k, l.gen);
    }
  }

  lemma {:induction false} CountsTake(l: Entries, n: nat, k: string)
    requires k in CountsOf(Take(l, n))
    ensures k in CountsOf(l) && CountsOf(Take(l, n))[k] == CountsOf(l)[k]
  {
    if l.key != k {
      CountsTake(l.rest, n - 1, k);
    }
  }

  lemma {:induction false} RecencyCounts(h: History, k: string)
    requires Stored(h, k)
    ensures k in CountsOf(Recency(h)) && CountsOf(Recency(h))[k] == LastCount(h, k)
  {
    if h.key != k {
      RecencyCounts(h.earlier, k);
      RecencyFacts(h.earlier);
      CountsWithout(Recency(h.earlier), h.key, k, Length(h.earlier));
    }
  }

  lemma {:induction false} CountsAreLast(h: History, n: nat, k: string)
    requires k in CountsOf(Kept(h, n)) && Stored(h, k)
    ensures CountsOf(Kept(h, n))[k] == LastCount(h, k)
  {
    CountsTake(Recency(h), n, k);
    RecencyCounts(h, k);
  }
}
