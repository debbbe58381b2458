# Proofs about the code-context server and its proxy

A Dafny model of the parts of the repository in which a fast, stateful or in-place form has to agree with a
simple specification: the bounded token-count cache, the glob matcher behind path exclusion, the proxy's rate
limiter, the merge of reconstructed form declarations, prompt-cache breakpoint injection, verification of proposed
C# callers, ageing of old tool results, the line-filter pipeline, marker expansion, suite nesting and bracket
matching in test sources, and the commit protocol of the proxy's statistics.

`dafny verify dfyconfig.toml` checks the whole project.

| file | models |
|---|---|
| `Prelude.dfy`, `Lines.dfy`, `OrderedUnion.dfy` | lists, texts as lists of lines, appending without repetition |
| `TokenCache.dfy` | `src/cache.rs`, the token-count half of `LocalStateCache` |
| `Glob.dfy`, `ExcludeNames.dfy` | `src/config_impl.rs` |
| `RateLimiter.dfy`, `SlidingAllowance.dfy` | `proxy/src/rate_limiter.rs` |
| `FormsMerge.dfy`, `FormsNormalize.dfy`, `FormsLaws.dfy`, `FormsWitness.dfy` | `src/angular_meta/reactive_forms_normalize.rs` |
| `Breakpoints.dfy`, `SlotPlaces.dfy` | `proxy/src/cache.rs` |
| `CallerArity.dfy`, `CallerVerify.dfy`, `CallerVerdict.dfy`, `CallerConcat.dfy`, `CallerFold.dfy` | `src/cbm/caller_verify_arity.rs`, `src/cbm/caller_verify.rs` |
| `Ageing.dfy`, `AgeingRules.dfy`, `Mentions.dfy` | the sliding window of `proxy/src/transform.rs` |
| `Filters.dfy`, `FilterRules.dfy` | `proxy/src/filters.rs` |
| `Phi.dfy`, `PhiRegistry.dfy` | `src/angular_meta/phi.rs` and the marker tables of the registered layers |
| `Suites.dfy`, `Brackets.dfy` | `src/angular_meta/testing.rs` |
| `StatsCommit.dfy` | the two critical sections of `proxy/src/server.rs` |

Rust's `Vec` appears as an inductive list and `&mut` parameters as values in and out of a method; objects whose
methods update fields (`LocalStateCache`, `RateLimiter`, `ParseMemo`, the shared proxy state) are classes. Loops
of the source are loops here, each proved against a specification function about which the lemmas speak. What such a
function computes is in turn proved from the inputs alone, without the function's own terms.

## Where code and comments differ

The model follows the code. In each case a lemma or a contract says exactly when the comment is right.

- `glob_match` is documented to match characters and to stop at path separators; the code matches bytes, any of
  them. The two agree on a text, for all patterns, exactly when the text has no separator and each of its characters
  is one byte (`DocumentedExactlyOnPlainNames`); `?` on `é` and `*` on `a/b` are inputs on which they differ
  (`WhereTheCommentFails`).
- A pattern with a dot is documented to match anywhere within the file name; a pattern with wildcards is compared with
  the whole name. The two agree for all file names of one-byte characters exactly when the pattern has a character no
  such name has (a separator, say), or no wildcards, or a star with only wildcards before it and a star with only
  question marks after it (`DocumentedTierIff`). `*.spec.ts` on `a.spec.ts.bak` is an input on which they differ
  (`SpecBackup`); `DifferingName` has one for every other pattern.
- The token cache is called LRU, but lookups change nothing: of a cache of n keys, a key that was just looked up
  outlives the next n − 1 new keys exactly when it is also the one stored last (`LookedUpKeySurvivesIff`;
  `LookedUpKeyIsEvicted` is a case in which it does not).
- The rate limiter's comment says buckets untouched for 60 s are removed. Ages up to just under 180 s are retained, and
  no others (`OldBucketsAreRetained`, `RetainedBucketsAreRecent`); after a check the comment is right exactly when every
  other client's bucket of 60 s or more was at least 120 s old and the collector was due (`OnlyYoungHeldIff`).
- Slot two is documented for blocks of more than 500 characters; the code counts bytes. They agree on a block exactly
  when its text does not have more than 500 bytes in at most 500 characters (`LargeInCharacters`), as 300 accented
  letters have (`AccentedBlockIsLarge`).
- Slots one to three of an injection are documented to use the one-hour TTL; the mark of slot three is overwritten by
  the tail's TTL exactly when no later message has a cacheable block, so the comment is right unless that TTL is not an
  hour (`SlotThreeLifetime`; `SharedSlotOfOneMessage` is an input on which it is wrong).
- `fold` is documented to report an identity and an arity only while all targets agree. After a disagreement it adopts
  the next one, and it adopts an arity after a target without one. Which batches are reported as documented is a parity
  condition on their last targets (`FoldAsDocumented`; for different names, `DifferentTargets`), and
  `ThirdTargetIsReported` and `SecondArityIsReported` are the smallest failures.
- `aggregate_resolution` calls a batch verified although a member was rejected, exactly when there are verified and
  rejected members and no others (`VerifiedBatch`, `MixedBatchIsVerified`). A batch with nothing verified is documented
  to stay unverifiable; it does exactly when it is empty or has an unverifiable member (`NothingVerifiedBatch`).
- A declaration whose one parameter is an optional extension receiver is marked flexible although it accepts one
  count (`FlexibleMeansSeveral`).
- A tool result one of whose paths "appears anywhere later" is documented to be kept; later means in a later block or
  another field of its own message, or in a later message. The code keeps it exactly when a path appears in the
  preserved floor, in a field it reads (`KeptIfMentionedInReach`, `LaterMentionRule`). String contents, tool inputs,
  messages before the floor and the rest of its own message are overlooked (`StringContentIsOverlooked`,
  `ToolInputIsOverlooked`, `MentionBeforeFloorIsOverlooked`, `MentionBesideIsOverlooked`).
- The stub of an aged result is documented to contain the original tool's name. In the place for the name, between
  `[aged: ` and ` output`, it has the `tool_use_id`, if there is none the `name`, and otherwise `unknown`; so it names
  the tool exactly when that is the tool's name (`NameInStub`). The result of a call `t1` of `Read` does not have the
  name anywhere (`ReadIsNotNamed`, `ToolNameIsLost`).
- `items_aged` is documented as the number of results aged; it grows by one per call. The two agree exactly when at most
  one position ages (`AgeToolResults`); `TwoAgeInOneCall` has two.

## Model

| member | source | states |
|---|---|---|
| TokenCache.LocalStateCache.constructor | src/cache.rs:57-67 | a new cache represents the empty history |
| TokenCache.LocalStateCache.StoreRawTokenCount | src/cache.rs:142-161 | a store, with promotion or eviction of the oldest generation, takes the three maps and the clock to those of the history with one more store |
| TokenCache.LocalStateCache.GetRawTokenCount | src/cache.rs:164-166 | a lookup finds the last stored count of a key since whose store fewer than 10000 other keys were stored, and nothing otherwise |
| TokenCache.LocalStateCache.Clear | src/cache.rs:170-178 | clearing leads back to the empty history |
| TokenCache.KeptIsRetained | src/cache.rs:142-161 | the keys held are exactly those with fewer than the limit of distinct other keys stored since |
| TokenCache.KeptSize | src/cache.rs:21 | the number of keys held is the smaller of the limit and the number of distinct keys stored |
| TokenCache.MapsAgree | src/cache.rs:142-161 | after any history the maps have one key set, the two ordering maps are mutual inverses and all generations are below the clock |
| TokenCache.StoreKnown | src/cache.rs:144-145 | promoting a known key drops its old generation only and keeps the representation |
| TokenCache.StoreEvicting | src/cache.rs:146-153 | evicting the least generation removes the least recently stored key, so the rest are the most recent ones |
| TokenCache.LookedUpKeySurvivesIff | src/cache.rs:139-166 | a held key outlives the next n − 1 new keys, as an LRU cache promises after a lookup, exactly when it is the one stored last |
| TokenCache.LookedUpKeyIsEvicted | src/cache.rs:139-166 | of two stored keys the first is gone after 9999 new ones, the second is not, even if the first was looked up in between |
| Glob.GlobMatch | src/config_impl.rs:246-274 | the loop that remembers only the last star decides the recursive definition of matching, within text·(pattern+2)+pattern steps |
| Glob.NewStarSubsumesOld | src/config_impl.rs:253-256 | forgetting an earlier star when a new one is reached loses no match |
| Glob.LiteralMatchesItself | src/config_impl.rs:257-259 | a pattern without wildcards matches itself only |
| Glob.DocumentedExactlyOnPlainNames | src/config_impl.rs:238-241 | on a text, the code and the documented rule on characters agree for all patterns exactly when the text has no separator and every character is one byte |
| Glob.WhereTheCommentFails | src/config_impl.rs:238-241 | a question mark misses a character of several bytes, a star crosses a separator |
| Glob.ExcludingIsExact | src/config_impl.rs:185-215 | the listed patterns are exactly the configured ones that match a component or, having a dot, are about the file name |
| Glob.PlainPatternListed | src/config_impl.rs:182-211 | a pattern without wildcards is listed exactly when it is configured and is a whole component, or has a dot and is a stretch of the file name |
| Glob.WildcardPatternListed | src/config_impl.rs:182-211 | a pattern with wildcards is listed exactly when it is configured and matches a whole component, or has a dot and matches the whole file name |
| Glob.ExcludingInOrder | src/config_impl.rs:182-211 | the listed patterns keep the order of configuration, and none is listed more often than configured |
| Glob.MatchingExcludePatterns | src/config_impl.rs:177-221 | the two-tier loop lists, in configuration order, exactly the plain patterns that are a component or have a dot and occur in the file name, and the patterns with wildcards that match a component or have a dot and match the file name; none if there are none |
| ExcludeNames.DocumentedTierIff | src/config_impl.rs:161-167 | a pattern excludes exactly the file names of one-byte characters it appears in, as documented, if and only if it has a character they cannot have, or no wildcards, or both its ends are free |
| ExcludeNames.DifferingName | src/config_impl.rs:161-204 | every other pattern appears in a file name that it does not exclude |
| ExcludeNames.SpecBackup | src/config_impl.rs:161-204 | `*.spec.ts` appears in `a.spec.ts.bak` and does not exclude it |
| ExcludeNames.FreeEndsMatchInside | src/config_impl.rs:200-204 | a pattern with free ends that matches a stretch of a name matches the whole name |
| RateLimiting.RateLimiter.constructor | proxy/src/rate_limiter.rs:49-58 | a new limiter holds no buckets and last collected at its creation |
| RateLimiting.RateLimiter.CheckAt | proxy/src/rate_limiter.rs:69-107 | a check collects, maps the key, refills and spends as the transition function says, and answers whether a token was there |
| RateLimiting.StepAt | proxy/src/rate_limiter.rs:72-107 | a check changes one bucket only, apart from evictions, whatever the key |
| RateLimiting.TokensStayInRange | proxy/src/rate_limiter.rs:96-104 | in every run every bucket stays between zero and the burst |
| RateLimiting.RetainedBucketsAreRecent | proxy/src/rate_limiter.rs:38-78 | in every run with nondecreasing times a retained bucket was touched less than 180 s before the last check |
| RateLimiting.OldBucketsAreRetained | proxy/src/rate_limiter.rs:38-78 | every age from 60 s to just under 180 s is reached by a retained bucket |
| RateLimiting.OnlyYoungHeldIff | proxy/src/rate_limiter.rs:38-78 | after a check no bucket of 60 s is held exactly when each other client's bucket that old was 120 s old and the collector was due |
| RateLimiting.EvictionIsNeutral | proxy/src/rate_limiter.rs:73-78 | when two minutes refill the burst, eviction changes no client's available tokens |
| RateLimiting.WindowBound | proxy/src/rate_limiter.rs:69-107 | between s and t one client is admitted at most burst plus the earnings of t−s times, if its bucket is not evicted inside, or reckoned with a refill that fills a bucket in two minutes |
| RateLimiting.RequestsPerWindow | proxy/src/rate_limiter.rs:69-107 | after any run, at most burst + rate·(t−s) of a client's requests between s and t are admitted, for every rate not below the configured one that fills a bucket in two minutes, and for the configured one if its bucket is not evicted inside |
| RateLimiting.PerSecondIsSteady | proxy/src/rate_limiter.rs:96-97 | refilling at a fixed rate satisfies the laws the other results assume, and earns rate times seconds |
| RateLimiting.InvisibleIfRefilled | proxy/src/rate_limiter.rs:73-99 | if two minutes refill the burst, every answer in every run is that of a limiter with this client alone and no collection |
| RateLimiting.InvisibleOnlyIfRefilled | proxy/src/rate_limiter.rs:73-99 | otherwise some run of other clients changes an answer |
| RateLimiting.InvisibleIffRefilled | proxy/src/rate_limiter.rs:39-42 | collection is invisible exactly when burst is below one or at most 120 times the rate |
| SlidingAllowance.AnswersExactly | proxy/src/rate_limiter.rs:69-107 | in every run, a call is admitted exactly when every window that ends with it holds no more admitted calls than the burst and the earnings of the window, among the calls of its own key that no collection has made the limiter forget |
| SlidingAllowance.OwnCallsDecide | proxy/src/rate_limiter.rs:69-107 | if two minutes refill the burst, or the client is never idle for two minutes, these are all calls of its own key, so that calls under other keys change nothing |
| SlidingAllowance.TogetherIffOneBucket | proxy/src/rate_limiter.rs:81-88 | two calls share a bucket exactly when their keys are equal, or each is empty, has white space, or is `invalid` |
| SlidingAllowance.WellFormedKeysAreTheirOwn | proxy/src/rate_limiter.rs:81-88 | a key that is not empty and has no white space is its own bucket key; every other key goes to `invalid` |
| SlidingAllowance.TokensAreRoom | proxy/src/rate_limiter.rs:90-104 | the bucket of a client alone holds n tokens exactly when every window ending now leaves room for n more calls |
| SlidingAllowance.KeptWithoutGaps | proxy/src/rate_limiter.rs:73-78 | the bucket of a client that is never idle for two minutes is never collected |
| SlidingAllowance.FirstCallOfAClient | proxy/src/rate_limiter.rs:90-104 | a client's first call is admitted exactly when the burst is at least one, however many clients came before |
| SlidingAllowance.EarlierInstantEarnsNothing | proxy/src/rate_limiter.rs:69-107 | a call with an instant before the last collection and refill collects nothing, earns nothing, and spends a token if there is one |
| OrderedUnion.MergeUnique | src/angular_meta/reactive_forms_normalize.rs:68-74 | the loop computes the ordered union |
| OrderedUnion.UnionAssociative | src/angular_meta/reactive_forms_normalize.rs:68-74 | merging lists without repetition is associative |
| OrderedUnion.UnionKeepsDistinct | src/angular_meta/reactive_forms_normalize.rs:68-74 | merging onto a duplicate-free list stays duplicate-free |
| OrderedUnion.UnionInOrder | src/angular_meta/reactive_forms_normalize.rs:68-74 | a union begins with its first list, and the values it adds come in the order of their first appearance in the second |
| FormsMerge.MergeFieldsLoop | src/angular_meta/reactive_forms_normalize.rs:36-47 | the loop computes the recursive merge of field trees |
| FormsMerge.MergeKeys | src/angular_meta/reactive_forms_normalize.rs:36-47 | the merged names and kinds are the ordered union of both sides, in order of first appearance |
| FormsMerge.MergeKeepsClean | src/angular_meta/reactive_forms_normalize.rs:36-57 | merging hereditarily duplicate-free trees leaves a hereditarily duplicate-free tree |
| FormsMerge.MergeSelf | src/angular_meta/reactive_forms_normalize.rs:36-57 | merging such a tree with itself changes nothing |
| FormsLaws.MergeAssociative | src/angular_meta/reactive_forms_normalize.rs:36-57 | merging is associative when the middle tree merged with itself is unchanged and each field of the last is hereditarily duplicate-free |
| FormsLaws.CleanTreesAssociate | src/angular_meta/reactive_forms_normalize.rs:36-57 | in particular, when the middle tree is hereditarily duplicate-free |
| FormsWitness.AssociativeIffStable | src/angular_meta/reactive_forms_normalize.rs:36-57 | merging is associative around a tree, for all others, exactly when merging that tree with itself changes nothing |
| FormsWitness.Witness | src/angular_meta/reactive_forms_normalize.rs:36-57 | for every tree it changes, trees on which associativity fails |
| FormsWitness.AssociativityNeedsCleanMiddle | src/angular_meta/reactive_forms_normalize.rs:36-57 | a repeated name in the middle tree breaks the law on a concrete triple |
| FormsMerge.MergeBelow | src/angular_meta/reactive_forms_normalize.rs:49-57 | at every path, the subtree of a merge is the merge of the subtrees |
| FormsMerge.MergeIsPathwiseUnion | src/angular_meta/reactive_forms_normalize.rs:36-57 | a merge holds, at every path, the ordered union of both sides' declarations and validators |
| FormsMerge.CleanTreesAreTheirPaths | src/angular_meta/reactive_forms_normalize.rs:36-57 | duplicate-free trees that hold the same at every path are equal |
| FormsMerge.MergeIsTheOnlyPathwiseUnion | src/angular_meta/reactive_forms_normalize.rs:36-57 | the merge is the only duplicate-free tree that is the union of the two sides at every path |
| FormsMerge.MergeEvidence | src/angular_meta/reactive_forms_normalize.rs:36-57 | the facts of path and validator in a merge are those of either side, for all trees |
| FormsMerge.NormalizeArtifacts | src/angular_meta/reactive_forms_normalize.rs:5-24 | the loop computes the normal form |
| FormsMerge.NormalizeKeys | src/angular_meta/reactive_forms_normalize.rs:5-24 | no two artifacts of a normal form are compatible, and they come in order of first appearance |
| FormsMerge.NormalizeIdempotent | src/angular_meta/reactive_forms_normalize.rs:5-24 | normalising twice changes nothing more |
| FormsMerge.NormalizeKeepsEvidence | src/angular_meta/reactive_forms_normalize.rs:5-57 | normalising neither loses nor invents a fact of path and validator |
| FormsNormalize.NormalizeMergesInOrder | src/angular_meta/reactive_forms_normalize.rs:5-34 | for each form name, and each name and kind of a standalone field, the normal form has one artifact, whose tree is those of all such artifacts merged in the order in which they came; none where there was none |
| FormsNormalize.NormalizedHolds | src/angular_meta/reactive_forms_normalize.rs:5-57 | at every path it holds the ordered union of what these artifacts declare there, and each declaration the ordered union of its validators, when all trees after the first are duplicate-free |
| FormsNormalize.NormalizedNames | src/angular_meta/reactive_forms_normalize.rs:5-47 | its names and kinds at the top are the ordered union of theirs, for all trees |
| FormsNormalize.TwoForms | src/angular_meta/reactive_forms_normalize.rs:26-46 | two forms of one name become one, with the fields of the first merged with those of the second; one list after the other if they share none |
| Breakpoints.HasAnyBreakpoints | proxy/src/cache.rs:294-327 | the detector finds a mark exactly when some tool, system block or message block has one |
| Breakpoints.StripExistingBreakpoints | proxy/src/cache.rs:241-288 | the stripper erases all marks and counts them |
| Breakpoints.DetectorAndStripperAgree | proxy/src/cache.rs:99-112 | a mark is detected exactly when stripping would count one and exactly when it would change the body |
| Breakpoints.FilterSmallBlocks | proxy/src/cache.rs:150-163 | removing marks from small system blocks does nothing on stripped blocks |
| Breakpoints.MarkLastPointwise | proxy/src/cache.rs:139-170 | marking the last suitable block changes that block's mark and no other position |
| Breakpoints.LargeInCharacters | proxy/src/cache.rs:139-146 | for a block with a text, counting bytes agrees with the documented characters exactly when it does not have more than 500 bytes in at most 500 characters |
| Breakpoints.AccentedBlockIsLarge | proxy/src/cache.rs:139-146 | 300 accented letters are taken as more than 500 |
| Breakpoints.MarkTailBlock | proxy/src/cache.rs:211-233 | the reverse search marks the last block of text, tool result or image of the last message that has one (the places are those of `SlotPlaces.MessageMarksStand`) |
| Breakpoints.PlaceSlots | proxy/src/cache.rs:114-237 | the four slots place the marks, count the slots and update the counters; the early returns are never taken (where the marks stand and what is counted: `SlotPlaces`) |
| Breakpoints.InjectBreakpoints | proxy/src/cache.rs:89-237 | the whole injection, in every case: the body, the slot count and the counters, in which the stripped and small-block counters never move |
| SlotPlaces.MessageMarksStand | proxy/src/cache.rs:177-233 | after an injection, block j of message i carries the tail mark exactly when it is a text, tool result or image and no later block of any message is; else slot three's exactly when it is the last such block of the first message; else none; and nothing but marks changes |
| SlotPlaces.ToolMarkStands | proxy/src/cache.rs:114-122 | the last tool is marked and no other |
| SlotPlaces.SystemMarkStands | proxy/src/cache.rs:130-170 | of the system blocks, the last with more than 500 bytes of text is marked and no other |
| SlotPlaces.CountersCountMarks | proxy/src/cache.rs:114-237 | the slot counters grow by the marks placed on tools and system blocks, by one if the first message has a block for it and by one if some message has; their growth is the number returned, and no other counter but that of injected requests moves |
| SlotPlaces.OtherBodiesStay | proxy/src/cache.rs:90-103 | a body that is no object or has a mark stays as it is, with no slot; only the counter of kept marks moves, for objects |
| Breakpoints.ErasingUndoesInjection | proxy/src/cache.rs:89-237 | erasing marks after an injection gives back the body |
| Breakpoints.MarksPerSlot | proxy/src/cache.rs:102-237 | marked blocks number the slots, one fewer exactly when slots three and four fall on one block, and slots are at most four |
| Breakpoints.FirstMessageMark | proxy/src/cache.rs:177-233 | the first message keeps slot three's plain mark exactly when the slots are not shared; otherwise it carries the tail's TTL |
| Breakpoints.SlotThreeLifetime | proxy/src/cache.rs:10-16 | slot three's mark lives for the documented hour exactly when it is not the tail's too or the tail's TTL is an hour |
| Breakpoints.SharedSlotOfOneMessage | proxy/src/cache.rs:177-233 | a request of one text message, with the default tail TTL, is one where it does not |
| Breakpoints.InjectingTwice | proxy/src/cache.rs:99-103 | a second injection never changes the body and places nothing |
| CallerArity.OverlapIffCommonCount | src/cbm/caller_verify_arity.rs:221-229 | two shapes overlap exactly when some argument count is accepted by both |
| CallerArity.InflexibleIsExact | src/cbm/caller_verify_arity.rs:42-47 | a shape derived from a declaration and not flexible accepts its exact count and nothing else |
| CallerArity.FlexibleMeansSeveral | src/cbm/caller_verify_arity.rs:164-176 | a derived shape is flexible exactly when it accepts several counts or its one parameter is an optional receiver |
| CallerArity.ShapeIsBindingIff | src/cbm/caller_verify_arity.rs:146-177 | a derived shape accepts exactly the argument counts that bind to the parameters from left to right, if and only if optional parameters come last and an optional receiver is followed by optional ones only |
| CallerArity.ParseMemo.Tree | src/cbm/caller_verify_arity.rs:92-99 | a key is parsed once; later calls return the first result, failures included |
| CallerVerify.SortedCountsFacts | src/cbm/caller_verify.rs:374-376 | evidence counts are ascending, without repetition, and exactly the observed ones |
| CallerVerify.AscendingIsUnique | src/cbm/caller_verify.rs:364-376 | so the evidence is determined by the set of observed counts |
| CallerVerify.Classify | src/cbm/caller_verify.rs:313-327 | the inner loop separates rejected, verified and ambiguous calls, the last two exclusive for a whole run |
| CallerVerify.SummarizeLoop | src/cbm/caller_verify.rs:306-361 | parsing through the memo, the loop's counters, file sets and evidence are those of parsing afresh, and the resolution is ambiguous, verified or rejected exactly as the counters say |
| CallerVerify.SummarizeAmbiguousLoop | src/cbm/caller_verify.rs:242-279 | with several declarations left, every call counts as ambiguous and every caller with a call is evidence |
| CallerVerify.VerifyCsharpCallers | src/cbm/caller_verify.rs:216-361 | with any memo consistent with one text per key, the summary is that of parsing every source afresh, at every exit, and for a selected target the resolution is as the counters say |
| CallerVerdict.VerdictOfTarget | src/cbm/caller_verify.rs:349-359 | for a selected target: ambiguous iff nothing is unparsable and something ambiguous; verified iff neither and something is verified; rejected iff none of these and something is rejected; unverifiable iff something is unparsable or there is no call |
| CallerVerdict.VerdictWithoutTarget | src/cbm/caller_verify.rs:226-279 | without one, nothing is verified or rejected, and the verdict is ambiguous iff there were several declarations and every candidate parsed |
| CallerVerdict.PlanIsExact | src/cbm/caller_verify.rs:226-286 | no target iff no declaration has the selector's number of parameters; several iff it gives none and there are more; otherwise the first, whose calls can be verified iff it is the only one chosen, takes a fixed number, and no other declaration takes that number |
| CallerVerdict.UniqueCallsAreVerified | src/cbm/caller_verify.rs:281-327 | for such a target all calls with exactly that number of arguments are verified, all others rejected, none is ambiguous |
| CallerVerdict.CallsOfTarget | src/cbm/caller_verify.rs:306-327 | in general, of the calls in parsable candidates, those the target does not accept are rejected, and the others all verified or all ambiguous |
| CallerVerdict.CallsWithoutArity | src/cbm/caller_verify.rs:242-279 | with several declarations every call is ambiguous, and every candidate with one is evidence |
| CallerVerdict.EvidenceOfTarget | src/cbm/caller_verify.rs:328-348 | the evidence lists in order the candidates with an accepted call, by proposed and read file, with their accepted numbers ascending; the file counts are those of the different callers listed |
| CallerVerdict.DeclaredByName | src/cbm/caller_verify.rs:219-227 | declarations are looked up by the name after the last dot, in the type named before that dot if there is one |
| CallerVerify.UniqueTarget | src/cbm/caller_verify.rs:281-286 | a target that verifies calls accepts one count, accepted by exactly one listed declaration |
| CallerVerify.VerifiedMeansUniqueOverload | src/cbm/caller_verify.rs:281-346 | if anything is verified, all verified evidence is the single reported arity, accepted by exactly one same-named declaration |
| CallerVerify.VerifyBalances | src/cbm/caller_verify.rs:216-361 | raw = verified + rejected + ambiguous at every exit |
| CallerVerify.FoldingBalances | src/cbm/caller_verify.rs:152-177 | and through every fold |
| CallerVerdict.FoldAddsUp | src/cbm/caller_verify.rs:152-177 | a fold adds up every counter over the batch, lists the evidence in the order of the targets and derives no resolution |
| CallerConcat.VerifyConcatenated | src/cbm/caller_verify.rs:216-361 | for a selected target, verifying concatenated candidate lists adds all counters, appends the evidence and counts the united file sets |
| CallerConcat.ResolveConcatenated | src/cbm/caller_verify.rs:349-359 | its resolution is the aggregate of the two exactly when both parts saw a call or an unparsable file, or neither did, or some file was unparsable |
| CallerVerify.CountersOfConcat | src/cbm/caller_verify.rs:306-346 | what two runs over candidates record, one after the other, adds up |
| CallerVerify.FilesOfConcat | src/cbm/caller_verify.rs:303-348 | and their duplicate-free file sets are united |
| CallerVerify.AggregateIsHighest | src/cbm/caller_verify.rs:187-201 | an aggregate is a member of the batch and no member outranks it |
| CallerVerify.VerifiedBatch | src/cbm/caller_verify.rs:179-201 | the documented meaning of a verified aggregate fails exactly for batches of verified and rejected members |
| CallerVerify.MixedBatchIsVerified | src/cbm/caller_verify.rs:179-201 | one verified and one rejected target aggregate to verified |
| CallerVerify.NothingVerifiedBatch | src/cbm/caller_verify.rs:184-201 | a batch with nothing verified stays unverifiable exactly when it is empty or has an unverifiable member |
| CallerFold.FoldAsDocumented | src/cbm/caller_verify.rs:144-163 | a batch reports identity and arity as documented exactly when all targets agree on each or the parity of changes at its end leaves none held |
| CallerFold.FoldHolds | src/cbm/caller_verify.rs:152-163 | what a fold holds: the latest value or none, by that parity |
| CallerFold.DifferentTargets | src/cbm/caller_verify.rs:144-159 | a batch of different names is reported as documented exactly when it has at most one target or an even number |
| CallerFold.ThirdTargetIsReported | src/cbm/caller_verify.rs:152-159 | after a disagreement the next target's identity is adopted |
| CallerFold.SecondArityIsReported | src/cbm/caller_verify.rs:160-163 | a target without an arity followed by one with: the batch reports the arity of the second |
| Ageing.SlashMakesPath | proxy/src/transform.rs:549-558 | trimming keeps the slash, so every word with one is a path |
| AgeingRules.PathsOfText | proxy/src/transform.rs:546-560 | the paths of a text are its pieces between white space that have a slash or a backslash, trimmed, in order |
| AgeingRules.TrimIsExact | proxy/src/transform.rs:550-552 | trimming takes quotes, backticks, commas and closing brackets off both ends, all of them and nothing else |
| Ageing.ExtractPathStringsFromText | proxy/src/transform.rs:546-560 | the word loop appends the paths of a text |
| Ageing.ExtractPathStrings | proxy/src/transform.rs:520-543 | the block loops append the paths of a message: block texts, contents, then its own text |
| Ageing.CollectRecentPaths | proxy/src/transform.rs:358-367 | the paths compared against are those of the last messages of the floor |
| Ageing.AgeBlocks | proxy/src/transform.rs:411-489 | the block loop stubs, counts and measures the ageing blocks of one message |
| Ageing.AgeToolResults | proxy/src/transform.rs:336-512 | a whole pass: the new messages, the returned count and the counters, untouched when nothing aged; the per-request counter grows by the number of aged positions exactly when there is at most one |
| Ageing.TwoAgeInOneCall | proxy/src/transform.rs:484-506 | a message of two results without paths, as a conversation of its own, ages both |
| Ageing.PassIsPointwise | proxy/src/transform.rs:371-493 | lengths, roles and other fields stay; a block is stubbed exactly when it ages by the documented conditions, every other block is unchanged |
| Ageing.CountIsAgedPositions | proxy/src/transform.rs:484-511 | the returned count is the number of aged positions |
| AgeingRules.AgedExactly | proxy/src/transform.rs:371-462 | a block ages exactly when it is a tool result with a text, in a message neither the assistant's nor the system's, before the last floor messages and more than the age limit from the end, and no path of the text is part of one mentioned in the floor |
| AgeingRules.RemovedBytesBalance | proxy/src/transform.rs:464-491 | the bytes recorded are those of the texts before the pass less those after it, plus what stubs longer than their texts added |
| AgeingRules.StubNumbers | proxy/src/transform.rs:466-475 | the stub says, in decimal, a quarter of the bytes of the text and one as the tokens, and the number of the message as the turn; it replaces the content and nothing else |
| AgeingRules.DecimalReads | proxy/src/transform.rs:470-475 | reading the decimal digits of a number gives the number, and there are no leading zeros |
| AgeingRules.ByteLenIsEncoded | proxy/src/transform.rs:465-469 | lengths are those of the UTF-8 encoding |
| AgeingRules.TextOfParts | proxy/src/transform.rs:430-438 | the text of a result is its string, or the texts of its parts in order, each on lines of its own |
| Ageing.LargerWindowAgesLess | proxy/src/transform.rs:358-462 | the aged positions only shrink as the age limit or the floor grows |
| Ageing.SecondPass | proxy/src/transform.rs:446-476 | exactly which positions a second pass ages, for all messages |
| Ageing.SecondPassAgesTheSame | proxy/src/transform.rs:446-476 | a second pass ages the same positions when tool names have no slash and tool results are not recognised by content |
| Mentions.KeptIfMentionedInReach | proxy/src/transform.rs:446-467 | a candidate is kept exactly when some string the extraction reads, in a message of the floor, contains one of its paths; and then it is mentioned later |
| Mentions.ExtractionFindsMentions | proxy/src/transform.rs:546-560 | the extracted words of a text contain a path exactly when the text does |
| Mentions.LaterMentionRule | proxy/src/transform.rs:331-332 | the documented rule holds at a candidate exactly when no later string, of the rest of its message or of a later one, contains a path of it, or one that is read in the floor does |
| Mentions.StringContentIsOverlooked | proxy/src/transform.rs:520-543 | a later message with string content does not protect a result |
| Mentions.ToolInputIsOverlooked | proxy/src/transform.rs:520-543 | nor does the input of a later tool call |
| Mentions.MentionBeforeFloorIsOverlooked | proxy/src/transform.rs:358-367 | nor does a text before the floor |
| Mentions.MentionBesideIsOverlooked | proxy/src/transform.rs:358-367 | nor does a text beside it in its own message |
| Ageing.NameInStub | proxy/src/transform.rs:423-475 | the stub names a tool, in the place for the name, exactly when the block's identifier, or without one its name, or without either `unknown`, is that name |
| Ageing.ToolNameIsLost | proxy/src/transform.rs:423-475 | a tool whose name has a capital letter that the name in the stub lacks is nowhere in the stub |
| Ageing.ReadIsNotNamed | proxy/src/transform.rs:423-475 | such as `Read`, called as `t1` |
| Phi.ExpandPhiInLine | src/angular_meta/phi.rs:51-60 | the loop with its containment test is the chain of whole-line replacements |
| Phi.ReplaceAfterPass | src/angular_meta/phi.rs:54-57 | one more replacement after a simultaneous pass is the pass with one more marker |
| Phi.ChainIsOnePass | src/angular_meta/phi.rs:51-60 | the chain of replacements equals one left-to-right pass |
| Phi.ChainIdempotent | src/angular_meta/phi.rs:51-60 | expanding an expanded line changes nothing |
| Phi.RegistrationOrderIrrelevant | src/angular_meta/phi.rs:74-84 | vocabularies with the same markers expand alike, whatever their order |
| Phi.MarkerIsExpanded | src/angular_meta/phi.rs:51-60 | the first marker of a line becomes its expansion and a blank, the text before it stays, and the text after it is expanded alike; a line without the sign stays |
| Phi.ExpandAll | src/angular_meta/phi.rs:76-84 | chaining the layers is one pass over all their markers |
| PhiRegistry.LayersChecked | src/angular_meta/phi.rs:76-84 | all markers of the registered layers have the shape the theorem needs and are pairwise different |
| PhiRegistry.RegistryExpandsInOnePass | src/angular_meta/phi.rs:76-84 | the registered layers, chained, equal one pass over their markers in any registration order, and the result is stable |
| PhiRegistry.ExpandRegistered | src/angular_meta/phi.rs:76-84 | the loop over the registered expanders computes that pass |
| Suites.SkipQuoted | src/angular_meta/testing.rs:546-560 | the jumping scan stops at the byte at which a byte-by-byte reader leaves the literal, or nowhere |
| Suites.FindMatching | src/angular_meta/testing.rs:521-544 | the least unquoted position at which the depth is zero again, or none; the depth never underflows |
| Brackets.WrittenBracketIsFound | src/angular_meta/testing.rs:521-564 | between two brackets, any nesting of brackets, literals in any of the three quotes with their escapes, and other characters is passed over, so the only answer to a search from the first bracket is the second |
| Suites.DescribeHierarchy | src/angular_meta/testing.rs:309-333 | for calls in any order, a path names the suites whose bodies end after every start since their own |
| Suites.SortedCallsNest | src/angular_meta/testing.rs:309-333 | for calls sorted by start, a path names all earlier calls whose bodies end after the call's start, then the call |
| Suites.EnclosingInOrder | src/angular_meta/testing.rs:312-330 | a call encloses a start exactly when its body has an end and the start lies before it; enclosing calls keep their order |
| Suites.PathOfCall | src/angular_meta/testing.rs:312-331 | one path a call: its own name after those of the earlier calls that enclose its start |
| Suites.PathGrowsInward | src/angular_meta/testing.rs:314-326 | a path goes from the outermost suite inward and ends in the call's own name |
| Suites.FoundCallsNest | src/angular_meta/testing.rs:233-333 | which holds of all calls that start at increasing positions |
| Suites.CollectLiteralCalls | src/angular_meta/testing.rs:233-253 | the calls with a literal name at the reported positions, in order |
| Suites.CallAtPosition | src/angular_meta/testing.rs:238-252 | each position with a literal name counts as one call there, in order, and no other position does |
| Suites.Suites | src/angular_meta/testing.rs:153-165 | from source to suite paths: each reported call with a literal name, with all the earlier ones whose bodies end after its start |
| Suites.CallPositions | src/angular_meta/testing.rs:255-271 | the reported positions ascend and are genuine calls, and all of them are reported when the needle's last byte is unique in it |
| Suites.ReportedMeans | src/angular_meta/testing.rs:259-266 | a reported occurrence is not in text, and the character before it is no ASCII letter or digit, no underscore and no dot |
| Lines.SplitUndoesJoin | proxy/src/filters.rs:101-104 | splitting joined lines gives them back, less a blank last one, if none ends in a carriage return |
| FilterRules.JoinUndoesSplit | proxy/src/filters.rs:101-104 | joining the lines of a text gives it back, less a line break at its end, if it has no carriage return |
| FilterRules.ReturnIsDropped | proxy/src/filters.rs:101-104 | of a line before a line break one carriage return at the end is dropped, and nothing else |
| Lines.SplitJoined | proxy/src/filters.rs:101-104 | a line before a break loses one carriage return at its end, and a last line without a break keeps its own |
| Lines.JoinAddsNoLines | proxy/src/filters.rs:101-104 | splitting joined lines never gives more of them, for all lines |
| Filters.FillBuckets | proxy/src/filters.rs:173-186 | the map and order loop holds the first lines of each group, and the keys in order of first appearance |
| Filters.ApplyGroupBy | proxy/src/filters.rs:166-212 | grouping with a map equals the simple specification: first keys, first lines of each, one marker if keys were omitted |
| Filters.GroupingConserves | proxy/src/filters.rs:166-212 | within its limits grouping keeps every keyed line as often as it came and drops the others |
| Filters.GroupingIsBounded | proxy/src/filters.rs:192-209 | at most groups times lines per group, plus one marker exactly when keys were omitted |
| FilterRules.GroupingKeepsTheFirst | proxy/src/filters.rs:166-212 | beyond its limits grouping keeps, of the first keys to appear and no others, the first lines in their order, key after key, and puts the marker with the number of omitted keys last |
| Filters.MatchOutput | proxy/src/filters.rs:47-63 | the first rule that matches and is not suppressed supplies the message |
| FilterRules.FirstRuleCollapses | proxy/src/filters.rs:47-63 | the message is that of the rule that matches and is not suppressed, before which no rule does |
| Filters.SelectLines | proxy/src/filters.rs:66-91 | keep rules alone decide when there are any, strip rules otherwise |
| FilterRules.LineIsSelected | proxy/src/filters.rs:66-91 | a line stays in its place exactly when it matches some keep rule or, without keep rules, no strip rule |
| FilterRules.LastRuleComesLast | proxy/src/filters.rs:35-43 | replacement rules apply line by line in their order, after escape sequences have gone |
| Filters.ApplyCaps | proxy/src/filters.rs:100-127 | the caps, and a truncation flag that is set exactly when lines were lost |
| Filters.CapsBoundLines | proxy/src/filters.rs:100-127 | the capped text has at most as many lines as each cap says, and is unchanged if it lost none |
| Filters.CapsKeepConsecutiveLines | proxy/src/filters.rs:100-127 | what the caps keep is a consecutive stretch of the lines |
| FilterRules.HeadAndTail | proxy/src/filters.rs:101-114 | a head keeps the first n lines, a tail the last n, and either leaves a text with no more lines alone |
| FilterRules.FallsBackIfBlank | proxy/src/filters.rs:129-133 | the fallback replaces exactly the texts of white space only |
| Filters.ApplyFilter | proxy/src/filters.rs:27-156 | the whole pipeline: content, flags and line counts, within all caps unless it collapsed or fell back |
| StatsCommit.ProxyState.CommitRequest | proxy/src/server.rs:388-394 | a commit adds each of the request's counters to the shared one of the same name and leaves the per-request counters zero |
| StatsCommit.ProxyState.CommitTokens | proxy/src/server.rs:505-511 | a token commit adds the tokens read and those created to their counters and nothing else |
| StatsCommit.MergeTransform | proxy/src/transform.rs:95-105 | merging adds every counter but the two per-request ones |
| StatsCommit.MergeCache | proxy/src/cache.rs:67-78 | merging adds every counter |
| StatsCommit.NoCommitIsLost | proxy/src/server.rs:372-394 | in every interleaving each shared counter is the sum of what the requests committed |
| StatsCommit.OrderDoesNotMatter | proxy/src/server.rs:387-394 | any two interleavings of the same requests lead to the same counters |
| StatsCommit.NothingIsEverStripped | proxy/src/cache.rs:99-112 | in every run the shared counters of stripped marks and filtered blocks stay zero |
| StatsCommit.TailCoversMessages | proxy/src/cache.rs:177-233 | in every run first-message slots never outnumber tail slots |
| StatsCommit.SlotsPerInjection | proxy/src/cache.rs:114-237 | in every run the slots are at least the injected requests and at most four times as many |

## Left out

- `u64` and `usize` overflow of clocks and counters: naturals here; the clock of the token cache would need 2^64 stores.
- `f64` rounding in the rate limiter: tokens and times are reals.
- Sampling the clock before the limiter's lock: the times of a run are those at which the lock is taken, nondecreasing where a lemma needs it; `duration_since` of an earlier instant is zero, as in the code.
- The other registries of `LocalStateCache` (file hashes and baselines), which `clear` also empties.
- Splitting a path into components and a file name: parameters, as the standard library reports them.
- Updating vectors in place: vectors are lists and `&mut` parameters are returned, so aliasing is not captured.
- Request bodies that are not objects inside (an entry of a list that is no object), and the keys that indexing a missing field of a JSON value creates.
- Tree-sitter parsing, declarations and invocations of a tree: functions of the source text; only the arithmetic on the parameter lists is modelled.
- CallerVerify.SummarizeLoop: file sets are lists counted without repetition.
- CallerConcat.VerifyConcatenated: the case of a selected target; an ambiguous selection resolves by the unparsable files alone.
- FormsNormalize.NormalizedHolds: for trees after the first that repeat no declaration; `NormalizeMergesInOrder` has no such condition.
- SlidingAllowance.OwnCallsDecide: for refills that fill a bucket in two minutes, or clients never idle for two minutes; `AnswersExactly` has no such condition.
- FilterRules.JoinUndoesSplit: for texts without carriage returns, which splitting drops before line breaks.
- The keys of JSON objects: a mention is one in a string value of a message.
- Recognising a tool result is a predicate on blocks; the content of other platforms' messages is not modelled.
- Ageing.SecondPassAgesTheSame: needs tool names without slashes; `SecondPass` has no such condition.
- `ΦMAP` and `ΦBUNDLE` (`src/angular_meta/markers.rs`), which have no colon and for which a single pass is not enough.
- Regular expressions and the omission label in filters: predicates and functions on lines; token estimates, the reduction percentage and the JSON guard.
- Filters.CapsKeepConsecutiveLines: for lines that end in no carriage return, since joining and splitting again drops one.
- Suites.FindMatching: the opening bracket is not a quote character, as at all its call sites; the text is a sequence of bytes.
- Lexical regions, literal arguments and callback bodies of test calls: parameters; the helpers they use are not part of this model.
- Per-program filter savings, which the commit does not merge, and the configuration read before a request.
- HTTP, sockets, logging, databases, secret scrubbing, tokenisers.
