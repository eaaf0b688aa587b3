# Verified models of provider-oci

This project models the parts of the OCI provider for Crossplane where order, sharing or repetition make the
result hard to see from the code, and proves what they keep and compute. `dafny verify dfyconfig.toml` checks it
all. Source lines below are relative to the repository root.

**The provider-meta cache** (`internal/clients/oci.go`). Any number of goroutines call `getOrCreate`; they hold the
mutex for short sections, drop it while `create` runs or while they wait for someone else's `create`, and then try
again. `cache_state.dfy` gives the guarded fields as a value and each critical section as a function on it.
`cache_protocol.dfy` is the transition system: the shared value, every initialisation call ever made, and one program
counter per goroutine; a run is any interleaving of its steps. `cache_invariants.dfy` holds the inductive invariant,
and the files after it the results about all runs: coherence with the configuration hash, single flight, freedom from
deadlock, bounds on retries and on the length of runs (`cache_progress.dfy`), isolation of failures and absence of
redundant work (`cache_safety.dfy`), conservation of the counters (`cache_counters.dfy`), and refinement of an atomic
LRU cache (`cache_lru.dfy`). `provider_meta_cache.dfy` is the cache as an object whose maps and ring list
(`recency_list.dfy`) are updated in place; each section is proved to do to the object what its function says.
`cache_simulation.dfy` joins the two: every section and lock-free stretch that runs on the object is the step of a
run, so the results about runs hold of the object. `cache_bounds.dfy` says when the cache evicts, `cache_events.dfy`
what each counter counts. `provider_closure.dfy` is the closure that configures the embedded provider, in runs of the
cache; `configuration_key.dfy` adds what the key is computed from and states the end-to-end property.

The functions the results are about follow the code branch by branch: `CacheState.NewCache`
(internal/clients/oci.go:242-257), `CacheState.LookupSection` (:261-302), `CacheState.CommitSection` (:313-332),
`CacheState.Store` (:314-328), `CacheState.EvictOverflow` (:347-357), `CacheState.InitializeProviderMeta` (:337-345)
and `CacheProtocol.Step`, whose cases are one mutex section or one lock-free stretch of :259-335 each.

**Kind names** (`config/groups.go`). `text.dfy` has splitting, letter case and title case; `kind_shortening.dfy` the
search for the best duplicated window and the shortening loop on an array; `kind_shortening_laws.dfy` what any number
of cuts keeps; `kind_names.dfy` the way from a resource name to a kind and back.

**Schemas on the heap** (`config/generation_schema.go`, `config/server_side_apply.go`). `schema_heap.dfy` has the
nodes, the *shape* of an acyclic structure (which nodes a pointer unfolds to) and the *tree* it reads as.
`generation_schema.dfy` is the deep clone, `generation_apply.dfy` the loop that installs clones in live resources;
`server_side_apply.dfy` is the walk that configures merge strategies.

**The generator** (`cmd/generator/main.go`). `template_rewrite.dfy` counts and replaces substrings;
`controller_template.dfy` applies that to the controller template; `runtime_manifest.dfy` (with
`sorted_strings.dfy`) collects, compares and lists the resources of each service; `api_package.dfy` splits API groups.

Five claims hold only under a condition, which is part of the statement, and each has a result about the other side:
group and kind spell the whole name exactly when the group spells the dropped tokens (`GroupAndKindSpellTheName`);
kinds of words are equal exactly when the shortening leaves equal tokens (`SameKindMeansSameTokensLeft`), so names of
words that the guard of the shortening leaves alone get distinct kinds (`DistinctNamesGetDistinctKinds`), and any
other name whose kind starts with a letter, and fits or is made of words, shares its kind with one of those
(`NameOfTheKind`; a number next to a word and a doubled long word are instances, `NumbersCollide` and `NamesCollide`);
the shortening may end above the limit, but only with no eligible window left (`ShortenFitsOrIsStuck`), and does when
the first token is too long (`OverlongFirstTokenStays`); dotted paths are unambiguous for non-empty names without dots
(`PathsAreUnambiguous`), while dots and empty names make paths coincide (`DottedNamesCollide`, `EmptyNamesCollide`);
the order in which live resources get their schemas makes no difference when none of them is part of a generated
resource (`SeparateSourcesAreCloned`), and decides what they get when one is (`OrderMatters`).

## Model

| member | source | states |
|---|---|---|
| `CacheState.StoreEffect` | internal/clients/oci.go:314-328 | a successful commit puts its entry in front of the old order cut to the bound; at most one uid loses its entry, the least recently used one and never the committed one; the evictions counter and the entries gauge follow |
| `CacheState.LookupKeepsWellFormed` | internal/clients/oci.go:261-302 | a lookup keeps the recency list naming each cached uid once and changes no entry |
| `CacheInvariants.InvHolds` | internal/clients/oci.go:259-357 | in every state of every run: the recency list names exactly the cached uids and fits the bound, each open call occupies its uid's slot and belongs to the one caller running or committing it, and entries and results are coherent |
| `CacheInvariants.CommitEffect` | internal/clients/oci.go:313-332 | a commit frees exactly its slot, leaves entries and order alone on failure, and on success changes no entry but its own, apart from eviction |
| `CacheProgress.SingleFlight` | internal/clients/oci.go:270-301 | in every state of every run at most one goroutine per uid is initialising, and the in-flight slots are exactly the uids being initialised, with the right call |
| `CacheProgress.OnlyOwnersClose` | internal/clients/oci.go:299-332 | in every run a call is closed by a commit of its owner and by no other step; it is open before that commit and stays closed after it; it occupies the slot of its uid exactly while it is open |
| `CacheProgress.NoDeadlock` | internal/clients/oci.go:270-332 | a caller that has not returned can move by itself, or waits for an open call whose owner, another caller, can |
| `CacheProgress.UnansweredMeansProgress` | internal/clients/oci.go:259-335 | while some caller is unanswered, a step other than a new invocation is possible |
| `CacheProgress.WaitsAreBounded` | internal/clients/oci.go:270-291 | a caller has waited only on calls of other callers of its uid, on one call of each at most, and what it would wait on next is new to it; so it has waited on fewer calls than there are callers of its uid |
| `CacheProgress.RetriesAreBounded` | internal/clients/oci.go:260-334 | in every run a caller goes round its loop at most once per caller of its uid and runs `create` at most once |
| `CacheProgress.RunsAreFinite` | internal/clients/oci.go:259-335 | a run with c callers has at most c(3c + 1) steps, so there is no livelock |
| `CacheSafety.SuccessIsCoherent` | internal/clients/oci.go:262-292 | a result without error was made by a successful `create` started for exactly that uid and configuration hash, whatever was waited on, evicted or replaced meanwhile |
| `CacheSafety.ErrorsAreIsolated` | internal/clients/oci.go:282-292 | an error comes from the caller's context, its own `create`, or a call it waited on for the same uid and hash; no meta comes with the first and the last |
| `CacheSafety.FailureLeavesCacheAlone` | internal/clients/oci.go:305-333 | the commit of a failed or panicked `create` leaves entries, order and evictions as they were, frees its own slot only, and answers its owner with the error and nobody else |
| `CacheSafety.WaitersMoveOn` | internal/clients/oci.go:274-291 | in every run a waiter can give up with the error of its context, and one whose call is done can go on: with that call's error when the call was for its own hash and failed, and with another look otherwise |
| `CacheSafety.NoRedundantStart` | internal/clients/oci.go:262-302 | no `create` begins for a configuration that was committed unless the entry was evicted or replaced in between |
| `CacheSafety.InitializationsDoNotOverlap` | internal/clients/oci.go:270-332 | of two successful initialisations for one uid and hash, the later began after the earlier had committed |
| `CacheSafety.NoRedundantInitialization` | internal/clients/oci.go:262-326 | between two successful initialisations for one uid and hash, the uid was evicted or committed with another hash |
| `CacheSafety.LaterLookupsHit` | internal/clients/oci.go:262-326 | in every run, a lookup for a configuration that was committed, and neither evicted nor replaced since, returns the committed meta at once |
| `CacheCounters.CountersHold` | internal/clients/oci.go:246-330 | in every state of every run: gauges equal the number of entries and slots; misses equal finished initialisations plus those running; waits begun equal waits counted plus those under way; hits, cancellations and failures match the callers' results |
| `CacheCounters.EntriesConserved` | internal/clients/oci.go:314-356 | in every run, entries added equal entries present plus evictions |
| `CacheEvents.CountersCountSteps` | internal/clients/oci.go:262-312 | in every state of every run the counters of hits, misses by reason, waits by result and initialisations by result are the numbers of steps of just that kind so far |
| `CacheLru.LookupRefines` | internal/clients/oci.go:261-292 | a lookup is an atomic Get on a list of slots, and hits exactly when the list holds that uid with that hash |
| `CacheLru.StoreRefines` | internal/clients/oci.go:314-328 | a successful commit is an atomic Put: drop the uid's slot, put the new one in front, cut to the bound |
| `CacheLru.RefinesLru` | internal/clients/oci.go:242-357 | after any number of steps of any run the cache is what the atomic LRU of the size asked for, at least one, is after the same lookups and successful commits |
| `CacheLru.RecencyIsNewestFirst` | internal/clients/oci.go:242-357 | at every point of every run the recency list is the list of all uids ever touched by a hit or a successful commit, newest touch first, cut to the number of entries asked for, or to one if that is less than one |
| `CacheBounds.CapacityIsAsAsked` | internal/clients/oci.go:242-257 | in every state of every run the bound and the capacity gauge are the number of entries asked for, but at least one, and there are no more entries than that |
| `CacheBounds.EvictsOnlyOverflow` | internal/clients/oci.go:347-357 | in every run something has been evicted exactly when more uids have been touched than that number; until then all touched uids are cached, in order |
| `RecencyList.List.PushFront` | internal/clients/oci.go:323 | a new element in front of the ring, all links restored |
| `RecencyList.List.MoveToFront` | internal/clients/oci.go:263 | the element is relinked in front and the others keep their order |
| `RecencyList.List.Remove` | internal/clients/oci.go:354 | the element is unlinked and the others keep their order |
| `RecencyList.List.Back` | internal/clients/oci.go:349-352 | the last element, or nil for an empty ring |
| `ProviderMetaCache.Cache.constructor` | internal/clients/oci.go:242-257 | the new object is valid and empty, and its bound and capacity gauge are the number asked for, but at least one |
| `ProviderMetaCache.Cache.LookupSection` | internal/clients/oci.go:261-302 | the in-place section does to the object's value, and answers, what the specification says; a call is created only on a miss without a call in flight |
| `CacheSafety.OwnResultIsReturned` | internal/clients/oci.go:305-345 | in every run, whatever `create` ends in is what the caller that ran it returns: its meta and error, or no meta and an error that carries the panic |
| `ProviderMetaCache.Cache.EvictOverflow` | internal/clients/oci.go:347-357 | the loop over map and ring ends with the specified value, entries and elements still paired |
| `ProviderMetaCache.Cache.Store` | internal/clients/oci.go:314-328 | replacing or adding an entry, evicting and counting, does to the object's value what the specification says |
| `ProviderMetaCache.Cache.CommitSection` | internal/clients/oci.go:313-332 | the in-place section does what the specification says, frees the slot and marks the call done |
| `CacheSimulation.Create` | internal/clients/oci.go:242-257 | a new object is where the empty run has come to |
| `CacheSimulation.LookupSection` | internal/clients/oci.go:261-302 | running the first section on the object is the lookup step of the run, and its answer is the caller's next position |
| `CacheSimulation.EndWaiting` | internal/clients/oci.go:281-291 | what a woken waiter does on the object is the wake step: it returns the call's error if the call was for its hash, and looks again if there is none or the call was for another |
| `CacheSimulation.RunCreate` | internal/clients/oci.go:305-311 | running `create` on the object is the step that ends it, with the same outcome and counters |
| `CacheSimulation.CommitSection` | internal/clients/oci.go:313-333 | running the second section on the object is the commit step, and it returns what the caller returns there |
| `CacheSimulation.ObjectIsCoherent` | internal/clients/oci.go:259-335 | an object reached by any interleaving is within its bound, each entry was made by a successful call for its uid and hash, and no call in flight is done |
| `ConfigurationKey.ProviderConfigurationFromCredentials` | internal/clients/oci.go:163-193 | exactly the known credentials that are present and not empty, whatever order the map is ranged over in |
| `ConfigurationKey.SameConfigurationMeansSameCredentials` | internal/clients/oci.go:163-193 | two configurations are equal exactly when every known credential is, absent counting as empty |
| `ConfigurationKey.InProcessProviderConfigurationHash` | internal/clients/oci_provider.go:40-51 | the digest of the configuration, nil counting as empty, with the fingerprint added to a copy; an error when there is no fingerprint |
| `ConfigurationKey.HashInputIsFaithful` | internal/clients/oci_provider.go:40-51 | the fingerprint's key clobbers no credential, so the digested map determines fingerprint and credentials |
| `ConfigurationKey.SharedMetaMeansSameConfiguration` | internal/clients/oci_provider.go:21-51 | with an injective digest, two callers answered with one provider instance have the same uid, credentials and fingerprint |
| `ConfigurationKey.ConfigurationIsMadeOf` | internal/clients/oci.go:163-193 | two configurations are equal exactly when nineteen credentials, each named, are the same, where missing is the same as empty |
| `ProviderClosure.FailedConfigurationIsReported` | internal/clients/oci_provider.go:28-36 | in every run a `create` whose configuration has error diagnostics, panics or gives a nil meta ends, for good, with no meta and the error that says so |
| `ProviderClosure.FailedConfigurationStoresNothing` | internal/clients/oci_provider.go:28-36 | and its commit leaves entries, order and evictions as they were and returns that error |
| `ProviderClosure.ConfiguredMetaIsStored` | internal/clients/oci_provider.go:32-37 | in every run the commit after a configuration that gave a meta stores just that meta under the caller's uid and hash and returns it without an error |
| `ProviderClosure.OnlyConfiguredIsCached` | internal/clients/oci_provider.go:26-37 | in every state of every run each cached meta, and each one returned without an error, was given by an earlier configuration for that uid and hash |
| `ProviderClosure.NilIsNeverCached` | internal/clients/oci_provider.go:26-37 | so in no run does the cache hold a nil meta or return one without an error |
| `Text.SplitInvertsJoin` | config/groups.go:834 | splitting at the separator recovers any non-empty list of separator-free parts from their join |
| `Text.LowerRender` | config/groups.go:882-892 | title-casing and concatenating tokens changes nothing but letter case |
| `Text.WordsInvertsRender` | config/groups.go:882-892 | a name rendered from words reads back as exactly those words |
| `Text.TitleAt` | config/groups.go:882-886 | character by character: a title is in capitals up to its first letter and has none after it |
| `Text.RenderInvertsWords` | config/groups.go:882-892 | every text that starts with a capital is the rendering of the words it reads as |
| `KindShortening.BestIsUnique` | config/groups.go:939-946 | at most one window is best by text length, then size, then start |
| `KindShortening.BestExists` | config/groups.go:939-946 | some window is best as soon as one is eligible |
| `KindShortening.ScanFrom` | config/groups.go:923-948 | the inner loop extends the best window of the rows before to the best of this row too |
| `KindShortening.FindBestWindow` | config/groups.go:914-950 | the nested loops return the best eligible window, and -1 exactly when no window is eligible |
| `KindShortening.DeleteWindow` | config/groups.go:951 | the in-place append leaves the tokens before and after the window |
| `KindShortening.RemoveLongestDuplicateSubstring` | config/groups.go:902-955 | the loop terminates with the rendering of the shortened tokens, which `ShortenCutsDown` describes, and does not write the caller's slice |
| `KindShortening.ShortenStep` | config/groups.go:913-953 | cutting the best window is the next step of the shortening, and makes the list shorter |
| `KindShorteningLaws.WhatIsEligible` | config/groups.go:915-937 | a window can be cut exactly when it is not at the front, its text is not empty and is a slice of the text before it, and the tokens it leaves side by side, if there are two, are not slices of one another, all in lower case |
| `KindShorteningLaws.WhatBeats` | config/groups.go:939-946 | one window beats another by longer text, then by more tokens, then by a later start |
| `KindShorteningLaws.ClashMeansNested` | config/groups.go:930-936 | the guard refuses two neighbours exactly when both have text and one, in lower case, is a slice of the other |
| `KindShorteningLaws.ShortenCutsDown` | config/groups.go:913-953 | the shortening leaves exactly what is left when the best window is cut as long as the name has more than 59 characters and a window can be cut |
| `KindShorteningLaws.CutAddsNoClash` | config/groups.go:930-936 | cutting an eligible window never raises the number of neighbouring tokens of which one, in lower case, is a slice of the other |
| `KindShorteningLaws.ShortenAddsNoClash` | config/groups.go:913-953 | nor does any number of cuts |
| `KindShorteningLaws.ShortenKeepsOrder` | config/groups.go:913-953 | the remaining tokens are a subsequence of the given ones that starts with the first |
| `KindShorteningLaws.ShortenKeepsLetters` | config/groups.go:927 | the set of lower-cased characters of the name is preserved |
| `KindShorteningLaws.ShortenFitsOrIsStuck` | config/groups.go:913-955 | the result fits the limit or has no eligible window; it is never longer than the name, and shortening it again changes nothing |
| `KindShorteningLaws.ShortenKeepsAll` | config/groups.go:913-953 | the shortening changes nothing exactly when the name fits or no window is eligible |
| `KindShorteningLaws.OverlongFirstTokenStays` | config/groups.go:918 | a name whose first token alone is beyond the limit stays beyond it |
| `KindShorteningLaws.DoubleIsDropped` | config/groups.go:913-953 | a word that fits only without its double loses the double |
| `KindNames.FindPrefixEnd` | config/groups.go:848-858 | the end of the shortest token prefix that spells a non-empty group, 0 when there is none |
| `KindNames.GenerateKindName` | config/groups.go:833-897 | a name of less than three parts is kept; else the kind is made of the parts after the shortest run of parts from the second on that spells the group, or of those after the second part when no run does or the group is empty: the name again if they have no text, their titles if they fit in 59 characters, and otherwise what the best cuts leave |
| `KindNames.StartIsUnique` | config/groups.go:862-865 | tokens and group determine where the kind starts |
| `KindNames.GroupAndKindSpellTheName` | config/groups.go:845-892 | for an unshortened kind, lower-cased group and kind spell the tokens exactly when the group spells the dropped ones |
| `KindNames.GroupPrefixLosesNothing` | config/groups.go:845-892 | so they do whenever a non-empty group spells some prefix of the tokens, empty tokens included |
| `KindNames.KindReadsBack` | config/groups.go:871-897 | a kind of words reads back as the tokens that the shortening leaves, which are all of them when it fits |
| `KindNames.SameKindMeansSameTokensLeft` | config/groups.go:871-897 | two kinds of words, shortened or not, are equal exactly when the shortening leaves the same tokens |
| `KindNames.DistinctNamesGetDistinctKinds` | config/groups.go:833-897 | resource names of words that share the dropped parts, and that fit or have no eligible window, have the same kind exactly when they are the same name |
| `KindNames.NameOfTheKind` | config/groups.go:833-897 | a name whose kind starts with a letter, and fits or is made of words, has that kind together with a name of words that fits or has no eligible window and shares its dropped parts; the two are the same name exactly when the given one is of words and left alone |
| `KindNames.SameStart` | config/groups.go:848-865 | names that share the parts spelling the group are cut at the same place |
| `KindNames.NamesCollide` | config/groups.go:833-897 | for every word of 30 to 59 characters, the resources named by it once and twice are different and get the same kind |
| `KindNames.NumbersCollide` | config/groups.go:833-897 | for every word and every part without letters, of 59 characters at most, the resources named by the two apart and joined are different and get the same kind |
| `KindNames.KindFitsOrIsStuck` | config/groups.go:893-897 | a kind fits the limit or is rendered from tokens without an eligible window; it keeps the characters of its tokens and the first token |
| `GenerationSchema.CloneStrings` | config/generation_schema.go:87-91 | a new array with the same strings, or nil for an empty one |
| `GenerationSchema.CloneGenerationSchemaMap` | config/generation_schema.go:71-80 | for every acyclic map of schemas, shared nodes included: the result reads as the same tree, all its nodes are new and none is reached twice; nothing existing is written |
| `GenerationSchema.CloneGenerationSchema` | config/generation_schema.go:82-99 | the same for a schema, its five slices and its element |
| `GenerationSchema.CloneElem` | config/generation_schema.go:92-97 | the type switch: a schema or resource pointer is cloned, a typed nil stays one, a value type is kept |
| `GenerationSchema.CloneGenerationResource` | config/generation_schema.go:101-108 | the same for a resource |
| `GenerationApply.HoldsRebound` | config/generation_schema.go:53 | once one resource has another schema, every structure it occurs in, however deep and often, reads with that schema there and is otherwise the same |
| `GenerationApply.ApplyGenerationResourceSchemas` | config/generation_schema.go:47-55 | in some order of the names, with any aliasing of names, live and generated resources: the loop does what the replay of that order says; every live resource named in both maps has its own clone of what the generated resource of its last turn read as then, the clones share no node, no other schema is written, and the generated resources read as the replay says |
| `GenerationApply.SeparateSourcesAreCloned` | config/generation_schema.go:34-35 | when no live resource is part of a generated one, the replay of every order leaves the generated resources as they were, and every clone is one of a schema generated for a name of its resource |
| `GenerationApply.OrderMatters` | config/generation_schema.go:47-55 | when the generated resource of one name is the live one of another, the two orders give the live resource of the first name different sources: in one order what was generated for the other name, in the other order its own |
| `GenerationApply.AliasedSourceIsLost` | config/generation_schema.go:47-55 | on the heap: the resource that is both gets its clone, then the other one gets a clone of that and not of the schema that was generated for it |
| `GenerationApply.AliasedSourceInTime` | config/generation_schema.go:47-55 | in the other order both get a clone of their own schema, and the one does not get the other's |
| `GenerationApply.MarkSensitive` | config/cluster/aidataplatform/config.go:23-25 | marking one field of a clone sensitive changes that one node of the clone and nothing outside it, such as the clone's source |
| `ServerSideApply.ScalarMapIsRead` | config/server_side_apply.go:72-102 | the heap test for a scalar map agrees with what the schema reads as: a non-sensitive map whose element is absent or a scalar type or schema |
| `ServerSideApply.WalkSDKv2SchemaForScalarMaps` | config/server_side_apply.go:51-70 | for every acyclic schema and any iteration order the strategies gain an entry `granular` at exactly the paths of routes to maps that are not sensitive and have no element, or one that is or has the type string, bool, int or float, unless the path had one; no other entry changes |
| `ServerSideApply.PathsAreRoutes` | config/server_side_apply.go:51-70 | those paths are the dotted paths of exactly the routes through nested resources that end at a scalar map |
| `ServerSideApply.OnlyScalarMapsAreConfigured` | config/server_side_apply.go:51-109 | with names that are not empty and hold no dot, a field at any depth gets an entry exactly when it is such a map |
| `ServerSideApply.ConfigureForResource` | config/server_side_apply.go:41-49 | strategies are made if there are none, and gain what a walk from the root gives; nothing is done without a Terraform resource |
| `ServerSideApply.ConfiguredAgain` | config/server_side_apply.go:58-63 | configuring twice is configuring once |
| `ServerSideApply.PathsAreUnambiguous` | config/server_side_apply.go:104-109 | routes of non-empty names without dots have distinct paths |
| `ServerSideApply.DottedNamesCollide` | config/server_side_apply.go:104-109 | a name with a dot after its first character has the path of the nested route that it spells |
| `ServerSideApply.EmptyNamesCollide` | config/server_side_apply.go:104-109 | an empty name in front of a route does not show in its path |
| `ServerSideApply.ConfigureProvider` | config/server_side_apply.go:35-49 | after the loop every configuration with a schema has its old strategies, made if missing, plus those of its own scalar maps, in any order and with aliased names |
| `TemplateRewrite.CountZero` | cmd/generator/main.go:373-388 | the count of a text is zero exactly when no slice is that text |
| `TemplateRewrite.ReplaceRemovesAll` | cmd/generator/main.go:391 | replacing x by y leaves no x when y neither contains one nor can begin or end one |
| `TemplateRewrite.ReplaceKeepsOthers` | cmd/generator/main.go:391-392 | replacing x by y leaves the count of z as it was when no two of them can overlap |
| `TemplateRewrite.ReplacePutsOthers` | cmd/generator/main.go:373-391 | counting and replacing agree with cutting the text at its occurrences: as many separators as were counted, the same parts with the others between them |
| `ControllerTemplate.NoConstructorRemains` | cmd/generator/main.go:372-391 | for every template, replacing all constructors leaves none and forms none at the edges |
| `ControllerTemplate.AnchorsSurvive` | cmd/generator/main.go:377-391 | for every template, the number of option anchors is the same after that replacement |
| `ControllerTemplate.BlockBringsOneConstructor` | cmd/generator/main.go:379-392 | putting the block where an anchor stood adds exactly one constructor, whatever surrounds it |
| `ControllerTemplate.ConstructorText` | cmd/generator/main.go:372 | the constructor that is counted and replaced, written out |
| `ControllerTemplate.BlockText` | cmd/generator/main.go:379-386 | the block that takes the place of the anchor, line by line |
| `ControllerTemplate.RewrittenOrRejected` | cmd/generator/main.go:371-388 | a template is rewritten exactly when it has four constructors and one anchor; otherwise it is rejected with the number of constructors if that is not four, and else with that of the anchors |
| `ControllerTemplate.RewrittenOnce` | cmd/generator/main.go:371-393 | a template with four constructors and one anchor becomes one with the recorder in their places and the block in the anchor's, holding one constructor; a second rewrite is rejected for that count |
| `RuntimeManifest.CollectResources` | cmd/generator/main.go:226-260 | the resources grouped by service, none empty, or the error of the first malformed controller file |
| `RuntimeManifest.CompareServices` | cmd/generator/main.go:341-352 | size and inclusion, in any order, decide equality per service; compared services are deleted |
| `RuntimeManifest.ValidateNamespaced` | cmd/generator/main.go:341-356 | accepts exactly when each cluster service has equal resources on the other side and the other side has no further service; an error names a real difference |
| `RuntimeManifest.AgreementIsEquality` | cmd/generator/main.go:341-356 | for non-empty services acceptance is equality of the two maps |
| `RuntimeManifest.AgreementInGeneral` | cmd/generator/main.go:341-356 | in general acceptance is equality up to cluster services without resources |
| `RuntimeManifest.ManifestIsUnique` | cmd/generator/main.go:269-292 | the set of pairs of service and resource determines the manifest, so walk and map order do not matter |
| `RuntimeManifest.GenerateRuntimeTerraformResourceManifest` | cmd/generator/main.go:222-300 | succeeds exactly when all controllers are well formed and both scopes have the same, non-empty set of pairs; then the rows are sorted, one per service, with `monolith` listing the sorted union; otherwise the first failing check's error |
| `RuntimeManifest.ManifestSays` | cmd/generator/main.go:226-291 | each row lists, in alphabetical order, the resources looked up by the files `zz_controller.go` below the directory of its service, `monolith` those of all; services come in alphabetical order, and each service with such a file has a row |
| `RuntimeManifest.MalformedMeans` | cmd/generator/main.go:240-254 | a controller is malformed when its path has less than three parts, or else when it has not just one lookup; the error is that of the first such file |
| `SortedStrings.LessIsLexicographic` | cmd/generator/main.go:273 | one text is less than another exactly when, after what they have in common, it ends or goes on with a lesser character |
| `SortedStrings.SortedIsUnique` | cmd/generator/main.go:273-286 | a strictly sorted list is determined by its members |
| `SortedStrings.SortKeys` | cmd/generator/main.go:269-286 | listing a set in any order and sorting gives the sorted list of its members |
| `ApiPackages.OtherGroupsAreRejected` | cmd/generator/main.go:107-118 | a group without either suffix is unsupported, and one with nothing or a dot before its suffix has no service |
| `ApiPackages.GroupsSpellPackages` | cmd/generator/main.go:101-118 | a group maps to a package exactly when it is the package's non-empty, dot-free service followed by the suffix of its scope |

## Left out

- getOrCreate as one method: it releases the mutex in the middle, so it is modelled by the transition system; the object
  has a method for each critical section and each lock-free stretch, and those are proved to be its steps.
- Granularity of steps: each critical section, and each lock-free stretch of metric updates, is one step, except that
  a wait is begun in a step of its own; Go's memory model is assumed to make that faithful.
- The fields of a cache entry are updated by replacing the entry in the map: entries are values here, since nothing
  else refers to an entry record.
- Go's `container/list` is modelled by a ring of the same kind in `recency_list.dfy`, not verified from its source.
- Time: durations, the histogram, and Prometheus registration; counters and gauges are integers of one cache.
- SharedMetaMeansSameConfiguration: assumes that the digest of the canonical JSON is injective and that distinct
  successful runs of `create` return distinct instances; sha256, JSON and the files behind the fingerprint are outside.
- Configuring the OCI provider: `create` may return, fail or panic in any way.
- Kubernetes reads and usage tracking of a ProviderConfig: uid, credentials and fingerprint are inputs.
- Text.Title: letter case is ASCII, as resource names are, and a word is capitalised at its first letter; Unicode word
  boundaries and case folding are not modelled, and lengths count characters, which are bytes there.
- KindNames.NameOfTheKind: does not cover a kind that starts with no letter, which no name of words has, or a kind above
  the limit of a name not made of words.
- The tables of `GroupMap`, `ServiceGroupDetector` and `detectCoreServiceGroup`: finite tables; the group is an input.
- Schema fields other than kind, sensitivity, element and the five slices are one value that is copied as a whole;
  references inside them (defaults, functions) stay shared in the source, too.
- Cyclic schemas: a shape exists only for acyclic ones, and the source would not terminate on others.
- ServerSideApply.WalkSDKv2SchemaForScalarMaps: an interface that the walk looks into may not hold a nil resource, since
  the source dereferences it (one below an element that is itself a schema may); the merge-strategy map is a value owned
  by its configuration, so two configurations sharing one map are not modelled.
- Parsing the JSON schema that the generated resources come from.
- The generator's file walking, reading, formatting and writing: files are given as path parts and matched lookups, and
  the manifest as rows instead of Go source; I/O errors are left out.
- Copying of service setup files, API scheme packages and the regular expressions of the generator: plumbing.
- `config/nofork.go` and `config/references.go` (filters over resources and references) and the argo workflow generator
  (argument parsing and file output) are not modelled.
