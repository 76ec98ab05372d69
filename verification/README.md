# Titip, modelled and proved

Titip is an HTTP cache that runs as middleware in front of an origin. This project models five of its
parts in Dafny and proves what they promise:

* **ESI compilation and splicing** (`EsiBytes`, `EsiParse`, `EsiScan`, `EsiBounds`, `EsiSplice`, `EsiTags`,
  `EsiPrint`). The compiler turns a document into byte ranges; the splicer later works from the ranges alone. The partner is
  `Parse`/`Render`, a one-pass recursive reader of the tags; `EsiTags` and `EsiPrint` say from the text alone what each
  kind of tag covers and what its attributes are.
* **ESI execution** (`EsiFlight`, `EsiPoison`, `EsiExec`, `EsiMeaning`, `EsiLimits`, `EsiConcurrent`, `EsiProgress`, `EsiRun`).
  Depth-limited recursion over an arbitrary origin; the flight group as do, complete, deliver and release steps in any
  order; workers with a semaphore and shared flights against resolving the fragments one by one; `EsiMeaning` says what
  a tag shows, from the origin's answers.
* **Keys and purges** (`Sorting`, `KeyBytes`, `UrlEscape`, `QueryString`, `QueryRules`, `PrimaryKey`, `KeyRules`, `HostlessKeys`,
  `Purge`, `PurgeStars`, `PurgeRules`, `VariantKey`, `VariantBars`, `VariantRules`). Keys are byte strings; what they
  determine, and which keys a purge selects, is proved in both directions. The modules of rules say it from requests,
  configuration and patterns alone.
* **The in-memory store** (`StoreState`, `TestStore`, `StoreHistory`, `StoreRules`). `StoreState` says what an operation does to the
  three maps; the class `MemStore` does it in place, with loops; `StoreHistory` tells what a store holds from the
  operations that made it.
* **Cache runs** (`Freshness`, `Handler`, `CacheRuns`, `CacheLaws`, `CacheAge`, `CacheFailures`, `CacheVary`,
  `VaryChange`, `VaryInstance`, `CacheFlights`, `CacheContacts`, `FlightKeys`, `CacheOverlap`, `FreshRules`,
  `HeaderRules`, `CacheAnswers`, `CacheServes`, `HandlerCode`). `Handler` says what one request does to the store and
  what it answers; the class `Titip` in `HandlerCode` does it, state function by state function, over a `MemStore`.
  `CacheRuns` proves an invariant over every run of requests, background refreshes and purges, and the modules after it
  draw the consequences. `CacheFlights` is the machine of shared revalidations, step by step and interleaved with
  anything else that happens to the store; `CacheContacts` proves what separates two contacts of the origin,
  `FlightKeys` which requests share a flight, `CacheOverlap` where stored bodies come from. `FreshRules`, `HeaderRules`,
  `CacheAnswers` and `CacheServes` say from directives, fields, clock and replies alone what is fresh, what is stored,
  what a client is answered, and that a stored response answers the next request.

Instants, origin replies, storage failures and the outcome of client preconditions are inputs of every step, so a
statement about a run holds for every choice of them. Header parsing is a parameter: any function of the fields.

## Where the code does not do what one would expect

Each of these is proved of the code as it is, with the exact condition under which the promise holds where there is one.

* The tag guards read one byte too many: a document, or the content of a wrapper, that ends in an open-tag name
  makes the compiler read past its buffer (`EsiBounds.RunsOffExactly`).
* With an error marker configured, tags that should only be stripped become the marker (`EsiLimits.StrippedExactly`).
* A fetch abandoned by its last listener can still write its failure to the memo, and later listeners get it
  (`EsiPoison.PoisonedExactly`, `EsiFlight.MemoCanBePoisoned`).
* A query with one piece that does not decode loses all its parameters (`QueryString.SortedQueryLost`).
* The key format's comment says every value is percent-encoded where it holds a delimiter; colons and equal signs of
  paths are not, so without a host segment a path can spell a query (`HostlessKeys.HostlessKeysEqualExactly`), and a
  purge target can spell another key's host (`Purge.ColonTargetOverreaches`).
* An exact purge without a scheme misses its key when the scheme or a default port matters
  (`Purge.SchemelessPurgeExactly`); a path purge of a host also hits its other ports, and paths of other hosts that
  spell it out (`PurgeStars.ScopedPathExactly`, `PurgeStars.SpelledScopeSelected`).
* An entry rewritten without one of its tags stays linked to it, even into a later life of the key
  (`StoreHistory.StaleExactly`, `StoreHistory.FormerLifeLinks`).
* A bar and the name of the next header inside a value can pose as that header of a variant key
  (`VariantBars.KeysEqualExactly`, `VariantBars.BarForges`), and a configured name can run into another across a tilde
  (`PrimaryKey.HeadersCollideExactly`).
* A response that matched a key under older Vary names is filed under that key, and can later be served across a header
  it varied on (`VaryChange.FiledByOwnVary`, `VaryInstance.ChangedVaryInstance`). What a request is served always agrees
  on the names the metadata lists at that moment, and on no others (`CacheVary.VariantServedByMetadata`).
* A response that may not be reused without validation counts as fresh at the instant it arrives
  (`Freshness.FreshExactly`).
* Expiry and purge mark belong to the primary key, so storing one variant can revive the others
  (`CacheLaws.LeaksExactly`).
* A HIT to a HEAD request, or with an empty body, is given no Age; the client sees the origin's old one if it sent one
  (`CacheAge.AgeAnswered`, `CacheAge.SilentHitAge`).
* A stored empty body cannot be refreshed by a 304; the 304 goes to the client (`CacheFailures.EmptyBodyNotRefreshed`).
* When the origin fails, a stale entry is served whatever must-revalidate says (`CacheFailures.StaleServedExactly`), and
  a 304 marked no-store prolongs an entry (`CacheFailures.RefreshIgnoresNoStore`).
* Requests for different primary keys can share a flight, and then one is answered with the other one's response
  (`FlightKeys.FlightKeysEqualExactly`, `FlightKeys.StrangerServedInstance`); a shared response with ESI tags keeps its
  cookies (`CacheContacts.SharedCookies`).
* A full response to a revalidation is sent on with the fields that belong to the origin's connection; on a miss they
  are dropped (`CacheAnswers.RevalidationAnswered`, `CacheAnswers.MissAnswered`).
* A revalidation overtaken by a newer write puts the older body back (`CacheOverlap.OlderBodyWrittenBack`).

## Model

| member | source | states |
|---|---|---|
| `EsiScan.ScanTagHeaderEnd` | esi/scanner.go:239-273 | the header ends at the first `>` outside quotes, and is self-closing exactly when a slash precedes it |
| `EsiScan.ExtractAttribute` | esi/scanner.go:276-349 | returns the value of the first place where the name stands after whitespace (or at the start) and before `=`, or nothing |
| `EsiScan.ParseInclude` | esi/scanner.go:162-234 | an include tag's length, attributes and fallback range are those of the reader's token, for every buffer |
| `EsiScan.ReadTag` | esi/scanner.go:52-155 | classifies any tag as the reader does, and reads past the buffer exactly on a bare open-tag name at its end |
| `EsiScan.Scan` | esi/scanner.go:30-159 | for every document, the fragments are the byte ranges of the reader's tags, wrapper contents included and shifted; it fails exactly on `RunsOff` documents |
| `EsiScan.UnmarkedHasNoTags` | esi/scanner.go:35-38 | the substring pre-check hides no tag: a text without the two markers has none |
| `EsiScan.LayoutMoved` | esi/scanner.go:69-79 | shifting the index of an inner block gives the index of the block in place |
| `EsiTags.RemoveRoundTrip` | esi/scanner.go:109-124 | after any text in which no tag starts, a remove tag is the one stripped range up to and including its first closing tag, and what follows is compiled as if it stood alone |
| `EsiTags.UnclosedRemoveIsText` | esi/scanner.go:109-124 | without a closing tag it is text |
| `EsiTags.CommentRoundTrip` | esi/scanner.go:126-140 | a comment that closes itself is one stripped range, whatever its header holds in quotes |
| `EsiTags.PairedCommentRoundTrip` | esi/scanner.go:141-152 | a paired comment is one stripped range up to and including its closing tag |
| `EsiTags.UnendedCommentIsText` | esi/scanner.go:126-158 | a comment whose header does not end is text |
| `EsiTags.UnclosedCommentIsText` | esi/scanner.go:126-158 | so is one that is not closed |
| `EsiTags.WrapperRoundTrip` | esi/scanner.go:52-90 | a wrapper is its two stripped markers around the index of its content, shifted |
| `EsiTags.UnclosedWrapper` | esi/scanner.go:52-93 | without its end only the opening marker is stripped |
| `EsiTags.MisnamedIsText` | esi/scanner.go:95-158 | an open-tag name followed by a byte that continues it is text |
| `EsiTags.HeaderEndExactly` | esi/scanner.go:239-273 | a header ends after the first `>` outside quotes of either kind, and never if there is none |
| `EsiParse.ParseLossless` | esi/scanner.go:30-159 | the reader accounts for every byte: its pieces, concatenated, are the document |
| `EsiBounds.RunsOffExactly` | esi/scanner.go:95-130 | the read past the buffer happens if and only if the document or the content of a wrapper ends in an open-tag name |
| `EsiBounds.UnclosedHasNoWrapper` | esi/scanner.go:53-93 | text without a wrapper end holds no wrapper, so wrappers never nest |
| `EsiSplice.SpliceFragments` | esi/processor.go:1083-1123 | writes the parent with ranges replaced by bodies; on ordered ranges no range is skipped and the bytes written equal the size computed beforehand |
| `EsiSplice.MisplacedSkipped` | esi/processor.go:1102-1110 | after ranges in order, a range that overlaps them, leaves the document or runs backwards makes no difference |
| `EsiSplice.SpliceAgreesWithReading` | esi/processor.go:1083-1123 | for every document and every choice of bodies, splicing at the compiled offsets emits what the left-to-right reader emits |
| `EsiSplice.IndexWellPlaced` | esi/scanner.go:205-222 | compiled ranges are ordered, disjoint, in bounds and non-empty, fallback ranges strictly inside their tags |
| `EsiSplice.CompileAndSplice` | esi/processor.go:651-681 | compile and splice end to end: fails exactly on documents ending in an open-tag name, otherwise emits the reader's output |
| `EsiPrint.SelfClosingRoundTrip` | esi/scanner.go:162-203 | a printed self-closing include compiles to exactly its range and values, whatever values hold besides quotes and whitespace, and the rest is read as before |
| `EsiPrint.PairedRoundTrip` | esi/scanner.go:162-222 | a printed include with fallback content compiles to its range, its values and the content's range |
| `EsiPrint.UnpairedRoundTrip` | esi/scanner.go:224-233 | a tag neither closed by itself nor by a closing tag is its header alone |
| `EsiPrint.UnendedIncludeIsText` | esi/scanner.go:162-166 | an include whose header does not end is text |
| `EsiPrint.StyledAttribute` | esi/scanner.go:276-340 | an attribute is read with blanks around its equal sign, in either kind of quotes or in none, the leftmost one counting |
| `EsiPrint.DepthExactly` | esi/scanner.go:186-191 | a max-depth is a decimal number below 2^32 with blanks around it; a larger number or any other byte makes it none |
| `EsiPrint.AttributesRoundTrip` | esi/scanner.go:168-203 | src, alt, onerror, timeout and any 32-bit max-depth come back unchanged |
| `EsiFlight.FlightGroup.constructor` | esi/processor.go:98-100 | a new group is the start state |
| `EsiFlight.FlightGroup.Do` | esi/processor.go:102-151 | one lookup: memo, join or launch; the new state is `AfterDo` and the protocol invariant is kept |
| `EsiFlight.FlightGroup.Complete` | esi/processor.go:128-142 | a finished fetch records its answer and drops its tracker, keeping the invariant |
| `EsiFlight.FlightGroup.Release` | esi/processor.go:153-168 | a listener leaves; the last one cancels and forgets, keeping the invariant |
| `EsiFlight.StepKeeps` | esi/processor.go:102-168 | every do, complete, deliver and release step keeps the protocol invariant |
| `EsiFlight.HoldersExact` | esi/processor.go:102-168 | in every interleaving the placeholder never runs, each count is the number of unreleased holders, and a fetch is cancelled if and only if nobody holds it any more |
| `EsiFlight.DeliveredRetired` | esi/processor.go:102-151 | in every interleaving, a call whose answer was handed out is no longer the key's flight |
| `EsiFlight.OneWantedFetch` | esi/processor.go:102-168 | at most one uncancelled fetch per key runs at any time |
| `EsiFlight.FetchesBounded` | esi/processor.go:102-168 | fetches started for a key are at most one plus the number abandoned |
| `EsiFlight.OneSource` | esi/processor.go:863-887 | while no fetch of a key was abandoned, memo and listeners of the key all refer to the same call |
| `EsiPoison.PoisonedExactly` | esi/processor.go:128-168 | in every run, a key is poisoned if and only if the last of its fetches to finish was one whose last listener had already left |
| `EsiPoison.NeverPoisoned` | esi/processor.go:153-168 | if no release empties a running fetch of the key, its memo is never poisoned |
| `EsiFlight.MemoCanBePoisoned` | esi/processor.go:110-142 | for every key there is a run in which a later listener is handed the failure of an abandoned fetch while a wanted one still runs |
| `EsiExec.ExpandLawful` | esi/processor.go:651-800 | for every origin, each fetch lies below the configured depth and every enclosing max-depth, and each src fetch differs from all its ancestors' URLs |
| `EsiMeaning.IncludeShows` | esi/processor.go:683-829 | an include below the limits in force and not on its own path shows what its source answers, expanded one level down, or what its alternative answers if the source fails; both fetches are made in that order |
| `EsiMeaning.PlainIncludeShown` | esi/processor.go:770-820 | if that answer holds no tags, exactly its body is shown and its cookies are handed on |
| `EsiMeaning.FallbackShown` | esi/processor.go:1125-1136 | otherwise, and if what came cannot be read, the enclosed content is shown if there is any, nothing under onerror=continue in any case, else the marker; no cookies |
| `EsiMeaning.ExpandShows` | esi/processor.go:651-681 | a document expands to its text with each tag replaced by what the tag shows, its own cookies first and then those of the tags in order |
| `EsiMeaning.PageWithInclude` | esi/processor.go:651-845 | from end to end: a page with one include comes out with the source's body in the place of the tag |
| `EsiRun.ExecuteFragment` | esi/processor.go:683-845 | the guards, src, alt and fallback branches give the fragment's sequential resolution |
| `EsiRun.ExecuteFragments` | esi/processor.go:563-649 | filling the results slot by slot gives the sequential resolutions, and the cookies in document order |
| `EsiRun.ExpandNested` | esi/processor.go:651-681 | scanning, resolving and splicing a fetched body gives its sequential expansion, or dies exactly when the scan does |
| `EsiRun.HasDuplicateUrls` | esi/processor.go:524-535 | the double loop finds a repeated URL if and only if there is one |
| `EsiLimits.ExpandBound` | esi/processor.go:651-681 | with at most K fragments per document and D levels left there are at most 2(K + K^2 + ... + K^D) fetches, whatever the origin answers |
| `EsiLimits.StripLeavesMarker` | esi/processor.go:614-617 | a tag with nothing to include resolves to the error marker |
| `EsiLimits.StrippedExactly` | esi/processor.go:1125-1136 | a document of tags to strip comes out as its plain text if and only if no marker is configured or it has no tags |
| `EsiConcurrent.CrewStepKeeps` | esi/processor.go:847-888 | every worker and flight step keeps: tickets speak for their URL, answers are the origin's, results are the sequential ones |
| `EsiConcurrent.ExecutesUniquely` | esi/processor.go:563-649 | every interleaving of workers, with or without shared flights, ends with the results and the cookie order of resolving fragments one by one |
| `EsiConcurrent.ExpandsUniquely` | esi/processor.go:651-681 | the same through every level of nested documents |
| `EsiConcurrent.ResolveAnywhere` | esi/processor.go:683-845 | with an origin that looks at URLs only, a fragment resolves alike wherever it stands |
| `EsiProgress.NoDeadlock` | esi/processor.go:563-649 | from every state short of the end some step is possible and shortens the work left |
| `EsiProgress.StepShortens` | esi/processor.go:563-649 | every step, whichever worker or fetch takes it, shortens the work left |
| `EsiProgress.EveryScheduleEnds` | esi/processor.go:563-649 | no schedule of n fragments takes more than 12 n steps, and one that cannot go on has the sequential results |
| `EsiProgress.SomeExecution` | esi/processor.go:563-649 | every job has an execution, and it ends with the sequential results |
| `UrlEscape.UnescapeEsc` | cache_key.go:284-329 | escaped query components decode to themselves |
| `UrlEscape.EscPrefix` | cache_key.go:217-229 | escaping keeps and reflects prefixes, in each of the three escaping modes |
| `QueryString.BuildSortedQueryString` | cache_key.go:284-329 | the loop over grouped, filtered, sorted values writes the encoding of the sorted allowed parameters |
| `QueryString.BuildUnsortedQueryString` | cache_key.go:331-368 | the order-preserving loop writes the encoding of the allowed parameters in request order |
| `QueryString.GroupedIsSort` | cache_key.go:290-327 | sorting names and then values within each name is sorting the parameters |
| `QueryString.EncodeInjective` | cache_key.go:284-368 | the encoded query determines the parameters and their order |
| `QueryString.SortedQueryCanonical` | cache_key.go:258-329 | any two queries have the same sorted form if and only if they carry the same multiset of allowed parameters, a query that does not parse carrying none |
| `QueryRules.QueryRead` | cache_key.go:284-288 | a query written from names, values and empty pieces has exactly the parameters they say, in order, for both readers |
| `QueryRules.SortedWithoutRules` | cache_key.go:258-282 | without rules, two queries that parse have the same sorted form if and only if they carry the same parameters, each as often |
| `QueryRules.SortedWithExclusions` | cache_key.go:271-280 | with exclusions, if and only if they agree on all other names; with marketing excluded, on all that are not `utm_` names or one of the eight, in any case |
| `QueryRules.SortedWithInclusions` | cache_key.go:259-270 | with inclusions, if and only if they agree on the listed names and the listed values |
| `QueryString.OrderedQueryCanonical` | cache_key.go:331-368 | any two queries have the same order-preserving form if and only if their allowed lists are equal |
| `QueryRules.OrderedByRules` | cache_key.go:331-368 | two written queries have the same order-preserving form if and only if the parameters that count are the same list |
| `QueryString.InvalidExactly` | cache_key.go:284-288 | a query does not parse if and only if a piece holds a semicolon or a name or value that does not decode |
| `QueryString.SortedQueryLost` | cache_key.go:284-305 | the query part of a key is lost if and only if there is such a piece or no allowed parameter |
| `QueryString.InvalidQueriesCollide` | cache_key.go:284-288 | any two queries with such a piece share the empty query part |
| `PrimaryKey.WriteEscapedPath` | cache_key.go:217-229 | segment-wise writing escapes every byte of the path and keeps the slashes |
| `PrimaryKey.CleanCanonical` | cache_key.go:112-121 | a cleaned rooted path has no empty, dot or dot-dot segment, and cleaning again changes nothing |
| `PrimaryKey.GeneratePrimaryKey` | cache_key.go:99-211 | one pass of writes produces the labelled, colon-closed segments |
| `KeyRules.CancelledSegments` | cache_key.go:107-118 | inside a path, empty and dot segments, and a segment followed by dot-dot, make no difference |
| `KeyRules.RootParent` | cache_key.go:107-118 | dot-dot at the root makes none either |
| `KeyRules.PlainPathKept` | cache_key.go:107-118 | a path without such segments is kept as it is, trailing slash included |
| `KeyRules.CaseFolded` | cache_key.go:119-121 | without regard to case, it is the same path in small letters |
| `KeyRules.HostRules` | cache_key.go:443-452 | the host of the request, or of its URL, counts in small letters and without the port its scheme implies |
| `KeyRules.HeadIsGet` | cache_key.go:159-167 | HEAD shares the key of GET |
| `KeyRules.FieldsCount` | cache_key.go:169-208 | with other headers and cookies the key is the same if and only if the listed headers have the same trimmed values in order and the listed cookies the same value |
| `KeyRules.BlanksTrimmed` | cache_key.go:187-187 | trimming takes exactly the blanks around a value |
| `KeyRules.QueriesCount` | cache_key.go:150-158 | with another query the key is the same if and only if both carry the same counting parameters, each as often; without rules, the same parameters |
| `KeyRules.QueriesInOrder` | cache_key.go:331-368 | where their order is kept, if and only if the counting parameters are the same list |
| `KeyRules.LeftOut` | cache_key.go:126-151 | an excluded query or host makes no difference |
| `PrimaryKey.KeysEqualExactly` | cache_key.go:99-229 | with a host free of `=`, two GET or HEAD requests share a key if and only if they agree on cleaned path, normalised host, included scheme, filtered query, included header values and included cookies; configured names hold no colon and none is another one, a tilde and what values of it can write |
| `HostlessKeys.HostlessKeysEqualExactly` | cache_key.go:99-229 | without a host segment, two GET or HEAD requests share a key if and only if they agree on all parts, or the path of one spells out the path and query of the other and no scheme is in keys |
| `HostlessKeys.HostlessKeysDecode` | cache_key.go:99-229 | keys that carry the scheme, and keys of paths in which no colon is followed by `qs=`, need no host to tell requests apart |
| `HostlessKeys.PathForgesQuery` | cache_key.go:217-229 | every path that spells a query shares the key of that query |
| `PrimaryKey.TildeForgesHeader` | cache_key.go:169-191 | a header whose last value goes on with a tilde and `v` writes the segment of the header named by itself, a tilde and its values, with value `v` |
| `PrimaryKey.HeadersCollideExactly` | cache_key.go:169-191 | two different header names can write the same segment if and only if one is the other, a tilde and what values of it can write |
| `PrimaryKey.TildeForgesCookie` | cache_key.go:193-207 | the same collision for every two cookies |
| `Purge.MatchGlob` | internal/teststore/store.go:494-519 | byte-wise translation of a pattern decides the whole-key match |
| `Purge.PrefixPattern` | internal/teststore/store.go:494-519 | a literal followed by a star selects exactly the keys it is a prefix of |
| `PurgeRules.GlobExactly` | internal/teststore/store.go:494-519 | a pattern selects exactly the texts that fall into stretches, one for each of its parts: a byte, a quoted byte, any one byte, any run |
| `Purge.BuildPurgeOperation` | purge.go:21-146 | assembles the exact key or the pattern of a target |
| `Purge.BuildPurgePrefixOperation` | purge.go:155-224 | assembles the pattern of a prefix purge |
| `Purge.ExactPurgeIsKey` | purge.go:21-146 | an exact purge of an http(s) URL is the primary key of a GET for it |
| `PurgeRules.PurgeHits` | purge.go:21-146 | purging a URL hits the key of every GET or HEAD for it, whatever headers and cookies are part of keys |
| `PurgeRules.PathPurgeHits` | purge.go:21-146 | purging a path, with a query or without, hits its page on every host |
| `Purge.SchemelessPurgeExactly` | purge.go:21-146 | without a scheme it is that key if and only if keys hold no scheme and the host loses no default port |
| `Purge.PathPurgeExactly` | purge.go:21-146 | a path purge selects exactly the path, paths continuing it after a colon, and keys the target itself runs into |
| `Purge.PlainPathPurge` | purge.go:21-146 | for colon-free targets: exactly the path and what continues it after a colon |
| `Purge.ColonTargetOverreaches` | purge.go:21-146 | a target path that spells another key's host purges that key |
| `Purge.PrefixPurgeExactly` | purge.go:155-224 | exactly which keys a host-less prefix purge selects |
| `Purge.PlainPrefixPurge` | purge.go:155-224 | for colon-free prefixes: exactly the keys whose cleaned path extends the cleaned prefix |
| `PurgeStars.ScopedPathExactly` | purge.go:21-146 | a path purge scoped to a host, and to a scheme if the target names one, selects exactly the path on that host, without a scheme on every port of it, and the keys whose longer path spells out host and scheme right after the target's |
| `PurgeStars.PlainScopedPath` | purge.go:21-146 | among keys of colon-free paths it selects exactly the path on that host |
| `PurgeStars.SpelledScopeSelected` | purge.go:21-146 | every path that spells out the target's host and scheme is purged with it, whatever host it is on |
| `PurgeStars.ScopedPrefixExactly` | purge.go:155-224 | a prefix purge scoped to a host selects exactly the keys whose cleaned path extends the prefix and that are in scope or spell out the scope in the rest of their path |
| `PurgeStars.PlainScopedPrefix` | purge.go:155-224 | among keys of colon-free paths it selects exactly those in scope that extend the prefix |
| `PurgeStars.AnyHostQueryExactly` | purge.go:21-146 | a path and query purged on every host selects exactly the keys that open with the path and a host and hold scheme and query somewhere after |
| `PurgeStars.InnerStar` | internal/teststore/store.go:494-519 | a pattern with a star inside selects exactly the keys that open with its first part and hold the second after it |
| `VariantKey.GenerateVariantKey` | cache_key.go:382-440 | the loops over sorted names, values and tokens write the key in normal form |
| `VariantKey.TokensDecide` | cache_key.go:372-379 | negotiation headers agree in the key if and only if they list the same multiset of tokens, in any order and grouping |
| `VariantKey.ValuesDecide` | cache_key.go:425-435 | other headers agree in the key if and only if their fields, sorted and then trimmed, hold the same pieces between commas; so repeated fields may come in any order, and a single field is compared trimmed |
| `VariantRules.TokensRead` | cache_key.go:409-417 | tokens are what stands between commas, blanks around them left out, field after field |
| `VariantRules.SameVariantExactly` | cache_key.go:382-440 | with values free of bars, two requests select the same variant if and only if they mean the same by every listed header: the three headers of content negotiation by their tokens, all others by what their sorted, trimmed fields hold between commas |
| `VariantBars.KeysEqualExactly` | cache_key.go:382-440 | for any values, keys are equal if and only if the requests agree on every named header in normal form, or at the first disagreement one text is the other followed by a bar, the next name and an equal sign, and how the other key goes on |
| `VariantBars.HarmlessKeysDecode` | cache_key.go:382-440 | if no header's text holds a bar, the name after it and an equal sign, equal keys mean agreement |
| `VariantBars.BarFreeHarmless` | cache_key.go:403-409 | so it is for values without bars and for a single name |
| `VariantKey.BarFreeKeysEqual` | cache_key.go:382-440 | with values free of bars, keys are equal if and only if the requests agree on every named header, whatever order and bytes the names have |
| `VariantBars.KeysNameTheSame` | cache_key.go:382-440 | without delimiters in names and values, keys written from any two lists are equal if and only if the lists name the same headers in order and the requests agree on them |
| `VariantBars.BarForges` | cache_key.go:403-409 | for any two names, requests that disagree on both get the same key when one value spells the opening of the second header |
| `VariantKey.KeyNeverDefault` | handler.go:159-163 | a written key is never the default key |
| `StoreState.TagPurgeComplete` | internal/teststore/store.go:370-422 | after a hard tag purge no entry carries the tag, after a soft one all that carry it are marked, and the maps stay in step |
| `StoreHistory.LinkedExactly` | internal/teststore/store.go:244-483 | after any run, a key is linked to a tag if and only if some write of it carried the tag and since then there was no wipe, no hard purge of the tag and no hard removal of the key under the tag |
| `StoreHistory.LiveIsLastWrite` | internal/teststore/store.go:261-283 | a live entry has the metadata of the last write of its key |
| `StoreHistory.StaleExactly` | internal/teststore/store.go:286-294 | a link is stale if and only if the key is live, its last write lacks the tag, and an earlier uncut write carried it |
| `StoreHistory.TagPurgeExact` | internal/teststore/store.go:370-422 | after any run, a tag purge hits exactly the entries carrying the tag if and only if no live entry is outdated for it in that sense |
| `StoreHistory.FormerLifeLinks` | internal/teststore/store.go:331-367 | removing such a key and writing it anew without the tag keeps the stale link |
| `StoreHistory.MarkedExactly` | internal/teststore/store.go:261-273 | a live entry is marked if and only if a soft purge hit it after the last write of any of its variants |
| `StoreState.RetaggingLeavesStaleLink` | internal/teststore/store.go:286-294 | rewriting an entry without a tag leaves a link through which the old tag still removes it |
| `StoreState.PurgeTouches` | internal/teststore/store.go:331-467 | a purge removes or marks exactly its keys' entries and leaves every other entry as it was |
| `StoreState.HardPurgeCount` | internal/teststore/store.go:331-467 | the store shrinks by exactly the number of entries hit |
| `StoreRules.PurgesExactly` | internal/teststore/store.go:331-483 | a purge by key, tag or pattern removes or marks exactly the entries named, linked or matched, with all they hold; every other entry is as it was |
| `StoreRules.WriteExactly` | internal/teststore/store.go:244-328 | a write leaves its metadata unmarked, its variant and body under its name and links for its tags; everything else is as it was |
| `TestStore.MemStore.constructor` | internal/teststore/store.go:68-74 | a new store is empty and valid |
| `TestStore.MemStore.GetMeta` | internal/teststore/store.go:166-204 | returns metadata exactly when unexpired, with exactly the variants strictly before their expiry |
| `TestStore.MemStore.GetVariant` | internal/teststore/store.go:207-241 | returns variant and body exactly when present and unexpired, the empty key meaning the default |
| `TestStore.MemStore.SetVariant` | internal/teststore/store.go:244-328 | replaces metadata, clears the purge mark, extends but never shortens the expiry, indexes every tag, keeps other variants |
| `TestStore.MemStore.Purge` | internal/teststore/store.go:331-367 | removes or marks one entry and returns how many |
| `TestStore.MemStore.PurgeByTag` | internal/teststore/store.go:370-422 | purges everything linked to the tag in any order and returns the exact count |
| `TestStore.MemStore.PurgeByPattern` | internal/teststore/store.go:425-467 | purges exactly the keys the pattern matches and returns the exact count |
| `TestStore.MemStore.PurgeAll` | internal/teststore/store.go:470-483 | empties the store and returns how many entries it had |
| `TestStore.RemoveOneMore` | internal/teststore/store.go:388-415 | removing keys one by one is removing them together, index included |
| `TestStore.RunsKeepValid` | internal/teststore/store.go:244-483 | after any sequence of operations metadata and variants have the same keys and every entry is indexed under each of its tags |
| `TestStore.TagPurgedAfterAnyRun` | internal/teststore/store.go:370-422 | after any run, a hard tag purge leaves no entry with the tag |
| `Freshness.IsResponseCacheable` | freshness.go:167-252 | the chain of guards accepts exactly final, complete, shareable responses that state reuse, from requests that are not personal unless sharing is allowed |
| `FreshRules.StorableExactly` | freshness.go:167-252 | a response is storable if and only if none of these holds: an excluded status, a cookie, an event stream, Vary of everything, no-store, private, a personal request without leave to share, no word on how long |
| `Freshness.CalculateFreshness` | freshness.go:81-164 | fills the record with the ages and lifetime of sections 4.2.1 and 4.2.3 of RFC 9111 and the stale windows |
| `FreshRules.SMaxAgeDecides` | freshness.go:119-122 | with s-maxage and without no-cache, a response is fresh if and only if its age is within s-maxage and a year, whatever max-age and Expires say |
| `FreshRules.MaxAgeDecides` | freshness.go:123-124 | without s-maxage, the same of max-age, whatever Expires says |
| `FreshRules.ExpiresDecides` | freshness.go:125-127 | without both, the time from Date to Expires counts, or from arrival without a Date before it |
| `FreshRules.FreshUntilExpires` | freshness.go:125-127 | so a response as old as its Date says is fresh up to the instant Expires names |
| `FreshRules.NeverFresh` | freshness.go:129-132 | with no-cache, or with nothing that grants time, it is never fresh after its arrival |
| `FreshRules.StaleUseDecided` | freshness.go:134-142 | it may be used stale while it is refreshed for as long as stale-while-revalidate says, and never under must-revalidate or proxy-revalidate |
| `FreshRules.AgeTold` | handler.go:1225-1232 | the Age is the whole seconds at arrival, by Age and transfer or by Date, and the whole seconds since |
| `FreshRules.KeptThroughWindows` | handler.go:909-932 | a response is stored for its freshness and the longer of its two stale windows |
| `FreshRules.HeldExactly` | internal/teststore/store.go:166-241 | a stored variant is listed and returned until its time has passed and not after; metadata as long as any write of its key asked for |
| `Freshness.FreshExactly` | freshness.go:144-158 | a full response is judged fresh if and only if it has just arrived, or its current age is within its lifetime and less than the one-year clamp has passed; judged implies truly fresh except at that instant |
| `Freshness.NoCacheHitAtArrival` | handler.go:192-192 | a no-cache response with an Age is a hit at the instant it arrived and never after |
| `Freshness.AgeTrue` | handler.go:1225-1232 | the Age sent is the true age in whole seconds, or one less |
| `Freshness.AgeKeptByRefresh` | handler.go:620-633 | a confirmation changes no Age: it keeps counting from the first response |
| `Freshness.VerdictsInOrder` | handler.go:184-226 | between writes the verdict only moves from fresh to stale-while-revalidate to revalidate, also under soft purge |
| `Freshness.StaleWindowExactly` | handler.go:620-633 | after a full or a refreshing write the stale window is exactly the promised one, and empty under must-revalidate or proxy-revalidate |
| `Freshness.HeldUntilStaleLimit` | handler.go:909-932 | at every instant before the promised stale limit the store still has the metadata, lists the variant and returns it |
| `Freshness.SumsFit` | freshness.go:90-158 | with deltas below 2^31 seconds and clocks below 2^61 nanoseconds no sum or product leaves the 64-bit range |
| `HandlerCode.ExtractVaryHeaderNames` | header.go:122-136 | the loop collects the trimmed, canonical names of all Vary fields without repetition |
| `HeaderRules.VaryExactly` | header.go:122-136 | a response varies on exactly the names its Vary fields mention between commas, in canonical form, each once |
| `HandlerCode.ProtoHeaders` | handler.go:1186-1214 | keeps exactly the fields that are neither hop-by-hop, nor Set-Cookie, nor named by Connection |
| `HeaderRules.StoredExactly` | handler.go:1159-1214 | every field is stored unchanged unless it belongs to the connection, is named by Connection, or is Set-Cookie |
| `HandlerCode.MergeHeaders` | handler.go:594-607 | a confirmation's storable fields replace the stored ones, all others stay |
| `HandlerCode.Titip.constructor` | titip.go:40-116 | a new cache is the start of every run |
| `HandlerCode.Titip.SaveVariantToStorage` | handler.go:849-944 | the store afterwards is that of `Save`: packed body, compiled fragments, own or matched key, promised expiry |
| `HandlerCode.Titip.InspectAndPrepareEsi` | handler_esi.go:15-21 | responses the ESI processor takes are compiled to the fragments of their body, or the scan dies on exactly the documents it cannot read |
| `HandlerCode.Titip.LoadDecompressed` | handler_context.go:99-155 | returns the decoded body or nothing; only a body that does not decode to its length is marked for revalidation |
| `HandlerCode.Titip.FetchOriginMiss` | handler.go:350-502 | passes cookies and streams through, stores what may be stored, answers from the origin |
| `HandlerCode.Titip.ServeCachedHit` | handler.go:249-296 | answers from the store, or as a miss when the body cannot be loaded |
| `HandlerCode.Titip.ServeSWR` | handler.go:299-347 | answers from the store and leaves one background refresh |
| `HandlerCode.Titip.RefreshStored` | handler.go:592-641 | after a 304: merged fields, moved expiry, same body |
| `HandlerCode.Titip.FetchOriginRevalidate` | handler.go:505-822 | recheck, then origin, then the answer from the result, for a flight nobody else waits for |
| `HandlerCode.Titip.AskOrigin` | handler.go:551-671 | one landing: refresh on 304, stale copy on failure, otherwise prepare, store and return the response |
| `HandlerCode.Titip.EvaluateFreshness` | handler.go:184-226 | chooses hit, update or revalidation as `ServeMatched` does |
| `HandlerCode.Titip.ServeHTTP` | handler.go:117-181 | one lookup changes the store and answers exactly as `Serve` says |
| `HandlerCode.Titip.Handle` | handler.go:117-118 | a whole request: its primary key is the one generated from the HTTP request |
| `CacheAnswers.MissAnswered` | handler.go:350-502 | on a miss the client gets the origin's status, body and fields without those of the connection, and the places of its tags; a reply with cookies or a stream as it is; a 304 if its precondition is met; an error if the origin or the compiler fails; a timeout if it asked for stored copies only |
| `CacheAnswers.LostBodyAnswered` | handler.go:268-296 | so does a client whose stored copy cannot be read |
| `CacheAnswers.CorruptMarked` | handler_context.go:99-155 | a body that was read and does not unpack marks its entry; one that could not be read, or has an unknown codec, marks nothing |
| `CacheAnswers.RevalidationAnswered` | handler.go:786-822 | a full response to a revalidation reaches the client the same way, with all its fields unless it has tags |
| `CacheAnswers.HitAnswered` | handler.go:184-296 | a fresh copy answers without the origin and changes nothing: 304 or 412 as the client's preconditions say, else status, fields and body as stored |
| `CacheAnswers.UpdatingAnswered` | handler.go:299-347 | a copy in its stale window answers too and leaves exactly one background refresh of its key |
| `CacheAnswers.ConfirmedAnswered` | handler.go:594-641 | after a 304 the stored status and body answer, with the confirmation's fields over the stored ones, field by field |
| `CacheAnswers.FailureAnswered` | handler.go:568-590 | when the origin fails, the stored copy answers as it is and nothing changes |
| `CacheAnswers.MeanwhileAnswered` | handler.go:530-549 | a copy found fresh when the flight looks again answers, and nobody asks |
| `CacheAnswers.OnlyIfCachedAnswered` | handler.go:213-222 | an expired copy does not answer a request for stored copies only |
| `CacheServes.FirstRequestStores` | handler.go:443-452 | the response to a first request is stored, under the key its own Vary gives, if and only if it may be shared and can be written: status, body, storable fields, tags and validator as received, metadata by its directives |
| `CacheServes.SecondRequestHits` | handler.go:117-296 | from end to end: as long as it is fresh, every request for the key that agrees on the headers it varies on is answered with it |
| `CacheServes.RefreshReplaces` | handler.go:946-997 | a background refresh puts the new response in the place of the old one, or changes nothing if it may not be stored |
| `CacheServes.ConfirmationStores` | handler.go:592-641 | a confirmation that grants time keeps body, status, variant list, creation time and tags, lays its fields and validator over the stored ones, moves the expiry and clears the mark; any other changes nothing |
| `CacheServes.PackedExactly` | handler.go:866-889 | bodies are stored packed if and only if they are large, not encoded, of a type worth packing, and the codec works |
| `HandlerCode.Titip.RevalidateOriginAsync` | handler.go:946-997 | a background refresh changes the store as the run step says |
| `Handler.IdentityIsLossless` | compress.go:115-143 | storing bodies as they are meets what runs assume of codecs |
| `CacheRuns.StepKeeps` | handler.go:117-997 | every request, background refresh and purge keeps: each entry decodes to the body last saved under its keys and has the fields the writes gave it, each expiry is the one promised |
| `CacheRuns.RunKeeps` | handler.go:117-997 | hence so in every reachable state |
| `CacheLaws.BodyServed` | handler.go:249-347 | in every run, every HIT, UPDATING, STALE or REVALIDATED answer has the status and, byte for byte, the body of the most recent full response saved under its keys |
| `CacheLaws.FieldsServed` | handler.go:594-607 | in every run, an answer from the cache carries the storable fields of the last full response with every confirmation since laid over them in order, section 4.3.4 of RFC 9111 |
| `CacheLaws.SplicedServed` | handler.go:249-347 | in every run, splicing an answer from the cache at its stored fragments emits what a left-to-right reader of its body emits, whatever the fragments resolve to |
| `CacheLaws.ServedForSameParts` | handler.go:117-181 | in every run, a request served from the cache agrees with the one that fetched the answer on cleaned path, host, included scheme, filtered query, included headers and cookies |
| `CacheLaws.UngroundedCodecMisleads` | handler.go:581-586 | without the condition that empty bytes decode to nothing, a failing origin and storage let a wrong body through |
| `CacheLaws.StoredMayBeShared` | handler.go:1186-1214 | in every reachable store each body came from a GET whose response may be shared, and no Set-Cookie or hop-by-hop field is stored |
| `CacheLaws.KindsJudged` | handler.go:184-226 | the cache answers without the origin only for an unmarked entry judged fresh or within its stale window |
| `CacheLaws.FreshnessServed` | handler.go:901-912 | in every run, a HIT is truly fresh by the last write to its primary key, and an UPDATING answer lies in that write's stale window and carries no must-revalidate |
| `CacheAge.AgeAnswered` | handler.go:249-347 | an answer from the cache is given no Age if and only if it is a HIT to a HEAD request or with an empty body; all others get the age of their metadata at that instant |
| `CacheAge.AgeServed` | handler.go:1225-1232 | in every run, while a full response is the last write to its key, the Age given to an answer is the true age in whole seconds or one less |
| `CacheAge.SilentHitAge` | handler.go:250-258 | in every run, a HIT given no Age shows the one stored with the response, or none; while that response is the last write it is below the true age if and only if a whole second has passed in transfer, before arrival or in the cache |
| `CacheLaws.LeaksExactly` | handler.go:901-908 | in every run, a stored variant is used only while its own last response is fresh if and only if the last write to the primary key expires no later than that response |
| `CacheLaws.LeakAcrossVariants` | internal/teststore/store.go:261-273 | storing one variant makes every other listed variant fresh, expired or soft-purged as it may be |
| `CacheFailures.EmptyBodyNotRefreshed` | handler.go:592-641 | the origin's 304 goes on to the client if and only if no bytes were stored, and then nothing is stored |
| `CacheFailures.StaleServedExactly` | handler.go:505-650 | in every run, an answer is stale if and only if the request had to ask, and a copy turned up fresh meanwhile or the origin failed while the stored one could be read; no directive takes part |
| `CacheFailures.RefreshIgnoresNoStore` | handler.go:619-633 | a 304 that forbids storing leaves things unchanged if and only if it grants no lifetime, the cache is closed or the write fails; otherwise it prolongs the entry |
| `CacheVary.RunKeyed` | handler.go:891-899 | in every run, every saved response and every background refresh keeps to a key its own request has by the Vary of some write to its primary key |
| `CacheVary.VariantServedByMetadata` | handler.go:159-181 | in every run without delimiters in names and values, whatever the origin varies on, an answer from the cache goes to a request that agrees with the one that fetched it on every header the metadata lists then; so it agrees on the response's own Vary if and only if it agrees on those names the metadata does not list |
| `CacheVary.VariantServedToMatching` | handler.go:159-181 | hence, where the origin varies on one list per primary key, a stored variant answers only requests that agree, header by header in normal form, with the one that fetched it, whatever bytes names hold; section 4.1 of RFC 9111 |
| `VaryChange.FiledByOwnVary` | handler.go:891-899 | a response stored by a request is filed under the key its own Vary gives if and only if the lookup found no metadata, metadata that lists no header, or metadata that lists the same headers |
| `VaryChange.ChangedVaryServesAcross` | handler.go:891-899 | a run in which the Vary list changes and changes back, and a stored variant answers a request that differs in a header it varied on |
| `VaryInstance.ChangedVaryInstance` | handler.go:891-899 | that run on one-letter headers: the origin varies on A, on A and B, on A, and the response to B: P answers B: Q |
| `CacheFlights.LandingIsLand` | handler.go:551-671 | a flight's reply changes the store and yields a result exactly as the handler specifies |
| `CacheFlights.RecheckIsLook` | handler.go:530-549 | the two reads of a flight are the recheck of the handler |
| `CacheContacts.MoveKeeps` | handler.go:505-671 | every step of a flight, a request or another user of the store keeps the invariant of the machine |
| `CacheContacts.OneFlightAtATime` | handler.go:523-523 | at any time at most one flight of a key is under way |
| `CacheContacts.ContactsSeparated` | handler.go:506-671 | in every interleaving, of two flights for one primary and variant key that asked the origin the first had ended, and its answer was not stored, or under another variant key or without bytes, or the key was written or purged after it, or the second recheck came at or after expiry, or could not read |
| `CacheContacts.WaitersShareResult` | handler.go:674-822 | in every interleaving, a request that was served got the answer its own headers give to the result of a flight with its flight key |
| `FlightKeys.FlightKeysEqualExactly` | handler.go:506-506 | two pairs of primary and variant key share a flight if and only if they are equal, or one primary key is the other, a colon and some text, and the other variant key is that text, a colon and the first variant key |
| `FlightKeys.WaitersOwnKeys` | handler.go:506-506 | where primary keys hold no two colons in a row, the flight that served a request was for its own primary and variant key |
| `FlightKeys.FlightKeyDecodes` | handler.go:506-506 | flight keys of such primary keys determine primary and variant key |
| `FlightKeys.KeySingleColons` | cache_key.go:99-211 | primary keys of colon-free paths and hosts are of that kind |
| `FlightKeys.FlightKeysCollide` | handler.go:506-506 | a request whose path spells out how another key goes on after its path shares a flight with a request for that key whose varying header spells out the rest; the primary keys differ |
| `FlightKeys.FlightKeysCollideInstance` | handler.go:506-506 | host x, path /a, Vary H and H: y:m=GET::default, against host y, path /a:h=x:m=GET: and no Vary |
| `FlightKeys.StrangerServed` | handler.go:523-822 | for any two requests with one flight key there is a run in which the second is answered with what the origin answered to the first |
| `FlightKeys.StrangerServedInstance` | handler.go:523-822 | in the instance, the request for host y gets the response of host x |
| `CacheContacts.SharedCookies` | handler.go:786-806 | in every interleaving, a request handed a full response is told its cookies if and only if the response holds ESI tags or nobody else joined the flight |
| `CacheOverlap.StoredBodySource` | handler.go:592-671 | in every interleaving, a stored body is that of another write of its key, of a full response to a revalidation of its primary key, or the copy some request entered revalidation with |
| `CacheOverlap.OlderBodyWrittenBack` | handler.go:592-641 | a run in which a newer body is stored while a confirmation is under way, and the confirmation puts the older body back, fresh again |
| `CacheContacts.SoftPurgeSticks` | internal/teststore/store.go:347-350 | after a soft purge no request is a HIT, UPDATING or storage-only 304 until the key is written again, however other operations interleave |

## Left out

- storage/redis: its meaning rests on a Redis server, scripts and cursors outside the repository.
- adapter/caddy and storage/redis/caddy: configuration parsing and framework wiring.
- lz4 and zstd: a codec is a pair of functions, of which losslessness is assumed where stated; content types that skip compression are a parameter.
- Cache-Control, HTTP dates, tag lists, the tiered choice among Cache-Control headers and URL text: taken as parsed inputs; header names are taken in canonical form.
- Request guards ahead of the lookup (WebSocket, event streams, ranges, client no-store) and invalidation after mutating methods: they only bypass the cache or issue purges the model has.
- HTTP preconditions: their outcome is an input of a request.
- Deadlines and tag timeouts: a listener of an ESI fetch may release at any time.
- esi/ssrf.go, outbound HTTP and in-process fetchers: a function from URLs to answers.
- EsiScan.ParseInclude: keeps the timeout attribute as text, because turning it into milliseconds is the standard library's duration parser.
- Surrogate-Control handling (a parameter), fragment error details and durations, pools, logging, metrics, Server-Timing and Cache-Status text.
- Zero-copy mode and hooks of the in-memory store, and nil metadata or variants passed to it.
- Trimming and lower-casing are modelled for ASCII, and glob patterns for bytes below 128.
- EsiConcurrent: the worker pool is a step relation over values; the methods of `EsiRun` fill the results one after the other.
- EsiExec.ExpandLawful: says nothing about cycles through alt targets, because the code does not check them; depth alone bounds them.
- CacheLaws.BodyServed: is about runs in which requests do not overlap; an overlapping revalidation may write back an older body (`CacheOverlap.OlderBodyWrittenBack`), and `CacheOverlap.StoredBodySource` says what else a stored body can be. Bodies are those before splicing, which `CacheLaws.SplicedServed` adds.
- CacheLaws.FieldsServed: is about the fields before the ESI processor reconciles those of an answer with fragments (esi/processor.go:412-438): it removes ETag and Last-Modified or weakens the ETag, corrects Content-Length and adds the fragments' cookies.
- CacheLaws.FreshnessServed: judges by the last write to the primary key, because expiry is kept per primary key.
- HandlerCode.Titip.FetchOriginRevalidate: runs a flight alone; flights shared by several requests are the machine of `CacheFlights`, a step function over values. An answer that cannot be decoded is a single empty outcome.
- HandlerCode.Titip.ServeCachedHit: like `ServeSWR` and `FetchOriginMiss`, answers with the stored or received fields and the fragments to splice; splicing is `CacheLaws.SplicedServed`, and the reconciling of fields named above is not part of this model.
- CacheVary.VariantServedByMetadata: asks for names and values without the variant key's delimiters; what delimiters do to the keys is `VariantBars.KeysEqualExactly`.
- CacheContacts.ContactsSeparated: speaks of flights for one primary and variant key; a stored answer filed under another variant key does not help the next flight, so that case is among the causes.
