# WaxBin, modelled

A Dafny model of the algorithms and protocols at the core of the WaxBin catalog engine, with
proofs over every input, every run or every interleaving. The store, the network, the
filesystem and the providers are parameters: functions from "the n-th time it is asked" to an
answer, failures included. `dafny verify dfyconfig.toml` checks the whole project.

| file | models |
|---|---|
| `Common.dfy` | what the others share |
| `Complexes.dfy`, `Fft.dfy` | the in-place radix-2 transform, against the discrete Fourier transform |
| `EncodingGroups.dfy` | grouping alternate encodings, against connected components |
| `Handoff.dfy` | the maintenance hand-off and the hooks a host hears |
| `Breaker.dfy` | provider calls and the circuit breaker, against the history of calls |
| `Gathers.dfy`, `FieldGathers.dfy` | what one target collects from the providers |
| `EnrichRun.dfy` | the whole enrichment pass: sweeps, phases, pages, budget, stalls, progress |
| `ReleaseMatch.dfy`, `GroupBrowse.dfy` | the release edition matcher, and the browse and memo that feed it |
| `KindOrder.dfy` | the read order of a kind change |
| `RefLadder.dfy`, `RefDigest.dfy` | resolving one portable reference, and a batch of them |
| `JobDrain.dfy` | starting jobs against closing the library |
| `RootSet.dfy` | the registered roots and every mutation of them |
| `Geometry.dfy` | block reduction, orientation and the size a thumbnail ends at |

## How to read it

- A method keeps the source's loops and fields, and its `ensures` ties it to a reference that is
  not its own body: a sum, a path, a history, a least element, an order. The lemmas then prove
  what the source promises about that reference.
- The transform is over exact complex numbers. `root(L)` stands for the cosine and sine of
  -2π/L; all that is asked of it is that each stage's root squares to the stage below's and that
  the root of 2 is -1. Which sums the transform computes does not depend on anything else.
- A gather's `visits` are its history, one entry a provider: whether the gather wanted it, whether
  it was out of the pass, and what it answered. References such as `FrontOf`, `AuxOf` and
  `FieldsOf` are defined over that history alone, and `OutWhenTripped` says that a provider is out
  exactly when the calls before end in three failures in a row.
- A path is the sequence of its components, so lying under a root is having it as a prefix.

## Where the code and what is said of it part

- One browse per group per run, and one refresh (enrich/enrich.go:1905), does not hold for a release
  group the server answers 404 for: that answer is usable and is not cached, so each album of the
  group browses it again. `GroupBrowse.TwoBrowsesCondition` proves that two browses bound every run in
  which a group's browses end one way if and only if that way is not a 404, or the group is cached as
  the run begins (or has no id, and is never browsed); `UnknownBrowsedEachTime` has n albums make n
  browses.
- A reopen can bring an overlap: it registers the configured roots again without the check an open
  makes of them. `RootSet.EnsuredApart` proves that the rows stay apart if and only if every
  configured root is a row, or is clear of the rows and of every other configured root.
  `ReopenUnderParent` is a hand-off in which another process takes a configured root out and adds the
  folder above it; `ReopenDuringRemoval` an owed reopen finished by a hand-off while a forced removal
  runs and the folder above has been added.
- `AcceptSameRecording` can lose a match: a tie on the essence rung has its books' files listed to
  prove it one recording, and a failure of that fails the call before a later rung is asked.
  `RefLadder.OptionKeepsMatches` proves that a match is kept if and only if no book of such a tie has
  files that cannot be listed, or an item before it is a cue window or a book of several parts;
  `OptionCanCostAMatch` has two single-file books lose one.
- `OnSuspend` and `OnReopen` alternate in every run if and only if both are set, or neither, or the
  library is read-only with `OnReopen` alone (`Handoff.AlternationCondition`). `Unpaired` gives a
  failing run for each other configuration.
- A provider that never succeeds can be called more than three times: the breaker does not count calls
  cut off by the run's own cancellation, and a target's later gathers still make theirs.
  `EnrichRun.ThreeCallsCondition` proves that three calls bound every history of a run if and only if
  the last target looked up has one gather or none. A run that is not cancelled keeps to three. In a
  cancelled one the most is two and one for each gather of the target in hand
  (`SilentProviderBound`), and no less will do (`BoundAttained`): four for a release group, which asks
  for genres and then art, and `CutOffRun` makes the four through those gathers. The names of a pass's
  providers are taken to be distinct, as its list makes them (enrich/enrich.go:454-474).

## Model

| member | source | states |
|---|---|---|
| `Fft.Fft` | fingerprint/fft.go:9-42 | for every power-of-two length and every signal, the arrays end up holding its discrete Fourier transform |
| `Fft.BitReverse` | fingerprint/fft.go:13-23 | the first loop leaves the signal in bit-reversed order |
| `Fft.NextReversed` | fingerprint/fft.go:14-18 | the reversed counter steps from the reversal of q to the reversal of q + 1 |
| `Fft.SwapSettles` | fingerprint/fft.go:19-22 | index i's exchange, made only when i is below its reversal, puts both where they belong and disturbs no pair already exchanged |
| `Fft.RevInvolution` | fingerprint/fft.go:13-23 | bit reversal is its own inverse below the length |
| `Fft.Butterflies` | fingerprint/fft.go:30-40 | with its running twiddle a block becomes the combination of its two halves, and nothing outside the block changes |
| `Fft.Stage` | fingerprint/fft.go:25-41 | one pass turns transforms of every half block into transforms of every block |
| `Fft.BinIsButterfly` | fingerprint/fft.go:31-38 | bin k of a transform is the butterfly of bin k of the transforms of the even and odd samples, both halves of the butterfly |
| `Fft.RootHalfway` | fingerprint/fft.go:26-27 | halfway round, the power of a stage's root is -1, from the squaring law alone |
| `Fft.TransformIsDft` | fingerprint/fft.go:25-41 | the stages over the bit-reversed signal compute its transform |
| `Fft.BlockIsDftOfSubsequence` | fingerprint/fft.go:25-41 | after stage l, block b holds the transform of the samples at stride n/2^l from the reversal of b |
| `EncodingGroups.EncodingComponents` | upgrade.go:101-137 | returns exactly the connected components of two or more that hold a listed item, over the graph without vanished items, pairwise disjoint; the set of them depends on the set of listed items and not their order; it succeeds if and only if no item the walks come to fails its probe and the context outlasts one dequeue of each of them, and otherwise names a probe of theirs that failed, or says the context ended first |
| `EncodingGroups.Walk` | upgrade.go:109-132 | a seed's queue walk terminates with its whole component, or nothing for a vanished seed, and leaves the visited set closed under similarity; it asks each item it comes to once, checking the context ahead of each |
| `EncodingGroups.SameComponent` | upgrade.go:95-100 | for a symmetric relation any two connected items have the same component, so any seed of it will do |
| `EncodingGroups.GraphMeans` | upgrade.go:101-128 | two items are neighbours when both are still there and a probe of the one lists the other by a non-empty pid; a walk begins at every listed item with a file |
| `Handoff.Library.FinishReopenLocked` | serve.go:158-185 | an owed reopen is paid whole, with its row and its hook, or stays owed untouched |
| `Handoff.Library.DoReopen` | serve.go:139-154 | what a reopen does to the store, the owed flags, the rows and the hooks, failures included |
| `Handoff.Library.DoBeginMaintenance` | serve.go:58-106 | the same for a hand-off, with a failure allowed at every step; it succeeds if and only if the store is open, what was owed is paid, no job runs before the hook or after it, the position can be read, and the store lets go |
| `Handoff.Library.Drive` | serve.go:58-185 | any sequence of calls takes the object where the specification's run does |
| `Handoff.RunKeeps` | serve.go:58-185 | in every run and configuration: a reopen is owed only while the store is open, every replaced catalog has one row or is owed it, and hooks set as a pair bracket |
| `Handoff.EveryRun` | options.go:99-118 | with both hooks set, whatever the feed stands at and whatever the host writes between calls, they strictly alternate from OnSuspend on, one stands unanswered exactly while the store is closed or a reopen owed, and the rows are, in order, the positions of the OnReopens with Replaced set |
| `Handoff.AlternationCondition` | options.go:99-118 | the hooks alternate in every run if and only if they are set as a pair, or the library is read-only with OnReopen alone |
| `Handoff.Unpaired` | serve.go:70-86 | a run that breaks the alternation for every other configuration |
| `Handoff.OwedIsNotLost` | serve.go:58-66 | after any call an owed reopen is still owed unchanged, or the next hook heard is its OnReopen with its own Replaced flag |
| `Handoff.OwedIsPaid` | serve.go:158-185 | once the collaborators answer, the next call of either kind pays it, row and hook |
| `Handoff.JobsAreNotCutOff` | serve.go:67-86 | a hand-off never closes the store while a job runs or may run, and one refused before the hook has done no more than pay what was owed |
| `Handoff.HandOffTells` | serve.go:70-105 | one that goes through leaves the store closed and the host told OnSuspend and nothing more |
| `Handoff.RefusalTells` | serve.go:71-85 | one refused after the hook answers it with the position read before it, whatever the hook wrote |
| `Handoff.FailedSuspendReopens` | serve.go:92-104 | a suspend that fails reopens as a call of Reopen would |
| `Handoff.ReopenTells` | serve.go:139-185 | what a reopen of a suspended library leaves and tells, for every answer of the store and the finishing steps |
| `Breaker.RunState.CallProvider` | enrich/enrich.go:2429-2449 | the counters keep saying what the history of calls says: a provider is tripped exactly when its calls end in three failures in a row; an error is an aborted call exactly from the moment the context is done, which it stays |
| `Breaker.TracksStep` | enrich/enrich.go:2429-2449 | the failure map and the trip set follow the history over each kind of reply, an aborted call counting for nothing |
| `Breaker.TrippedStaysOut` | enrich/enrich.go:2429-2449 | over every run, once a provider has tripped no later call is made to it |
| `Breaker.SilentProviderCalls` | enrich/enrich.go:2429-2449 | a provider that never answers is called its streak plus its aborted calls |
| `Breaker.CutOffShort` | enrich/enrich.go:2433-2437 | a provider with a call cut off never comes to trip: its streak was short of three then, and an error is no failure after |
| `Breaker.OneCallEach` | enrich/enrich.go:2289-2312 | one gather calls each provider once at most |
| `Breaker.RunState.Live` | enrich/enrich.go:1209-1216 | says whether some provider serving the rung is still in the pass |
| `Breaker.ServesMeans` | enrich/enrich.go:2509-2514 | a provider serves a rung if it advertises a wanted capability and, where it declares its rungs, declares it for that one |
| `Gathers.GatherArt` | enrich/enrich.go:2272-2378 | the art held is the first usable offer for each role over the providers consulted; each provider is wanted exactly while it serves an open slot; a half is short exactly when it is open and a provider serving it failed or was out; a front image and the group's front never both stand |
| `Gathers.FirstOfferWins` | enrich/enrich.go:2343-2364 | a role is held if and only if someone offered it, with the first offer made of it and that provider's name |
| `Gathers.FirstFrontWins` | enrich/enrich.go:2326-2342 | the front is open if and only if no front provider's answer settled it, and otherwise is what the first that did said, the group's picture winning over bytes beside it |
| `Gathers.AnsweredVisit` | enrich/enrich.go:2321-2364 | taking one answer in as the loop does is what the reference makes of one more visit, counts and credited names included |
| `Gathers.TakeOffers` | enrich/enrich.go:2343-2364 | whatever order the offered roles come in, only open slots are filled and the auxiliary count grows by the non-front roles filled |
| `Gathers.SlotsOpen` | enrich/enrich.go:2294-2295 | the auxiliary count falls short of the roles exactly while one is open, and the front is open exactly when neither answer stands |
| `Gathers.OffersMean` | enrich/enrich.go:2343-2354 | an answer offers exactly the images with bytes under the entity's roles, in the provider's name |
| `Gathers.HalvesMean` | enrich/enrich.go:2272-2376 | a half is short if and only if a provider serving it failed or was out and its slots are open at the end; a walk that wants the front alone, or that nobody serves the rest for, ends at the first to settle it, and any other goes over every provider |
| `Gathers.FirstAuxIs` | enrich/enrich.go:2355-2363 | the auxiliary images are credited to the first provider that offered any |
| `Gathers.SlotsAre` | enrich/enrich.go:2467-2484 | which capabilities stand for the front and the other roles, and which roles there are, for an artist and for the rest |
| `FieldGathers.GatherFields` | enrich/enrich.go:2042-2085 | the values and names are the first offers of each allowed key, asking every remaining provider, whatever it answered, would change none of them, and the walk stops at the first answer that leaves nothing open |
| `FieldGathers.FirstFieldWins` | enrich/enrich.go:2043-2077 | a key is held if and only if someone offered it a value that is not blank, with the first such value and its provider |
| `FieldGathers.FieldMeans` | enrich/enrich.go:2043-2077 | a candidate offers an allowed key its field when that has text, and for a book otherwise the publisher, asin or isbn slot of that key |
| `FieldGathers.NothingToGain` | enrich/enrich.go:2078-2080 | once every allowed key is held no further answer matters, so the early stop loses nothing |
| `FieldGathers.GatherGenres` | enrich/enrich.go:2166-2229 | the merged genres, the primary's provider and the shortfall, from the calls made and the baseline at the MusicBrainz entry's place |
| `FieldGathers.MergeKeeps` | enrich/enrich.go:2201-2228 | no key repeats, at most six names are credited to other providers, every MusicBrainz key is there, and another's key is missing only at the cap |
| `FieldGathers.MergeGrows` | enrich/enrich.go:2205-2227 | what is kept is kept in order: further entries only add to the end |
| `FieldGathers.CandidatesAre` | enrich/enrich.go:2166-2199 | each provider's genres stand at its own place, the baseline at MusicBrainz's |
| `FieldGathers.PrimaryIs` | enrich/enrich.go:2222-2224 | the display genre is credited to the provider of the first genre kept |
| `FieldGathers.BaselineKept` | enrich/enrich.go:2166-2229 | wherever MusicBrainz is listed, every key of its baseline is in the merge |
| `FieldGathers.GatherLyrics` | enrich/enrich.go:2110-2148 | the first provider with words ends the walk and is credited; a shortfall is reported only with none found |
| `FieldGathers.GatherAuxArt` | enrich/enrich.go:1816-1853 | the auxiliary roles alone, first offers, stopping at the first answer that leaves every one held and not before |
| `EnrichRun.Pass.Run` | enrich/enrich.go:761-819 | every run terminates; it is not broken off if and only if no page failed, every check found the context alive, no lookup aborted and every beat was taken, and then every scheduled sweep of every phase has ended; it walks at most Limit targets, counts each in its phase and its reach list, walks no target of a later sweep before every phase has exhausted or stalled on the earlier ones, walks the phases of a sweep in their order, walks a forced phase on the first sweep alone, beats once for each target and each stall, never falling and below 1 until the last, has every aborted call among those of the last target looked up, and calls a provider that never answers three times at most unless cancelled, and then no more than the bound of `EnrichRun.SilentProviderBound` |
| `EnrichRun.Pass.RunSweep` | enrich/enrich.go:1294-1346 | a sweep that ends exhausted read pages until an empty one and walked every target on them but those whose due slots nobody left serves; ids rise; a stalled phase or a spent budget walks nothing |
| `EnrichRun.Pass.Turn` | enrich/enrich.go:1309-1343 | a target is walked, skipped because nobody left serves its due slots, or the phase stalls because nobody left serves it; a context found done, at this check or before, ends the run with nothing walked or called |
| `EnrichRun.Pass.Stall` | enrich/enrich.go:1353-1365 | a phase stalls at most once, with every provider serving it out and still out at the end of the run |
| `EnrichRun.Pass.LookUp` | enrich/enrich.go:1319-1322 | makes the target's gathers in order, each calling exactly the providers it wants that are still in the pass and nobody else; begun with the context alive, they are the only calls that can have been cut off, one of a provider each at most |
| `EnrichRun.SilentProviderBound` | enrich/enrich.go:1309-1312 | a provider that never answers is called three times at most in a run that is not cancelled or whose target in hand then has one gather, and otherwise twice and once for each gather of it |
| `EnrichRun.BoundAttained` | enrich/enrich.go:2429-2449 | a history with every one of those calls |
| `EnrichRun.ThreeCallsCondition` | enrich/enrich.go:2429-2449 | at most three calls of a provider that never answers, in every history, if and only if the last target looked up has one gather or none |
| `EnrichRun.CutOffRun` | enrich/enrich.go:1436-1470 | a run that calls a provider four times without an answer, through the genre and art gathers of two release groups, cancelled in the second group's genres |
| `EnrichRun.TotalsAgree` | enrich/enrich.go:630-634 | the phase counters' sum, the targets walked and the total length of the reach lists are equal |
| `EnrichRun.EarlierDone` | enrich/enrich.go:782-812 | with the budget unspent or spent, a target of a later sweep means every scheduled phase of the earlier ones exhausted or stalled |
| `EnrichRun.EverySweepEnded` | enrich/enrich.go:796-812 | with no budget, a run not broken off has exhausted or stalled on every sweep of every phase but the later ones of a forced one |
| `EnrichRun.CountersAre` | enrich/enrich.go:630-634 | each counter counts its own phase's targets |
| `EnrichRun.ReachIs` | enrich/enrich.go:849-1010 | each reach list holds exactly the ids its own phases walked |
| `EnrichRun.NeedMeans` | enrich/enrich.go:2479-2484 | a backfill target needs the capability of each half due on it |
| `EnrichRun.BackedStays` | enrich/enrich.go:1294-1346 | what an ended sweep covered stays covered as the run walks on and providers drop out |
| `EnrichRun.ProgressRises` | enrich/enrich.go:759-764 | however far the work runs past the count, the ratio never falls and stays below 1 |
| `EnrichRun.ProgressIs` | enrich/enrich.go:761-764 | the ratio is the share done of the total, or of one more than is done once that passes it |
| `ReleaseMatch.FormatClosure` | enrich/release.go:395-406 | for any table, cyclic ones included, terminates with exactly the reflexive-transitive ancestors, each once |
| `ReleaseMatch.FormatsCompatible` | enrich/release.go:422-427 | two formats are compatible if and only if one is an ancestor of the other, either way round |
| `ReleaseMatch.WideningKeepsCompatible` | enrich/release.go:395-427 | adding table entries never makes a compatible pair incompatible |
| `ReleaseMatch.SoleId` | enrich/release.go:187-199 | names an id if and only if the non-empty ids are one release up to letter case |
| `ReleaseMatch.SoleMatching` | enrich/release.go:204-212 | the same over the editions a predicate keeps |
| `ReleaseMatch.MediaCompatible` | enrich/release.go:453-466 | an edition fits if it lists no format or one compatible with an alternative |
| `ReleaseMatch.MatchEdition` | enrich/release.go:560-618 | nothing over an incomplete group; otherwise the one release carrying the barcode, or the one release the readable and affirmed alternatives leave, with the reason |
| `ReleaseMatch.EditionAnswerMeans` | enrich/release.go:560-605 | of the editions that list a country of the album's or none but supra-national codes, and a format akin to one of its or none, as far as the answer's reason names the column, one is the answer and all with an id are that release; the group is whole and within 300 |
| `ReleaseMatch.BarcodeAnswerMeans` | enrich/release.go:564-571 | an edition of the whole group carries the album's barcode, and all with an id that do are the answer |
| `ReleaseMatch.NoAnswerMeans` | enrich/release.go:560-593 | with no answer over a whole group, neither the barcode nor the columns used leave exactly one release |
| `ReleaseMatch.CountryColumnMeans` | enrich/release.go:502-555 | the country column is used if and only if it holds a two-letter code of one country and some edition lists one of its countries |
| `ReleaseMatch.MediaColumnMeans` | enrich/release.go:434-538 | the media column is used if and only if it names a format the tables or the group know and some edition lists a format akin to one of its |
| `ReleaseMatch.TrueEditionNamed` | enrich/release.go:560-605 | if the group holds an edition with an id that fits the media and country alternatives, any answer of the edition tier is that edition up to letter case |
| `ReleaseMatch.DroppingWidens` | enrich/release.go:610-618 | dropping a predicate only enlarges the survivors |
| `ReleaseMatch.TableWidens` | enrich/release.go:395-466 | adding to the format table loses no edition that fitted |
| `ReleaseMatch.OrderAndRepeatsDoNotMatter` | enrich/release.go:560-605 | permuting or repeating the editions of a complete group changes no answer, up to letter case |
| `GroupBrowse.Browse` | enrich/musicbrainz.go:384-430 | at most three requests, each made only while the total, within the cap, is unmet and the pages do not run dry; whole only with as many distinct ids as the first page's total, being every id on the pages read, each edition as it is first listed; short only once the pages ran dry or out |
| `GroupBrowse.MusicBrainz.ReleaseEditions` | enrich/musicbrainz.go:363-433 | every set ever cached is over the cap with no editions or holds at least Count distinct non-empty ids; a short or failed read is neither cached nor handed on; a cache that cannot be read, or decoded, fails the call before any browse but a forced one |
| `GroupBrowse.NeverDecidesOnPart` | enrich/release.go:233-235 | any answer of the matcher over a set handed on is over at least Count distinct releases |
| `GroupBrowse.RunMemo.MatchAlbum` | enrich/enrich.go:1914-1929 | what one album does to the run's memo and the cache, through the browse and the matcher themselves; it is judged if and only if its group was found usable, over what that browse found or the cache holds, and an answer is over a whole group as cached |
| `GroupBrowse.RunMemo.Drive` | enrich/enrich.go:1883-1932 | over a whole run of albums, whatever the server and the cache answer, every answer of the edition tier is over at least Count distinct releases of its group |
| `GroupBrowse.WhenNotBrowsed` | enrich/enrich.go:1914-1929 | a group found unusable is passed over but for its one refresh, an unreadable cache ends the run, and a group without an id is found unusable |
| `GroupBrowse.WhenBrowsed` | enrich/enrich.go:1914-1929 | an album browses its group if and only if it is the group's first forced ask, or the group is neither cached nor found unusable; and what each end of the browse leaves in the cache |
| `GroupBrowse.AtMostTwice` | enrich/enrich.go:1905-1929 | over every run a group is browsed at most twice beyond the browses that find it unknown, a browse that fails and ends the run included |
| `GroupBrowse.TwoBrowsesCondition` | enrich/enrich.go:1905-1929 | two browses bound every run in which a group's browses end one way if and only if that way is not a 404, or the group is cached as the run begins, or it has no id |
| `GroupBrowse.CachedBrowsedOnce` | enrich/musicbrainz.go:370-381 | a group cached as the run begins is browsed once at most, by its refresh |
| `GroupBrowse.UnknownBrowsedEachTime` | enrich/musicbrainz.go:390-397 | n albums under an uncached group answered 404 browse it n times |
| `KindOrder.KindReadOrder` | kind.go:638-692 | the loops with their taken marks give the reference order, block by block |
| `KindOrder.Take` | kind.go:665-671 | a host's untaken encodings or copies are appended in order and marked, and no other mark changes |
| `KindOrder.EveryFileOnce` | kind.go:638-692 | every file is read exactly as often as the target lists it, book or not |
| `KindOrder.PartsFirst` | kind.go:672-681 | in a book's order every part precedes every primary |
| `KindOrder.HostInBlock` | kind.go:672-681 | in a book's order a part stands right after all of its other encodings and right before all of its copies, a primary right before both |
| `KindOrder.OwnedAre` | kind.go:665-671 | a host's encodings, or copies, are exactly the alternates whose first host at their position it is and that differ from it in essence, or do not, anchored at it |
| `KindOrder.OwnedCounts` | kind.go:665-671 | and each is there as often as the target lists it |
| `KindOrder.AnchorsFit` | kind.go:638-692 | an alternate's anchor is a file at its own position if there is one, and else the first primary |
| `KindOrder.HostsInOrder` | kind.go:672-681 | a book's parts and primaries are read in the order listed |
| `KindOrder.TrackOrder` | kind.go:651-663 | a track reads its primaries, its parts and its alternates, each in the order listed, the alternates anchored at the first primary |
| `KindOrder.RolesAre` | kind.go:639-649 | files are told apart by the role's name, anything but primary and alternate a part, keeping their order |
| `RefDigest.EncodeInjective` | share.go:545-567 | two references encode to the same bytes only if they are equal in every field |
| `RefDigest.TextSplits` | share.go:552-555 | a length-prefixed field ends where its prefix says, whatever follows, so neighbours cannot trade bytes |
| `RefDigest.NumInjective` | share.go:548-551 | the eight bytes of an int64 determine it, negative ones included |
| `RefDigest.ResolvePlaylistRefs` | share.go:515-540 | entry by entry and in order, what resolving each reference alone returns, each distinct reference resolved once; the first that fails fails the batch with its error |
| `RefLadder.EssenceCandidates` | share.go:253-283 | leaves exactly the items the ref can mean, each as often as the catalog lists it: admitted, of the ref's kind unless the hit is alone, and, when several are of the kind and the ref has a length, within the tolerance with no admitted one of the kind nearer |
| `RefLadder.NearestOf` | share.go:270-282 | the running best ends with exactly the items nearest the wanted length |
| `RefLadder.WholeFiles` | share.go:219-242 | fails if and only if a book's files cannot be listed with no cue window or book of several parts before it; true if and only if every item is a whole file |
| `RefLadder.ScoreLoop` | share.go:366-377 | the running best over the hits |
| `RefLadder.BestIsBest` | share.go:366-378 | it holds exactly the views with a hit at the greatest score among hits with a view |
| `RefLadder.UnscopedShortcut` | share.go:347-379 | when every hit's row is there, reading only the top scorers gives the same candidates as a scope that admits everything |
| `RefLadder.FingerprintMeans` | share.go:316-379 | the rung offers, each once, the rows of the admitted hits none of which is outscored: by another admitted one, or, unscoped, by any |
| `RefLadder.TiebreakMeans` | share.go:451-465 | of a tie the items on the album wanted stay, each as often; all of them when none is on it or none is wanted |
| `RefLadder.RungOffers` | share.go:96-142 | what each rung offers, when it fails, and which ties it proves one recording |
| `RefLadder.PresentFirst` | share.go:156-166 | the present item of lowest pid, or else the lowest pid of all |
| `RefLadder.ByPid` | share.go:148-152 | the tie's items, each as often, in pid order |
| `RefLadder.ResolveRefWith` | share.go:82-145 | the first rung that decides with no failure before it, and on a miss the first tie declined, the tie listed by pid |
| `RefLadder.LadderDecides` | share.go:86-142 | a sole candidate matches, a tie when the caller takes ties and the rung proves it; every rung before the answer found nothing or a tie it could not take |
| `RefLadder.RungsRise` | share.go:98-142 | which rungs are asked, strongest evidence first |
| `RefLadder.AnswersAdmitted` | share.go:82-145 | every item returned or listed as tied is admitted by the scope, and without AcceptSameRecording a match is a sole candidate |
| `RefLadder.OptionKeepsMatches` | share.go:82-145 | turning AcceptSameRecording on keeps a match, never on a later rung and on the same rung by the same item, if and only if no book of the essence tie has files that cannot be listed with nothing partial before it |
| `RefLadder.OptionCanCostAMatch` | share.go:219-242 | two single-file books of the same bytes, one's files not to be listed, over a sole strong id: a match without the option, a failure with it |
| `JobDrain.KeepsInv` | serverjobs.go:36-71 | every step of a starter, a job or a closer keeps the account of the lock, the wait group, the channels and the store |
| `JobDrain.NoJobOutlivesTheStore` | waxbin.go:397-406 | in every interleaving no job's body, nor the rest of its run, is under way once the store is closed; each start has at most one outcome, and hears that it started if and only if its body was entered |
| `JobDrain.SendsDoNotBlock` | serverjobs.go:53-68 | a job's send finds its one-place channel empty |
| `JobDrain.ClosedRefuses` | serverjobs.go:48-52 | once the flag is set no start passes the check, and one at the check is refused |
| `JobDrain.LateStartsNeverRun` | serverjobs.go:45-52 | a start not past the check when the flag is set never has a job, however the run goes on |
| `JobDrain.WaitersAreAnswered` | serverjobs.go:63-71 | a start still waiting when its job is over has its outcome to take |
| `JobDrain.StartsNotStuck` | serverjobs.go:36-71 | the start that holds the lock, every start that wants it free and every job can take its next step |
| `JobDrain.ClosesNotStuck` | waxbin.go:397-406 | so can the close that holds it or wants it free, one that drains once no job is left, and one that has drained |
| `JobDrain.WholeRun` | serverjobs.go:36-71 | a run in which a job is started and answered, the library closed while it runs, a later start refused, and the store closed once the job is gone |
| `RootSet.Pairs` | config/config.go:303-328 | exactly the pairs the rules keep apart: two roots, an inbox and a root, the podcast dir and either |
| `RootSet.Validate` | config/config.go:287-292 | refuses if and only if some such pair overlaps |
| `RootSet.OverlapThroughLinks` | config/config.go:350-362 | refuses if and only if a pair with the candidate reaches overlapping folders without overlapping as spelled |
| `RootSet.Roots.ValidateRootSet` | waxbin.go:793-864 | accepts if and only if the configured rules, the rules through links and the podcast rows all do |
| `RootSet.AcceptedIsClear` | waxbin.go:793-864 | an accepted candidate overlaps no stored root but the one it stands in for, no podcast row, inbox or podcast dir |
| `RootSet.AcceptedReachesClear` | waxbin.go:793-864 | nor do the folders they reach on disk |
| `RootSet.AcceptedMeans` | config/config.go:350-380 | nothing else is refused: acceptance is exactly the rules as spelled and the candidate's pairs and podcast rows as reached |
| `RootSet.RulesMean` | config/config.go:287-328 | the rules hold if and only if no two roots, no inbox and root, and the podcast dir and neither overlap |
| `RootSet.OverlapMeans` | config/config.go:287-292 | two folders overlap if and only if some path lies under both |
| `RootSet.Roots.AddRoot` | waxbin.go:591-632 | keeps the stored roots apart; succeeds exactly when accepted, walkable and not being removed; adds a row only for a new path; never answers with the library being removed |
| `RootSet.Roots.RelocateRoot` | waxbin.go:4776-4823 | keeps them apart; succeeds exactly when the library is there, no podcast one, and the path accepted and walkable; moves its row and its configured entries together and nothing else |
| `RootSet.Roots.BeginRemoval` | waxbin.go:726-770 | marks the library if and only if it is there, no podcast one, and unconfigured or forced |
| `RootSet.Roots.DeleteRow` | waxbin.go:703-722 | takes exactly the marked row out, a configured root that was a row still one or the one being removed |
| `RootSet.Roots.EndRemoval` | waxbin.go:742-751 | clears the mark and drops the configured root exactly when the library is gone |
| `RootSet.Roots.EnsureRoots` | waxbin.go:465-480 | registers every configured root that is no row; the rows stay apart if and only if each configured root is a row or clear of the rows and of the other configured roots; adds nothing when each is a row |
| `RootSet.EnsuredApart` | waxbin.go:465-480 | the same of the registration as a function of any rows and configuration |
| `RootSet.ReopenUnderParent` | serve.go:158-165 | a hand-off after which the reopen leaves two roots overlapping |
| `RootSet.ReopenDuringRemoval` | serve.go:58-69 | an owed reopen finished while a removal runs that leaves two roots overlapping |
| `RootSet.Roots.Drive` | waxbin.go:591-864 | any run of additions, relocations, removals step by step, hand-overs and reopens: the rows stand apart after each operation if and only if it is no reopen or meets the reopen's condition |
| `RootSet.LibraryAt` | waxbin.go:3498-3505 | a library whose root holds the path, or none when no root does |
| `RootSet.OneHolder` | waxbin.go:3497-3505 | with the roots apart at most one library's root holds a path |
| `RootSet.HolderInAnyOrder` | waxbin.go:3497-3505 | so any two answers over the same rows in any order are the same library |
| `Geometry.ReducedSide` | art/art.go:355-363 | a source over twice the box reduces to a longest side above one box and at most two; any other is left alone |
| `Geometry.EveryPixelOnce` | art/art.go:367-375 | every pixel is in exactly one block, one of the reduced picture's, and no block is empty |
| `Geometry.BlocksConserve` | art/art.go:367-387 | the blocks' sums add up to the whole picture's |
| `Geometry.AverageBlock` | art/art.go:376-384 | each byte is the high byte of its own channel's mean over the block |
| `Geometry.BoxReduce` | art/art.go:367-387 | one pixel a block, each the mean of its own block of the source |
| `Geometry.BlockMeanIs` | art/art.go:367-387 | each channel of a reduced pixel is the mean of that channel over the block whose sums are conserved |
| `Geometry.OrientationBijection` | art/art.go:463-498 | each code maps the shown picture into the source one to one and onto |
| `Geometry.OrientationIsTiff` | art/art.go:474-492 | each code places rows and columns at the sides the Orientation field in section 8 of TIFF 6.0 names for it |
| `Geometry.ShownIsTiff` | art/art.go:463-498 | for every code from 1 to 8 the picture shown has the size and, at each point, the pixel that section 8 of TIFF 6.0 puts there; any other code shows the picture as it is |
| `Geometry.Orient` | art/art.go:463-498 | the picture shown, pixel by pixel, or the source itself for a code that turns nothing |
| `Geometry.TurnedBack` | art/art.go:463-498 | turning by a code and then by its inverse, 6 with 8 and the others with themselves, gives back the size and every pixel as an eight-bit buffer keeps it |
| `Geometry.DimensionsFit` | art/art.go:515-528 | within the box the size stands; past it the longest side becomes the box, and no side grows or vanishes |
| `Geometry.ScaledIsNearest` | art/art.go:526-527 | each side is the whole number nearest its share of the box, and at least 1 |
| `Geometry.FitsTheBox` | art/art.go:325-353 | the same of the source's own size through reduction, orientation and fitting together |

## Left out

- The SQLite store, the scanner, the organizer, the tag writer and the job manager: collaborators whose answers are parameters. Assumed of them: keyset pages hold rising int64 ids past the cursor, which is what ends a sweep, and store calls fail while the store is closed.
- HTTP, JSON, SHA-256, image codecs, `identity.MatchKey` and genre splitting: parameters; the digest is assumed collision-free.
- Fft.Fft: over exact numbers, so it says nothing of float64 rounding.
- Geometry.DimensionsFit: over exact numbers for the same reason; the sums of a block are unbounded where the source's are uint64, which no decodable frame fills.
- The catalog-number and barcode searches ahead of the edition tier, and the building of media and country alternatives out of raw text: string parsing; the alternatives are inputs.
- ReleaseMatch.MatchEdition: the format tables, the foldings of formats, barcodes and ids, and the country codes are arbitrary, so the results hold for any of them.
- EnrichRun.Pass.LookUp: a target cut off by cancellation may still be counted, where the source's next store write would see the context done.
- The identity phases' MusicBrainz calls and what an enriched target writes: a target's lookup is the gathers it makes and whether it aborts, chosen freely.
- The tallies of matched, retried and deferred targets: plain increments beside the counters modelled.
- FieldGathers.GatherFields: a blank value is one of spaces, tabs and line ends, where the source also trims other Unicode space.
- Handoff.EveryRun: the calls of one handle come one after another, as the proxy lock makes them; a Close during a hand-off is not modelled, nor are writes made by the reopen's own steps.
- RefLadder.ResolveRefWith: pids are numbers, for their order; the rungs' own store queries are inputs, and what proves a tie by names one recording is arbitrary.
- KindOrder.KindReadOrder: a file is its pid, role, position and essence, the fields the order reads.
- RootSet.Roots.AddRoot: paths are already absolute and clean and compare exactly, without the case folding of Windows; modes and profiles are not kept; a removal excludes a second removal and a relocation, as the filesystem lease they share does, and a hand-off, as a running job does.
- The creation of the podcast library and the check of configured roots at open: not part of the runtime mutations modelled.
- JobDrain.KeepsInv: safety over steps; no fairness is assumed, so it does not say that a close ends.
- EXIF and JPEG segment parsing, the resampler, `doctor`, audit reports, logging and messages: input formats and presentation.
- Proxy handlers, wire conversions and the forwarding methods of the facade: no property beyond the call.
