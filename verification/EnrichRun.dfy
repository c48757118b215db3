/** The enrichment pass as a whole (enrich/enrich.go): sweeps outside phases outside keyset
    pages, one budget, stalls, and the progress it reports. */
module EnrichRun {
  import opened Common
  import opened Breaker
  import opened Gathers
  import opened FieldGathers

  datatype PhaseKey =
    | Artist | ReleaseGroup | AlbumRelease | GroupArt | ArtistArt | AlbumArt | Book
    | LyricsPhase | TrackFields | BookFields | AlbumFields

  datatype ReachList = ArtistIds | ReleaseGroupIds | AlbumIds | BookItemIds | LyricsItemIds | FieldsItemIds

  /** Several phases record the targets they reach in one list. */
  function ListOf(k: PhaseKey): ReachList {
    match k
    case Artist | ArtistArt => ArtistIds
    case ReleaseGroup | GroupArt => ReleaseGroupIds
    case AlbumRelease | AlbumArt | AlbumFields => AlbumIds
    case Book => BookItemIds
    case LyricsPhase => LyricsItemIds
    case TrackFields | BookFields => FieldsItemIds
  }

  datatype Target = Target(id: int, frontDue: bool, auxDue: bool)

  /** caps is what the phase needs a live provider for, none for an identity phase; halves
      narrows that to the art slots one target has due. */
  datatype Phase = Phase(key: PhaseKey, rung: Rung, caps: set<Capability>, halves: bool)

  function Need(p: Phase, t: Target): set<Capability> {
    (if t.frontDue then ArtCaps(p.rung).0 else {}) + (if t.auxDue then ArtCaps(p.rung).1 else {})
  }

  /** The gathers one target's walk can make. */
  datatype Gather =
    | AskArt(rung: Rung, full: bool)
    | AskAuxArt(rung: Rung)
    | AskFields(rung: Rung, want: set<Capability>, allowed: set<string>)
    | AskGenres(baseline: seq<string>)
    | AskLyrics

  datatype Enriching = Aborts | Settles(matched: bool)
  datatype Plan = Plan(gathers: seq<Gather>, end: Enriching)
  datatype PageReply = PageFails | Page(targets: seq<Target>)

  /** Everything outside the pass: the n-th page read after an id, the n-th target's lookup, and
      whether the context is alive, and the heartbeat taken, at the n-th time they matter. */
  datatype World = World(page: (nat, int) -> PageReply, plan: nat -> Plan, alive: nat -> bool,
                         beatTaken: nat -> bool, genres: Identity)

  /** The greatest row id; the source's are int64. */
  const MAX_ID := 0x7FFF_FFFF_FFFF_FFFF

  /** Keyset pages: ids past the cursor, rising. */
  ghost predicate KeysetPage(r: PageReply, after: int) {
    r.Page? ==>
      && (forall i :: 0 <= i < |r.targets| ==> after < r.targets[i].id <= MAX_ID)
      && forall i, j :: 0 <= i < j < |r.targets| ==> r.targets[i].id < r.targets[j].id
  }

  ghost predicate KeysetPages(w: World) {
    forall n: nat, after :: KeysetPage(w.page(n, after), after)
  }

  datatype Options = Options(limit: int, heartbeat: bool, total: nat, sweeps: nat, forced: set<PhaseKey>)

  /** One target walked: on which sweep, by which phase. */
  datatype Walk = Walk(sweep: nat, key: PhaseKey, id: int)

  datatype End = Exhausted | Stalled | Limited | BrokenOff

  /** How a sweep of a phase ended, and the fetches it made: the first up to, not including, last. */
  datatype Ended = Ended(sweep: nat, phase: Phase, how: End, first: nat, last: nat)

  /** A target is asked for the slots due on it. */
  lemma NeedMeans(p: Phase, t: Target, c: Capability)
    ensures c in Need(p, t) <==> || (t.frontDue && c == if p.rung == ArtistRung then ArtistFront else Cover)
                                 || (t.auxDue && c == if p.rung == ArtistRung then ArtistAuxArt else AuxArt)
  {}

  // ---------------------------------------------------------------------------
  // Counters against the walk
  // ---------------------------------------------------------------------------

  ghost function WalkedBy(walked: seq<Walk>, k: PhaseKey): nat {
    if walked == [] then 0
    else WalkedBy(walked[..|walked| - 1], k) + if walked[|walked| - 1].key == k then 1 else 0
  }

  ghost function IdsIn(walked: seq<Walk>, l: ReachList): seq<int> {
    if walked == [] then []
    else IdsIn(walked[..|walked| - 1], l) + if ListOf(walked[|walked| - 1].key) == l then [walked[|walked| - 1].id]
      else []
  }

  datatype Counters = Counters(artists: nat, releaseGroups: nat, albumsSearched: nat, groupArt: nat, artistArt: nat,
                               albumArt: nat, books: nat, lyrics: nat, trackFields: nat, bookFields: nat,
                                 albumFields: nat)
  {
    function Of(k: PhaseKey): nat {
      match k
      case Artist => artists
      case ReleaseGroup => releaseGroups
      case AlbumRelease => albumsSearched
      case GroupArt => groupArt
      case ArtistArt => artistArt
      case AlbumArt => albumArt
      case Book => books
      case LyricsPhase => lyrics
      case TrackFields => trackFields
      case BookFields => bookFields
      case AlbumFields => albumFields
    }

    function Bump(k: PhaseKey): Counters {
      match k
      case Artist => this.(artists := artists + 1)
      case ReleaseGroup => this.(releaseGroups := releaseGroups + 1)
      case AlbumRelease => this.(albumsSearched := albumsSearched + 1)
      case GroupArt => this.(groupArt := groupArt + 1)
      case ArtistArt => this.(artistArt := artistArt + 1)
      case AlbumArt => this.(albumArt := albumArt + 1)
      case Book => this.(books := books + 1)
      case LyricsPhase => this.(lyrics := lyrics + 1)
      case TrackFields => this.(trackFields := trackFields + 1)
      case BookFields => this.(bookFields := bookFields + 1)
      case AlbumFields => this.(albumFields := albumFields + 1)
    }

    /** The run's total, one term per phase. */
    function Total(): nat {
      artists + releaseGroups + albumsSearched + groupArt + artistArt + albumArt + books + lyrics + trackFields +
      bookFields + albumFields
    }
  }

  datatype Reach = Reach(artists: seq<int>, releaseGroups: seq<int>, albums: seq<int>, books: seq<int>,
                         lyrics: seq<int>, fields: seq<int>)
  {
    function Of(l: ReachList): seq<int> {
      match l
      case ArtistIds => artists
      case ReleaseGroupIds => releaseGroups
      case AlbumIds => albums
      case BookItemIds => books
      case LyricsItemIds => lyrics
      case FieldsItemIds => fields
    }

    function Record(l: ReachList, id: int): Reach {
      match l
      case ArtistIds => this.(artists := artists + [id])
      case ReleaseGroupIds => this.(releaseGroups := releaseGroups + [id])
      case AlbumIds => this.(albums := albums + [id])
      case BookItemIds => this.(books := books + [id])
      case LyricsItemIds => this.(lyrics := lyrics + [id])
      case FieldsItemIds => this.(fields := fields + [id])
    }

    function Total(): nat {
      |artists| + |releaseGroups| + |albums| + |books| + |lyrics| + |fields|
    }
  }

  const NO_COUNTS := Counters(0, 0, 0, 0, 0, 0, 0, 0, 0, 0, 0)
  const NO_REACH := Reach([], [], [], [], [], [])

  ghost predicate Counted(c: Counters, r: Reach, walked: seq<Walk>) {
    && (forall k :: c.Of(k) == WalkedBy(walked, k))
    && (forall l :: r.Of(l) == IdsIn(walked, l))
  }

  lemma CountedStep(c: Counters, r: Reach, walked: seq<Walk>, w: Walk)
    requires Counted(c, r, walked)
    ensures Counted(c.Bump(w.key), r.Record(ListOf(w.key), w.id), walked + [w])
  {
    assert (walked + [w])[..|walked|] == walked;
    forall k ensures c.Bump(w.key).Of(k) == WalkedBy(walked + [w], k) {
      BumpOne(c, w.key, k);
    }
    forall l ensures r.Record(ListOf(w.key), w.id).Of(l) == IdsIn(walked + [w], l) {
      RecordOne(r, ListOf(w.key), w.id, l);
    }
  }

  lemma BumpOne(c: Counters, k: PhaseKey, k': PhaseKey)
    ensures c.Bump(k).Of(k') == c.Of(k') + if k == k' then 1 else 0
  {}

  lemma RecordOne(r: Reach, l: ReachList, id: int, l': ReachList)
    ensures r.Record(l, id).Of(l') == r.Of(l') + if l == l' then [id] else []
  {}

  /** The phase counters and the reach lists both add up to the targets walked. */
  lemma TotalsAgree(c: Counters, r: Reach, walked: seq<Walk>)
    requires Counted(c, r, walked)
    ensures c.Total() == |walked| == r.Total()
  {
    SumOfPhases(walked);
    SumOfLists(walked);
    hide WalkedBy, IdsIn;
    assert c.Of(Artist) == WalkedBy(walked, Artist) && c.Of(ReleaseGroup) == WalkedBy(walked, ReleaseGroup);
    assert c.Of(AlbumRelease) == WalkedBy(walked, AlbumRelease) && c.Of(GroupArt) == WalkedBy(walked, GroupArt);
    assert c.Of(ArtistArt) == WalkedBy(walked, ArtistArt) && c.Of(AlbumArt) == WalkedBy(walked, AlbumArt);
    assert c.Of(Book) == WalkedBy(walked, Book) && c.Of(LyricsPhase) == WalkedBy(walked, LyricsPhase);
    assert c.Of(TrackFields) == WalkedBy(walked, TrackFields) && c.Of(BookFields) == WalkedBy(walked, BookFields);
    assert c.Of(AlbumFields) == WalkedBy(walked, AlbumFields);
    assert r.Of(ArtistIds) == IdsIn(walked, ArtistIds) && r.Of(ReleaseGroupIds) == IdsIn(walked, ReleaseGroupIds);
    assert r.Of(AlbumIds) == IdsIn(walked, AlbumIds) && r.Of(BookItemIds) == IdsIn(walked, BookItemIds);
    assert r.Of(LyricsItemIds) == IdsIn(walked, LyricsItemIds) && r.Of(FieldsItemIds) == IdsIn(walked, FieldsItemIds);
  }

  /** Each counter is its own phase's. */
  lemma CountersAre(c: Counters, r: Reach, walked: seq<Walk>)
    requires Counted(c, r, walked)
    ensures c.artists == WalkedBy(walked, Artist) && c.releaseGroups == WalkedBy(walked, ReleaseGroup)
    ensures c.albumsSearched == WalkedBy(walked, AlbumRelease) && c.groupArt == WalkedBy(walked, GroupArt)
    ensures c.artistArt == WalkedBy(walked, ArtistArt) && c.albumArt == WalkedBy(walked, AlbumArt)
    ensures c.books == WalkedBy(walked, Book) && c.lyrics == WalkedBy(walked, LyricsPhase)
    ensures c.trackFields == WalkedBy(walked, TrackFields) && c.bookFields == WalkedBy(walked, BookFields)
    ensures c.albumFields == WalkedBy(walked, AlbumFields)
  {
    assert c.Of(Artist) == WalkedBy(walked, Artist) && c.Of(ReleaseGroup) == WalkedBy(walked, ReleaseGroup);
    assert c.Of(AlbumRelease) == WalkedBy(walked, AlbumRelease) && c.Of(GroupArt) == WalkedBy(walked, GroupArt);
    assert c.Of(ArtistArt) == WalkedBy(walked, ArtistArt) && c.Of(AlbumArt) == WalkedBy(walked, AlbumArt);
    assert c.Of(Book) == WalkedBy(walked, Book) && c.Of(LyricsPhase) == WalkedBy(walked, LyricsPhase);
    assert c.Of(TrackFields) == WalkedBy(walked, TrackFields) && c.Of(BookFields) == WalkedBy(walked, BookFields);
    assert c.Of(AlbumFields) == WalkedBy(walked, AlbumFields);
  }

  /** Each reach list holds what its own phases walked: the two art backfills and the fields of an
      album go with the identity phase of the same entity, and the two item field phases share one. */
  lemma ReachIs(c: Counters, r: Reach, walked: seq<Walk>, id: int)
    requires Counted(c, r, walked)
    ensures id in r.artists <==> WalkedAs(walked, {Artist, ArtistArt}, id)
    ensures id in r.releaseGroups <==> WalkedAs(walked, {ReleaseGroup, GroupArt}, id)
    ensures id in r.albums <==> WalkedAs(walked, {AlbumRelease, AlbumArt, AlbumFields}, id)
    ensures id in r.books <==> WalkedAs(walked, {Book}, id)
    ensures id in r.lyrics <==> WalkedAs(walked, {LyricsPhase}, id)
    ensures id in r.fields <==> WalkedAs(walked, {TrackFields, BookFields}, id)
  {
    hide IdsIn;
    ListedWalks(walked, ArtistIds, {Artist, ArtistArt}, id);
    ListedWalks(walked, ReleaseGroupIds, {ReleaseGroup, GroupArt}, id);
    ListedWalks(walked, AlbumIds, {AlbumRelease, AlbumArt, AlbumFields}, id);
    ListedWalks(walked, BookItemIds, {Book}, id);
    ListedWalks(walked, LyricsItemIds, {LyricsPhase}, id);
    ListedWalks(walked, FieldsItemIds, {TrackFields, BookFields}, id);
    assert r.Of(ArtistIds) == IdsIn(walked, ArtistIds) && r.Of(ReleaseGroupIds) == IdsIn(walked, ReleaseGroupIds);
    assert r.Of(AlbumIds) == IdsIn(walked, AlbumIds) && r.Of(BookItemIds) == IdsIn(walked, BookItemIds);
    assert r.Of(LyricsItemIds) == IdsIn(walked, LyricsItemIds) && r.Of(FieldsItemIds) == IdsIn(walked, FieldsItemIds);
  }

  ghost predicate WalkedAs(walked: seq<Walk>, keys: set<PhaseKey>, id: int) {
    exists w :: w in walked && w.key in keys && w.id == id
  }

  lemma {:induction false} ListedWalks(walked: seq<Walk>, l: ReachList, keys: set<PhaseKey>, id: int)
    requires forall k :: k in keys <==> ListOf(k) == l
    ensures id in IdsIn(walked, l) <==> WalkedAs(walked, keys, id)
  {
    hide ListOf;
    if walked != [] {
      var init, last := walked[..|walked| - 1], walked[|walked| - 1];
      ListedWalks(init, l, keys, id);
      assert forall w :: w in walked <==> w in init || w == last;
    }
  }

  lemma {:induction false} SumOfPhases(walked: seq<Walk>)
    ensures WalkedBy(walked, Artist) + WalkedBy(walked, ReleaseGroup) + WalkedBy(walked, AlbumRelease) +
            WalkedBy(walked, GroupArt) + WalkedBy(walked, ArtistArt) + WalkedBy(walked, AlbumArt) +
              WalkedBy(walked, Book) +
            WalkedBy(walked, LyricsPhase) + WalkedBy(walked, TrackFields) + WalkedBy(walked, BookFields) +
            WalkedBy(walked, AlbumFields) == |walked|
  {
    if walked != [] {
      SumOfPhases(walked[..|walked| - 1]);
    }
  }

  lemma {:induction false} SumOfLists(walked: seq<Walk>)
    ensures |IdsIn(walked, ArtistIds)| + |IdsIn(walked, ReleaseGroupIds)| + |IdsIn(walked, AlbumIds)| +
            |IdsIn(walked, BookItemIds)| + |IdsIn(walked, LyricsItemIds)| + |IdsIn(walked, FieldsItemIds)| == |walked|
  {
    if walked != [] {
      SumOfLists(walked[..|walked| - 1]);
    }
  }

  // ---------------------------------------------------------------------------
  // Progress
  // ---------------------------------------------------------------------------

  function Progress(done: nat, total: nat): real {
    done as real / (if total > done + 1 then total else done + 1) as real
  }

  /** The ratio is the share of the total done, or of one more than is done once that passes it. */
  lemma ProgressIs(done: nat, total: nat)
    ensures done < total ==> Progress(done, total) * total as real == done as real
    ensures done >= total ==> Progress(done, total) * (done + 1) as real == done as real
  {}

  /** A mid-run ratio stays short of 1 and never goes back. */
  lemma ProgressRises(a: nat, b: nat, total: nat)
    requires a <= b
    ensures 0.0 <= Progress(a, total) <= Progress(b, total) < 1.0
  {
    var x, y := if total > a + 1 then total else a + 1, if total > b + 1 then total else b + 1;
    CrossOrder(a, b, total, x, y);
    RatioOrder(a, x, b, y);
    RatioOrder(b, y, 1, 1);
    RatioOrder(0, 1, a, x);
  }

  lemma CrossOrder(a: nat, b: nat, total: nat, x: nat, y: nat)
    requires a <= b
    requires x == (if total > a + 1 then total else a + 1) && y == (if total > b + 1 then total else b + 1)
    ensures a * y <= b * x && b < y
  {
    if total > b + 1 {
      MulMonotone(a, b, total);
    } else if total > a + 1 {
      MulMonotone(a + 1, total, b);
      assert (a + 1) * b == a * b + b && a * (b + 1) == a * b + a;
    } else {
      assert a * (b + 1) == a * b + a && b * (a + 1) == a * b + b;
    }
  }

  lemma MulMonotone(a: nat, b: nat, c: nat)
    requires a <= b
    ensures a * c <= b * c
  {}

  lemma RatioOrder(a: nat, x: nat, b: nat, y: nat)
    requires x > 0 && y > 0
    ensures a * y <= b * x ==> a as real / x as real <= b as real / y as real
    ensures a * y < b * x ==> a as real / x as real < b as real / y as real
  {
    QuotientOrder(a as real, x as real, b as real, y as real);
    assert (a * y) as real == a as real * y as real && (b * x) as real == b as real * x as real;
  }

  lemma QuotientOrder(a: real, x: real, b: real, y: real)
    requires x > 0.0 && y > 0.0
    ensures a * y <= b * x ==> a / x <= b / y
    ensures a * y < b * x ==> a / x < b / y
  {
    var p, q, z := a / x, b / y, x * y;
    assert p * x == a && q * y == b && z > 0.0;
    assert a * y == p * z && b * x == q * z;
    assert p > q ==> p * z > q * z;
    assert p >= q ==> p * z >= q * z;
  }

  ghost predicate Rising(beats: seq<real>) {
    forall i, j :: 0 <= i < j < |beats| ==> beats[i] <= beats[j]
  }

  /** The beats so far rise, and none is ahead of where the run is. */
  ghost predicate Beaten(beats: seq<real>, done: nat, total: nat) {
    Rising(beats) && forall b :: b in beats ==> b <= Progress(done, total)
  }

  lemma BeatenStep(beats: seq<real>, done: nat, done': nat, total: nat)
    requires Beaten(beats, done, total) && done <= done'
    ensures Beaten(beats, done', total) && Beaten(beats + [Progress(done', total)], done', total)
  {
    ProgressRises(done, done', total);
    hide Progress;
    assert forall i :: 0 <= i < |beats| ==> beats[i] in beats;
  }

  lemma BeatenBelowOne(beats: seq<real>, done: nat, total: nat)
    requires Beaten(beats, done, total)
    ensures Rising(beats) && Rising(beats + [1.0]) && forall b :: b in beats ==> b < 1.0
  {
    ProgressRises(done, done, total);
    hide Progress;
    assert forall i :: 0 <= i < |beats| ==> beats[i] in beats;
  }

  // ---------------------------------------------------------------------------
  // Stalls
  // ---------------------------------------------------------------------------

  ghost predicate SomeLive(ps: seq<Provider>, tripped: set<Name>, t: Rung, want: set<Capability>) {
    exists p :: p in ps && p.name !in tripped && Serves(p, t, want)
  }

  /** Each stalled phase is there once, and everyone serving it is out. */
  ghost predicate StalledOut(stalled: seq<Phase>, ps: seq<Provider>, tripped: set<Name>) {
    && (forall i, j :: 0 <= i < j < |stalled| ==> stalled[i].key != stalled[j].key)
    && forall p :: p in stalled ==> p.caps != {} && !SomeLive(ps, tripped, p.rung, p.caps)
  }

  lemma StalledOutStays(stalled: seq<Phase>, ps: seq<Provider>, tripped: set<Name>, tripped': set<Name>)
    requires StalledOut(stalled, ps, tripped) && tripped <= tripped'
    ensures StalledOut(stalled, ps, tripped')
  {
    hide Serves;
  }

  predicate IsStalled(stalled: seq<Phase>, k: PhaseKey) {
    exists p :: p in stalled && p.key == k
  }

  // ---------------------------------------------------------------------------
  // Cancellation
  // ---------------------------------------------------------------------------

  /** Only calls from the one numbered began on, those of the last target looked up, may have been
      cut off, and of them each provider had no more than that target has gathers. */
  ghost predicate CutOffInLast(calls: seq<Call>, began: nat, asked: nat, ps: seq<Provider>) {
    && began <= |calls|
    && (forall k :: 0 <= k < began ==> !calls[k].reply.Aborted?)
    && (DistinctNames(ps) ==> forall n :: CallsOf(calls[began..], n) <= asked)
  }

  /** The most calls a provider that never answers can have had in a run that was cancelled while a
      target of that many gathers was in hand. */
  function SilentMost(asked: nat): nat {
    if asked <= 1 then TRIP_AFTER else TRIP_AFTER - 1 + asked
  }

  /** Three calls at most in a run that is not cancelled; in one that is, a call cut off finds the
      provider with two failures at most and leaves it there, and each gather of the target in hand
      can add one. */
  lemma SilentProviderBound(calls: seq<Call>, began: nat, asked: nat, ps: seq<Provider>, n: Name)
    requires CutOffInLast(calls, began, asked, ps) && DistinctNames(ps)
    requires Disciplined(calls) && Sticky(calls) && NeverAnswers(calls, n)
    ensures CallsOf(calls, n) <= SilentMost(asked)
    ensures AbortedCallsOf(calls, n) == 0 ==> CallsOf(calls, n) <= TRIP_AFTER
  {
    SilentProviderCalls(calls, n);
    AbortedAmong(calls, began, n);
    if AbortedCallsOf(calls, n) > 0 {
      CutOffShort(calls, n);
    }
  }

  lemma NoneCutOff(calls: seq<Call>, n: Name)
    ensures (forall k :: 0 <= k < |calls| ==> !calls[k].reply.Aborted?) ==> AbortedCallsOf(calls, n) == 0
  {
    if AbortedCallsOf(calls, n) > 0 {
      AbortedCall(calls, n);
    }
  }

  /** The histories of a run whose last target looked up has that many gathers. */
  ghost predicate RunHistory(calls: seq<Call>, asked: nat, ps: seq<Provider>) {
    Disciplined(calls) && Sticky(calls) && exists began :: CutOffInLast(calls, began, asked, ps)
  }

  /** Two failures, then a call cut off for each gather. */
  ghost function CutOff(n: Name, asked: nat): seq<Call> {
    if asked == 0 then [Call(n, Failed), Call(n, Failed)] else CutOff(n, asked - 1) + [Call(n, Aborted)]
  }

  lemma {:induction false} CutOffIs(n: Name, asked: nat)
    ensures var calls := CutOff(n, asked);
            && |calls| == 2 + asked && Disciplined(calls) && NeverAnswers(calls, n) && Streak(calls, n) == 2
            && CallsOf(calls, n) == 2 + asked
            && (forall k :: 0 <= k < |calls| ==> calls[k] == Call(n, if k < 2 then Failed else Aborted))
  {
    hide Streak, Disciplined, CallsOf;
    if asked == 0 {
      TwoFailures(n);
    } else {
      var init, last := CutOff(n, asked - 1), Call(n, Aborted);
      CutOffIs(n, asked - 1);
      DisciplinedAppends(init, last);
      StreakAppends(init, last, n);
      CallsConcat(init, [last], n);
      CallsOfOne(last, n);
    }
  }

  lemma TwoFailures(n: Name)
    ensures var calls := [Call(n, Failed), Call(n, Failed)];
            Disciplined(calls) && Streak(calls, n) == 2 && CallsOf(calls, n) == 2
  {
    hide Streak, Disciplined, CallsOf;
    var none: seq<Call>, one, c := [], [Call(n, Failed)], Call(n, Failed);
    assert none + [c] == one && one + [c] == [c, c];
    StreakOfNone(n);
    NoneDisciplined();
    DisciplinedAppends(none, c);
    StreakAppends(none, c, n);
    DisciplinedAppends(one, c);
    StreakAppends(one, c, n);
    CallsConcat(one, one, n);
    CallsOfOne(c, n);
  }

  lemma NoneDisciplined()
    ensures Disciplined([])
  {}

  /** The bound is met: such a history has every one of those calls. */
  lemma BoundAttained(n: Name, asked: nat, ps: seq<Provider>)
    ensures var calls := CutOff(n, asked);
            RunHistory(calls, asked, ps) && NeverAnswers(calls, n) && CallsOf(calls, n) == TRIP_AFTER - 1 + asked
            && (asked > 0 ==> CallsOf(calls, n) == SilentMost(asked))
  {
    hide CutOff, Disciplined;
    var calls := CutOff(n, asked);
    CutOffIs(n, asked);
    forall m ensures CallsOf(calls[2..], m) <= asked {
      CallsAtMost(calls[2..], m);
    }
    assert CutOffInLast(calls, 2, asked, ps);
  }

  lemma {:induction false} CallsAtMost(calls: seq<Call>, n: Name)
    ensures CallsOf(calls, n) <= |calls|
  {
    if calls != [] {
      CallsAtMost(calls[..|calls| - 1], n);
    }
  }

  /** Three calls at most, whatever the history, exactly when the target in hand has one gather or
      none: a release group has two. */
  lemma ThreeCallsCondition(asked: nat, ps: seq<Provider>)
    requires DistinctNames(ps)
    ensures (forall calls, n :: RunHistory(calls, asked, ps) && NeverAnswers(calls, n) ==> CallsOf(calls, n) <= 3)
       <==> asked <= 1
  {
    hide Disciplined, Sticky, NeverAnswers, CallsOf, CutOffInLast, CutOff;
    if asked <= 1 {
      forall calls, n | RunHistory(calls, asked, ps) && NeverAnswers(calls, n) ensures CallsOf(calls, n) <= TRIP_AFTER {
        var began :| CutOffInLast(calls, began, asked, ps);
        SilentProviderBound(calls, began, asked, ps, n);
      }
    } else {
      BoundAttained("", asked, ps);
    }
  }

  /** A run the pass makes that calls a provider four times without an answer: the genres and the
      front of one release group fail, the run is cancelled in the genres call of the next, and that
      group's front is asked for all the same. */
  method CutOffRun(p: Provider, genres: Identity) returns (st: RunState)
    requires p.name != MUSICBRAINZ
    requires Serves(p, ReleaseGroupRung, {Genres}) && Serves(p, ReleaseGroupRung, ArtCaps(ReleaseGroupRung).0)
    ensures fresh(st) && st.Valid() && st.providers == [p]
    ensures st.calls == CutOff(p.name, 2) && NeverAnswers(st.calls, p.name) && CallsOf(st.calls, p.name) == 4
  {
    hide Tracks, Heard, CallsOf, NeverAnswers, CutOff, Serves, ArtCaps, CallsMade, OutWhenTripped, ArtResult, ArtWalk,
      CutOffAt, EndsInCall;
    CutOffIs(p.name, 2);
    CutOffBegins(p.name);
    st := new RunState([p], n => Failed, n => n >= 2);
    for i := 0 to 2
      invariant st.Valid() && fresh(st) && st.providers == [p] && CutOffAt(p.name, 2 * i, st.calls, st.doneFrom)
    {
      ghost var calls, doneFrom := st.calls, st.doneFrom;
      var _, _, _, asked := GatherGenres(st, [], genres);
      CutOffStep(p, asked, 2 * i, calls, st.calls, doneFrom, st.doneFrom, st.answer, st.endsDuring);
      calls, doneFrom := st.calls, st.doneFrom;
      var _, visits := GatherArt(st, ReleaseGroupRung, false);
      FrontAsked(p, visits);
      CutOffStep(p, visits, 2 * i + 1, calls, st.calls, doneFrom, st.doneFrom, st.answer, st.endsDuring);
    }
    CutOffEnds(p.name, st.calls, st.doneFrom);
  }

  /** The first k calls of that run made. */
  ghost predicate CutOffAt(n: Name, k: nat, calls: seq<Call>, doneFrom: Option<nat>) {
    k <= |CutOff(n, 2)| && calls == CutOff(n, 2)[..k] && doneFrom == if k <= 2 then None else Some(2)
  }

  lemma CutOffBegins(n: Name)
    ensures CutOffAt(n, 0, [], None)
  {}

  lemma CutOffEnds(n: Name, calls: seq<Call>, doneFrom: Option<nat>)
    requires CutOffAt(n, 4, calls, doneFrom)
    ensures calls == CutOff(n, 2)
  {
    CutOffIs(n, 2);
  }

  lemma {:induction false} FrontAsked(p: Provider, visits: seq<Visit>)
    requires ArtWalk([p], ReleaseGroupRung, false, visits) && Serves(p, ReleaseGroupRung, ArtCaps(ReleaseGroupRung).0)
    ensures |visits| == 1 && visits[0].wanted
  {
    hide Serves, ArtCaps;
    assert visits[..0] == [];
  }

  /** The next gather of that run makes the next call of it. */
  lemma {:induction false} CutOffStep(p: Provider, visits: seq<Visit>, k: nat, calls: seq<Call>, calls': seq<Call>,
                                      doneFrom: Option<nat>, doneFrom': Option<nat>, answer: nat -> Answer,
                                      endsDuring: nat -> bool)
    requires k < 4 && CutOffAt(p.name, k, calls, doneFrom)
    requires |visits| == 1 && visits[0].wanted && OutWhenTripped([p], calls, visits)
    requires calls' == calls + CallsMade([p], visits) && Heard(calls', answer, endsDuring, doneFrom')
    requires EndsInCall(endsDuring, doneFrom, doneFrom', |calls'|)
    requires forall i: nat :: answer(i).Failed? && (endsDuring(i) <==> i >= 2)
    ensures CutOffAt(p.name, k + 1, calls', doneFrom')
  {
    hide CutOff, Streak;
    var all := CutOff(p.name, 2);
    CutOffIs(p.name, 2);
    assert Streak(all[..k], all[k].name) < TRIP_AFTER;
    assert visits[..0] == [] && calls + CallsMade([p], []) == calls;
    assert CallsMade([p], visits) == [Call(p.name, visits[0].reply)];
    assert !endsDuring(0) && !endsDuring(1) && endsDuring(2);
    assert doneFrom' == if k < 2 then None else Some(2);
    assert calls'[k].reply == if k < 2 then Failed else Aborted;
    assert all[..k + 1] == all[..k] + [all[k]];
  }

  /** One more gather of the target in hand. */
  lemma GatherCalls(ps: seq<Provider>, visits: seq<Visit>, added: seq<Call>, i: nat)
    requires |visits| <= |ps| && (DistinctNames(ps) ==> forall n :: CallsOf(added, n) <= i)
    ensures DistinctNames(ps) ==> forall n :: CallsOf(added + CallsMade(ps, visits), n) <= i + 1
  {
    hide CallsOf, CallsMade;
    if DistinctNames(ps) {
      forall n ensures CallsOf(added + CallsMade(ps, visits), n) <= i + 1 {
        OneCallEach(ps, visits, n);
        CallsConcat(added, CallsMade(ps, visits), n);
      }
    }
  }

  lemma NoCalls(ps: seq<Provider>)
    ensures DistinctNames(ps) ==> forall n :: CallsOf([], n) <= 0
    ensures CutOffInLast([], 0, 0, ps)
  {}

  /** A lookup begun before the context was done starts the count anew. */
  lemma LookedUp(was: seq<Call>, added: seq<Call>, answer: nat -> Answer, endsDuring: nat -> bool, asked: nat,
                 ps: seq<Provider>)
    requires Heard(was, answer, endsDuring, None) && (DistinctNames(ps) ==> forall n :: CallsOf(added, n) <= asked)
    ensures CutOffInLast(was + added, |was|, asked, ps)
  {
    assert (was + added)[|was|..] == added;
  }

  // ---------------------------------------------------------------------------
  // The order of the walk
  // ---------------------------------------------------------------------------

  /** The targets one sweep of one phase adds: its own, in rising order. */
  ghost predicate OneSweep(added: seq<Walk>, n: nat, k: PhaseKey) {
    && (forall w :: w in added ==> w.sweep == n && w.key == k)
    && forall i, j :: 0 <= i < j < |added| ==> added[i].id < added[j].id
  }

  /** A sweep of k has taken the walk from was to walked, with ids past lo and up to hi. */
  ghost predicate Swept(was: seq<Walk>, walked: seq<Walk>, n: nat, k: PhaseKey, lo: int, hi: Option<int>) {
    && was <= walked && OneSweep(walked[|was|..], n, k)
    && forall w :: w in walked[|was|..] ==> lo < w.id && (hi.Some? ==> w.id <= hi.value)
  }

  lemma SweptNothing(walked: seq<Walk>, n: nat, k: PhaseKey, lo: int, hi: Option<int>)
    ensures Swept(walked, walked, n, k, lo, hi)
  {
    assert walked[|walked|..] == [];
  }

  lemma SweptOn(was: seq<Walk>, walked: seq<Walk>, walked': seq<Walk>, n: nat, k: PhaseKey, lo: int, hi: int, id: int)
    requires Swept(was, walked, n, k, lo, Some(hi)) && lo <= hi < id
    requires walked' == walked || walked' == walked + [Walk(n, k, id)]
    ensures Swept(was, walked', n, k, lo, Some(id)) && Swept(was, walked', n, k, lo, None)
  {
    var added, added' := walked[|was|..], walked'[|was|..];
    assert added' == added || added' == added + [Walk(n, k, id)];
    assert forall i :: 0 <= i < |added| ==> added[i] in added;
  }

  lemma SweptOnly(was: seq<Walk>, walked: seq<Walk>, n: nat, k: PhaseKey, lo: int, hi: Option<int>)
    requires Swept(was, walked, n, k, lo, hi)
    ensures was <= walked
  {}

  lemma SweptJoins(was: seq<Walk>, mid: seq<Walk>, walked: seq<Walk>, n: nat, k: PhaseKey, lo: int, cursor: int,
                   hi: Option<int>)
    requires Swept(was, mid, n, k, lo, Some(cursor)) && Swept(mid, walked, n, k, cursor, hi)
    requires lo <= cursor && (hi.Some? ==> cursor <= hi.value)
    ensures Swept(was, walked, n, k, lo, hi)
  {
    var a, b, all := mid[|was|..], walked[|mid|..], walked[|was|..];
    assert all == a + b;
    assert forall i :: 0 <= i < |a| ==> a[i] in a;
    assert forall i :: 0 <= i < |b| ==> b[i] in b;
  }

  ghost predicate SweepsInOrder(walked: seq<Walk>) {
    forall i, j :: 0 <= i < j < |walked| ==> walked[i].sweep <= walked[j].sweep
  }

  /** Within a sweep the phases are walked in their order. */
  ghost predicate PhasesInOrder(phases: seq<Phase>, walked: seq<Walk>) {
    forall i, j, a, b :: (&& 0 <= i < j < |walked| && walked[i].sweep == walked[j].sweep
                          && 0 <= a < |phases| && 0 <= b < |phases|
                          && phases[a].key == walked[i].key && phases[b].key == walked[j].key) ==> a <= b
  }

  /** No sweep of a phase walks a target twice. */
  ghost predicate WalkedOnce(walked: seq<Walk>) {
    forall i, j :: 0 <= i < j < |walked| && walked[i].sweep == walked[j].sweep && walked[i].key == walked[j].key ==>
      walked[i].id < walked[j].id
  }

  lemma SweepJoins(walked: seq<Walk>, added: seq<Walk>, n: nat, k: PhaseKey)
    requires SweepsInOrder(walked) && WalkedOnce(walked) && OneSweep(added, n, k)
    requires forall w :: w in walked ==> w.sweep <= n && !(w.sweep == n && w.key == k)
    ensures SweepsInOrder(walked + added) && WalkedOnce(walked + added)
    ensures forall w :: w in walked + added ==> w.sweep <= n
  {
    var all := walked + added;
    forall i, j | 0 <= i < j < |all|
      ensures all[i].sweep <= all[j].sweep
      ensures all[i].sweep == all[j].sweep && all[i].key == all[j].key ==> all[i].id < all[j].id
    {
      assert i < |walked| ==> all[i] in walked;
      assert j >= |walked| ==> all[j] in added;
      assert i >= |walked| ==> all[i] in added;
    }
  }

  /** Whether phase k is walked on sweep n: a forced phase on the first alone. */
  predicate Scheduled(opts: Options, n: nat, k: PhaseKey) {
    n == 0 || k !in opts.forced
  }

  ghost predicate EndedAs(ends: seq<Ended>, n: nat, k: PhaseKey) {
    exists e :: e in ends && e.sweep == n && e.phase.key == k && (e.how == Exhausted || e.how == Stalled)
  }

  /** No target of a later sweep before every phase is done with the earlier one. */
  ghost predicate EarlierSweepsDone(phases: seq<Phase>, opts: Options, walked: seq<Walk>, ends: seq<Ended>) {
    forall w, m: nat, p :: w in walked && m < w.sweep && p in phases && Scheduled(opts, m, p.key) ==>
      EndedAs(ends, m, p.key)
  }

  /** What the ends so far say: a budget that ran out lets nothing be walked on a later sweep. */
  ghost predicate EndsFit(opts: Options, walked: seq<Walk>, ends: seq<Ended>) {
    forall e :: e in ends ==>
      && e.how != BrokenOff
      && (e.how == Limited ==> opts.limit > 0 && |walked| >= opts.limit && forall w :: w in walked ==>
         w.sweep <= e.sweep)
  }

  ghost predicate AllEnded(phases: seq<Phase>, opts: Options, ends: seq<Ended>, n: nat, i: nat)
    requires i <= |phases|
  {
    && (forall m: nat, p :: m < n && p in phases && Scheduled(opts, m, p.key) ==> Listed(ends, m, p.key))
    && forall q :: 0 <= q < i && Scheduled(opts, n, phases[q].key) ==> Listed(ends, n, phases[q].key)
  }

  ghost predicate Listed(ends: seq<Ended>, n: nat, k: PhaseKey) {
    exists e :: e in ends && e.sweep == n && e.phase.key == k
  }

  lemma EarlierDone(phases: seq<Phase>, opts: Options, walked: seq<Walk>, ends: seq<Ended>, n: nat)
    requires EndsFit(opts, walked, ends) && AllEnded(phases, opts, ends, n, 0)
    requires forall w :: w in walked ==> w.sweep <= n
    ensures EarlierSweepsDone(phases, opts, walked, ends)
  {
    forall w, m: nat, p | w in walked && m < w.sweep && p in phases && Scheduled(opts, m, p.key)
      ensures EndedAs(ends, m, p.key)
    {
      assert Listed(ends, m, p.key);
      var e :| e in ends && e.sweep == m && e.phase.key == p.key;
      assert e.how != Limited;
    }
  }

  /** With no budget, a run that was not broken off has exhausted, or stalled on, every sweep of every
      phase but the later ones of a forced one. */
  lemma EverySweepEnded(phases: seq<Phase>, opts: Options, walked: seq<Walk>, ends: seq<Ended>, m: nat, p: Phase)
    requires AllEnded(phases, opts, ends, opts.sweeps, 0) && EndsFit(opts, walked, ends) && opts.limit <= 0
    requires m < opts.sweeps && p in phases && (m == 0 || p.key !in opts.forced)
    ensures exists e :: e in ends && e.sweep == m && e.phase.key == p.key && (e.how == Exhausted || e.how == Stalled)
  {
    assert Listed(ends, m, p.key);
  }

  lemma EndAppends(phases: seq<Phase>, opts: Options, walked: seq<Walk>, walked': seq<Walk>, ends: seq<Ended>, n: nat,
                   i: nat, e': Ended)
    requires i < |phases| && AllEnded(phases, opts, ends, n, i) && EndsFit(opts, walked, ends)
    requires walked <= walked' && e'.sweep == n && e'.phase == phases[i] && e'.how != BrokenOff
    requires opts.limit > 0 && |walked| >= opts.limit ==> walked' == walked
    requires e'.how == Limited ==> opts.limit > 0 && |walked'| >= opts.limit
    requires forall w :: w in walked' ==> w.sweep <= n
    ensures AllEnded(phases, opts, ends + [e'], n, i + 1)
    ensures EndsFit(opts, walked', ends + [e'])
  {
    var ends' := ends + [e'];
    assert e' in ends' && forall e :: e in ends ==> e in ends';
    forall m: nat, k | Listed(ends, m, k) ensures Listed(ends', m, k) {
    }
    assert Listed(ends', n, phases[i].key);
    assert forall e :: e in ends' ==> e in ends || e == e';
  }

  // ---------------------------------------------------------------------------
  // What an ended sweep has read
  // ---------------------------------------------------------------------------

  function TargetsOf(r: PageReply): seq<Target> {
    if r.Page? then r.targets else []
  }

  function NextCursor(r: PageReply, after: int): int {
    if TargetsOf(r) == [] then after else TargetsOf(r)[|TargetsOf(r)| - 1].id
  }

  /** The cursor after k pages read from fetch f on, and the targets on them. */
  ghost function Cursor(w: World, f: nat, k: nat): int {
    if k == 0 then 0 else NextCursor(w.page(f + k - 1, Cursor(w, f, k - 1)), Cursor(w, f, k - 1))
  }

  ghost function PagesRead(w: World, f: nat, k: nat): seq<Target> {
    if k == 0 then [] else PagesRead(w, f, k - 1) + TargetsOf(w.page(f + k - 1, Cursor(w, f, k - 1)))
  }

  /** Each target is walked, or has only slots due that nobody left serves. */
  ghost predicate Covered(ts: seq<Target>, n: nat, p: Phase, walked: seq<Walk>, ps: seq<Provider>, tripped: set<Name>) {
    forall t :: t in ts ==> Walk(n, p.key, t.id) in walked || (p.halves && !SomeLive(ps, tripped, p.rung, Need(p, t)))
  }

  lemma CoveredStays(ts: seq<Target>, n: nat, p: Phase, walked: seq<Walk>, walked': seq<Walk>, ps: seq<Provider>,
                     tripped: set<Name>, tripped': set<Name>)
    requires Covered(ts, n, p, walked, ps, tripped) && walked <= walked' && tripped <= tripped'
    ensures Covered(ts, n, p, walked', ps, tripped')
  {
    hide Serves, Need;
  }

  lemma CoveredJoins(ts: seq<Target>, more: seq<Target>, n: nat, p: Phase, walked: seq<Walk>, ps: seq<Provider>,
                     tripped: set<Name>)
    requires Covered(ts, n, p, walked, ps, tripped) && Covered(more, n, p, walked, ps, tripped)
    ensures Covered(ts + more, n, p, walked, ps, tripped)
  {}

  lemma NothingToCover(n: nat, p: Phase, walked: seq<Walk>, ps: seq<Provider>, tripped: set<Name>)
    ensures Covered([], n, p, walked, ps, tripped)
  {}

  /** An exhausted sweep read pages until an empty one and has every target on them covered; a
      stalled one belongs to a stalled phase. */
  ghost predicate Backed(w: World, e: Ended, walked: seq<Walk>, stalled: seq<Phase>, ps: seq<Provider>,
                         tripped: set<Name>)
  {
    match e.how
    case Exhausted =>
      && e.first < e.last
      && w.page(e.last - 1, Cursor(w, e.first, e.last - 1 - e.first)) == Page([])
      && Covered(PagesRead(w, e.first, e.last - e.first), e.sweep, e.phase, walked, ps, tripped)
    case Stalled => IsStalled(stalled, e.phase.key)
    case _ => true
  }

  lemma BackedStays(w: World, ends: seq<Ended>, walked: seq<Walk>, walked': seq<Walk>, stalled: seq<Phase>,
                    stalled': seq<Phase>, ps: seq<Provider>, tripped: set<Name>, tripped': set<Name>)
    requires forall e :: e in ends ==> Backed(w, e, walked, stalled, ps, tripped)
    requires walked <= walked' && stalled <= stalled' && tripped <= tripped'
    ensures forall e :: e in ends ==> Backed(w, e, walked', stalled', ps, tripped')
  {
    hide Covered, PagesRead, Cursor;
    forall e | e in ends ensures Backed(w, e, walked', stalled', ps, tripped') {
      if e.how == Exhausted {
        CoveredStays(PagesRead(w, e.first, e.last - e.first), e.sweep, e.phase, walked, walked', ps, tripped, tripped');
      }
    }
  }

  // ---------------------------------------------------------------------------
  // What a lookup asks
  // ---------------------------------------------------------------------------

  /** Whom a gather wants, over the providers it visits. */
  ghost predicate Asks(ps: seq<Provider>, g: Gather, visits: seq<Visit>)
    requires |visits| <= |ps|
  {
    match g
    case AskArt(rung, full) => ArtWalk(ps, rung, full, visits)
    case AskAuxArt(rung) => ServersWanted(ps, rung, ArtCaps(rung).1, visits)
    case AskFields(rung, want, allowed) => ServersWanted(ps, rung, want, visits)
    case AskLyrics => ServersWanted(ps, RecordingRung, {Lyrics}, visits)
    case AskGenres(_) =>
      |visits| == |ps| && forall j :: 0 <= j < |visits| ==>
        (visits[j].wanted <==> ps[j].name != MUSICBRAINZ && Serves(ps[j], ReleaseGroupRung, {Genres}))
  }

  /** The gathers were made in order, each visiting its providers and calling those it wants that are
      still in the pass, and nothing else was called. */
  ghost predicate Gathered(ps: seq<Provider>, before: seq<Call>, gathers: seq<Gather>, made: seq<seq<Visit>>,
                           after: seq<Call>)
  {
    if gathers == [] then made == [] && after == before
    else
      var k := |gathers| - 1;
      && |made| == |gathers| && |made[k]| <= |ps| && Asks(ps, gathers[k], made[k])
      && exists mid :: Gathered(ps, before, gathers[..k], made[..k], mid)
                       && OutWhenTripped(ps, mid, made[k]) && after == mid + CallsMade(ps, made[k])
  }

  lemma NothingGathered(ps: seq<Provider>, calls: seq<Call>)
    ensures Gathered(ps, calls, [], [], calls)
  {}

  lemma GatheredOn(ps: seq<Provider>, before: seq<Call>, gathers: seq<Gather>, made: seq<seq<Visit>>, mid: seq<Call>,
                   g: Gather, visits: seq<Visit>)
    requires Gathered(ps, before, gathers, made, mid)
    requires |visits| <= |ps| && Asks(ps, g, visits) && OutWhenTripped(ps, mid, visits)
    ensures Gathered(ps, before, gathers + [g], made + [visits], mid + CallsMade(ps, visits))
  {
    hide Asks, OutWhenTripped, CallsMade;
    var more, all := gathers + [g], made + [visits];
    assert |made| == |gathers| by {
      if gathers == [] {
        assert made == [];
      }
    }
    assert more[..|gathers|] == gathers && all[..|made|] == made && all[|made|] == visits && more[|gathers|] == g;
  }

  // ---------------------------------------------------------------------------
  // The pass
  // ---------------------------------------------------------------------------

  class Pass {
    const st: RunState
    const world: World
    const opts: Options
    var counters: Counters
    var reach: Reach
    var walked: seq<Walk>
    var stalled: seq<Phase>
    var beats: seq<real>
    var lookups: nat
    var fetches: nat
    var checks: nat
    var pageFailed: bool
    var foundDone: bool
    ghost var began: nat
    ghost var asked: nat

    ghost predicate Sound()
      reads this, st
    {
      && st.Valid()
      && KeysetPages(world)
      && Counted(counters, reach, walked)
      && StalledOut(stalled, st.providers, st.tripped)
      && Beaten(beats, |walked|, opts.total)
      && (opts.limit > 0 ==> |walked| <= opts.limit)
      && CutOffInLast(st.calls, began, asked, st.providers)
    }

    /** And every target walked and every phase stalled has been told. */
    ghost predicate Valid()
      reads this, st
    {
      Sound() && |beats| == if opts.heartbeat then |walked| + |stalled| else 0
    }

    /** Nothing has gone wrong: no page failed, the context was found alive at every check, no lookup
        aborted and every beat was taken. */
    ghost predicate Smooth()
      reads this
    {
      && !pageFailed && !foundDone
      && (forall l: nat :: l < lookups ==> !world.plan(l).end.Aborts?)
      && (forall b: nat :: 1 <= b <= |beats| ==> world.beatTaken(b))
    }

    constructor (st: RunState, world: World, opts: Options)
      requires st.Valid() && st.calls == [] && KeysetPages(world)
      ensures Valid() && this.st == st && this.world == world && this.opts == opts
      ensures walked == [] && stalled == [] && beats == [] && Smooth()
    {
      this.st, this.world, this.opts := st, world, opts;
      counters, reach, walked, stalled, beats := NO_COUNTS, NO_REACH, [], [], [];
      lookups, fetches, checks, began, asked := 0, 0, 0, 0, 0;
      pageFailed, foundDone := false, false;
      NoCalls(st.providers);
    }

    predicate LimitReached()
      reads this
    {
      opts.limit > 0 && counters.Total() >= opts.limit
    }

    /** One target's gathers, in whatever combination its phase makes them. */
    method Gather(gathers: seq<Gather>) returns (ghost added: seq<Call>, ghost made: seq<seq<Visit>>)
      requires st.Valid()
      modifies st
      ensures st.Valid() && old(st.tripped) <= st.tripped && st.calls == old(st.calls) + added
      ensures Gathered(st.providers, old(st.calls), gathers, made, st.calls)
      ensures DistinctNames(st.providers) ==> forall n :: CallsOf(added, n) <= |gathers|
    {
      hide Tracks, Heard, CallsMade, OutWhenTripped, CallsOf, DistinctNames, ServersWanted, ArtWalk, ArtResult,
        FieldsOf, Merge, HoldsArt, AuxOf, Gathered;
      NoCalls(st.providers);
      NothingGathered(st.providers, st.calls);
      added, made := [], [];
      assert gathers[..0] == [];
      for i := 0 to |gathers|
        invariant st.Valid() && old(st.tripped) <= st.tripped && st.calls == old(st.calls) + added
        invariant DistinctNames(st.providers) ==> forall n :: CallsOf(added, n) <= i
        invariant Gathered(st.providers, old(st.calls), gathers[..i], made, st.calls)
      {
        ghost var before := st.calls;
        var visits := GatherOne(gathers[i]);
        GatheredOn(st.providers, old(st.calls), gathers[..i], made, before, gathers[i], visits);
        assert gathers[..i + 1] == gathers[..i] + [gathers[i]];
        made := made + [visits];
        GatherCalls(st.providers, visits, added, i);
        added := added + CallsMade(st.providers, visits);
      }
      assert gathers[..|gathers|] == gathers;
    }

    method GatherOne(g: Gather) returns (visits: seq<Visit>)
      requires st.Valid()
      modifies st
      ensures st.Valid() && old(st.tripped) <= st.tripped
      ensures |visits| <= |st.providers| && st.calls == old(st.calls) + CallsMade(st.providers, visits)
      ensures OutWhenTripped(st.providers, old(st.calls), visits) && Asks(st.providers, g, visits)
    {
      hide Tracks, Heard, CallsMade, OutWhenTripped, ArtWalk, ServersWanted, ArtResult, HoldsArt, FieldsOf, Merge,
        AuxOf, FieldsOpen, RolesOpen, EndsInCall, Serves, ArtCaps, AuxRoles, SomeErred, SomeSkipped;
      match g
      case AskArt(rung, full) =>
        var _, v := GatherArt(st, rung, full);
        visits := v;
      case AskAuxArt(rung) =>
        var _, _, _, v := GatherAuxArt(st, rung);
        visits := v;
      case AskFields(rung, want, allowed) =>
        var _, _, v := GatherFields(st, rung, want, allowed);
        visits := v;
      case AskGenres(baseline) =>
        var _, _, _, v := GatherGenres(st, baseline, world.genres);
        visits := v;
      case AskLyrics =>
        var _, _, v := GatherLyrics(st);
        visits := v;
    }

    /** What holds with a target walked, or a phase stalled, and not yet told. */
    ghost predicate BeatDue()
      reads this, st
    {
      Sound() && |beats| + 1 == |walked| + |stalled|
    }

    method Beat() returns (ok: bool)
      requires if opts.heartbeat then BeatDue() else Valid()
      modifies `beats
      ensures Valid() && (old(Smooth()) ==> (ok <==> Smooth()))
      ensures beats == old(beats) + if opts.heartbeat then [Progress(|walked|, opts.total)] else []
    {
      hide Tracks, Heard, CutOffInLast, KeysetPages, Counted, StalledOut, Beaten, Progress;
      TotalsAgree(counters, reach, walked);
      BeatenStep(beats, |walked|, |walked|, opts.total);
      if !opts.heartbeat {
        return true;
      }
      beats := beats + [Progress(counters.Total(), opts.total)];
      ok := world.beatTaken(|beats|);
    }

    /** The gathers of the target in hand, begun with the context alive. */
    method LookUp() returns (plan: Plan)
      requires Valid() && st.doneFrom == None
      modifies st, `began, `asked, `lookups
      ensures Valid() && old(st.tripped) <= st.tripped && LimitReached() == old(LimitReached())
      ensures plan == world.plan(old(lookups)) && lookups == old(lookups) + 1
      ensures old(Smooth()) ==> (Smooth() <==> !plan.end.Aborts?)
      ensures began == |old(st.calls)| && asked == |plan.gathers|
      ensures exists made :: Gathered(st.providers, old(st.calls), plan.gathers, made, st.calls)
    {
      hide Tracks, Heard, CutOffInLast, KeysetPages, Counted, StalledOut, Beaten, Progress, DistinctNames, CallsOf,
        Gathered;
      plan := world.plan(lookups);
      lookups := lookups + 1;
      ghost var added, made := Gather(plan.gathers);
      began, asked := |old(st.calls)|, |plan.gathers|;
      LookedUp(old(st.calls), added, st.answer, st.endsDuring, asked, st.providers);
      StalledOutStays(stalled, st.providers, old(st.tripped), st.tripped);
    }

    /** The target counted and recorded. */
    method Count(n: nat, p: Phase, t: Target)
      requires Valid() && !LimitReached()
      modifies `counters, `reach, `walked
      ensures walked == old(walked) + [Walk(n, p.key, t.id)] && Smooth() == old(Smooth())
      ensures if opts.heartbeat then BeatDue() else Valid()
    {
      hide Tracks, Heard, CutOffInLast, KeysetPages, Counted, StalledOut, Beaten, Progress;
      TotalsAgree(counters, reach, walked);
      CountedStep(counters, reach, walked, Walk(n, p.key, t.id));
      BeatenStep(beats, |walked|, |walked| + 1, opts.total);
      counters := counters.Bump(p.key);
      reach := reach.Record(ListOf(p.key), t.id);
      walked := walked + [Walk(n, p.key, t.id)];
    }

    /** The target is looked up, counted, recorded and told. */
    method WalkTarget(n: nat, p: Phase, t: Target) returns (ok: bool)
      requires Valid() && !LimitReached() && st.doneFrom == None
      modifies this, st
      ensures Valid() && old(st.tripped) <= st.tripped && stalled == old(stalled) && fetches == old(fetches)
      ensures checks == old(checks) && foundDone == old(foundDone)
      ensures began == |old(st.calls)| && asked == |world.plan(old(lookups)).gathers|
      ensures exists made :: Gathered(st.providers, old(st.calls), world.plan(old(lookups)).gathers, made, st.calls)
      ensures walked == old(walked) || walked == old(walked) + [Walk(n, p.key, t.id)]
      ensures old(Smooth()) ==> (ok <==> Smooth())
      ensures ok ==> walked == old(walked) + [Walk(n, p.key, t.id)]
    {
      hide Valid, BeatDue, LimitReached, Smooth;
      var plan := LookUp();
      if plan.end.Aborts? {
        return false;
      }
      Count(n, p, t);
      ok := Beat();
    }

    /** A phase with nobody left to ask stalls, without walking the target in hand. */
    method Stall(p: Phase) returns (ok: bool)
      requires Valid() && p.caps != {} && !SomeLive(st.providers, st.tripped, p.rung, p.caps)
      requires !IsStalled(stalled, p.key)
      modifies `stalled, `beats
      ensures Valid() && stalled == old(stalled) + [p] && (old(Smooth()) ==> (ok <==> Smooth()))
    {
      hide Tracks, Heard, CutOffInLast, KeysetPages, Counted, SomeLive, Beaten, Progress;
      stalled := stalled + [p];
      assert StalledOut(stalled, st.providers, st.tripped);
      ok := Beat();
    }

    /** Whether the context is done, found so now or before. */
    method FindDone() returns (done: bool)
      requires Valid()
      modifies st`doneFrom, `checks, `foundDone
      ensures Valid() && LimitReached() == old(LimitReached()) && checks == old(checks) + 1
      ensures done <==> st.doneFrom.Some?
      ensures done <==> old(st.doneFrom).Some? || !world.alive(old(checks))
      ensures foundDone <==> old(foundDone) || done
      ensures old(Smooth()) ==> (Smooth() <==> !done)
    {
      hide Tracks, Heard, CutOffInLast, KeysetPages, Counted, StalledOut, Beaten, Progress;
      done := st.CheckContext(world.alive(checks));
      checks := checks + 1;
      if done {
        foundDone := true;
      }
    }

    /** One target's turn: how the sweep ends on it, if it does. */
    method Turn(n: nat, p: Phase, t: Target) returns (r: Option<End>)
      requires Valid() && !LimitReached() && !IsStalled(stalled, p.key)
      modifies this, st
      ensures Valid() && old(st.tripped) <= st.tripped && fetches == old(fetches)
      ensures walked == old(walked) || walked == old(walked) + [Walk(n, p.key, t.id)]
      ensures r == None && walked == old(walked) ==>
                p.halves && !old(SomeLive(st.providers, st.tripped, p.rung, Need(p, t)))
      ensures r == None || r == Some(Limited) ==> stalled == old(stalled)
      ensures checks == old(checks) + 1
      ensures old(st.doneFrom).Some? || !world.alive(old(checks)) ==>
                r == Some(BrokenOff) && walked == old(walked) && st.calls == old(st.calls)
      ensures old(st.doneFrom).None? && world.alive(old(checks)) && p.caps != {}
                && !old(SomeLive(st.providers, st.tripped, p.rung, p.caps)) ==>
                stalled == old(stalled) + [p] && walked == old(walked)
      ensures stalled == old(stalled) || stalled == old(stalled) + [p]
      ensures r == Some(Stalled) ==> stalled == old(stalled) + [p]
      ensures r == None ==> !LimitReached()
      ensures r == Some(Limited) ==> LimitReached()
      ensures foundDone <==> old(foundDone) || old(st.doneFrom).Some? || !world.alive(old(checks))
      ensures old(Smooth()) ==> (r == Some(BrokenOff) <==> !Smooth())
      ensures r != Some(Exhausted)
    {
      hide Valid, Smooth, LimitReached, Serves, Need;
      var done := FindDone();
      if done {
        return Some(BrokenOff);
      }
      if p.caps != {} {
        var live := st.Live(p.rung, p.caps);
        if !live {
          var told := Stall(p);
          return Some(if told then Stalled else BrokenOff);
        }
      }
      if p.halves {
        var live := st.Live(p.rung, Need(p, t));
        if !live {
          return None;
        }
      }
      var ok := WalkTarget(n, p, t);
      if !ok {
        return Some(BrokenOff);
      }
      return if LimitReached() then Some(Limited) else None;
    }

    /** The targets of one page, in order. */
    method WalkPage(n: nat, p: Phase, page: seq<Target>, after: int) returns (r: Option<End>)
      requires Valid() && !LimitReached() && !IsStalled(stalled, p.key)
      requires KeysetPage(Page(page), after)
      modifies this, st
      ensures Valid() && old(st.tripped) <= st.tripped && fetches == old(fetches)
      ensures Swept(old(walked), walked, n, p.key, after, None)
      ensures r == None ==> Swept(old(walked), walked, n, p.key, after, Some(NextCursor(Page(page), after)))
      ensures stalled == old(stalled) || stalled == old(stalled) + [p]
      ensures r == None ==> !LimitReached() && stalled == old(stalled)
      ensures r == Some(Limited) ==> LimitReached()
      ensures r == Some(Stalled) ==> IsStalled(stalled, p.key)
      ensures r == None ==> Covered(page, n, p, walked, st.providers, st.tripped)
      ensures old(Smooth()) ==> (r == Some(BrokenOff) <==> !Smooth())
      ensures r != Some(Exhausted)
    {
      hide Smooth, Tracks, Heard, CutOffInLast, KeysetPages, Counted, StalledOut, Beaten, Progress, LimitReached,
        Covered,
        SomeLive, Need, Swept, KeysetPage;
      PageRises(page, after);
      NothingToCover(n, p, walked, st.providers, st.tripped);
      SweptNothing(walked, n, p.key, after, Some(after));
      SweptNothing(walked, n, p.key, after, None);
      assert page[..0] == [];
      var i := 0;
      ghost var cursor := after;
      while i < |page|
        invariant i <= |page| && cursor == if i == 0 then after else page[i - 1].id
        invariant Valid() && old(st.tripped) <= st.tripped && fetches == old(fetches)
        invariant Swept(old(walked), walked, n, p.key, after, Some(cursor))
                  && Swept(old(walked), walked, n, p.key, after, None)
        invariant stalled == old(stalled) && !LimitReached() && (old(Smooth()) ==> Smooth())
        invariant Covered(page[..i], n, p, walked, st.providers, st.tripped)
      {
        var t := page[i];
        ghost var was, out := walked, st.tripped;
        r := Turn(n, p, t);
        SweptOn(old(walked), was, walked, n, p.key, after, cursor, t.id);
        if r.Some? {
          return r;
        }
        CoveredStays(page[..i], n, p, was, walked, st.providers, out, st.tripped);
        TurnCovers(n, p, t, was, walked, st.providers, out, st.tripped);
        CoveredJoins(page[..i], [t], n, p, walked, st.providers, st.tripped);
        assert page[..i + 1] == page[..i] + [t];
        i, cursor := i + 1, t.id;
      }
      assert page[..i] == page;
      return None;
    }

    method Fetch(after: int) returns (reply: PageReply)
      requires Valid()
      modifies `fetches, `pageFailed
      ensures Valid() && fetches == old(fetches) + 1 && LimitReached() == old(LimitReached())
      ensures pageFailed <==> old(pageFailed) || reply.PageFails?
      ensures old(Smooth()) ==> (reply.Page? <==> Smooth())
      ensures reply == world.page(old(fetches), after) && KeysetPage(reply, after)
    {
      hide Tracks, Heard, CutOffInLast, Counted, StalledOut, Beaten, Progress, KeysetPage;
      reply := world.page(fetches, after);
      fetches := fetches + 1;
      if reply.PageFails? {
        pageFailed := true;
      }
    }

    /** One page of a sweep: the next cursor, or how the sweep ends here. */
    method SweepPage(n: nat, p: Phase, after: int) returns (r: Option<End>, next: int)
      requires Valid()
      modifies this, st
      ensures Valid() && old(st.tripped) <= st.tripped
      ensures Swept(old(walked), walked, n, p.key, after, if r == None then Some(next) else None)
      ensures old(LimitReached()) || IsStalled(old(stalled), p.key) ==>
                r.Some? && walked == old(walked) && stalled == old(stalled)
      ensures stalled == old(stalled) || stalled == old(stalled) + [p]
      ensures r == None ==> after < next <= MAX_ID && stalled == old(stalled)
      ensures old(Smooth()) ==> (r == Some(BrokenOff) <==> !Smooth())
      ensures r == Some(Limited) ==> LimitReached()
      ensures r == Some(Stalled) ==> IsStalled(stalled, p.key)
      ensures r == Some(Exhausted) ==> fetches == old(fetches) + 1 && world.page(old(fetches), after) == Page([])
      ensures r == None ==> fetches == old(fetches) + 1 && next == NextCursor(world.page(old(fetches), after), after)
      ensures r == None ==> Covered(TargetsOf(world.page(old(fetches), after)), n, p, walked, st.providers, st.tripped)
    {
      hide Smooth, Tracks, Heard, CutOffInLast, KeysetPages, Counted, StalledOut, Beaten, Progress, Swept, IsStalled,
        LimitReached, Covered;
      SweptNothing(walked, n, p.key, after, None);
      if LimitReached() {
        return Some(Limited), after;
      }
      if IsStalled(stalled, p.key) {
        return Some(Stalled), after;
      }
      var reply := Fetch(after);
      if reply.PageFails? {
        return Some(BrokenOff), after;
      }
      if reply.targets == [] {
        return Some(Exhausted), after;
      }
      r := WalkPage(n, p, reply.targets, after);
      next := reply.targets[|reply.targets| - 1].id;
    }

    method RunSweep(n: nat, p: Phase) returns (r: End)
      requires Valid()
      modifies this, st
      ensures Valid() && old(st.tripped) <= st.tripped
      ensures Swept(old(walked), walked, n, p.key, 0, None)
      ensures old(LimitReached()) || IsStalled(old(stalled), p.key) ==> walked == old(walked) && stalled == old(stalled)
      ensures stalled == old(stalled) || stalled == old(stalled) + [p]
      ensures old(Smooth()) ==> (r == BrokenOff <==> !Smooth())
      ensures r == Limited ==> LimitReached()
      ensures r == Stalled ==> IsStalled(stalled, p.key)
      ensures Backed(world, Ended(n, p, r, old(fetches), fetches), walked, stalled, st.providers, st.tripped)
    {
      hide Valid, Smooth, LimitReached, IsStalled, Swept, Covered, ReadSoFar, Backed, NextCursor, TargetsOf;
      PagesBegin(world, fetches, n, p, walked, st.providers, st.tripped);
      SweptNothing(walked, n, p.key, 0, Some(0));
      var after := 0;
      var end := None;
      while end.None?
        invariant Valid() && old(st.tripped) <= st.tripped && (end.None? ==> after >= 0)
        invariant Swept(old(walked), walked, n, p.key, 0, if end.None? then Some(after) else None)
        invariant old(LimitReached()) || IsStalled(old(stalled), p.key) ==>
                    walked == old(walked) && stalled == old(stalled)
                      && (end.Some? || LimitReached() == old(LimitReached()))
        invariant stalled == old(stalled) || (stalled == old(stalled) + [p] && end.Some?)
        invariant old(Smooth()) ==> (end == Some(BrokenOff) <==> !Smooth())
        invariant end == Some(Limited) ==> LimitReached()
        invariant end == Some(Stalled) ==> IsStalled(stalled, p.key)
        invariant end.None? ==> ReadSoFar(world, old(fetches), fetches, after, n, p, walked, st.providers, st.tripped)
        invariant end == Some(Exhausted) ==>
                    Backed(world, Ended(n, p, Exhausted, old(fetches), fetches), walked, stalled, st.providers,
                      st.tripped)
        decreases end.None?, MAX_ID - after
      {
        ghost var was, out, f, cursor := walked, st.tripped, fetches, after;
        end, after := SweepPage(n, p, after);
        SweptJoins(old(walked), was, walked, n, p.key, 0, cursor, if end.None? then Some(after) else None);
        SweptOnly(was, walked, n, p.key, cursor, if end.None? then Some(after) else None);
        PageReads(world, old(fetches), f, cursor, n, p, was, walked, stalled, st.providers, out, st.tripped);
      }
      r := end.value;
      EndBacked(world, Ended(n, p, r, old(fetches), fetches), walked, stalled, st.providers, st.tripped);
    }

    /** The whole run over the phases built for it. A run that is not broken off reports its last
        beat as 1, and no other beat reaches it. */
    method Run(phases: seq<Phase>) returns (ok: bool, reported: seq<real>, ends: seq<Ended>)
      requires Valid() && Smooth() && walked == [] && stalled == [] && beats == [] && DistinctPhases(phases)
      modifies this, st
      ensures Valid() && old(st.tripped) <= st.tripped
      ensures opts.limit > 0 ==> |walked| <= opts.limit
      ensures counters.Total() == |walked| == reach.Total()
      ensures SweepsInOrder(walked) && WalkedOnce(walked) && PhasesInOrder(phases, walked)
      ensures forall w :: w in walked ==> w.sweep < opts.sweeps && Scheduled(opts, w.sweep, w.key)
      ensures EarlierSweepsDone(phases, opts, walked, ends)
      ensures ok <==> Smooth()
      ensures ok ==> AllEnded(phases, opts, ends, opts.sweeps, 0) && EndsFit(opts, walked, ends)
      ensures forall e :: e in ends ==> Backed(world, e, walked, stalled, st.providers, st.tripped)
      ensures Rising(reported) && reported == beats + if ok && opts.heartbeat then [1.0] else []
      ensures forall b :: b in beats ==> b < 1.0
      ensures CutOffInLast(st.calls, began, asked, st.providers) && RunHistory(st.calls, asked, st.providers)
      ensures DistinctNames(st.providers) ==> forall n :: NeverAnswers(st.calls, n) ==>
                CallsOf(st.calls, n) <= if st.doneFrom.None? then TRIP_AFTER else SilentMost(asked)
    {
      hide Smooth, Tracks, Heard, CutOffInLast, KeysetPages, Counted, StalledOut, Beaten, Progress, SweepsInOrder,
        WalkedOnce,
        EndsFit, AllEnded, EarlierSweepsDone, Rising, Backed, PhasesInOrder;
      ends := [];
      RunBegins(phases, opts);
      ok := true;
      var n := 0;
      while n < opts.sweeps && ok
        invariant n <= opts.sweeps && Valid() && old(st.tripped) <= st.tripped
        invariant SweepsInOrder(walked) && WalkedOnce(walked) && PhasesInOrder(phases, walked)
        invariant forall w :: w in walked ==> w.sweep < opts.sweeps && Scheduled(opts, w.sweep, w.key)
        invariant ok ==> AllEnded(phases, opts, ends, n, 0) && EndsFit(opts, walked, ends)
        invariant ok ==> forall w :: w in walked ==> w.sweep < n
        invariant ok <==> Smooth()
        invariant EarlierSweepsDone(phases, opts, walked, ends)
        invariant forall e :: e in ends ==> Backed(world, e, walked, stalled, st.providers, st.tripped)
        decreases opts.sweeps - n
      {
        ok, ends := RunPhases(phases, n, ends);
        n := n + 1;
      }
      TotalsAgree(counters, reach, walked);
      BeatenBelowOne(beats, |walked|, opts.total);
      SilentBounds();
      reported := beats;
      if ok && opts.heartbeat {
        reported := beats + [1.0];
      }
    }

    lemma SilentBounds()
      ensures Valid() ==> RunHistory(st.calls, asked, st.providers)
      ensures Valid() && DistinctNames(st.providers) ==> forall n :: NeverAnswers(st.calls, n) ==>
                CallsOf(st.calls, n) <= if st.doneFrom.None? then TRIP_AFTER else SilentMost(asked)
    {
      hide KeysetPages, Counted, StalledOut, Beaten, CallsOf, NeverAnswers, CutOffInLast, Heard, Disciplined, Sticky;
      if Valid() {
        HeardIsSticky(st.calls, st.answer, st.endsDuring, st.doneFrom);
      }
      if Valid() && DistinctNames(st.providers) {
        forall n | NeverAnswers(st.calls, n)
          ensures CallsOf(st.calls, n) <= if st.doneFrom.None? then TRIP_AFTER else SilentMost(asked)
        {
          SilentProviderBound(st.calls, began, asked, st.providers, n);
          NoneCutOff(st.calls, n);
        }
      }
    }

    /** One sweep over the phases, in their order. */
    method RunPhases(phases: seq<Phase>, n: nat, ends0: seq<Ended>) returns (ok: bool, ends: seq<Ended>)
      requires Valid() && DistinctPhases(phases) && n < opts.sweeps
      requires SweepsInOrder(walked) && WalkedOnce(walked) && PhasesInOrder(phases, walked)
      requires forall w :: w in walked ==> w.sweep < n && Scheduled(opts, w.sweep, w.key)
      requires AllEnded(phases, opts, ends0, n, 0) && EndsFit(opts, walked, ends0)
      requires forall e :: e in ends0 ==> Backed(world, e, walked, stalled, st.providers, st.tripped)
      modifies this, st
      ensures Valid() && old(st.tripped) <= st.tripped
      ensures SweepsInOrder(walked) && WalkedOnce(walked) && PhasesInOrder(phases, walked)
      ensures forall w :: w in walked ==> w.sweep <= n && Scheduled(opts, w.sweep, w.key)
      ensures EarlierSweepsDone(phases, opts, walked, ends)
      ensures forall e :: e in ends ==> Backed(world, e, walked, stalled, st.providers, st.tripped)
      ensures old(Smooth()) ==> (ok <==> Smooth())
      ensures ok ==> AllEnded(phases, opts, ends, n + 1, 0) && EndsFit(opts, walked, ends)
    {
      hide PhasesInOrder, Valid, Smooth, LimitReached, Swept, SweepsInOrder, WalkedOnce, EndsFit, AllEnded,
        EarlierSweepsDone, Backed, MidSweep, Scheduled;
      ends := ends0;
      MidBegins(phases, opts, n, walked, ends);
      var i := 0;
      while i < |phases|
        invariant i <= |phases| && Valid() && old(st.tripped) <= st.tripped
        invariant MidSweep(phases, opts, n, i, walked, ends) && (old(Smooth()) ==> Smooth())
        invariant forall e :: e in ends ==> Backed(world, e, walked, stalled, st.providers, st.tripped)
        decreases |phases| - i
      {
        var p := phases[i];
        if p.key in opts.forced && n > 0 {
          MidSkips(phases, opts, n, i, walked, ends);
          i := i + 1;
          continue;
        }
        ghost var was, idle, out := walked, stalled, st.tripped;
        var first := fetches;
        LimitMeans();
        var how := RunSweep(n, p);
        LimitMeans();
        var end := Ended(n, p, how, first, fetches);
        SweptOnly(was, walked, n, p.key, 0, None);
        BackedStays(world, ends, was, walked, idle, stalled, st.providers, out, st.tripped);
        MidSteps(phases, opts, n, i, was, walked, ends, end);
        if how == BrokenOff {
          return false, ends;
        }
        ends := ends + [end];
        i := i + 1;
      }
      MidEnds(phases, opts, n, walked, ends);
      ok := true;
    }

    lemma LimitMeans()
      requires Valid()
      ensures LimitReached() <==> opts.limit > 0 && |walked| >= opts.limit
    {
      TotalsAgree(counters, reach, walked);
    }
  }

  /** Partway through sweep n, the first i phases done. */
  ghost predicate MidSweep(phases: seq<Phase>, opts: Options, n: nat, i: nat, walked: seq<Walk>, ends: seq<Ended>)
    requires i <= |phases|
  {
    && SweepsInOrder(walked) && WalkedOnce(walked)
    && (forall w :: w in walked ==> w.sweep <= n && Scheduled(opts, w.sweep, w.key))
    && (forall w :: w in walked && w.sweep == n ==> exists q :: 0 <= q < i && w.key == phases[q].key)
    && PhasesInOrder(phases, walked)
    && AllEnded(phases, opts, ends, n, i) && EndsFit(opts, walked, ends)
  }

  lemma MidBegins(phases: seq<Phase>, opts: Options, n: nat, walked: seq<Walk>, ends: seq<Ended>)
    requires SweepsInOrder(walked) && WalkedOnce(walked) && PhasesInOrder(phases, walked)
    requires forall w :: w in walked ==> w.sweep < n && Scheduled(opts, w.sweep, w.key)
    requires AllEnded(phases, opts, ends, n, 0) && EndsFit(opts, walked, ends)
    ensures MidSweep(phases, opts, n, 0, walked, ends)
  {}

  /** A forced phase is passed over on a later sweep. */
  lemma MidSkips(phases: seq<Phase>, opts: Options, n: nat, i: nat, walked: seq<Walk>, ends: seq<Ended>)
    requires i < |phases| && MidSweep(phases, opts, n, i, walked, ends) && phases[i].key in opts.forced && n > 0
    ensures MidSweep(phases, opts, n, i + 1, walked, ends)
  {
    hide SweepsInOrder, WalkedOnce, EndsFit, AllEnded;
    SkipAppends(phases, opts, ends, n, i);
  }

  /** One more phase swept, and the order of the walk kept even when the run breaks off in it. */
  lemma MidSteps(phases: seq<Phase>, opts: Options, n: nat, i: nat, was: seq<Walk>, walked: seq<Walk>,
                 ends: seq<Ended>, e: Ended)
    requires i < |phases| && MidSweep(phases, opts, n, i, was, ends) && DistinctPhases(phases)
    requires (n == 0 || phases[i].key !in opts.forced) && e.sweep == n && e.phase == phases[i]
    requires Swept(was, walked, n, phases[i].key, 0, None)
    requires opts.limit > 0 && |was| >= opts.limit ==> walked == was
    requires e.how == Limited ==> opts.limit > 0 && |walked| >= opts.limit
    ensures SweepsInOrder(walked) && WalkedOnce(walked) && PhasesInOrder(phases, walked)
    ensures forall w :: w in walked ==> w.sweep <= n && Scheduled(opts, w.sweep, w.key)
    ensures EarlierSweepsDone(phases, opts, walked, ends)
    ensures e.how != BrokenOff ==> MidSweep(phases, opts, n, i + 1, walked, ends + [e])
  {
    hide SweepsInOrder, WalkedOnce, PhasesInOrder, EndsFit, AllEnded, EarlierSweepsDone, OneSweep;
    var added, k := walked[|was|..], phases[i].key;
    assert walked == was + added;
    OneSweepKeys(added, n, k);
    SweepJoins(was, added, n, k);
    PhaseJoins(phases, was, added, n, i);
    EarlierDoneAt(phases, opts, was, walked, ends, n, i);
    if e.how != BrokenOff {
      EndAppends(phases, opts, was, walked, ends, n, i, e);
    }
  }

  lemma PhaseJoins(phases: seq<Phase>, was: seq<Walk>, added: seq<Walk>, n: nat, q: nat)
    requires q < |phases| && PhasesInOrder(phases, was) && DistinctPhases(phases)
    requires forall w :: w in was ==> w.sweep <= n
    requires forall w :: w in was && w.sweep == n ==> exists k :: 0 <= k < q && w.key == phases[k].key
    requires forall w :: w in added ==> w.sweep == n && w.key == phases[q].key
    ensures PhasesInOrder(phases, was + added)
  {
    var all := was + added;
    forall i, j, a, b | 0 <= i < j < |all| && all[i].sweep == all[j].sweep && 0 <= a < |phases| && 0 <= b < |phases|
                        && phases[a].key == all[i].key && phases[b].key == all[j].key
      ensures a <= b
    {
      if j >= |was| {
        assert all[j] in added;
        if i < |was| {
          assert all[i] in was;
          var k :| 0 <= k < q && all[i].key == phases[k].key;
          assert a == k && b == q;
        } else {
          assert all[i] in added;
        }
      } else {
        assert all[i] == was[i] && all[j] == was[j];
      }
    }
  }

  lemma MidEnds(phases: seq<Phase>, opts: Options, n: nat, walked: seq<Walk>, ends: seq<Ended>)
    requires MidSweep(phases, opts, n, |phases|, walked, ends)
    ensures SweepsInOrder(walked) && WalkedOnce(walked) && PhasesInOrder(phases, walked)
    ensures forall w :: w in walked ==> w.sweep <= n && Scheduled(opts, w.sweep, w.key)
    ensures EarlierSweepsDone(phases, opts, walked, ends)
    ensures AllEnded(phases, opts, ends, n + 1, 0) && EndsFit(opts, walked, ends)
  {
    hide SweepsInOrder, WalkedOnce, EndsFit, AllEnded, EarlierSweepsDone;
    SweepEnds(phases, opts, ends, n);
    EarlierDoneAt(phases, opts, walked, walked, ends, n, |phases|);
  }

  lemma TurnCovers(n: nat, p: Phase, t: Target, was: seq<Walk>, walked: seq<Walk>, ps: seq<Provider>, out: set<Name>,
                   tripped: set<Name>)
    requires walked == was + [Walk(n, p.key, t.id)] || (p.halves && !SomeLive(ps, out, p.rung, Need(p, t)))
    requires out <= tripped
    ensures Covered([t], n, p, walked, ps, tripped)
  {
    hide Serves, Need;
  }

  /** Between pages: the cursor is where the pages read from fetch f on leave it, and their
      targets are covered. */
  ghost predicate ReadSoFar(w: World, f: nat, l: nat, after: int, n: nat, p: Phase, walked: seq<Walk>,
                            ps: seq<Provider>, tripped: set<Name>)
  {
    f <= l && after == Cursor(w, f, l - f) && Covered(PagesRead(w, f, l - f), n, p, walked, ps, tripped)
  }

  lemma PagesBegin(w: World, f: nat, n: nat, p: Phase, walked: seq<Walk>, ps: seq<Provider>, tripped: set<Name>)
    ensures ReadSoFar(w, f, f, 0, n, p, walked, ps, tripped)
  {}

  /** One more page: its targets covered, or the empty one that ends the sweep. */
  lemma PageReads(w: World, f: nat, l: nat, after: int, n: nat, p: Phase, was: seq<Walk>, walked: seq<Walk>,
                  stalled: seq<Phase>, ps: seq<Provider>, out: set<Name>, tripped: set<Name>)
    requires ReadSoFar(w, f, l, after, n, p, was, ps, out) && was <= walked && out <= tripped
    ensures Covered(TargetsOf(w.page(l, after)), n, p, walked, ps, tripped) ==>
              ReadSoFar(w, f, l + 1, NextCursor(w.page(l, after), after), n, p, walked, ps, tripped)
    ensures w.page(l, after) == Page([]) ==> Backed(w, Ended(n, p, Exhausted, f, l + 1), walked, stalled, ps, tripped)
  {
    hide Covered, IsStalled;
    CoveredStays(PagesRead(w, f, l - f), n, p, was, walked, ps, out, tripped);
    NothingToCover(n, p, walked, ps, tripped);
    if Covered(TargetsOf(w.page(l, after)), n, p, walked, ps, tripped) {
      CoveredJoins(PagesRead(w, f, l - f), TargetsOf(w.page(l, after)), n, p, walked, ps, tripped);
    }
  }

  lemma EndBacked(w: World, e: Ended, walked: seq<Walk>, stalled: seq<Phase>, ps: seq<Provider>, tripped: set<Name>)
    requires e.how == Exhausted ==> Backed(w, e, walked, stalled, ps, tripped)
    requires e.how == Stalled ==> IsStalled(stalled, e.phase.key)
    ensures Backed(w, e, walked, stalled, ps, tripped)
  {}

  lemma RunBegins(phases: seq<Phase>, opts: Options)
    ensures AllEnded(phases, opts, [], 0, 0) && EndsFit(opts, [], []) && EarlierSweepsDone(phases, opts, [], [])
    ensures SweepsInOrder([]) && WalkedOnce([]) && PhasesInOrder(phases, [])
  {}

  lemma OneSweepKeys(added: seq<Walk>, n: nat, k: PhaseKey)
    requires OneSweep(added, n, k)
    ensures forall w :: w in added ==> w.sweep == n && w.key == k
  {}

  lemma SkipAppends(phases: seq<Phase>, opts: Options, ends: seq<Ended>, n: nat, i: nat)
    requires i < |phases| && AllEnded(phases, opts, ends, n, i) && !Scheduled(opts, n, phases[i].key)
    ensures AllEnded(phases, opts, ends, n, i + 1)
  {}

  lemma SweepEnds(phases: seq<Phase>, opts: Options, ends: seq<Ended>, n: nat)
    requires AllEnded(phases, opts, ends, n, |phases|)
    ensures AllEnded(phases, opts, ends, n + 1, 0)
  {}

  /** The sweep in hand adds no target of a later one, so what the earlier ones left stands. */
  lemma EarlierDoneAt(phases: seq<Phase>, opts: Options, was: seq<Walk>, walked: seq<Walk>, ends: seq<Ended>, n: nat,
                      i: nat)
    requires i <= |phases| && AllEnded(phases, opts, ends, n, i) && EndsFit(opts, was, ends)
    requires was <= walked && (opts.limit > 0 && |was| >= opts.limit ==> walked == was)
    requires forall w :: w in walked ==> w.sweep <= n
    ensures EarlierSweepsDone(phases, opts, walked, ends)
  {
    assert EndsFit(opts, walked, ends);
    EarlierDone(phases, opts, walked, ends, n);
  }

  ghost predicate DistinctPhases(phases: seq<Phase>) {
    forall i, j :: 0 <= i < j < |phases| ==> phases[i].key != phases[j].key
  }

  lemma PageRises(page: seq<Target>, after: int)
    requires KeysetPage(Page(page), after)
    ensures forall i :: 0 <= i < |page| ==> after < page[i].id
    ensures forall i, j :: 0 <= i < j < |page| ==> page[i].id < page[j].id
  {}
}
