/** The release-group browse (enrich/musicbrainz.go) that feeds the matcher, and the run's memo
    of the groups it has browsed (enrich/enrich.go). */
module GroupBrowse {
  import opened Common
  import opened ReleaseMatch

  const PAGE_SIZE := 100

  /** One page of the browse; count is the group's total as that page gives it. */
  datatype PageReply = NotFound | PageFails | Page(count: int, releases: seq<Edition>)

  /** Short is a read that cannot be judged whole; Gone a group the server does not know. */
  datatype Outcome = Failed | Short | Gone | Whole(group: Group)

  ghost predicate DistinctIds(editions: seq<Edition>) {
    && (forall e :: e in editions ==> e.id != "")
    && forall i, j :: 0 <= i < j < |editions| ==> editions[i].id != editions[j].id
  }

  /** What may be cached: an answer that the group is over the cap, or at least as many releases
      as the group has, each once. */
  ghost predicate Cacheable(g: Group) {
    if g.count > MAX_GROUP_RELEASES then g.editions == []
    else DistinctIds(g.editions) && |g.editions| >= g.count
  }

  // ---------------------------------------------------------------------------
  // Paging
  // ---------------------------------------------------------------------------

  function Ids(editions: seq<Edition>): set<string> {
    set e | e in editions :: e.id
  }

  lemma IdsAppend(editions: seq<Edition>, e: Edition)
    ensures Ids(editions + [e]) == Ids(editions) + {e.id}
  {
    assert forall x :: x in editions + [e] <==> x in editions || x == e;
  }

  lemma NoIds()
    ensures Ids([]) == {}
  {}

  lemma DistinctAppends(editions: seq<Edition>, e: Edition)
    requires DistinctIds(editions) && e.id != "" && e.id !in Ids(editions)
    ensures DistinctIds(editions + [e])
  {
    assert forall x :: x in editions ==> x.id in Ids(editions);
  }

  /** The first of the releases listed under its id, which is not empty. */
  ghost predicate FirstListed(all: seq<Edition>, e: Edition) {
    e.id != "" && exists i :: 0 <= i < |all| && all[i] == e && forall j :: 0 <= j < i ==> all[j].id != e.id
  }

  lemma FirstStays(all: seq<Edition>, more: seq<Edition>, e: Edition)
    requires FirstListed(all, e)
    ensures FirstListed(all + more, e)
  {
    var i :| 0 <= i < |all| && all[i] == e && forall j :: 0 <= j < i ==> all[j].id != e.id;
    assert (all + more)[i] == e && forall j :: 0 <= j < i ==> (all + more)[j] == all[j];
  }

  lemma FirstJoins(all: seq<Edition>, e: Edition)
    requires e.id != "" && e.id !in Ids(all)
    ensures FirstListed(all + [e], e)
  {
    assert (all + [e])[|all|] == e;
    forall j | 0 <= j < |all| ensures (all + [e])[j].id != e.id {
      assert all[j] in all;
    }
  }

  /** The page's releases not seen before, as they are first listed. */
  method AddPage(editions0: seq<Edition>, releases: seq<Edition>, ghost all: seq<Edition>)
    returns (editions: seq<Edition>)
    requires DistinctIds(editions0) && Ids(editions0) == Ids(all) - {""}
    requires forall e :: e in editions0 ==> FirstListed(all, e)
    ensures editions0 <= editions && DistinctIds(editions)
    ensures Ids(editions) == Ids(all + releases) - {""}
    ensures forall e :: e in editions ==> FirstListed(all + releases, e)
  {
    hide DistinctIds, Ids, FirstListed;
    editions := editions0;
    var seen := Ids(editions0);
    assert all + releases[..0] == all;
    for i := 0 to |releases|
      invariant editions0 <= editions && DistinctIds(editions) && seen == Ids(editions)
      invariant Ids(editions) == Ids(all + releases[..i]) - {""}
      invariant forall e :: e in editions ==> FirstListed(all + releases[..i], e)
    {
      var r := releases[i];
      ghost var met := all + releases[..i];
      IdsAppend(met, r);
      assert all + releases[..i + 1] == met + [r];
      forall e | e in editions ensures FirstListed(met + [r], e) {
        FirstStays(met, [r], e);
      }
      if r.id == "" || r.id in seen {
        continue;
      }
      IdsAppend(editions, r);
      DistinctAppends(editions, r);
      FirstJoins(met, r);
      seen, editions := seen + {r.id}, editions + [r];
    }
    assert releases[..|releases|] == releases;
  }

  /** What the first n pages list. */
  ghost function Listed(page: nat -> PageReply, n: nat): seq<Edition> {
    if n == 0 then [] else Listed(page, n - 1) + if page(n - 1).Page? then page(n - 1).releases else []
  }

  /** The ids among them. */
  ghost function PageIds(page: nat -> PageReply, n: nat): set<string> {
    Ids(Listed(page, n)) - {""}
  }

  lemma ListedStep(page: nat -> PageReply, n: nat)
    ensures Listed(page, 0) == [] && DistinctIds([])
    ensures Listed(page, n + 1) == Listed(page, n) + if page(n).Page? then page(n).releases else []
  {}

  /** A browse goes on past its k-th page: that came and was not empty, and the total, which the cap
      allows, is not yet met. */
  ghost predicate GoesOn(page: nat -> PageReply, k: nat) {
    && k >= 1 && page(0).Page? && page(k - 1).Page? && page(k - 1).releases != []
    && |PageIds(page, k)| < page(0).count <= MAX_GROUP_RELEASES
  }

  /** How a browse of that many requests must have ended: on a page that did not come, or whole,
      or short with the first page's total unusable or unmet once the pages ran dry or out. */
  ghost predicate Browsed(page: nat -> PageReply, o: Outcome, requests: nat) {
    && 1 <= requests <= 3 && (forall k :: 1 <= k < requests ==> GoesOn(page, k))
    && match o
       case Gone => page(requests - 1).NotFound?
       case Failed => page(requests - 1).PageFails?
       case Whole(g) =>
         && page(0).Page? && page(requests - 1).Page? && g.count == page(0).count && Cacheable(g)
         && (page(0).count <= 0 ==> page(0).releases == [])
         && (g.count <= MAX_GROUP_RELEASES ==>
               Ids(g.editions) == PageIds(page, requests)
               && forall e :: e in g.editions ==> FirstListed(Listed(page, requests), e))
       case Short =>
         && page(0).Page? && page(requests - 1).Page?
         && if page(0).count <= 0 then page(0).releases != []
            else |PageIds(page, requests)| < page(0).count && (requests == 3 || page(requests - 1).releases == [])
  }

  /** Page after page until the group is whole, the pages run dry, or the cap is reached. */
  method Browse(page: nat -> PageReply) returns (o: Outcome, requests: nat)
    ensures Browsed(page, o, requests)
  {
    hide DistinctIds, Ids, PageIds, Listed, FirstListed, Cacheable, Browsed, GoesOn;
    ListedStep(page, 0);
    NoIds();
    var editions: seq<Edition> := [];
    var count := -1;
    var offset := 0;
    requests := 0;
    while true
      invariant offset == requests * PAGE_SIZE && requests <= 2
      invariant DistinctIds(editions) && Ids(editions) == Ids(Listed(page, requests)) - {""}
      invariant forall e :: e in editions ==> FirstListed(Listed(page, requests), e)
      invariant requests > 0 ==> page(0).Page? && count == page(0).count && |editions| < count <= MAX_GROUP_RELEASES
      invariant forall k :: 1 <= k <= requests ==> GoesOn(page, k)
      decreases 3 - requests
    {
      var reply := page(requests);
      ListedStep(page, requests);
      requests := requests + 1;
      BrowsedEarly(page, requests);
      match reply
      case NotFound =>
        return Gone, requests;
      case PageFails =>
        return Failed, requests;
      case Page(total, releases) =>
        if requests == 1 {
          count := total;
          if count <= 0 && releases != [] {
            return Short, requests;
          }
          if count > MAX_GROUP_RELEASES {
            return Whole(Group(count, [])), requests;
          }
        }
        editions := AddPage(editions, releases, Listed(page, requests - 1));
        if |editions| >= count || releases == [] || offset + PAGE_SIZE >= MAX_GROUP_RELEASES {
          BrowsedLast(page, editions, requests);
          break;
        }
        BrowseGoesOn(page, editions, requests);
        offset := offset + PAGE_SIZE;
    }
    if |editions| < count {
      return Short, requests;
    }
    return Whole(Group(count, editions)), requests;
  }

  lemma BrowseGoesOn(page: nat -> PageReply, editions: seq<Edition>, k: nat)
    requires k >= 1 && page(0).Page? && page(k - 1).Page? && page(k - 1).releases != []
    requires DistinctIds(editions) && Ids(editions) == Ids(Listed(page, k)) - {""}
    requires |editions| < page(0).count <= MAX_GROUP_RELEASES
    ensures GoesOn(page, k)
  {
    hide Ids, Listed, DistinctIds;
    CountDistinct(editions);
  }

  lemma BrowsedEarly(page: nat -> PageReply, requests: nat)
    requires 1 <= requests <= 3 && forall k :: 1 <= k < requests ==> GoesOn(page, k)
    ensures page(requests - 1).NotFound? ==> Browsed(page, Gone, requests)
    ensures page(requests - 1).PageFails? ==> Browsed(page, Failed, requests)
    ensures page(0).Page? && page(0).count <= 0 && page(0).releases != [] ==> Browsed(page, Short, 1)
    ensures page(0).Page? && page(0).count > MAX_GROUP_RELEASES ==> Browsed(page, Whole(Group(page(0).count, [])), 1)
  {
    hide Ids, PageIds, GoesOn;
  }

  lemma BrowsedLast(page: nat -> PageReply, editions: seq<Edition>, requests: nat)
    requires 1 <= requests <= 3 && page(0).Page? && page(requests - 1).Page? && page(0).count <= MAX_GROUP_RELEASES
    requires forall k :: 1 <= k < requests ==> GoesOn(page, k)
    requires page(0).count <= 0 ==> page(0).releases == []
    requires DistinctIds(editions) && Ids(editions) == Ids(Listed(page, requests)) - {""}
    requires forall e :: e in editions ==> FirstListed(Listed(page, requests), e)
    requires |editions| >= page(0).count || requests == 3 || page(requests - 1).releases == []
    ensures Browsed(page, if |editions| < page(0).count then Short else Whole(Group(page(0).count, editions)), requests)
  {
    hide Ids, Listed, DistinctIds, FirstListed, GoesOn;
    CountDistinct(editions);
  }

  lemma EmptyIsCacheable()
    ensures Cacheable(Group(0, []))
  {}

  // ---------------------------------------------------------------------------
  // The cache
  // ---------------------------------------------------------------------------

  /** Every set ever cached may be judged for uniqueness, or says it is too big to. */
  ghost predicate SoundCache(cache: map<string, Group>) {
    forall k :: k in cache ==> Cacheable(cache[k])
  }

  /** Whether the cache can be read and what it holds decoded, and whether it takes a write. */
  datatype CacheAnswer = CacheAnswer(getOk: bool, putOk: bool)

  class MusicBrainz {
    var cache: map<string, Group>

    ghost predicate Valid()
      reads this
    {
      SoundCache(cache)
    }

    constructor (cache: map<string, Group>)
      requires SoundCache(cache)
      ensures Valid() && this.cache == cache
    {
      this.cache := cache;
    }

    /** ok says the group may go to the matcher. A set over the cap or one the server does not
        know goes too, and decides nothing there; a short read never does. */
    method ReleaseEditions(force: bool, group: string, page: nat -> PageReply, store: CacheAnswer)
      returns (g: Group, ok: bool, failed: bool, requests: nat, ghost o: Outcome)
      requires Valid()
      modifies this
      ensures Valid()
      ensures ok ==> !failed && Cacheable(g)
      ensures requests == 0 <==> group == "" || (!force && (!store.getOk || group in old(cache)))
      ensures requests == 0 ==> cache == old(cache) && (failed <==> group != "" && !force && !store.getOk)
      ensures requests == 0 ==> (ok <==> group != "" && !failed) && (ok ==> g == cache[group])
      ensures requests > 0 ==> Browsed(page, o, requests)
      ensures requests > 0 ==>
                (ok <==> o.Gone? || (o.Whole? && store.putOk))
                && (failed <==> o.Failed? || (o.Whole? && !store.putOk))
      ensures requests > 0 && ok ==> g == if o.Whole? then o.group else Group(0, [])
      ensures requests > 0 ==> cache == if o.Whole? && store.putOk then old(cache)[group := o.group] else old(cache)
    {
      hide Cacheable;
      g, ok, failed, requests, o := Group(0, []), false, false, 0, Short;
      if group == "" {
        return;
      }
      if !force && !store.getOk {
        failed := true;
        return;
      }
      if !force && group in cache {
        g, ok := cache[group], true;
        return;
      }
      var outcome: Outcome;
      outcome, requests := Browse(page);
      o := outcome;
      match outcome
      case Failed => failed := true;
      case Short =>
      case Gone =>
        EmptyIsCacheable();
        ok := true;
      case Whole(whole) =>
        g, ok, failed := whole, store.putOk, !store.putOk;
        if store.putOk {
          cache := cache[group := whole];
        }
    }
  }

  /** Whatever the browse hands on, an answer of the matcher is over at least as many distinct
      releases as the group has. */
  lemma NeverDecidesOnPart(w: Tables, t: Album, g: Group, m: Match)
    requires Cacheable(g) && Decides(w, t, g, m) && m != NoMatch
    ensures DistinctIds(g.editions) && |Ids(g.editions)| == |g.editions| >= g.count
  {
    CountDistinct(g.editions);
  }

  lemma LastIsNew(editions: seq<Edition>)
    requires DistinctIds(editions) && editions != []
    ensures DistinctIds(editions[..|editions| - 1])
    ensures Ids(editions) == Ids(editions[..|editions| - 1]) + {editions[|editions| - 1].id}
    ensures editions[|editions| - 1].id !in Ids(editions[..|editions| - 1])
  {
    var init, last := editions[..|editions| - 1], editions[|editions| - 1];
    IdsAppend(init, last);
    assert editions == init + [last];
    forall e | e in init ensures e.id != last.id {
      var i :| 0 <= i < |init| && init[i] == e;
      assert editions[i] == e;
    }
  }

  lemma {:induction false} CountDistinct(editions: seq<Edition>)
    requires DistinctIds(editions)
    ensures |Ids(editions)| == |editions|
  {
    hide DistinctIds, Ids;
    NoIds();
    if editions != [] {
      LastIsNew(editions);
      CountDistinct(editions[..|editions| - 1]);
    }
  }

  // ---------------------------------------------------------------------------
  // One run's memo
  // ---------------------------------------------------------------------------

  /** browsed says, per group attempted, whether the attempt was usable; refreshed which groups
      this run re-browsed; log the browses made and how each ended; ended that one failed, which
      ends the run. */
  datatype Memo = Memo(browsed: map<string, bool>, refreshed: set<string>, cache: map<string, Group>,
                       log: seq<(string, Outcome)>, ended: bool)

  /** One album under a group: forced says it is asked the way a forced run asks, end how a browse
      for it would end, store what the cache would say to a read and to a write of it. */
  datatype Visit = Visit(group: string, forced: bool, end: Outcome, store: CacheAnswer)

  function Begin(cache: map<string, Group>): Memo {
    Memo(map[], {}, cache, [], false)
  }

  predicate Refreshes(s: Memo, v: Visit) {
    v.forced && v.group !in s.refreshed
  }

  /** The read of the cache that comes before any browse but a refresh fails. */
  predicate Unread(s: Memo, v: Visit) {
    v.group != "" && !Refreshes(s, v) && !v.store.getOk
  }

  /** Whether the album's group is browsed for it: neither held unusable nor read from the cache. */
  predicate Browsing(s: Memo, v: Visit) {
    && !s.ended && v.group != "" && !Unread(s, v)
    && (Refreshes(s, v) || (v.group !in s.cache && (v.group in s.browsed ==> s.browsed[v.group])))
  }

  predicate Breaks(v: Visit) {
    v.end.Failed? || (v.end.Whole? && !v.store.putOk)
  }

  function Attempt(s: Memo, v: Visit): Memo {
    var refreshed := if v.forced then s.refreshed + {v.group} else s.refreshed;
    if s.ended || (v.group in s.browsed && !s.browsed[v.group] && !Refreshes(s, v)) then s
    else if Unread(s, v) then s.(ended := true)
    else if !Browsing(s, v) then s.(refreshed := refreshed, browsed := s.browsed[v.group := v.group != ""])
    else if Breaks(v) then s.(log := s.log + [(v.group, v.end)], ended := true)
    else s.(refreshed := refreshed, browsed := s.browsed[v.group := !v.end.Short?],
            cache := if v.end.Whole? then s.cache[v.group := v.end.group] else s.cache,
            log := s.log + [(v.group, v.end)])
  }

  /** The set the matcher is given: what the browse made for the album found, nothing for a group the
      server does not know, or what the cache holds. */
  function GroupFor(s: Memo, v: Visit): Group {
    if Browsing(s, v) then (if v.end.Whole? then v.end.group else Group(0, []))
    else if v.group in s.cache then s.cache[v.group] else Group(0, [])
  }

  function Attempts(s: Memo, visits: seq<Visit>): Memo {
    if visits == [] then s else Attempt(Attempts(s, visits[..|visits| - 1]), visits[|visits| - 1])
  }

  /** The album, its group, how it is asked, and what the server and the cache would answer. */
  datatype Ask = Ask(album: Album, group: string, forced: bool, page: nat -> PageReply, store: CacheAnswer)

  /** An answer over a set that holds at least as many distinct releases as the group has. */
  ghost predicate DecidedWhole(w: Tables, t: Album, g: Group, m: Match) {
    Decides(w, t, g, m) && (m != NoMatch ==> DistinctIds(g.editions) && |Ids(g.editions)| == |g.editions| >= g.count)
  }

  /** What an album is answered: the matcher's answer over a group when it was judged, none otherwise,
      and an edition only over a whole group. */
  ghost predicate Answers(w: Tables, album: Album, g: Group, judged: bool, m: Match) {
    && (if judged then Decides(w, album, g, m) else m == NoMatch)
    && (m != NoMatch ==> DecidedWhole(w, album, g, m))
  }

  class RunMemo {
    const mb: MusicBrainz
    var browsedGroups: map<string, bool>
    var refreshedGroups: set<string>
    ghost var log: seq<(string, Outcome)>
    var ended: bool

    ghost function View(): Memo
      reads this, mb
    {
      Memo(browsedGroups, refreshedGroups, mb.cache, log, ended)
    }

    constructor (mb: MusicBrainz)
      ensures this.mb == mb && View() == Begin(mb.cache)
    {
      this.mb := mb;
      browsedGroups, refreshedGroups, log, ended := map[], {}, [], false;
    }

    /** The edition tier's part of matching one album; an unusable group gives no verdict. */
    method MatchAlbum(w: Tables, a: Ask) returns (m: Match, judged: bool, ghost g: Group, ghost v: Visit)
      requires mb.Valid() && !ended
      modifies this, mb
      ensures mb.Valid()
      ensures v.group == a.group && v.forced == a.forced && v.store == a.store
      ensures View() == Attempt(old(View()), v)
      ensures Browsing(old(View()), v) ==> exists requests :: Browsed(a.page, v.end, requests)
      ensures judged <==> !ended && a.group in browsedGroups && browsedGroups[a.group]
      ensures judged ==> g == GroupFor(old(View()), v)
      ensures judged && a.group in mb.cache && (|log| == |old(log)| || !v.end.Gone?) ==> g == mb.cache[a.group]
      ensures Answers(w, a.album, g, judged, m)
      ensures m != NoMatch ==> a.group in mb.cache && g == mb.cache[a.group]
    {
      hide Browsed, Cacheable, Decides, DistinctIds, Ids, Attempt, Browsing, SoundCache, DecidedWhole;
      ghost var s := View();
      m, judged, g, v := NoMatch, false, Group(0, []), Visit(a.group, a.forced, Short, a.store);
      var attempted := a.group in browsedGroups;
      var usable := attempted && browsedGroups[a.group];
      var refresh := a.forced && a.group !in refreshedGroups;
      AttemptHeld(s, v);
      if attempted && !usable && !refresh {
        return;
      }
      var found, ok, failed, requests, o := mb.ReleaseEditions(refresh, a.group, a.page, a.store);
      v := v.(end := o);
      AttemptIs(s, v);
      if requests > 0 {
        log := log + [(a.group, o)];
      }
      if failed {
        ended := true;
        return;
      }
      if refresh {
        refreshedGroups := refreshedGroups + {a.group};
      }
      browsedGroups := browsedGroups[a.group := ok];
      if !ok {
        return;
      }
      m := MatchEdition(w, a.album, found);
      g, judged := found, true;
      AnsweredWhole(w, a.album, g, m);
    }

    /** A run over the albums, which a failed browse ends: each answer is over a whole group. */
    method Drive(w: Tables, asks: seq<Ask>)
      returns (answers: seq<Match>, judged: seq<bool>, ghost groups: seq<Group>, ghost visits: seq<Visit>)
      requires mb.Valid() && !ended
      modifies this, mb
      ensures mb.Valid() && View() == Attempts(old(View()), visits)
      ensures |answers| == |judged| == |groups| == |visits| <= |asks| && (!ended ==> |visits| == |asks|)
      ensures forall i :: 0 <= i < |visits| ==> visits[i].group == asks[i].group && visits[i].forced == asks[i].forced
      ensures forall i :: 0 <= i < |answers| ==> Answers(w, asks[i].album, groups[i], judged[i], answers[i])
    {
      hide Answers, Attempt, Browsing, Browsed, GroupFor, SoundCache;
      answers, judged, groups, visits := [], [], [], [];
      while |answers| < |asks| && !ended
        invariant mb.Valid() && View() == Attempts(old(View()), visits)
        invariant |answers| == |judged| == |groups| == |visits| <= |asks|
        invariant forall i :: 0 <= i < |visits| ==>
                  visits[i].group == asks[i].group && visits[i].forced == asks[i].forced
        invariant forall i :: 0 <= i < |answers| ==> Answers(w, asks[i].album, groups[i], judged[i], answers[i])
        decreases |asks| - |answers|
      {
        var m, j, g, v := MatchAlbum(w, asks[|answers|]);
        assert (visits + [v])[..|visits|] == visits;
        answers, judged, groups, visits := answers + [m], judged + [j], groups + [g], visits + [v];
      }
    }
  }

  /** When an album has its group browsed, said of the memo: one asked as a forced run asks, once for
      its group; any other when its group is not cached and was not found unusable. Each goes on the
      log, and what it found, when the cache takes it, into the cache. */
  lemma WhenBrowsed(s: Memo, v: Visit)
    requires !s.ended && v.group != "" && v.store.getOk
    ensures var s', browses := Attempt(s, v), v.group !in s.cache && (v.group !in s.browsed || s.browsed[v.group]);
            && s'.log ==
               (if (v.forced && v.group !in s.refreshed) || browses then s.log + [(v.group, v.end)] else s.log)
            && (v.forced && v.group !in s.refreshed && !s'.ended ==> v.group in s'.refreshed)
            && (s'.log != s.log && v.end.Whole? && v.store.putOk ==>
               v.group in s'.cache && s'.cache[v.group] == v.end.group)
            && (s'.log != s.log && (v.end.Gone? || v.end.Short?) ==> s'.cache == s.cache && !s'.ended)
            && (s'.log != s.log && (v.end.Failed? || (v.end.Whole? && !v.store.putOk)) ==>
               s'.ended && s'.cache == s.cache)
            && (s'.log == s.log ==> s'.cache == s.cache)
  {
    assert |s.log + [(v.group, v.end)]| != |s.log|;
  }

  /** A group found unusable is passed over, unless by its one refresh; for any other, and for no
      refresh, a cache that cannot be read ends the run; and a group without an id is found unusable. */
  lemma WhenNotBrowsed(s: Memo, v: Visit)
    requires !s.ended
    ensures !(v.forced && v.group !in s.refreshed) && v.group in s.browsed && !s.browsed[v.group] ==> Attempt(s, v) == s
    ensures (!(v.forced && v.group !in s.refreshed) && v.group != "" && !v.store.getOk
             && (v.group in s.browsed ==> s.browsed[v.group])) ==>
              Attempt(s, v) == s.(ended := true)
    ensures v.group == "" ==>
              var s' := Attempt(s, v);
              s'.log == s.log && s'.cache == s.cache && !s'.ended && "" in s'.browsed
              && ((v.forced && "" !in s.refreshed) || "" !in s.browsed ==> !s'.browsed[""])
  {}

  lemma AttemptHeld(s: Memo, v: Visit)
    ensures v.group in s.browsed && !s.browsed[v.group] && !Refreshes(s, v) ==> Attempt(s, v) == s && !Browsing(s, v)
    ensures s.ended ==> Attempt(s, v) == s
  {}

  /** What an album does to the memo when its group is not held unusable. */
  lemma AttemptIs(s: Memo, v: Visit)
    requires !s.ended && !(v.group in s.browsed && !s.browsed[v.group] && !Refreshes(s, v))
    ensures var refreshed := if Refreshes(s, v) then s.refreshed + {v.group} else s.refreshed;
            if Unread(s, v) then !Browsing(s, v) && Attempt(s, v) == s.(ended := true)
            else if v.group == "" || (!Refreshes(s, v) && v.group in s.cache)
            then !Browsing(s, v)
              && Attempt(s, v) == s.(refreshed := refreshed, browsed := s.browsed[v.group := v.group != ""])
            else
              && Browsing(s, v)
              && Attempt(s, v) ==
                 if Breaks(v) then s.(log := s.log + [(v.group, v.end)], ended := true)
                 else s.(refreshed := refreshed, browsed := s.browsed[v.group := !v.end.Short?],
                         cache := if v.end.Whole? then s.cache[v.group := v.end.group] else s.cache,
                         log := s.log + [(v.group, v.end)])
  {
    assert v.forced && v.group in s.refreshed ==> s.refreshed + {v.group} == s.refreshed;
  }

  lemma AnsweredWhole(w: Tables, t: Album, g: Group, m: Match)
    requires Cacheable(g) && Decides(w, t, g, m)
    ensures m != NoMatch ==> DecidedWhole(w, t, g, m) && g != Group(0, [])
  {
    if m != NoMatch {
      NeverDecidesOnPart(w, t, g, m);
    }
  }

  /** The browses of a group that did not find it unknown, and all of them. */
  ghost function Known(log: seq<(string, Outcome)>, group: string): nat {
    if log == [] then 0
    else Known(log[..|log| - 1], group) + if log[|log| - 1].0 == group && !log[|log| - 1].1.Gone? then 1 else 0
  }

  ghost function Browses(log: seq<(string, Outcome)>, group: string): nat {
    if log == [] then 0 else Browses(log[..|log| - 1], group) + if log[|log| - 1].0 == group then 1 else 0
  }

  lemma LogAppends(log: seq<(string, Outcome)>, e: (string, Outcome), group: string)
    ensures Known(log + [e], group) == Known(log, group) + if e.0 == group && !e.1.Gone? then 1 else 0
    ensures Browses(log + [e], group) == Browses(log, group) + if e.0 == group then 1 else 0
  {
    assert (log + [e])[..|log|] == log;
  }

  /** A group is browsed once, and once more by its one refresh; after that it is skipped, or
      read from the cache. */
  ghost predicate Bounded(s: Memo, group: string) {
    var most := if group in s.refreshed then 2 else 1;
    if s.ended then Known(s.log, group) <= 2
    else
      && Known(s.log, group) <= most
      && (Known(s.log, group) == most ==> group in s.browsed && (s.browsed[group] ==> group in s.cache))
  }

  lemma AttemptBounded(s: Memo, v: Visit, group: string)
    requires Bounded(s, group)
    ensures Bounded(Attempt(s, v), group)
  {
    LogAppends(s.log, (v.group, v.end), group);
    hide Known, Browses;
  }

  /** In every run, whatever the browses answer, a group is browsed at most twice beyond the
      browses that find it unknown. */
  lemma {:induction false} AtMostTwice(cache: map<string, Group>, visits: seq<Visit>, group: string)
    ensures Bounded(Attempts(Begin(cache), visits), group)
    ensures Known(Attempts(Begin(cache), visits).log, group) <= 2
  {
    hide Attempt;
    if visits != [] {
      AtMostTwice(cache, visits[..|visits| - 1], group);
      AttemptBounded(Attempts(Begin(cache), visits[..|visits| - 1]), visits[|visits| - 1], group);
    }
  }

  /** Every browse of the group made for these albums ends in one way. */
  ghost predicate AlwaysEnds(visits: seq<Visit>, group: string, end: Outcome) {
    forall v :: v in visits && v.group == group ==> v.end == end
  }

  lemma {:induction false} BrowsesKnown(cache: map<string, Group>, visits: seq<Visit>, group: string)
    requires forall v :: v in visits && v.group == group ==> !v.end.Gone?
    ensures var log := Attempts(Begin(cache), visits).log; Browses(log, group) == Known(log, group)
  {
    if visits != [] {
      var init, v := visits[..|visits| - 1], visits[|visits| - 1];
      assert forall u :: u in init ==> u in visits;
      BrowsesKnown(cache, init, group);
      LogAppends(Attempts(Begin(cache), init).log, (v.group, v.end), group);
      hide Known, Browses;
    }
  }

  /** A group cached as the run begins stays so, and only its one refresh browses it. */
  lemma {:induction false} CachedBrowsedOnce(cache: map<string, Group>, visits: seq<Visit>, group: string)
    requires group in cache
    ensures var s := Attempts(Begin(cache), visits);
            && group in s.cache
            && (!s.ended ==> Browses(s.log, group) <= if group in s.refreshed then 1 else 0)
            && Browses(s.log, group) <= 1
  {
    if visits != [] {
      var init, v := visits[..|visits| - 1], visits[|visits| - 1];
      CachedBrowsedOnce(cache, init, group);
      CachedStep(Attempts(Begin(cache), init), v, group);
    }
  }

  lemma CachedStep(s: Memo, v: Visit, group: string)
    requires group in s.cache && Browses(s.log, group) <= 1
    requires !s.ended ==> Browses(s.log, group) <= if group in s.refreshed then 1 else 0
    ensures var s' := Attempt(s, v);
            && group in s'.cache && Browses(s'.log, group) <= 1
            && (!s'.ended ==> Browses(s'.log, group) <= if group in s'.refreshed then 1 else 0)
  {
    hide Attempt, Browsing, Browses;
    LogAppends(s.log, (v.group, v.end), group);
    AttemptHeld(s, v);
    if !s.ended && !(v.group in s.browsed && !s.browsed[v.group] && !Refreshes(s, v)) {
      AttemptIs(s, v);
    }
  }

  /** Two browses a group a run, one of them its refresh, is a bound on a group whose browses end
      in one way exactly when that way is not the server's not knowing it, or it is cached as the
      run begins. (A group without an id is never browsed.) */
  lemma TwoBrowsesCondition(cache: map<string, Group>, group: string, end: Outcome)
    ensures (forall visits :: AlwaysEnds(visits, group, end) ==>
              Browses(Attempts(Begin(cache), visits).log, group) <= 2)
       <==> !end.Gone? || group in cache || group == ""
  {
    hide Attempts, Browses;
    if !end.Gone? || group in cache || group == "" {
      forall visits | AlwaysEnds(visits, group, end) ensures Browses(Attempts(Begin(cache), visits).log, group) <= 2 {
        if group in cache {
          CachedBrowsedOnce(cache, visits, group);
        } else if group == "" {
          NamelessNotBrowsed(cache, visits);
        } else {
          AtMostTwice(cache, visits, group);
          BrowsesKnown(cache, visits, group);
        }
      }
    } else {
      var visits := seq(3, _ => Visit(group, false, Gone, CacheAnswer(true, true)));
      UnknownBrowsedEachTime(cache, group, 3);
      assert AlwaysEnds(visits, group, end);
    }
  }

  lemma {:induction false} NamelessNotBrowsed(cache: map<string, Group>, visits: seq<Visit>)
    ensures Browses(Attempts(Begin(cache), visits).log, "") == 0
  {
    if visits != [] {
      var init, v := visits[..|visits| - 1], visits[|visits| - 1];
      NamelessNotBrowsed(cache, init);
      LogAppends(Attempts(Begin(cache), init).log, (v.group, v.end), "");
    }
  }

  /** A group the server does not know is neither cached nor held unusable, so each of its albums
      browses it again. */
  lemma {:induction false} UnknownBrowsedEachTime(cache: map<string, Group>, group: string, n: nat)
    requires group !in cache && group != ""
    ensures var s := Attempts(Begin(cache), seq(n, _ => Visit(group, false, Gone, CacheAnswer(true, true))));
            && Browses(s.log, group) == n && s.cache == cache && !s.ended
            && (n > 0 ==> group in s.browsed && s.browsed[group])
            && (n == 0 ==> group !in s.browsed)
  {
    if n > 0 {
      UnknownBrowsedEachTime(cache, group, n - 1);
      var visits := seq(n, _ => Visit(group, false, Gone, CacheAnswer(true, true)));
      assert visits[..n - 1] == seq(n - 1, _ => Visit(group, false, Gone, CacheAnswer(true, true)));
      LogAppends(Attempts(Begin(cache), visits[..n - 1]).log, (group, Gone), group);
    }
  }
}
