/** The ladder that resolves one portable ref to a local item (share.go). */
module RefLadder {
  import opened Common

  /** Public ids, ordered. */
  type Pid = nat

  /** virtual marks a window a cue sheet cuts from a shared file. */
  datatype Item = Item(pid: Pid, kind: string, present: bool, durationMS: int, album: string, virtual: bool)

  datatype Result<T> = Ok(value: T) | Failed

  /** The caller's scope; none admits everything. */
  type Filter = Option<Item -> bool>

  predicate Admits(accept: Filter, v: Item) {
    accept.Some? ==> accept.value(v)
  }

  function Admit(accept: Filter, items: seq<Item>): (r: seq<Item>)
    ensures forall v :: v in r <==> v in items && Admits(accept, v)
    ensures |r| <= |items|
  {
    if items == [] then []
    else Admit(accept, items[..|items| - 1]) + if Admits(accept, items[|items| - 1]) then [items[|items| - 1]] else []
  }

  const ESSENCE_TOLERANCE_MS := 1000

  function Abs(n: int): nat {
    if n < 0 then -n else n
  }

  // ---------------------------------------------------------------------------
  // Essence
  // ---------------------------------------------------------------------------

  function OfKind(items: seq<Item>, kind: string): seq<Item> {
    if items == [] then []
    else OfKind(items[..|items| - 1], kind) + if items[|items| - 1].kind == kind then [items[|items| - 1]] else []
  }

  function Distance(v: Item, durationMS: int): nat {
    Abs(v.durationMS - durationMS)
  }

  predicate Near(v: Item, durationMS: int) {
    Distance(v, durationMS) <= ESSENCE_TOLERANCE_MS
  }

  /** Lengths are compared by their difference, either way, and a second is near enough. */
  lemma DistanceMeans(v: Item, durationMS: int)
    ensures v.durationMS <= durationMS ==> Distance(v, durationMS) == durationMS - v.durationMS
    ensures v.durationMS >= durationMS ==> Distance(v, durationMS) == v.durationMS - durationMS
    ensures Near(v, durationMS) <==> durationMS - 1000 <= v.durationMS <= durationMS + 1000
  {}

  /** No scope admits everything, and a scope what it says. */
  lemma AdmitsMeans(accept: Filter, v: Item)
    ensures accept == None ==> Admits(accept, v)
    ensures accept.Some? ==> (Admits(accept, v) <==> accept.value(v))
  {}

  /** Within the tolerance, and nobody admitted nearer. */
  predicate Nearest(items: seq<Item>, durationMS: int, v: Item) {
    v in items && Near(v, durationMS) && forall u :: u in items ==> Distance(v, durationMS) <= Distance(u, durationMS)
  }

  function NearestDistance(items: seq<Item>, durationMS: int): nat {
    if items == [] then ESSENCE_TOLERANCE_MS + 1
    else
      var before, d := NearestDistance(items[..|items| - 1], durationMS), Distance(items[|items| - 1], durationMS);
      if d < before then d else before
  }

  function AtDistance(items: seq<Item>, durationMS: int, d: nat): seq<Item> {
    if items == [] then []
    else
      AtDistance(items[..|items| - 1], durationMS, d) +
        if Distance(items[|items| - 1], durationMS) == d then [items[|items| - 1]] else []
  }

  /** The items nearest the length wanted, within the tolerance, in their order. */
  function NearestItems(items: seq<Item>, durationMS: int): seq<Item> {
    var d := NearestDistance(items, durationMS);
    if d > ESSENCE_TOLERANCE_MS then [] else AtDistance(items, durationMS, d)
  }

  lemma {:induction false} DistancesAre(items: seq<Item>, durationMS: int, d: nat)
    ensures forall v :: v in items ==> NearestDistance(items, durationMS) <= Distance(v, durationMS)
    ensures NearestDistance(items, durationMS) <= ESSENCE_TOLERANCE_MS ==>
              exists v :: v in items && Distance(v, durationMS) == NearestDistance(items, durationMS)
    ensures NearestDistance(items, durationMS) <= ESSENCE_TOLERANCE_MS + 1
    ensures forall v :: v in AtDistance(items, durationMS, d) <==> v in items && Distance(v, durationMS) == d
  {
    if items != [] {
      DistancesAre(items[..|items| - 1], durationMS, d);
      assert forall x :: x in items <==> x in items[..|items| - 1] || x == items[|items| - 1];
    }
  }

  lemma {:induction false} NoneNearer(items: seq<Item>, durationMS: int, d: nat)
    requires d < NearestDistance(items, durationMS)
    ensures AtDistance(items, durationMS, d) == []
  {
    if items != [] {
      NoneNearer(items[..|items| - 1], durationMS, d);
    }
  }

  lemma NearestItemsAre(items: seq<Item>, durationMS: int)
    ensures forall v :: v in NearestItems(items, durationMS) <==> Nearest(items, durationMS, v)
  {
    DistancesAre(items, durationMS, NearestDistance(items, durationMS));
  }

  method NearestOf(items: seq<Item>, durationMS: int) returns (best: seq<Item>)
    ensures best == NearestItems(items, durationMS)
    ensures forall v :: v in best <==> Nearest(items, durationMS, v)
  {
    best := [];
    var bestDelta := ESSENCE_TOLERANCE_MS + 1;
    for i := 0 to |items|
      invariant bestDelta == NearestDistance(items[..i], durationMS)
      invariant best == NearestItems(items[..i], durationMS)
    {
      var v := items[i];
      assert items[..i + 1][..i] == items[..i];
      var d := Distance(v, durationMS);
      DistancesAre(items[..i], durationMS, d);
      if d > ESSENCE_TOLERANCE_MS {
      } else if d < bestDelta {
        NoneNearer(items[..i], durationMS, d);
        best, bestDelta := [v], d;
      } else if d == bestDelta {
        best := best + [v];
      }
    }
    assert items[..|items|] == items;
    NearestItemsAre(items, durationMS);
  }

  /** What the essence rung leaves, in the catalog's order. */
  function EssenceOf(items: seq<Item>, kind: string, durationMS: int, accept: Filter): seq<Item> {
    var ofKind := if |items| < 2 || kind == "" then items else OfKind(items, kind);
    if |ofKind| < 2 || durationMS <= 0 then Admit(accept, ofKind) else NearestItems(Admit(accept, ofKind), durationMS)
  }

  /** A lone hit is taken whatever its kind, and every hit by a ref that names none. */
  predicate KindFits(items: seq<Item>, kind: string, v: Item) {
    |items| < 2 || kind == "" || v.kind == kind
  }

  ghost predicate SeveralOfKind(items: seq<Item>, kind: string) {
    exists i, j :: 0 <= i < j < |items| && KindFits(items, kind, items[i]) && KindFits(items, kind, items[j])
  }

  /** What the ref can mean: admitted and of its kind; and when several are of the kind and the ref
      gives a length, within the tolerance of it with no admitted item of the kind nearer. */
  ghost predicate Meant(items: seq<Item>, kind: string, durationMS: int, accept: Filter, v: Item) {
    && v in items && Admits(accept, v) && KindFits(items, kind, v)
    && (SeveralOfKind(items, kind) && durationMS > 0 ==>
          Near(v, durationMS)
          && forall u :: u in items && Admits(accept, u) && KindFits(items, kind, u) ==>
               Distance(v, durationMS) <= Distance(u, durationMS))
  }

  lemma {:induction false} AdmitCounts(accept: Filter, items: seq<Item>, v: Item)
    ensures multiset(Admit(accept, items))[v] == if Admits(accept, v) then multiset(items)[v] else 0
  {
    hide Admits;
    if items != [] {
      AdmitCounts(accept, items[..|items| - 1], v);
      assert items == items[..|items| - 1] + [items[|items| - 1]];
    }
  }

  lemma {:induction false} OfKindCounts(items: seq<Item>, kind: string, v: Item)
    ensures multiset(OfKind(items, kind))[v] == if v.kind == kind then multiset(items)[v] else 0
  {
    if items != [] {
      OfKindCounts(items[..|items| - 1], kind, v);
      assert items == items[..|items| - 1] + [items[|items| - 1]];
    }
  }

  lemma {:induction false} AtDistanceCounts(items: seq<Item>, durationMS: int, d: nat, v: Item)
    ensures multiset(AtDistance(items, durationMS, d))[v] == if Distance(v, durationMS) == d then multiset(items)[v]
              else 0
  {
    if items != [] {
      AtDistanceCounts(items[..|items| - 1], durationMS, d, v);
      assert items == items[..|items| - 1] + [items[|items| - 1]];
    }
  }

  lemma NearestCounts(items: seq<Item>, durationMS: int, v: Item)
    ensures multiset(NearestItems(items, durationMS))[v] == if Nearest(items, durationMS, v) then multiset(items)[v]
              else 0
  {
    hide NearestDistance, AtDistance;
    var d := NearestDistance(items, durationMS);
    DistancesAre(items, durationMS, d);
    AtDistanceCounts(items, durationMS, d, v);
    NearestItemsAre(items, durationMS);
  }

  lemma {:induction false} OfKindIndex(items: seq<Item>, kind: string)
    ensures |OfKind(items, kind)| >= 1 <==> exists i :: 0 <= i < |items| && items[i].kind == kind
    ensures |OfKind(items, kind)| >= 2 <==>
              exists i, j :: 0 <= i < j < |items| && items[i].kind == kind && items[j].kind == kind
  {
    if items != [] {
      var m := |items| - 1;
      OfKindIndex(items[..m], kind);
      assert forall i :: 0 <= i < m ==> items[..m][i] == items[i];
      if |OfKind(items[..m], kind)| >= 1 && items[m].kind == kind {
        var i :| 0 <= i < m && items[..m][i].kind == kind;
        assert items[i].kind == kind;
      }
    }
  }

  lemma SeveralIs(items: seq<Item>, kind: string)
    requires |items| >= 2
    ensures SeveralOfKind(items, kind) <==> kind == "" || |OfKind(items, kind)| >= 2
  {
    OfKindIndex(items, kind);
    if kind == "" {
      assert KindFits(items, kind, items[0]) && KindFits(items, kind, items[1]);
    }
  }

  /** Each item the ref can mean is left as often as the catalog lists it, and nothing else is. */
  lemma EssenceMeans(items: seq<Item>, kind: string, durationMS: int, accept: Filter, v: Item)
    ensures multiset(EssenceOf(items, kind, durationMS, accept))[v]
         == if Meant(items, kind, durationMS, accept, v) then multiset(items)[v] else 0
  {
    hide Admit, OfKind, NearestItems;
    var ofKind := if |items| < 2 || kind == "" then items else OfKind(items, kind);
    forall u ensures multiset(ofKind)[u] == if KindFits(items, kind, u) then multiset(items)[u] else 0 {
      OfKindCounts(items, kind, u);
    }
    assert forall u :: u in ofKind <==> u in multiset(ofKind);
    assert forall u :: u in items <==> u in multiset(items);
    assert forall u :: u in ofKind <==> u in items && KindFits(items, kind, u);
    if |items| >= 2 {
      SeveralIs(items, kind);
    }
    AdmitCounts(accept, ofKind, v);
    NearestCounts(Admit(accept, ofKind), durationMS, v);
    assert forall u :: u in Admit(accept, ofKind) <==> u in ofKind && Admits(accept, u);
  }

  method EssenceCandidates(items: seq<Item>, kind: string, durationMS: int, accept: Filter) returns (out: seq<Item>)
    ensures out == EssenceOf(items, kind, durationMS, accept)
    ensures forall v :: multiset(out)[v] == if Meant(items, kind, durationMS, accept, v) then multiset(items)[v] else 0
  {
    hide Meant, Admits;
    forall v
      ensures multiset(EssenceOf(items, kind, durationMS, accept))[v]
           == if Meant(items, kind, durationMS, accept, v) then multiset(items)[v] else 0
    {
      EssenceMeans(items, kind, durationMS, accept, v);
    }
    if |items| < 2 {
      return Admit(accept, items);
    }
    var cand := items;
    if kind != "" {
      cand := OfKind(items, kind);
    }
    if |cand| < 2 || durationMS <= 0 {
      return Admit(accept, cand);
    }
    out := NearestOf(Admit(accept, cand), durationMS);
  }

  const BOOK := "book"

  /** An item's files by their roles; the read of them may fail. */
  type Files = Pid -> Result<seq<string>>

  function Parts(roles: seq<string>): nat {
    if roles == [] then 0
    else Parts(roles[..|roles| - 1]) + if roles[|roles| - 1] == "alternate" then 0 else 1
  }

  /** A window a cue sheet cuts, or a book read to have more than one part. */
  predicate Partial(files: Files, v: Item) {
    v.virtual || (v.kind == BOOK && files(v.pid).Ok? && Parts(files(v.pid).value) > 1)
  }

  /** A book, no window, whose files cannot be listed. */
  predicate Unreadable(files: Files, v: Item) {
    !v.virtual && v.kind == BOOK && files(v.pid).Failed?
  }

  /** Something unreadable comes before anything partial. */
  ghost predicate ReadFails(files: Files, tied: seq<Item>) {
    exists k :: 0 <= k < |tied| && Unreadable(files, tied[k]) && forall j :: 0 <= j < k ==> !Partial(files, tied[j])
  }

  /** Whether every item of an essence tie is the shared file whole. */
  method WholeFiles(files: Files, tied: seq<Item>) returns (r: Result<bool>)
    ensures r.Failed? <==> ReadFails(files, tied)
    ensures r == Ok(true) <==> forall v :: v in tied ==> !Partial(files, v) && !Unreadable(files, v)
    ensures r == WholeFilesOf(files, tied)
  {
    for i := 0 to |tied|
      invariant forall k :: 0 <= k < i ==> !Partial(files, tied[k]) && !Unreadable(files, tied[k])
      invariant WholeFilesOf(files, tied) == WholeFilesOf(files, tied[i..])
    {
      var v := tied[i];
      assert tied[i..][1..] == tied[i + 1..] && v in tied;
      if v.virtual {
        return Ok(false);
      }
      if v.kind != BOOK {
        continue;
      }
      var reply := files(v.pid);
      if reply.Failed? {
        return Failed;
      }
      var parts := CountParts(reply.value);
      if parts > 1 {
        return Ok(false);
      }
    }
    return Ok(true);
  }

  method CountParts(roles: seq<string>) returns (parts: nat)
    ensures parts == Parts(roles)
  {
    parts := 0;
    for i := 0 to |roles|
      invariant parts == Parts(roles[..i])
    {
      assert roles[..i + 1][..i] == roles[..i];
      if roles[i] != "alternate" {
        parts := parts + 1;
      }
    }
    assert roles[..|roles|] == roles;
  }

  /** The first item that is partial or unreadable decides. */
  function WholeFilesOf(files: Files, tied: seq<Item>): Result<bool> {
    if tied == [] then Ok(true)
    else if Partial(files, tied[0]) then Ok(false)
    else if Unreadable(files, tied[0]) then Failed
    else WholeFilesOf(files, tied[1..])
  }

  lemma {:induction false} WholeFilesFail(files: Files, tied: seq<Item>)
    ensures WholeFilesOf(files, tied).Failed? <==> ReadFails(files, tied)
  {
    if tied != [] {
      var rest := tied[1..];
      WholeFilesFail(files, rest);
      ReadFailsLater(files, tied);
    }
  }

  /** Past an item that decides nothing, the read fails where the rest's does. */
  lemma ReadFailsLater(files: Files, tied: seq<Item>)
    requires tied != []
    ensures Unreadable(files, tied[0]) ==> ReadFails(files, tied)
    ensures Partial(files, tied[0]) ==> !ReadFails(files, tied)
    ensures !Partial(files, tied[0]) && !Unreadable(files, tied[0]) ==>
              (ReadFails(files, tied) <==> ReadFails(files, tied[1..]))
  {
    assert Partial(files, tied[0]) ==> !Unreadable(files, tied[0]);
    hide Partial, Unreadable;
    var rest := tied[1..];
    if !Partial(files, tied[0]) && !Unreadable(files, tied[0]) {
      if ReadFails(files, rest) {
        var k :| 0 <= k < |rest| && Unreadable(files, rest[k]) && forall j :: 0 <= j < k ==> !Partial(files, rest[j]);
        assert forall j :: 1 <= j <= k ==> tied[j] == rest[j - 1];
        assert Unreadable(files, tied[k + 1]);
      }
      if ReadFails(files, tied) {
        var k :| 0 <= k < |tied| && Unreadable(files, tied[k]) && forall j :: 0 <= j < k ==> !Partial(files, tied[j]);
        assert forall j :: 0 <= j < k - 1 ==> rest[j] == tied[j + 1];
        assert Unreadable(files, rest[k - 1]);
      }
    }
  }

  // ---------------------------------------------------------------------------
  // Fingerprint
  // ---------------------------------------------------------------------------

  /** A probe's hit and its similarity; the floor is already met and above zero. */
  datatype Scored = Scored(pid: Pid, sim: real)

  ghost predicate AboveFloor(hits: seq<Scored>) {
    forall c :: c in hits ==> c.sim > 0.0
  }

  function Top(hits: seq<Scored>): real {
    if hits == [] then 0.0
    else
      var t := Top(hits[..|hits| - 1]);
      if hits[|hits| - 1].sim > t then hits[|hits| - 1].sim else t
  }

  function AtLeast(hits: seq<Scored>, sim: real): seq<Scored> {
    if hits == [] then []
    else AtLeast(hits[..|hits| - 1], sim) + if hits[|hits| - 1].sim < sim then [] else [hits[|hits| - 1]]
  }

  /** The loop over the hits: the views scoring best, each once, and their score. */
  function Best(hits: seq<Scored>, views: map<Pid, Item>): (seq<Item>, real) {
    if hits == [] then ([], 0.0)
    else
      var (best, bestSim) := Best(hits[..|hits| - 1], views);
      var c := hits[|hits| - 1];
      if c.pid !in views then (best, bestSim)
      else if c.sim > bestSim then ([views[c.pid]], c.sim)
      else if c.sim == bestSim && views[c.pid] !in best then (best + [views[c.pid]], bestSim)
      else (best, bestSim)
  }

  /** views holds the admitted rows of the hits read. */
  function AdmittedViews(hits: seq<Scored>, rows: map<Pid, Item>, accept: Filter): map<Pid, Item> {
    map c | c in hits && c.pid in rows && Admits(accept, rows[c.pid]) :: c.pid := rows[c.pid]
  }

  function FingerprintCandidates(hits: seq<Scored>, rows: map<Pid, Item>, accept: Filter): seq<Item> {
    var read := if accept.None? then AtLeast(hits, Top(hits)) else hits;
    Best(read, AdmittedViews(read, rows, accept)).0
  }

  method ScoreLoop(hits: seq<Scored>, views: map<Pid, Item>) returns (best: seq<Item>)
    ensures best == Best(hits, views).0
  {
    best := [];
    var bestSim := 0.0;
    for i := 0 to |hits|
      invariant (best, bestSim) == Best(hits[..i], views)
    {
      var c := hits[i];
      assert hits[..i + 1][..i] == hits[..i];
      if c.pid !in views {
      } else if c.sim > bestSim {
        best, bestSim := [views[c.pid]], c.sim;
      } else if c.sim == bestSim && views[c.pid] !in best {
        best := best + [views[c.pid]];
      }
    }
    assert hits[..|hits|] == hits;
  }

  /** Every view the loop holds is one of those given it, with some hit at the best score, and no
      hit with a view scores better. */
  lemma {:induction false} BestIsBest(hits: seq<Scored>, views: map<Pid, Item>)
    requires AboveFloor(hits)
    ensures var (best, sim) := Best(hits, views);
            && (forall v :: v in best <==> exists c :: c in hits && c.pid in views && views[c.pid] == v && c.sim == sim)
            && (forall c :: c in hits && c.pid in views ==> c.sim <= sim)
            && sim >= 0.0 && (sim > 0.0 ==> exists c :: c in hits && c.pid in views && c.sim == sim)
  {
    if hits != [] {
      var init, c := hits[..|hits| - 1], hits[|hits| - 1];
      assert forall x :: x in hits <==> x in init || x == c;
      BestIsBest(init, views);
    }
  }

  lemma {:induction false} TopIsTop(hits: seq<Scored>)
    ensures forall c :: c in hits ==> c.sim <= Top(hits)
    ensures Top(hits) >= 0.0
  {
    if hits != [] {
      TopIsTop(hits[..|hits| - 1]);
      assert forall x :: x in hits <==> x in hits[..|hits| - 1] || x == hits[|hits| - 1];
    }
  }

  lemma BestAppends(hits: seq<Scored>, c: Scored, views: map<Pid, Item>)
    ensures var (best, sim) := Best(hits, views);
            Best(hits + [c], views)
            == if c.pid !in views then (best, sim)
               else if c.sim > sim then ([views[c.pid]], c.sim)
               else if c.sim == sim && views[c.pid] !in best then (best + [views[c.pid]], sim)
               else (best, sim)
  {
    assert (hits + [c])[..|hits|] == hits;
  }

  /** Leaving out the hits below the top changes nothing when every hit's row is there: the
      loop over the rest ends the same once it has met the top, and is empty until then. */
  lemma {:induction false} ShortcutAgrees(hits: seq<Scored>, top: real, views: map<Pid, Item>, few: map<Pid, Item>)
    requires AboveFloor(hits) && top > 0.0 && forall c :: c in hits ==> c.sim <= top && c.pid in views
    requires forall c :: c in hits && c.sim == top ==> c.pid in few && few[c.pid] == views[c.pid]
    ensures Best(AtLeast(hits, top), few) == if Top(hits) == top then Best(hits, views) else ([], 0.0)
    ensures (hits != [] ==> Best(hits, views).1 == Top(hits)) && Top(hits) <= top
  {
    hide Best, AtLeast, Top;
    NothingScored(top, views);
    NothingScored(top, few);
    if hits != [] {
      var init, c := hits[..|hits| - 1], hits[|hits| - 1];
      assert hits == init + [c] && c in hits;
      ShortcutAgrees(init, top, views, few);
      ScoreAppends(init, c, top);
      BestAppends(init, c, views);
      BestAppends(AtLeast(init, top), c, few);
      TopIsTop(init);
      if c.sim == top {
        assert Best(init + [c], views) == Best(AtLeast(init, top) + [c], few);
      } else {
        assert AtLeast(init, top) + [] == AtLeast(init, top);
        assert Top(init) == top ==> Best(init + [c], views) == Best(init, views);
      }
    }
  }

  lemma NothingScored(sim: real, views: map<Pid, Item>)
    ensures Best([], views) == ([], 0.0) && AtLeast([], sim) == [] && Top([]) == 0.0
  {}

  lemma ScoreAppends(hits: seq<Scored>, c: Scored, sim: real)
    ensures AtLeast(hits + [c], sim) == AtLeast(hits, sim) + if c.sim < sim then [] else [c]
    ensures Top(hits + [c]) == if c.sim > Top(hits) then c.sim else Top(hits)
  {
    assert (hits + [c])[..|hits|] == hits;
  }

  /** Unscoped, only the best are read; that answers as a scope admitting everything would. */
  lemma UnscopedShortcut(hits: seq<Scored>, rows: map<Pid, Item>)
    requires AboveFloor(hits) && forall c :: c in hits ==> c.pid in rows
    ensures FingerprintCandidates(hits, rows, None) == FingerprintCandidates(hits, rows, Some(v => true))
  {
    var all: Filter := Some(v => true);
    var top := Top(hits);
    var read := AtLeast(hits, top);
    AtLeastKeeps(hits, top);
    TopIsTop(hits);
    if hits != [] {
      assert hits[0] in hits;
      ShortcutAgrees(hits, top, AdmittedViews(hits, rows, all), AdmittedViews(read, rows, None));
    }
  }

  lemma {:induction false} AtLeastKeeps(hits: seq<Scored>, sim: real)
    ensures forall c :: c in AtLeast(hits, sim) <==> c in hits && c.sim >= sim
  {
    if hits != [] {
      AtLeastKeeps(hits[..|hits| - 1], sim);
      assert forall x :: x in hits <==> x in hits[..|hits| - 1] || x == hits[|hits| - 1];
    }
  }

  lemma {:induction false} BestOnce(hits: seq<Scored>, views: map<Pid, Item>)
    ensures NoRepeats(Best(hits, views).0)
  {
    if hits != [] {
      BestOnce(hits[..|hits| - 1], views);
    }
  }

  /** A hit whose row the caller may hold, with none above it: of the others with such a row, or, with
      no scope, of all. */
  ghost predicate TopHit(hits: seq<Scored>, rows: map<Pid, Item>, accept: Filter, c: Scored) {
    && c in hits && c.pid in rows && Admits(accept, rows[c.pid])
    && forall d :: d in hits && (accept.None? || (d.pid in rows && Admits(accept, rows[d.pid]))) ==> d.sim <= c.sim
  }

  /** The fingerprint rung offers the rows of those hits, each once. */
  lemma FingerprintMeans(hits: seq<Scored>, rows: map<Pid, Item>, accept: Filter)
    requires AboveFloor(hits)
    ensures NoRepeats(FingerprintCandidates(hits, rows, accept))
    ensures forall v :: v in FingerprintCandidates(hits, rows, accept) <==>
              exists c :: TopHit(hits, rows, accept, c) && rows[c.pid] == v
  {
    hide Best, AtLeast, Top;
    var read := if accept.None? then AtLeast(hits, Top(hits)) else hits;
    var views := AdmittedViews(read, rows, accept);
    var (best, sim) := Best(read, views);
    AtLeastKeeps(hits, Top(hits));
    TopIsTop(hits);
    TopIsHit(hits);
    BestOnce(read, views);
    BestIsBest(read, views);
    assert forall c :: c in read ==> (c.pid in views <==> c.pid in rows && Admits(accept, rows[c.pid]));
    forall v ensures v in best <==> exists c :: TopHit(hits, rows, accept, c) && rows[c.pid] == v {
      if v in best {
        var c :| c in read && c.pid in views && views[c.pid] == v && c.sim == sim;
        assert TopHit(hits, rows, accept, c);
      }
      if c :| TopHit(hits, rows, accept, c) && rows[c.pid] == v {
        assert c in read && c.pid in views && views[c.pid] == v;
        var d :| d in read && d.pid in views && d.sim == sim;
      }
    }
  }

  lemma {:induction false} TopIsHit(hits: seq<Scored>)
    requires AboveFloor(hits)
    ensures hits != [] ==> exists c :: c in hits && c.sim == Top(hits)
  {
    if hits != [] {
      var init, c := hits[..|hits| - 1], hits[|hits| - 1];
      assert forall x :: x in hits <==> x in init || x == c;
      TopIsHit(init);
      if init == [] {
        assert Top(init) == 0.0 && c.sim > 0.0;
      }
    }
  }

  // ---------------------------------------------------------------------------
  // Descriptive
  // ---------------------------------------------------------------------------

  function WithAlbum(items: seq<Item>, want: string): seq<Item> {
    if items == [] then []
    else WithAlbum(items[..|items| - 1], want) + if items[|items| - 1].album == want then [items[|items| - 1]] else []
  }

  /** The album narrows a tie, and never to nothing. */
  function AlbumTiebreak(survivors: seq<Item>, want: string): seq<Item> {
    if |survivors| < 2 || want == "" then survivors
    else if WithAlbum(survivors, want) == [] then survivors
    else WithAlbum(survivors, want)
  }

  lemma {:induction false} WithAlbumAmong(items: seq<Item>, want: string)
    ensures forall v :: v in WithAlbum(items, want) ==> v in items
  {
    if items != [] {
      WithAlbumAmong(items[..|items| - 1], want);
    }
  }

  lemma {:induction false} WithAlbumCounts(items: seq<Item>, want: string, v: Item)
    ensures multiset(WithAlbum(items, want))[v] == if v.album == want then multiset(items)[v] else 0
  {
    if items != [] {
      WithAlbumCounts(items[..|items| - 1], want, v);
      assert items == items[..|items| - 1] + [items[|items| - 1]];
    }
  }

  /** Of a tie, the items on the album wanted stay, each as often; all of them when none is on it, or
      no album is wanted. */
  lemma TiebreakMeans(items: seq<Item>, want: string, v: Item)
    ensures multiset(AlbumTiebreak(items, want))[v]
         == if |items| < 2 || want == "" || v.album == want || (forall u :: u in items ==> u.album != want)
            then multiset(items)[v] else 0
  {
    hide WithAlbum;
    WithAlbumCounts(items, want, v);
    if u :| u in items && u.album == want {
      WithAlbumCounts(items, want, u);
      assert multiset(items)[u] > 0;
      assert u in multiset(WithAlbum(items, want));
    }
    if WithAlbum(items, want) != [] {
      var u := WithAlbum(items, want)[0];
      WithAlbumCounts(items, want, u);
      assert u in multiset(WithAlbum(items, want));
    }
  }

  // ---------------------------------------------------------------------------
  // The ladder
  // ---------------------------------------------------------------------------

  datatype Rung = Essence | StrongId | Fingerprint | Descriptive

  function Height(r: Rung): nat {
    match r case Essence => 0 case StrongId => 1 case Fingerprint => 2 case Descriptive => 3
  }

  /** The catalog's answers for one ref: each rung's items before the scope, the rows behind the
      probe's hits, the files of each item, and what tells one recording from several by name. */
  datatype Catalog = Catalog(
    essence: Result<seq<Item>>, strong: Result<seq<Item>>, hits: Result<seq<Scored>>, rows: map<Pid, Item>,
    described: Result<seq<Item>>, files: Files, sameRecording: seq<Item> -> bool)

  datatype Ref = Ref(kind: string, durationMS: int, album: string, hasEssence: bool, hasFingerprint: bool)

  datatype Options = Options(acceptSameRecording: bool, accept: Filter)

  /** One rung's candidates, and whether its evidence proves a tie one recording. */
  datatype Reply = Fails | Offers(tied: seq<Item>, proven: bool)

  datatype RefMatch = Miss(declined: seq<Item>) | Hit(item: Item, rung: Rung, tied: seq<Item>)

  predicate Decisive(same: bool, r: Reply) {
    r.Offers? && (|r.tied| == 1 || (|r.tied| > 1 && same && r.proven))
  }

  /** The present one with the lowest pid, else the lowest pid of all. */
  ghost predicate IsPresentFirst(tied: seq<Item>, v: Item) {
    && v in tied
    && forall u :: u in tied ==> (u.present ==> v.present) && (u.present == v.present ==> v.pid <= u.pid)
  }

  method PresentFirst(tied: seq<Item>) returns (best: Item)
    requires tied != []
    ensures IsPresentFirst(tied, best)
  {
    best := tied[0];
    for i := 1 to |tied|
      invariant IsPresentFirst(tied[..i], best)
    {
      var v := tied[i];
      assert tied[..i + 1] == tied[..i] + [v];
      if (v.present && !best.present) || (v.present == best.present && v.pid < best.pid) {
        best := v;
      }
    }
    assert tied[..|tied|] == tied;
  }

  ghost predicate InPidOrder(s: seq<Item>) {
    forall i, j :: 0 <= i < j < |s| ==> s[i].pid <= s[j].pid
  }

  /** tied lists a rung's candidates, each as often, by pid. */
  ghost predicate ListsByPid(tied: seq<Item>, candidates: seq<Item>) {
    multiset(tied) == multiset(candidates) && InPidOrder(tied)
  }

  method ByPid(tied: seq<Item>) returns (sorted: seq<Item>)
    ensures ListsByPid(sorted, tied)
  {
    sorted := [];
    for i := 0 to |tied|
      invariant multiset(sorted) == multiset(tied[..i]) && InPidOrder(sorted)
    {
      assert tied[..i + 1] == tied[..i] + [tied[i]];
      sorted := InsertByPid(sorted, tied[i]);
    }
    assert tied[..|tied|] == tied;
  }

  method InsertByPid(sorted: seq<Item>, v: Item) returns (r: seq<Item>)
    requires InPidOrder(sorted)
    ensures InPidOrder(r) && multiset(r) == multiset(sorted) + multiset{v}
  {
    hide InPidOrder;
    var k := |sorted|;
    while k > 0 && v.pid < sorted[k - 1].pid
      invariant 0 <= k <= |sorted| && forall i :: k <= i < |sorted| ==> v.pid < sorted[i].pid
    {
      k := k - 1;
    }
    r := sorted[..k] + [v] + sorted[k..];
    InsertedInOrder(sorted, k, v);
    InsertedOnce(sorted, k, v);
  }

  lemma InsertedInOrder(sorted: seq<Item>, k: nat, v: Item)
    requires k <= |sorted| && InPidOrder(sorted) && (k > 0 ==> sorted[k - 1].pid <= v.pid)
    requires forall i :: k <= i < |sorted| ==> v.pid < sorted[i].pid
    ensures InPidOrder(sorted[..k] + [v] + sorted[k..])
  {
    var r := sorted[..k] + [v] + sorted[k..];
    assert forall i :: 0 <= i < |r| ==> r[i] == if i < k then sorted[i] else if i == k then v else sorted[i - 1];
  }

  lemma InsertedOnce(sorted: seq<Item>, k: nat, v: Item)
    requires k <= |sorted|
    ensures multiset(sorted[..k] + [v] + sorted[k..]) == multiset(sorted) + multiset{v}
  {
    assert sorted == sorted[..k] + sorted[k..];
  }

  lemma SameMembers(a: seq<Item>, b: seq<Item>)
    requires multiset(a) == multiset(b)
    ensures |a| == |b| && forall v :: v in a <==> v in b
    ensures |b| == 1 ==> a == b
  {
    assert |multiset(a)| == |a| && |multiset(b)| == |b|;
    assert forall v :: v in a <==> v in multiset(a);
    assert forall v :: v in b <==> v in multiset(b);
    if |b| == 1 {
      assert a[0] in a;
    }
  }

  /** The first rung that decides, with no failure before it; a miss shows the first tie declined.
      Either way the tie is listed by pid. */
  ghost predicate Resolves(same: bool, replies: seq<Reply>, rungs: seq<Rung>, r: Result<RefMatch>)
    requires |replies| == |rungs|
  {
    match r
    case Failed => exists i :: 0 <= i < |replies| && replies[i].Fails? && Undecided(same, replies, i)
    case Ok(Miss(declined)) => Undecided(same, replies, |replies|) && FirstTie(replies, |replies|, declined)
    case Ok(Hit(item, rung, tied)) =>
      exists i :: 0 <= i < |replies| && rungs[i] == rung && Undecided(same, replies, i)
        && Settles(same, replies[i], item, tied)
  }

  /** The first n rungs answered and did not decide. */
  ghost predicate Undecided(same: bool, replies: seq<Reply>, n: nat)
    requires n <= |replies|
  {
    forall j :: 0 <= j < n ==> replies[j].Offers? && !Decisive(same, replies[j])
  }

  ghost predicate Settles(same: bool, reply: Reply, item: Item, tied: seq<Item>) {
    Decisive(same, reply) && ListsByPid(tied, reply.tied) && IsPresentFirst(tied, item)
  }

  /** declined is the first tie among the first n rungs, none when they found nothing. */
  ghost predicate FirstTie(replies: seq<Reply>, n: nat, declined: seq<Item>)
    requires n <= |replies| && forall j :: 0 <= j < n ==> replies[j].Offers?
  {
    if declined == [] then forall j :: 0 <= j < n ==> replies[j].tied == []
    else exists k :: 0 <= k < n && ListsByPid(declined, replies[k].tied) && forall j :: 0 <= j < k ==>
      replies[j].tied == []
  }

  /** The rungs consulted, in order: a ref without bytes or a fingerprint skips those. */
  function Rungs(ref: Ref): seq<Rung> {
    (if ref.hasEssence then [Essence] else []) + [StrongId] + (if ref.hasFingerprint then [Fingerprint] else []) +
      [Descriptive]
  }

  /** What a rung offers. Only the essence rung has to ask the catalog again to prove a tie, and
      asks only when the caller would take one. */
  function ReplyOf(c: Catalog, ref: Ref, opts: Options, rung: Rung): Reply {
    match rung
    case Essence =>
      if c.essence.Failed? then Fails
      else
        var tied := EssenceOf(c.essence.value, ref.kind, ref.durationMS, opts.accept);
        if !opts.acceptSameRecording || |tied| < 2 then Offers(tied, false)
        else if WholeFilesOf(c.files, tied).Failed? then Fails
        else Offers(tied, WholeFilesOf(c.files, tied).value)
    case StrongId =>
      if c.strong.Failed? then Fails else Offers(Admit(opts.accept, c.strong.value), true)
    case Fingerprint =>
      if c.hits.Failed? then Fails else Offers(FingerprintCandidates(c.hits.value, c.rows, opts.accept), true)
    case Descriptive =>
      if c.described.Failed? then Fails
      else
        var tied := AlbumTiebreak(Admit(opts.accept, c.described.value), ref.album);
        Offers(tied, c.sameRecording(tied))
  }

  function AllReplies(c: Catalog, ref: Ref, opts: Options): (r: seq<Reply>)
    ensures |r| == |Rungs(ref)|
  {
    seq(|Rungs(ref)|, i requires 0 <= i < |Rungs(ref)| => ReplyOf(c, ref, opts, Rungs(ref)[i]))
  }

  /** One rung's turn. */
  method Consult(c: Catalog, ref: Ref, opts: Options, rung: Rung) returns (reply: Reply)
    ensures reply == ReplyOf(c, ref, opts, rung)
  {
    hide EssenceOf, WholeFilesOf, Best, AtLeast, Top, AlbumTiebreak, Admit, Meant, ReadFails, Partial, Unreadable;
    match rung
    case Essence =>
      if c.essence.Failed? {
        return Fails;
      }
      var tied := EssenceCandidates(c.essence.value, ref.kind, ref.durationMS, opts.accept);
      var whole := false;
      if opts.acceptSameRecording && |tied| > 1 {
        var read := WholeFiles(c.files, tied);
        if read.Failed? {
          return Fails;
        }
        whole := read.value;
      }
      return Offers(tied, whole);
    case StrongId =>
      return if c.strong.Failed? then Fails else Offers(Admit(opts.accept, c.strong.value), true);
    case Fingerprint =>
      if c.hits.Failed? {
        return Fails;
      }
      var read := if opts.accept.None? then AtLeast(c.hits.value, Top(c.hits.value)) else c.hits.value;
      var best := ScoreLoop(read, AdmittedViews(read, c.rows, opts.accept));
      return Offers(best, true);
    case Descriptive =>
      if c.described.Failed? {
        return Fails;
      }
      var tied := AlbumTiebreak(Admit(opts.accept, c.described.value), ref.album);
      return Offers(tied, c.sameRecording(tied));
  }

  method ResolveRefWith(c: Catalog, ref: Ref, opts: Options) returns (r: Result<RefMatch>)
    ensures Resolves(opts.acceptSameRecording, AllReplies(c, ref, opts), Rungs(ref), r)
  {
    hide ReplyOf, ListsByPid, IsPresentFirst, Rungs;
    var rungs, same := Rungs(ref), opts.acceptSameRecording;
    ghost var replies := AllReplies(c, ref, opts);
    var declined: seq<Item> := [];
    for i := 0 to |rungs|
      invariant Undecided(same, replies, i) && FirstTie(replies, i, declined)
    {
      var reply := Consult(c, ref, opts, rungs[i]);
      assert replies[i] == reply;
      if reply.Fails? {
        return Failed;
      }
      var tied := reply.tied;
      if |tied| == 1 {
        SoleIsFirst(tied);
        return Ok(Hit(tied[0], rungs[i], tied));
      } else if |tied| > 1 {
        var sorted := ByPid(tied);
        ListedIs(sorted, tied);
        if same && reply.proven {
          var best := PresentFirst(sorted);
          return Ok(Hit(best, rungs[i], sorted));
        }
        if declined == [] {
          declined := sorted;
        }
      }
    }
    return Ok(Miss(declined));
  }

  lemma SoleIsFirst(tied: seq<Item>)
    requires |tied| == 1
    ensures ListsByPid(tied, tied) && IsPresentFirst(tied, tied[0])
  {}

  lemma ListedIs(sorted: seq<Item>, tied: seq<Item>)
    requires ListsByPid(sorted, tied)
    ensures |sorted| == |tied| && forall v :: v in sorted <==> v in tied
    ensures |tied| == 1 ==> sorted == tied
  {
    SameMembers(sorted, tied);
  }

  // ---------------------------------------------------------------------------
  // What the ladder guarantees
  // ---------------------------------------------------------------------------

  lemma {:induction false} BestAmong(hits: seq<Scored>, views: map<Pid, Item>)
    ensures forall v :: v in Best(hits, views).0 ==> exists p :: p in views && views[p] == v
  {
    if hits != [] {
      BestAmong(hits[..|hits| - 1], views);
    }
  }

  /** A rung offers only what the caller may hold. */
  lemma OffersAdmitted(c: Catalog, ref: Ref, opts: Options, rung: Rung)
    ensures var r := ReplyOf(c, ref, opts, rung); r.Offers? ==> forall v :: v in r.tied ==> Admits(opts.accept, v)
  {
    hide Admits, Best;
    match rung
    case Essence =>
      if c.essence.Ok? {
        var items := c.essence.value;
        var ofKind := if |items| < 2 || ref.kind == "" then items else OfKind(items, ref.kind);
        NearestItemsAre(Admit(opts.accept, ofKind), ref.durationMS);
      }
    case StrongId =>
    case Fingerprint =>
      if c.hits.Ok? {
        var read := if opts.accept.None? then AtLeast(c.hits.value, Top(c.hits.value)) else c.hits.value;
        BestAmong(read, AdmittedViews(read, c.rows, opts.accept));
      }
    case Descriptive =>
      if c.described.Ok? {
        WithAlbumAmong(Admit(opts.accept, c.described.value), ref.album);
      }
  }

  /** Every item returned or listed as tied is admitted, and without the option a match is a sole
      candidate. */
  lemma AnswersAdmitted(c: Catalog, ref: Ref, opts: Options, r: Result<RefMatch>)
    requires Resolves(opts.acceptSameRecording, AllReplies(c, ref, opts), Rungs(ref), r) && r.Ok?
    ensures r.value.Hit? ==> r.value.item in r.value.tied && forall v :: v in r.value.tied ==> Admits(opts.accept, v)
    ensures r.value.Miss? ==> forall v :: v in r.value.declined ==> Admits(opts.accept, v)
    ensures r.value.Hit? && !opts.acceptSameRecording ==> r.value.tied == [r.value.item]
  {
    hide ReplyOf, Admits, ListsByPid, Rungs;
    var rungs, replies := Rungs(ref), AllReplies(c, ref, opts);
    if r.value.Hit? {
      var tied := r.value.tied;
      var i :| 0 <= i < |replies| && rungs[i] == r.value.rung && Undecided(opts.acceptSameRecording, replies, i)
               && Settles(opts.acceptSameRecording, replies[i], r.value.item, tied);
      OffersAdmitted(c, ref, opts, rungs[i]);
      ListedIs(tied, replies[i].tied);
    } else if r.value.declined != [] {
      var k :| 0 <= k < |replies| && ListsByPid(r.value.declined, replies[k].tied);
      OffersAdmitted(c, ref, opts, rungs[k]);
      ListedIs(r.value.declined, replies[k].tied);
    }
  }

  /** What each rung offers, said of the catalog: the essence rung the items the ref can mean, the
      strong id's every admitted item, the fingerprint's best and the descriptive rung's on the album
      wanted; and of which ties it proves one recording. */
  lemma RungOffers(c: Catalog, ref: Ref, opts: Options, rung: Rung, v: Item)
    requires c.hits.Ok? ==> AboveFloor(c.hits.value)
    ensures var r := ReplyOf(c, ref, opts, rung);
            match rung
            case Essence =>
              && (r.Fails? <==> c.essence.Failed? || (opts.acceptSameRecording && TieReadFails(c, ref, opts.accept)))
              && (r.Offers? ==>
                    && multiset(r.tied)[v] == (if Meant(c.essence.value, ref.kind, ref.durationMS, opts.accept, v)
                                               then multiset(c.essence.value)[v] else 0)
                    && (r.proven <==> opts.acceptSameRecording && |r.tied| > 1
                                      && forall u :: u in r.tied ==> !Partial(c.files, u) && !Unreadable(c.files, u)))
            case StrongId =>
              && (r.Fails? <==> c.strong.Failed?)
              && (r.Offers? ==> r.proven && multiset(r.tied)[v]
                                == if Admits(opts.accept, v) then multiset(c.strong.value)[v] else 0)
            case Fingerprint =>
              && (r.Fails? <==> c.hits.Failed?)
              && (r.Offers? ==> r.proven && r.tied == FingerprintCandidates(c.hits.value, c.rows, opts.accept))
            case Descriptive =>
              && (r.Fails? <==> c.described.Failed?)
              && (r.Offers? ==> (r.proven <==> c.sameRecording(r.tied))
                                && r.tied == AlbumTiebreak(Admit(opts.accept, c.described.value), ref.album))
  {
    hide EssenceOf, Meant, Best, AlbumTiebreak, Admit, Partial, Unreadable, ReadFails, WholeFilesOf;
    match rung
    case Essence =>
      if c.essence.Ok? {
        var tied := EssenceOf(c.essence.value, ref.kind, ref.durationMS, opts.accept);
        EssenceMeans(c.essence.value, ref.kind, ref.durationMS, opts.accept, v);
        WholeFilesFail(c.files, tied);
        WholeFilesTrue(c.files, tied);
      }
    case StrongId =>
      if c.strong.Ok? {
        AdmitCounts(opts.accept, c.strong.value, v);
      }
    case Fingerprint =>
    case Descriptive =>
  }

  lemma {:induction false} WholeFilesTrue(files: Files, tied: seq<Item>)
    ensures WholeFilesOf(files, tied) == Ok(true) <==>
              forall v :: v in tied ==> !Partial(files, v) && !Unreadable(files, v)
  {
    hide Partial, Unreadable;
    if tied != [] {
      WholeFilesTrue(files, tied[1..]);
      assert forall v :: v in tied <==> v == tied[0] || v in tied[1..];
    }
  }

  /** How the ladder decides: a sole candidate is a match, a tie is one when the caller takes ties and
      the rung proves it, and every rung before found nothing or a tie it could not take. */
  lemma LadderDecides(same: bool, replies: seq<Reply>, rungs: seq<Rung>, r: Result<RefMatch>)
    requires |replies| == |rungs| && Resolves(same, replies, rungs, r)
    ensures r == Failed <==> exists i :: 0 <= i < |replies| && replies[i].Fails? && PassedOver(same, replies, i)
    ensures r.Ok? && r.value.Hit? <==>
              exists i :: 0 <= i < |replies| && replies[i].Offers? && PassedOver(same, replies, i)
                && (|replies[i].tied| == 1 || (|replies[i].tied| > 1 && same && replies[i].proven))
    ensures r.Ok? && r.value.Hit? ==>
              exists i :: 0 <= i < |replies| && rungs[i] == r.value.rung && replies[i].Offers?
                && PassedOver(same, replies, i)
                && multiset(r.value.tied) == multiset(replies[i].tied)
  {
    hide ListsByPid;
    match r
    case Failed =>
      var i :| 0 <= i < |replies| && replies[i].Fails? && Undecided(same, replies, i);
      assert PassedOver(same, replies, i);
    case Ok(Miss(declined)) =>
      assert PassedOver(same, replies, |replies|);
    case Ok(Hit(item, rung, tied)) =>
      var i :| 0 <= i < |replies| && rungs[i] == rung && Undecided(same, replies, i)
        && Settles(same, replies[i], item, tied);
      assert PassedOver(same, replies, i);
      assert ListsByPid(tied, replies[i].tied);
      ListedSame(tied, replies[i].tied);
  }

  lemma ListedSame(tied: seq<Item>, candidates: seq<Item>)
    requires ListsByPid(tied, candidates)
    ensures multiset(tied) == multiset(candidates)
  {}

  /** The first i rungs answered with nothing, or with a tie the caller does not take or they do not
      prove. */
  ghost predicate PassedOver(same: bool, replies: seq<Reply>, i: nat)
    requires i <= |replies|
  {
    forall j :: 0 <= j < i ==>
      replies[j].Offers? && |replies[j].tied| != 1 && (|replies[j].tied| == 0 || !same || !replies[j].proven)
  }

  /** The one way the option can cost a match: an essence tie in which a book's files cannot be
      listed, with no item before it a window or a book of more than one part. */
  ghost predicate EssenceProofFails(c: Catalog, ref: Ref, accept: Filter) {
    ref.hasEssence && TieReadFails(c, ref, accept)
  }

  ghost predicate TieReadFails(c: Catalog, ref: Ref, accept: Filter) {
    c.essence.Ok? &&
    var tied := EssenceOf(c.essence.value, ref.kind, ref.durationMS, accept);
    |tied| > 1 && ReadFails(c.files, tied)
  }

  /** Turning the option on changes no rung's candidates. */
  lemma SameCandidates(c: Catalog, ref: Ref, accept: Filter, rung: Rung)
    requires rung in Rungs(ref)
    ensures var off, on := ReplyOf(c, ref, Options(false, accept), rung), ReplyOf(c, ref, Options(true, accept), rung);
            && (on.Fails? <==> off.Fails? || (rung == Essence && EssenceProofFails(c, ref, accept)))
            && (on.Offers? ==> on.tied == off.tied)
  {
    hide EssenceOf, WholeFilesOf, ReadFails, Best, AlbumTiebreak;
    if c.essence.Ok? {
      WholeFilesFail(c.files, EssenceOf(c.essence.value, ref.kind, ref.durationMS, accept));
    }
  }

  lemma AllSameCandidates(c: Catalog, ref: Ref, accept: Filter)
    ensures var off, on := AllReplies(c, ref, Options(false, accept)), AllReplies(c, ref, Options(true, accept));
            forall i :: 0 <= i < |Rungs(ref)| ==>
              && (on[i].Fails? <==> off[i].Fails? || (Rungs(ref)[i] == Essence && EssenceProofFails(c, ref, accept)))
              && (on[i].Offers? ==> on[i].tied == off[i].tied)
  {
    hide ReplyOf, EssenceProofFails, Rungs;
    forall i | 0 <= i < |Rungs(ref)|
      ensures var off, on := AllReplies(c, ref, Options(false, accept)), AllReplies(c, ref, Options(true, accept));
              && (on[i].Fails? <==> off[i].Fails? || (Rungs(ref)[i] == Essence && EssenceProofFails(c, ref, accept)))
              && (on[i].Offers? ==> on[i].tied == off[i].tied)
    {
      SameCandidates(c, ref, accept, Rungs(ref)[i]);
    }
  }

  /** A ref matched without the option is matched with it, on the same rung or one above, and on
      the same rung by the same item, exactly when the essence tie's files can be listed. */
  lemma OptionKeepsMatches(c: Catalog, ref: Ref, accept: Filter, off: Result<RefMatch>, on: Result<RefMatch>)
    requires Resolves(false, AllReplies(c, ref, Options(false, accept)), Rungs(ref), off)
    requires Resolves(true, AllReplies(c, ref, Options(true, accept)), Rungs(ref), on)
    requires off.Ok? && off.value.Hit?
    ensures (on.Ok? && on.value.Hit?) <==> !EssenceProofFails(c, ref, accept)
    ensures on.Ok? && on.value.Hit? ==> Height(on.value.rung) <= Height(off.value.rung)
    ensures on.Ok? && on.value.Hit? && on.value.rung == off.value.rung ==> on.value.item == off.value.item
    ensures EssenceProofFails(c, ref, accept) ==> on == Failed
  {
    hide ReplyOf, EssenceProofFails, Rungs, ListsByPid, AllReplies, Height;
    var rungs := Rungs(ref);
    var without, with_ := AllReplies(c, ref, Options(false, accept)), AllReplies(c, ref, Options(true, accept));
    AllSameCandidates(c, ref, accept);
    var i :| 0 <= i < |without| && rungs[i] == off.value.rung && Undecided(false, without, i)
             && Settles(false, without[i], off.value.item, off.value.tied);
    ListedIs(off.value.tied, without[i].tied);
    ProofFailsEarly(c, ref, accept, i);
    RungsRise(ref);
    if on.Ok? && on.value.Hit? {
      var k :| 0 <= k < |with_| && rungs[k] == on.value.rung && Undecided(true, with_, k)
               && Settles(true, with_[k], on.value.item, on.value.tied);
      ListedIs(on.value.tied, with_[k].tied);
    }
  }

  /** A failed proof stands on the first rung, before any sole candidate. */
  lemma ProofFailsEarly(c: Catalog, ref: Ref, accept: Filter, i: nat)
    requires i < |Rungs(ref)| && AllReplies(c, ref, Options(false, accept))[i].Offers?
    requires |AllReplies(c, ref, Options(false, accept))[i].tied| == 1
    ensures |AllReplies(c, ref, Options(false, accept))| == |AllReplies(c, ref, Options(true, accept))| == |Rungs(ref)|
    ensures EssenceProofFails(c, ref, accept) ==> i > 0 && Rungs(ref)[0] == Essence
  {
    hide ReadFails, EssenceOf;
  }

  /** Which rungs are asked, and in which order. */
  lemma RungsRise(ref: Ref)
    ensures Essence in Rungs(ref) <==> ref.hasEssence
    ensures Fingerprint in Rungs(ref) <==> ref.hasFingerprint
    ensures StrongId in Rungs(ref) && Descriptive in Rungs(ref)
    ensures forall i, j :: 0 <= i < j < |Rungs(ref)| ==> Height(Rungs(ref)[i]) < Height(Rungs(ref)[j])
  {}

  lemma {:induction false} AdmitAll(items: seq<Item>)
    ensures Admit(None, items) == items
  {
    if items != [] {
      AdmitAll(items[..|items| - 1]);
    }
  }

  lemma BothBooks(a: Item, b: Item)
    requires a.kind == b.kind == BOOK
    ensures EssenceOf([a, b], BOOK, 0, None) == [a, b]
  {
    assert [a, b][..1] == [a] && [a][..0] == [];
    assert OfKind([], BOOK) == [];
    assert OfKind([a], BOOK) == [a];
    AdmitAll([a, b]);
  }

  lemma SecondUnreadable(files: Files, a: Item, b: Item)
    requires !a.virtual && !b.virtual && b.kind == BOOK && files(a.pid) == Ok(["primary"]) && files(b.pid).Failed?
    ensures ReadFails(files, [a, b])
  {
    assert ["primary"][..0] == [];
    assert Parts(["primary"]) == 1;
    var tied := [a, b];
    assert !Partial(files, tied[0]) && Unreadable(files, tied[1]);
  }

  /** It does cost one there: two single-file books of the same bytes, one's files not to be listed,
      over a sole strong id. */
  lemma OptionCanCostAMatch() returns (c: Catalog, ref: Ref, off: Result<RefMatch>)
    ensures EssenceProofFails(c, ref, None)
    ensures off.Ok? && off.value.Hit? && Resolves(false, AllReplies(c, ref, Options(false, None)), Rungs(ref), off)
    ensures forall on :: Resolves(true, AllReplies(c, ref, Options(true, None)), Rungs(ref), on) ==> on == Failed
  {
    hide OfKind, Admit, EssenceOf, Parts, ReadFails;
    var a, b := Item(1, BOOK, true, 0, "", false), Item(2, BOOK, true, 0, "", false);
    c := Catalog(Ok([a, b]), Ok([a]), Ok([]), map[], Ok([]), p => if p == 1 then Ok(["primary"]) else Failed,
                 (_: seq<Item>) => false);
    ref := Ref(BOOK, 0, "", true, false);
    off := Ok(Hit(a, StrongId, [a]));
    BothBooks(a, b);
    SecondUnreadable(c.files, a, b);
    AdmitAll([a]);
    var replies := AllReplies(c, ref, Options(false, None));
    assert Rungs(ref) == [Essence, StrongId, Descriptive];
    assert replies[0] == Offers([a, b], false);
    assert replies[1] == Offers([a], true);
    SoleIsFirst([a]);
    assert Undecided(false, replies, 1) && Settles(false, replies[1], a, [a]);
    forall on | Resolves(true, AllReplies(c, ref, Options(true, None)), Rungs(ref), on) ensures on == Failed {
      OptionKeepsMatches(c, ref, None, off, on);
    }
  }
}
