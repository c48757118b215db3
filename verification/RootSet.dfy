/** The registered library roots and every mutation of them (waxbin.go, config/config.go).
    A path is its components, so lying under a root is having it as a prefix. */
module RootSet {
  import opened Common

  type Path = seq<string>

  predicate UnderRoot(root: Path, p: Path) {
    root <= p
  }

  predicate Overlap(a: Path, b: Path) {
    UnderRoot(a, b) || UnderRoot(b, a)
  }

  /** A stored row; podcast marks the internal podcast library's. */
  datatype Row = Row(pid: nat, root: Path, podcast: bool)

  /** Two roots holding one path overlap. */
  lemma SharedPathOverlaps(a: Path, b: Path, p: Path)
    requires UnderRoot(a, p) && UnderRoot(b, p)
    ensures Overlap(a, b)
  {
    if |a| <= |b| {
      assert a == p[..|a|] && b == p[..|b|];
      assert b[..|a|] == a;
    } else {
      assert a[..|b|] == b;
    }
  }

  /** A path lies under a root when it is that root with more components, and two roots overlap when
      some path lies under both. */
  lemma OverlapMeans(a: Path, b: Path)
    ensures UnderRoot(a, b) <==> exists rest :: b == a + rest
    ensures Overlap(a, b) <==> exists p :: UnderRoot(a, p) && UnderRoot(b, p)
  {
    if UnderRoot(a, b) {
      assert b == a + b[|a|..];
    }
    if rest :| b == a + rest {
      assert b[..|a|] == a;
    }
    if Overlap(a, b) {
      var p := if UnderRoot(a, b) then b else a;
      assert UnderRoot(a, p) && UnderRoot(b, p);
    }
    if p :| UnderRoot(a, p) && UnderRoot(b, p) {
      SharedPathOverlaps(a, b, p);
    }
  }

  // ---------------------------------------------------------------------------
  // The overlap rules
  // ---------------------------------------------------------------------------

  /** The roots, inbox folders and podcast dir kept apart. */
  datatype Config = Config(roots: seq<Path>, inbox: seq<Path>, podcastDir: Option<Path>)

  /** Every pair Validate judges: each two roots, each inbox and root, the podcast dir and each
      of either. */
  ghost predicate Paired(c: Config, a: Path, b: Path) {
    || (exists i, j :: 0 <= i < j < |c.roots| && c.roots[i] == a && c.roots[j] == b)
    || (a in c.inbox && b in c.roots)
    || (c.podcastDir == Some(a) && (b in c.roots || b in c.inbox))
  }

  method Pairs(c: Config) returns (pairs: seq<(Path, Path)>)
    ensures forall a, b :: (a, b) in pairs <==> Paired(c, a, b)
  {
    pairs := [];
    for i := 0 to |c.roots|
      invariant forall p :: p in pairs <==>
                exists k, j :: 0 <= k < i && k < j < |c.roots| && p == (c.roots[k], c.roots[j])
    {
      for j := i + 1 to |c.roots|
        invariant forall p :: p in pairs <==>
          (exists k, m :: 0 <= k < i && k < m < |c.roots| && p == (c.roots[k], c.roots[m]))
          || (exists m :: i < m < j && p == (c.roots[i], c.roots[m]))
      {
        pairs := pairs + [(c.roots[i], c.roots[j])];
      }
    }
    ghost var rootPairs := pairs;
    var inboxPairs := Product(c.inbox, c.roots);
    pairs := pairs + inboxPairs;
    if c.podcastDir.Some? {
      var podcastPairs := Product([c.podcastDir.value], c.roots + c.inbox);
      pairs := pairs + podcastPairs;
    }
  }

  method Product(xs: seq<Path>, ys: seq<Path>) returns (pairs: seq<(Path, Path)>)
    ensures forall p :: p in pairs <==> p.0 in xs && p.1 in ys
  {
    pairs := [];
    for i := 0 to |xs|
      invariant forall p :: p in pairs <==> p.0 in xs[..i] && p.1 in ys
    {
      assert xs[..i + 1] == xs[..i] + [xs[i]];
      for j := 0 to |ys|
        invariant forall p :: p in pairs <==> (p.0 in xs[..i] && p.1 in ys) || (p.0 == xs[i] && p.1 in ys[..j])
      {
        assert ys[..j + 1] == ys[..j] + [ys[j]];
        pairs := pairs + [(xs[i], ys[j])];
      }
      assert ys[..|ys|] == ys;
    }
    assert xs[..|xs|] == xs;
  }

  /** The rules said of the configuration itself: no two roots overlap, no inbox and root, and the
      podcast dir neither. */
  lemma RulesMean(c: Config)
    ensures (forall a, b :: Paired(c, a, b) ==> !Overlap(a, b)) <==>
              && (forall i, j :: 0 <= i < j < |c.roots| ==> !Overlap(c.roots[i], c.roots[j]))
              && (forall a, b :: a in c.inbox && b in c.roots ==> !Overlap(a, b))
              && (c.podcastDir.Some? ==> forall b :: b in c.roots || b in c.inbox ==> !Overlap(c.podcastDir.value, b))
  {
    hide Overlap;
    forall i, j | 0 <= i < j < |c.roots| ensures Paired(c, c.roots[i], c.roots[j]) {}
    forall a, b | a in c.inbox && b in c.roots ensures Paired(c, a, b) {}
    forall b | c.podcastDir.Some? && (b in c.roots || b in c.inbox) ensures Paired(c, c.podcastDir.value, b) {}
  }

  /** What the overlap rules refuse: a pair overlapping as spelled. */
  method Validate(c: Config) returns (ok: bool)
    ensures ok <==> forall a, b :: Paired(c, a, b) ==> !Overlap(a, b)
  {
    hide Paired;
    var pairs := Pairs(c);
    for i := 0 to |pairs|
      invariant forall k :: 0 <= k < i ==> !Overlap(pairs[k].0, pairs[k].1)
    {
      if Overlap(pairs[i].0, pairs[i].1) {
        assert (pairs[i].0, pairs[i].1) in pairs;
        return false;
      }
    }
    forall a, b | Paired(c, a, b) ensures !Overlap(a, b) {
      assert (a, b) in pairs;
    }
    return true;
  }

  /** The folder a path reaches; one the resolution lacks is taken as spelled. */
  function Reach(resolved: map<Path, Path>, p: Path): Path {
    if p in resolved then resolved[p] else p
  }

  predicate LinkedOverlap(resolved: map<Path, Path>, a: Path, b: Path) {
    !Overlap(a, b) && Overlap(Reach(resolved, a), Reach(resolved, b))
  }

  /** What the rules refuse through links: a pair holding the candidate that reaches overlapping
      folders without overlapping as spelled. */
  method OverlapThroughLinks(c: Config, resolved: map<Path, Path>, candidate: Path) returns (ok: bool)
    ensures ok <==> forall a, b :: Paired(c, a, b) && (a == candidate || b == candidate) ==>
              !LinkedOverlap(resolved, a, b)
  {
    hide Paired, LinkedOverlap;
    var pairs := Pairs(c);
    for i := 0 to |pairs|
      invariant forall k :: 0 <= k < i && (pairs[k].0 == candidate || pairs[k].1 == candidate) ==>
                  !LinkedOverlap(resolved, pairs[k].0, pairs[k].1)
    {
      var p := pairs[i];
      if (p.0 == candidate || p.1 == candidate) && LinkedOverlap(resolved, p.0, p.1) {
        assert (p.0, p.1) in pairs;
        return false;
      }
    }
    forall a, b | Paired(c, a, b) && (a == candidate || b == candidate) ensures !LinkedOverlap(resolved, a, b) {
      assert (a, b) in pairs;
    }
    return true;
  }

  // ---------------------------------------------------------------------------
  // Rows
  // ---------------------------------------------------------------------------

  /** Distinct rows have distinct pids and roots that do not overlap. */
  predicate Apart(rows: seq<Row>) {
    forall i, j :: 0 <= i < j < |rows| ==> rows[i].pid != rows[j].pid && !Overlap(rows[i].root, rows[j].root)
  }

  /** The library whose root holds a path, if any; the first in the list. */
  method LibraryAt(rows: seq<Row>, p: Path) returns (r: Option<Row>)
    ensures r.Some? ==> r.value in rows && UnderRoot(r.value.root, p)
    ensures r.None? ==> forall row :: row in rows ==> !UnderRoot(row.root, p)
  {
    for i := 0 to |rows|
      invariant forall k :: 0 <= k < i ==> !UnderRoot(rows[k].root, p)
    {
      if UnderRoot(rows[i].root, p) {
        return Some(rows[i]);
      }
    }
    return None;
  }

  /** At most one library's root holds a path, so the answer does not depend on the list's order. */
  lemma OneHolder(rows: seq<Row>, p: Path, a: Row, b: Row)
    requires Apart(rows) && a in rows && b in rows && UnderRoot(a.root, p) && UnderRoot(b.root, p)
    ensures a == b
  {
    var i :| 0 <= i < |rows| && rows[i] == a;
    var j :| 0 <= j < |rows| && rows[j] == b;
    SharedPathOverlaps(a.root, b.root, p);
    assert i == j;
  }

  lemma HolderInAnyOrder(rows: seq<Row>, rows': seq<Row>, p: Path, r: Option<Row>, r': Option<Row>)
    requires Apart(rows) && forall x :: x in rows <==> x in rows'
    requires r.Some? ==> r.value in rows && UnderRoot(r.value.root, p)
    requires r.None? ==> forall row :: row in rows ==> !UnderRoot(row.root, p)
    requires r'.Some? ==> r'.value in rows' && UnderRoot(r'.value.root, p)
    requires r'.None? ==> forall row :: row in rows' ==> !UnderRoot(row.root, p)
    ensures r == r'
  {
    if r.Some? && r'.Some? {
      OneHolder(rows, p, r.value, r'.value);
    }
  }

  /** A removal under way: the library as it was when it began, and whether its row is gone. */
  datatype Removal = Removal(pid: nat, root: Path, gone: bool)

  /** Every configured root is a stored one, or the one being removed. */
  ghost predicate Registered(configured: seq<Path>, rows: seq<Row>, removal: Option<Removal>) {
    forall c :: c in configured ==>
      (exists r :: r in rows && r.root == c && !r.podcast) || (removal.Some? && removal.value.root == c)
  }

  ghost predicate RemovalFits(rows: seq<Row>, removal: Option<Removal>) {
    removal.Some? ==>
      if removal.value.gone then forall r :: r in rows ==> r.pid != removal.value.pid
      else Row(removal.value.pid, removal.value.root, false) in rows
  }

  function UserRoots(rows: seq<Row>, except: Row -> bool): seq<Path> {
    if rows == [] then []
    else
      var r := rows[|rows| - 1];
      UserRoots(rows[..|rows| - 1], except) + if r.podcast || except(r) then [] else [r.root]
  }

  lemma {:induction false} UserRootsAre(rows: seq<Row>, except: Row -> bool)
    ensures forall p :: p in UserRoots(rows, except) <==>
              exists r :: r in rows && !r.podcast && !except(r) && r.root == p
  {
    if rows != [] {
      UserRootsAre(rows[..|rows| - 1], except);
      assert forall x :: x in rows <==> x in rows[..|rows| - 1] || x == rows[|rows| - 1];
    }
  }

  /** The candidate overlaps no row but the ones it replaces, and no inbox or podcast folder. */
  ghost predicate Clear(rows: seq<Row>, except: Row -> bool, candidate: Path) {
    forall r :: r in rows && (r.podcast || !except(r)) ==> !Overlap(r.root, candidate)
  }

  /** What validateRootSet judges: the configured overlap rules over the other rows' roots and the
      candidate, the same rules through links for the candidate alone, and the podcast rows. */
  ghost predicate Accepted(c: Config, podcasts: set<Path>, resolved: map<Path, Path>, candidate: Path) {
    && (forall a, b :: Paired(c, a, b) ==> !Overlap(a, b))
    && (forall a, b :: Paired(c, a, b) && (a == candidate || b == candidate) ==> !LinkedOverlap(resolved, a, b))
    && (forall p :: p in podcasts ==> !Overlap(p, candidate) && !LinkedOverlap(resolved, p, candidate))
  }

  function PodcastRoots(rows: seq<Row>): set<Path> {
    set r <- rows | r.podcast :: r.root
  }

  function CandidateConfig(rows: seq<Row>, except: Row -> bool, candidate: Path, inbox: seq<Path>,
                           podcastDir: Option<Path>): Config
  {
    Config(UserRoots(rows, except) + [candidate], inbox, podcastDir)
  }

  /** An accepted candidate overlaps nothing it must be kept from. */
  lemma AcceptedIsClear(rows: seq<Row>, except: Row -> bool, candidate: Path, inbox: seq<Path>,
                        podcastDir: Option<Path>, resolved: map<Path, Path>)
    requires Accepted(CandidateConfig(rows, except, candidate, inbox, podcastDir), PodcastRoots(rows), resolved,
               candidate)
    ensures Clear(rows, except, candidate)
    ensures forall i :: i in inbox ==> !Overlap(i, candidate)
    ensures podcastDir.Some? ==> !Overlap(podcastDir.value, candidate)
  {
    var others := UserRoots(rows, except);
    var cfg := CandidateConfig(rows, except, candidate, inbox, podcastDir);
    UserRootsAre(rows, except);
    var n := |others|;
    assert cfg.roots[n] == candidate;
    forall p | p in others ensures !Overlap(p, candidate) {
      var i :| 0 <= i < n && others[i] == p;
      assert cfg.roots[i] == p;
      assert Paired(cfg, p, candidate);
    }
    forall i | i in inbox ensures !Overlap(i, candidate) {
      assert Paired(cfg, i, candidate);
    }
    if podcastDir.Some? {
      assert Paired(cfg, podcastDir.value, candidate);
    }
  }

  /** Nothing else is refused: the configuration with the candidate in it keeps the rules, the podcast
      rows are clear of it, and no folder it is paired with, nor theirs, reaches one overlapping the
      folder it reaches. */
  lemma AcceptedMeans(c: Config, podcasts: set<Path>, resolved: map<Path, Path>, candidate: Path)
    ensures Accepted(c, podcasts, resolved, candidate) <==>
              && (forall a, b :: Paired(c, a, b) ==> !Overlap(a, b))
              && (forall a, b :: Paired(c, a, b) && (a == candidate || b == candidate) ==>
                    !Overlap(if a in resolved then resolved[a] else a, if b in resolved then resolved[b] else b))
              && (forall p :: p in podcasts ==> !Overlap(p, candidate))
              && (forall p :: p in podcasts ==>
                    !Overlap(if p in resolved then resolved[p] else p,
                             if candidate in resolved then resolved[candidate] else candidate))
  {
    hide Overlap, Paired;
    forall a, b ensures LinkedOverlap(resolved, a, b) <==>
      !Overlap(a, b) && Overlap(if a in resolved then resolved[a] else a, if b in resolved then resolved[b] else b)
    {
    }
  }

  /** Nor do the folders they reach on disk: a path the resolution knows reaches what that says, any
      other itself. */
  lemma AcceptedReachesClear(rows: seq<Row>, except: Row -> bool, candidate: Path, inbox: seq<Path>,
                             podcastDir: Option<Path>, resolved: map<Path, Path>, other: Path)
    requires Accepted(CandidateConfig(rows, except, candidate, inbox, podcastDir), PodcastRoots(rows), resolved,
               candidate)
    requires || (exists r :: r in rows && r.root == other && (r.podcast || !except(r)))
             || other in inbox || podcastDir == Some(other)
    ensures !Overlap(if other in resolved then resolved[other] else other,
                     if candidate in resolved then resolved[candidate] else candidate)
  {
    AcceptedIsClear(rows, except, candidate, inbox, podcastDir, resolved);
    var cfg := CandidateConfig(rows, except, candidate, inbox, podcastDir);
    var n := |UserRoots(rows, except)|;
    UserRootsAre(rows, except);
    assert cfg.roots[n] == candidate && candidate in cfg.roots;
    assert !LinkedOverlap(resolved, other, candidate) by {
      if other in PodcastRoots(rows) {
      } else if other in UserRoots(rows, except) {
        var i :| 0 <= i < n && UserRoots(rows, except)[i] == other;
        assert cfg.roots[i] == other;
        assert Paired(cfg, other, candidate);
      } else {
        assert Paired(cfg, other, candidate);
      }
    }
  }

  class Roots {
    const inbox: seq<Path>
    const podcastDir: Option<Path>
    var rows: seq<Row>
    var configured: seq<Path>
    var removal: Option<Removal>
    var nextPid: nat

    ghost predicate Valid()
      reads this
    {
      && Apart(rows)
      && (forall r :: r in rows ==> r.pid < nextPid)
      && RemovalFits(rows, removal)
      && (removal.Some? ==> removal.value.pid < nextPid)
    }

    /** Every configured root is a stored one, or the one being removed. */
    ghost predicate AllRegistered()
      reads this
    {
      Registered(configured, rows, removal)
    }

    constructor (rows: seq<Row>, configured: seq<Path>, inbox: seq<Path>, podcastDir: Option<Path>, nextPid: nat)
      requires Apart(rows) && forall r :: r in rows ==> r.pid < nextPid
      ensures Valid() && this.rows == rows && this.configured == configured && removal == None
      ensures this.inbox == inbox && this.podcastDir == podcastDir && this.nextPid == nextPid
    {
      this.rows, this.configured, this.inbox, this.podcastDir := rows, configured, inbox, podcastDir;
      this.nextPid, removal := nextPid, None;
    }

    /** Whether the candidate may join the rows, but for those it stands in for. */
    method ValidateRootSet(except: Row -> bool, candidate: Path, resolved: map<Path, Path>) returns (ok: bool)
      ensures ok <==>
                Accepted(CandidateConfig(rows, except, candidate, inbox, podcastDir), PodcastRoots(rows), resolved,
                  candidate)
    {
      hide Paired, UserRoots, Overlap, LinkedOverlap;
      var cfg := CandidateConfig(rows, except, candidate, inbox, podcastDir);
      ok := Validate(cfg);
      if !ok {
        return;
      }
      ok := OverlapThroughLinks(cfg, resolved, candidate);
      if !ok {
        return;
      }
      for k := 0 to |rows|
        invariant forall m :: 0 <= m < k && rows[m].podcast ==>
                    !Overlap(rows[m].root, candidate) && !LinkedOverlap(resolved, rows[m].root, candidate)
      {
        if rows[k].podcast && (Overlap(rows[k].root, candidate) || LinkedOverlap(resolved, rows[k].root, candidate)) {
          assert rows[k].root in PodcastRoots(rows);
          return false;
        }
      }
      return true;
    }

    /** The store's upsert by root; it compares no other root. */
    method EnsureLibrary(path: Path) returns (pid: nat)
      modifies `rows, `nextPid
      ensures rows == Upsert(old(rows), path, old(nextPid))
      ensures nextPid == old(nextPid) + (|rows| - |old(rows)|)
      ensures Row(pid, path, false) in rows
    {
      var i := 0;
      while i < |rows| && rows[i].root != path
        invariant i <= |rows| && i <= FirstWith(rows, path)
      {
        i := i + 1;
      }
      if i < |rows| {
        rows := rows[i := rows[i].(podcast := false)];
        assert rows[i] in rows;
        return rows[i].pid;
      }
      pid := nextPid;
      rows, nextPid := rows + [Row(nextPid, path, false)], nextPid + 1;
    }

    /** A new path becomes a row, an existing one keeps its row; a path being removed is refused. */
    method AddRoot(path: Path, resolved: map<Path, Path>, walkable: bool) returns (pid: Option<nat>)
      requires Valid()
      modifies `rows, `nextPid
      ensures Valid()
      ensures pid.Some? <==>
              && walkable && !(removal.Some? && removal.value.root == path)
              && Accepted(CandidateConfig(old(rows), (r: Row) => r.root == path, path, inbox, podcastDir),
                          PodcastRoots(old(rows)), resolved, path)
      ensures pid.None? ==> rows == old(rows)
      ensures pid.Some? ==> Row(pid.value, path, false) in rows
      ensures pid.Some? ==>
                rows == if Row(pid.value, path, false) in old(rows) then old(rows)
                  else old(rows) + [Row(pid.value, path, false)]
      ensures pid.Some? && removal.Some? ==> pid.value != removal.value.pid
      ensures old(AllRegistered()) ==> AllRegistered()
    {
      hide Apart, RemovalFits, Registered, Overlap, Accepted, CandidateConfig, PodcastRoots, Upsert, Clear;
      var same := (r: Row) => r.root == path;
      var ok := ValidateRootSet(same, path, resolved);
      if !ok {
        return None;
      }
      if removal.Some? && removal.value.root == path {
        return None;
      }
      if !walkable {
        return None;
      }
      AcceptedIsClear(rows, same, path, inbox, podcastDir, resolved);
      UpsertKeeps(rows, path, nextPid, configured, removal);
      var p := EnsureLibrary(path);
      pid := Some(p);
      AddedOnce(old(rows), path, old(nextPid), p);
    }

    /** The library's row and its configured entry move together; none moves while a removal runs. */
    method RelocateRoot(pid: nat, path: Path, resolved: map<Path, Path>, walkable: bool) returns (ok: bool)
      requires Valid()
      modifies this
      ensures Valid() && removal == old(removal) && |rows| == |old(rows)|
      ensures old(AllRegistered()) ==> AllRegistered()
      ensures !ok ==> rows == old(rows) && configured == old(configured)
      ensures ok <==>
              && walkable && old(removal) == None && (exists r :: r in old(rows) && r.pid == pid && !r.podcast)
              && Accepted(CandidateConfig(old(rows), (r: Row) => r.pid == pid, path, inbox, podcastDir),
                          PodcastRoots(old(rows)), resolved, path)
      ensures ok ==>
                exists i :: 0 <= i < |rows| && RelocatedAt(old(rows), i, pid, path, rows, old(configured), configured)
    {
      if removal.Some? {
        return false;
      }
      var i := 0;
      while i < |rows| && rows[i].pid != pid
        invariant i <= |rows| && forall k :: 0 <= k < i ==> rows[k].pid != pid
      {
        i := i + 1;
      }
      if i == |rows| || rows[i].podcast {
        return false;
      }
      var clear := ValidateRootSet((r: Row) => r.pid == pid, path, resolved);
      if !clear || !walkable {
        return false;
      }
      AcceptedIsClear(rows, (r: Row) => r.pid == pid, path, inbox, podcastDir, resolved);
      RowMoves(rows, i, path, configured);
      configured := Moved(configured, rows[i].root, path);
      rows := rows[i := Row(pid, path, false)];
      assert RelocatedAt(old(rows), i, pid, path, rows, old(configured), configured);
      ok := true;
    }

    /** Checked again under the lock and marked; a configured root needs force. */
    method BeginRemoval(pid: nat, force: bool) returns (ok: bool)
      requires Valid()
      modifies `removal
      ensures Valid() && (old(AllRegistered()) ==> AllRegistered())
      ensures ok <==>
                old(removal) == None
                && exists r :: r in rows && r.pid == pid && !r.podcast && (force || r.root !in configured)
      ensures ok ==> removal.Some? && removal.value.pid == pid && !removal.value.gone
      ensures ok ==> Row(pid, removal.value.root, false) in rows
      ensures !ok ==> removal == old(removal)
    {
      if removal.Some? {
        return false;
      }
      for i := 0 to |rows|
        invariant removal == None && forall k :: 0 <= k < i ==> rows[k].pid != pid
      {
        var r := rows[i];
        if r.pid == pid {
          assert r in rows;
          assert forall k :: i < k < |rows| ==> rows[k].pid != pid;
          if r.podcast || (!force && r.root in configured) {
            return false;
          }
          removal := Some(Removal(pid, r.root, false));
          return true;
        }
      }
      return false;
    }

    /** The store takes the row out, off the lock. */
    method DeleteRow()
      requires Valid() && removal.Some? && !removal.value.gone
      modifies `rows, `removal
      ensures Valid() && removal == Some(old(removal).value.(gone := true))
      ensures rows == Without(old(rows), removal.value.pid)
      ensures forall r :: r in rows <==> r in old(rows) && r.pid != removal.value.pid
      ensures old(AllRegistered()) ==> AllRegistered()
    {
      ghost var was := rows;
      rows := Without(rows, removal.value.pid);
      WithoutKeeps(was, removal.value.pid);
      WithoutAre(was, removal.value.pid);
      removal := Some(removal.value.(gone := true));
      if old(AllRegistered()) {
        var row := Row(removal.value.pid, removal.value.root, false);
        forall c | c in configured ensures (exists r :: r in rows && r.root == c && !r.podcast)
          || removal.value.root == c {
          if c != removal.value.root {
            var r :| r in was && r.root == c && !r.podcast;
            OtherRowOtherPid(was, r, row);
            assert r in rows;
          }
        }
      }
    }

    /** The mark is cleared, and a library that is gone leaves the configuration. */
    method EndRemoval()
      requires Valid() && removal.Some?
      modifies this
      ensures Valid() && removal == None && rows == old(rows)
      ensures old(AllRegistered()) ==> AllRegistered()
      ensures configured == if old(removal).value.gone then Dropped(old(configured), old(removal).value.root)
                else old(configured)
    {
      if removal.value.gone {
        DroppedAre(configured, removal.value.root);
        configured := Dropped(configured, removal.value.root);
      } else {
        assert Row(removal.value.pid, removal.value.root, false) in rows;
      }
      removal := None;
    }

    /** A hand-off: another process held the catalog and left these rows, apart as well. None begins
        while a removal runs. */
    method HandOver(left: seq<Row>, next: nat)
      requires Valid() && removal == None
      requires Apart(left) && nextPid <= next && forall r :: r in left ==> r.pid < next
      modifies `rows, `nextPid
      ensures Valid() && rows == left && nextPid == next
    {
      rows, nextPid := left, next;
    }

    /** A reopen registers the configured roots again, and unlike an open checks none of them: the
        rows stay apart exactly when those that are not rows are clear of the rows and of each
        other. Nothing is added when every configured root is a row. */
    method EnsureRoots()
      requires Valid()
      modifies `rows, `nextPid
      ensures rows == Ensured(old(rows), configured, old(nextPid))
      ensures Apart(rows) <==> ConfiguredFit(old(rows), configured)
      ensures ConfiguredFit(old(rows), configured) ==> Valid()
      ensures Registered(configured, rows, None)
      ensures old(Registered(configured, rows, None)) ==> rows == old(rows)
    {
      hide Apart, Registered, ConfiguredFit, RemovalFits, Upsert;
      assert configured[..0] == [];
      for i := 0 to |configured|
        invariant rows == Ensured(old(rows), configured[..i], old(nextPid))
        invariant nextPid == old(nextPid) + |rows| - |old(rows)|
      {
        assert configured[..i + 1][..i] == configured[..i];
        var _ := EnsureLibrary(configured[i]);
      }
      assert configured[..|configured|] == configured;
      EnsuredIs(old(rows), configured, old(nextPid));
      EnsuredApart(old(rows), configured, old(nextPid));
      EnsuredFits(old(rows), configured, old(nextPid), removal);
      if old(Registered(configured, rows, None)) {
        NothingToEnsure(old(rows), configured, old(nextPid));
      }
    }

    /** One operation; a removal's later steps are taken only while it runs, and a hand-over only
        when none does. */
    method Do(op: RootOp)
      requires Valid() && Sound(op)
      modifies this
      ensures !op.Reopens? ==> Valid()
      ensures op.Reopens? ==> (Apart(rows) <==> ConfiguredFit(old(rows), old(configured))) && (Apart(rows) ==> Valid())
    {
      hide Apart, RemovalFits, Registered, ConfiguredFit, Accepted, CandidateConfig, Ensured;
      match op
      case Adds(path, resolved, walkable) => var _ := AddRoot(path, resolved, walkable);
      case Relocates(pid, path, resolved, walkable) => var _ := RelocateRoot(pid, path, resolved, walkable);
      case BeginsRemoval(pid, force) => var _ := BeginRemoval(pid, force);
      case DeletesRow =>
        if removal.Some? && !removal.value.gone {
          DeleteRow();
        }
      case EndsRemoval =>
        if removal.Some? {
          EndRemoval();
        }
      case HandsOver(left, next) =>
        if removal.None? && nextPid <= next {
          HandOver(left, next);
        }
      case Reopens => EnsureRoots();
    }

    /** Any run of them, up to the first that leaves two roots overlapping: the rows stand apart
        after each operation exactly when it is no reopen or meets the reopen's condition. */
    method Drive(ops: seq<RootOp>) returns (ghost trail: seq<Stage>)
      requires Valid() && forall op :: op in ops ==> Sound(op)
      modifies this
      ensures Follows(trail, old(rows), rows) && |trail| <= |ops|
      ensures forall i :: 0 <= i < |trail| ==> (Apart(trail[i].after) <==> Fits(ops[i], trail[i]))
      ensures (forall s :: s in trail ==> Apart(s.after)) <==> forall i :: 0 <= i < |trail| ==> Fits(ops[i], trail[i])
      ensures if Apart(rows) then Valid() && |trail| == |ops| else trail != []
    {
      hide Apart, Valid, ConfiguredFit, Sound;
      trail := [];
      var i := 0;
      StaysApart();
      while i < |ops| && Apart(rows)
        invariant i == |trail| <= |ops| && Follows(trail, old(rows), rows)
        invariant Apart(rows) ==> Valid()
        invariant trail == [] ==> Apart(rows)
        invariant forall k :: 0 <= k < i ==> (Apart(trail[k].after) <==> Fits(ops[k], trail[k]))
      {
        ghost var before, config := rows, configured;
        assert ops[i] in ops;
        Do(ops[i]);
        StaysApart();
        FollowsOn(trail, old(rows), before, config, rows);
        trail := trail + [Stage(before, config, rows)];
        i := i + 1;
      }
      assert forall s :: s in trail ==> exists k :: 0 <= k < |trail| && trail[k] == s;
    }

    lemma StaysApart()
      ensures Valid() ==> Apart(rows)
    {}
  }

  /** What can happen to the roots of an open library. */
  datatype RootOp =
    | Adds(path: Path, resolved: map<Path, Path>, walkable: bool)
    | Relocates(pid: nat, path: Path, resolved: map<Path, Path>, walkable: bool)
    | BeginsRemoval(pid: nat, force: bool) | DeletesRow | EndsRemoval
    | HandsOver(left: seq<Row>, next: nat) | Reopens

  /** Another process leaves the rows apart. */
  ghost predicate Sound(op: RootOp) {
    op.HandsOver? ==> Apart(op.left) && forall r :: r in op.left ==> r.pid < op.next
  }

  /** One operation: the rows and the configured roots it found, and the rows it left. */
  datatype Stage = Stage(before: seq<Row>, configured: seq<Path>, after: seq<Row>)

  /** A reopen finds the configured roots fit. */
  ghost predicate Fits(op: RootOp, s: Stage) {
    op.Reopens? ==> ConfiguredFit(s.before, s.configured)
  }

  /** Each stage takes up where the one before left off. */
  ghost predicate Follows(trail: seq<Stage>, first: seq<Row>, last: seq<Row>) {
    if trail == [] then last == first
    else
      var s := trail[|trail| - 1];
      s.after == last && Follows(trail[..|trail| - 1], first, s.before)
  }

  lemma FollowsOn(trail: seq<Stage>, first: seq<Row>, last: seq<Row>, configured: seq<Path>, next: seq<Row>)
    requires Follows(trail, first, last)
    ensures Follows(trail + [Stage(last, configured, next)], first, next)
  {
    assert (trail + [Stage(last, configured, next)])[..|trail|] == trail;
  }

  // ---------------------------------------------------------------------------
  // Registering the configured roots
  // ---------------------------------------------------------------------------

  /** The first row with that root, past the end when there is none. */
  function FirstWith(rows: seq<Row>, path: Path): (i: nat)
    ensures i <= |rows| && (i < |rows| ==> rows[i].root == path)
    ensures forall k :: 0 <= k < i ==> rows[k].root != path
  {
    if rows == [] then 0
    else
      var i := FirstWith(rows[..|rows| - 1], path);
      if i < |rows| - 1 || rows[i].root == path then i else i + 1
  }

  ghost predicate HasRoot(rows: seq<Row>, path: Path) {
    exists i :: 0 <= i < |rows| && rows[i].root == path
  }

  /** The row at that root, no podcast one any more, or a new row. */
  function Upsert(rows: seq<Row>, path: Path, pid: nat): seq<Row> {
    var i := FirstWith(rows, path);
    if i < |rows| then rows[i := rows[i].(podcast := false)] else rows + [Row(pid, path, false)]
  }

  function Ensured(rows: seq<Row>, configured: seq<Path>, next: nat): (r: seq<Row>)
    ensures |r| >= |rows|
  {
    if configured == [] then rows
    else
      var before := Ensured(rows, configured[..|configured| - 1], next);
      Upsert(before, configured[|configured| - 1], next + (|before| - |rows|))
  }

  /** Each configured root is a row's, or is clear of the rows and of every other configured root. */
  ghost predicate ConfiguredFit(rows: seq<Row>, configured: seq<Path>) {
    forall c :: c in configured ==> HasRoot(rows, c) || ClearOf(rows, configured, c)
  }

  ghost predicate ClearOf(rows: seq<Row>, configured: seq<Path>, c: Path) {
    && (forall r :: r in rows ==> !Overlap(r.root, c))
    && forall d :: d in configured && d != c ==> !Overlap(c, d)
  }

  /** e begins with the rows, none moved, and goes on with one new row for each configured root
      that none of them has. */
  ghost predicate Registers(rows: seq<Row>, configured: seq<Path>, next: nat, e: seq<Row>) {
    && |e| >= |rows|
    && (forall i :: 0 <= i < |rows| ==>
          e[i].pid == rows[i].pid && e[i].root == rows[i].root && (e[i].podcast ==> rows[i].podcast))
    && (forall i :: |rows| <= i < |e| ==>
          e[i] == Row(next + i - |rows|, e[i].root, false) && e[i].root in configured && !HasRoot(rows, e[i].root))
    && (forall i, j :: |rows| <= i < j < |e| ==> e[i].root != e[j].root)
    && (forall c :: c in configured ==> exists i :: 0 <= i < |e| && e[i].root == c && !e[i].podcast)
  }

  lemma {:induction false} EnsuredIs(rows: seq<Row>, configured: seq<Path>, next: nat)
    ensures Registers(rows, configured, next, Ensured(rows, configured, next))
    ensures Registered(configured, Ensured(rows, configured, next), None)
  {
    hide Registers, Registered, Upsert;
    NoneRegistered(rows, next);
    if configured != [] {
      var n := |configured| - 1;
      EnsuredIs(rows, configured[..n], next);
      assert configured == configured[..n] + [configured[n]];
      UpsertRegisters(rows, configured[..n], configured[n], next, Ensured(rows, configured[..n], next));
    }
    RegistersAll(rows, configured, next, Ensured(rows, configured, next));
  }

  lemma NoneRegistered(rows: seq<Row>, next: nat)
    ensures Registers(rows, [], next, rows)
  {}

  lemma RegistersAll(rows: seq<Row>, configured: seq<Path>, next: nat, e: seq<Row>)
    requires Registers(rows, configured, next, e)
    ensures Registered(configured, e, None)
  {
    forall c | c in configured ensures exists r :: r in e && r.root == c && !r.podcast {
      var i :| 0 <= i < |e| && e[i].root == c && !e[i].podcast;
      assert e[i] in e;
    }
  }

  lemma UpsertRegisters(rows: seq<Row>, configured: seq<Path>, c: Path, next: nat, e: seq<Row>)
    requires Registers(rows, configured, next, e)
    ensures Registers(rows, configured + [c], next, Upsert(e, c, next + (|e| - |rows|)))
  {
    var e' := Upsert(e, c, next + (|e| - |rows|));
    var k := FirstWith(e, c);
    assert e'[k].root == c && !e'[k].podcast;
    forall d | d in configured ensures exists i :: 0 <= i < |e'| && e'[i].root == d && !e'[i].podcast {
      var i :| 0 <= i < |e| && e[i].root == d && !e[i].podcast;
      assert e'[i].root == d;
    }
    assert HasRoot(rows, c) ==> k < |e| by {
      if HasRoot(rows, c) {
        var i :| 0 <= i < |rows| && rows[i].root == c;
        assert e[i].root == c;
      }
    }
  }

  /** What a reopen's registration keeps apart, exactly. */
  lemma EnsuredApart(rows: seq<Row>, configured: seq<Path>, next: nat)
    requires Apart(rows) && forall r :: r in rows ==> r.pid < next
    ensures Apart(Ensured(rows, configured, next)) <==> ConfiguredFit(rows, configured)
  {
    hide Overlap, Ensured;
    var e := Ensured(rows, configured, next);
    EnsuredIs(rows, configured, next);
    if ConfiguredFit(rows, configured) {
      FitIsApart(rows, configured, next, e);
    }
    if Apart(e) {
      forall c | c in configured && !HasRoot(rows, c) ensures ClearOf(rows, configured, c) {
        ApartIsClear(rows, configured, next, e, c);
      }
    }
  }

  lemma FitIsApart(rows: seq<Row>, configured: seq<Path>, next: nat, e: seq<Row>)
    requires Registers(rows, configured, next, e) && Apart(rows) && ConfiguredFit(rows, configured)
    requires forall r :: r in rows ==> r.pid < next
    ensures Apart(e)
  {
    hide Overlap;
    forall i, j | 0 <= i < j < |e| ensures e[i].pid != e[j].pid && !Overlap(e[i].root, e[j].root) {
      if i < |rows| {
        assert rows[i] in rows;
      }
      if j >= |rows| {
        assert ClearOf(rows, configured, e[j].root);
        if i >= |rows| {
          assert ClearOf(rows, configured, e[i].root);
        }
      }
    }
  }

  lemma ApartIsClear(rows: seq<Row>, configured: seq<Path>, next: nat, e: seq<Row>, c: Path)
    requires Registers(rows, configured, next, e) && Apart(e) && c in configured && !HasRoot(rows, c)
    ensures ClearOf(rows, configured, c)
  {
    var k :| 0 <= k < |e| && e[k].root == c;
    LaterRow(rows, configured, next, e, k);
    hide Overlap;
    forall r | r in rows ensures !Overlap(r.root, c) {
      var i :| 0 <= i < |rows| && rows[i] == r;
      assert e[i].root == r.root;
    }
    forall d | d in configured && d != c ensures !Overlap(c, d) {
      var m :| 0 <= m < |e| && e[m].root == d;
      OverlapSymmetric(c, d);
    }
  }

  lemma OverlapSymmetric(a: Path, b: Path)
    ensures Overlap(a, b) <==> Overlap(b, a)
  {}

  lemma LaterRow(rows: seq<Row>, configured: seq<Path>, next: nat, e: seq<Row>, k: nat)
    requires Registers(rows, configured, next, e) && k < |e| && !HasRoot(rows, e[k].root)
    ensures k >= |rows|
  {}

  lemma EnsuredFits(rows: seq<Row>, configured: seq<Path>, next: nat, removal: Option<Removal>)
    requires RemovalFits(rows, removal) && (removal.Some? ==> removal.value.pid < next)
    requires forall r :: r in rows ==> r.pid < next
    ensures var e := Ensured(rows, configured, next);
            RemovalFits(e, removal) && forall r :: r in e ==> r.pid < next + (|e| - |rows|)
  {
    hide Ensured;
    var e := Ensured(rows, configured, next);
    EnsuredIs(rows, configured, next);
    forall r | r in e ensures r.pid < next + (|e| - |rows|)
      && ((exists q :: q in rows && q.pid == r.pid) || r.pid >= next) {
      var i :| 0 <= i < |e| && e[i] == r;
      if i < |rows| {
        assert rows[i] in rows;
      }
    }
    if removal.Some? && !removal.value.gone {
      var row := Row(removal.value.pid, removal.value.root, false);
      var i :| 0 <= i < |rows| && rows[i] == row;
      assert e[i] == row;
    }
  }

  lemma {:induction false} NothingToEnsure(rows: seq<Row>, configured: seq<Path>, next: nat)
    requires Apart(rows) && Registered(configured, rows, None)
    ensures Ensured(rows, configured, next) == rows
  {
    if configured != [] {
      var n := |configured| - 1;
      assert forall c :: c in configured[..n] ==> c in configured;
      NothingToEnsure(rows, configured[..n], next);
      assert configured[n] in configured;
      var r :| r in rows && r.root == configured[n] && !r.podcast;
      var i := FirstWith(rows, configured[n]);
      var k :| 0 <= k < |rows| && rows[k] == r;
      OneHolder(rows, r.root, rows[i], r);
    }
  }

  /** A hand-off in which another process takes a configured root out and adds the folder above it:
      the reopen registers the one again under the other. */
  method ReopenUnderParent(parent: Path, child: Path) returns (l: Roots)
    requires parent < child
    ensures fresh(l) && !Apart(l.rows)
  {
    l := new Roots([Row(0, child, false)], [child], [], None, 1);
    l.HandOver([Row(1, parent, false)], 2);
    assert [Row(1, parent, false)][0].root == parent;
    ChildUnfit(l.rows, l.configured, parent, child);
    l.EnsureRoots();
  }

  /** An owed reopen finished while a forced removal runs, the folder above added meanwhile. */
  method ReopenDuringRemoval(parent: Path, child: Path) returns (l: Roots)
    requires parent < child
    ensures fresh(l) && !Apart(l.rows)
  {
    hide Apart, RemovalFits, Registered, Overlap, Accepted, CandidateConfig, ConfiguredFit, Ensured;
    var rows := [Row(0, child, false)];
    AloneApart(rows);
    l := new Roots(rows, [child], [], None, 1);
    assert rows[0] in l.rows;
    var begun := l.BeginRemoval(0, true);
    assert begun && l.removal == Some(Removal(0, child, false));
    l.DeleteRow();
    assert rows[..0] == [] && l.rows == [];
    LoneAccepted(parent);
    var pid := l.AddRoot(parent, map[], true);
    assert pid.Some? && l.rows == [Row(pid.value, parent, false)];
    ChildUnfit(l.rows, l.configured, parent, child);
    l.EnsureRoots();
  }

  lemma AloneApart(rows: seq<Row>)
    requires |rows| == 1
    ensures Apart(rows)
  {}

  lemma ChildUnfit(rows: seq<Row>, configured: seq<Path>, parent: Path, child: Path)
    requires parent < child && child in configured && |rows| == 1 && rows[0].root == parent
    ensures !ConfiguredFit(rows, configured)
  {
    assert rows[0] in rows && Overlap(rows[0].root, child);
  }

  /** Alone, a candidate is kept from nothing. */
  lemma LoneAccepted(candidate: Path)
    ensures Accepted(CandidateConfig([], (r: Row) => r.root == candidate, candidate, [], None), PodcastRoots([]),
              map[], candidate)
  {}

  function Without(rows: seq<Row>, pid: nat): seq<Row> {
    if rows == [] then []
    else Without(rows[..|rows| - 1], pid) + if rows[|rows| - 1].pid == pid then [] else [rows[|rows| - 1]]
  }

  function Moved(configured: seq<Path>, from: Path, to: Path): seq<Path> {
    seq(|configured|, i requires 0 <= i < |configured| => if configured[i] == from then to else configured[i])
  }

  /** The entries at the old root move, and no other. */
  lemma MovedMeans(configured: seq<Path>, from: Path, to: Path, i: nat)
    requires i < |configured|
    ensures |Moved(configured, from, to)| == |configured|
    ensures configured[i] == from ==> Moved(configured, from, to)[i] == to
    ensures configured[i] != from ==> Moved(configured, from, to)[i] == configured[i]
  {}

  function Dropped(configured: seq<Path>, root: Path): seq<Path> {
    if configured == [] then []
    else Dropped(configured[..|configured| - 1], root) + if configured[|configured| - 1] == root then []
      else [configured[|configured| - 1]]
  }

  lemma {:induction false} DroppedAre(configured: seq<Path>, root: Path)
    ensures forall c :: c in Dropped(configured, root) <==> c in configured && c != root
  {
    if configured != [] {
      DroppedAre(configured[..|configured| - 1], root);
      assert forall x :: x in configured <==> x in configured[..|configured| - 1] || x == configured[|configured| - 1];
    }
  }

  lemma {:induction false} WithoutAre(rows: seq<Row>, pid: nat)
    ensures forall r :: r in Without(rows, pid) <==> r in rows && r.pid != pid
  {
    if rows != [] {
      WithoutAre(rows[..|rows| - 1], pid);
      assert forall x :: x in rows <==> x in rows[..|rows| - 1] || x == rows[|rows| - 1];
    }
  }

  lemma {:induction false} WithoutKeeps(rows: seq<Row>, pid: nat)
    requires Apart(rows)
    ensures Apart(Without(rows, pid))
  {
    hide Overlap;
    if rows != [] {
      var init, last := rows[..|rows| - 1], rows[|rows| - 1];
      WithoutKeeps(init, pid);
      WithoutAre(init, pid);
      var kept := Without(init, pid);
      forall i | 0 <= i < |kept| ensures kept[i].pid != last.pid && !Overlap(kept[i].root, last.root) {
        assert kept[i] in init;
        var k :| 0 <= k < |init| && init[k] == kept[i];
        assert rows[k] == kept[i];
      }
    }
  }

  lemma OtherRowOtherPid(rows: seq<Row>, a: Row, b: Row)
    requires Apart(rows) && a in rows && b in rows && a != b
    ensures a.pid != b.pid
  {}

  /** A path that overlaps no row but its own joins the rows, or is one already. */
  lemma UpsertKeeps(rows: seq<Row>, path: Path, next: nat, configured: seq<Path>, removal: Option<Removal>)
    requires Apart(rows) && RemovalFits(rows, removal) && Clear(rows, (r: Row) => r.root == path, path)
    requires (forall r :: r in rows ==> r.pid < next) && (removal.Some? ==> removal.value.pid < next)
    ensures var rows' := Upsert(rows, path, next);
            && Apart(rows') && RemovalFits(rows', removal)
            && (Registered(configured, rows, removal) ==> Registered(configured, rows', removal))
            && rows' == (if HasRoot(rows, path) then rows else rows + [Row(next, path, false)])
            && (forall r :: r in rows' ==> r.pid < next + (|rows'| - |rows|))
            && (removal.Some? && removal.value.root != path ==>
                  forall r :: r in rows' && r.root == path ==> r.pid != removal.value.pid)
  {
    var i := FirstWith(rows, path);
    if i < |rows| {
      assert rows[i] in rows;
      assert Overlap(path, path);
      assert Upsert(rows, path, next) == rows;
    } else {
      RowJoins(rows, Row(next, path, false), configured, removal);
    }
  }

  lemma AddedOnce(rows: seq<Row>, path: Path, next: nat, pid: nat)
    requires Apart(rows) && (forall r :: r in rows ==> r.pid < next)
    requires var rows' := if HasRoot(rows, path) then rows
               else rows + [Row(next, path, false)]; Row(pid, path, false) in rows'
    ensures HasRoot(rows, path) ==> Row(pid, path, false) in rows
    ensures !HasRoot(rows, path) ==> pid == next && Row(pid, path, false) !in rows
  {
    if !HasRoot(rows, path) {
      forall r | r in rows ensures r.root != path {
        var i :| 0 <= i < |rows| && rows[i] == r;
      }
    }
  }

  lemma RowJoins(rows: seq<Row>, row: Row, configured: seq<Path>, removal: Option<Removal>)
    requires Apart(rows) && RemovalFits(rows, removal)
    requires forall r :: r in rows ==> r.pid != row.pid && !Overlap(r.root, row.root)
    requires removal.Some? ==> removal.value.pid != row.pid
    ensures Apart(rows + [row]) && RemovalFits(rows + [row], removal)
    ensures Registered(configured, rows, removal) ==> Registered(configured, rows + [row], removal)
  {
    hide Overlap;
  }

  ghost predicate RelocatedAt(was: seq<Row>, i: nat, pid: nat, path: Path, rows: seq<Row>, before: seq<Path>,
                              after: seq<Path>)
  {
    && i < |was| && was[i].pid == pid && !was[i].podcast
    && rows == was[i := Row(pid, path, false)]
    && after == Moved(before, was[i].root, path)
  }

  lemma RowMoves(rows: seq<Row>, i: nat, path: Path, configured: seq<Path>)
    requires Apart(rows) && i < |rows| && !rows[i].podcast
    requires forall r :: r in rows && r.pid != rows[i].pid ==> !Overlap(r.root, path)
    ensures var rows' := rows[i := Row(rows[i].pid, path, false)];
            && Apart(rows')
            && (Registered(configured, rows, None) ==> Registered(Moved(configured, rows[i].root, path), rows', None))
            && forall r :: r in rows' ==> r in rows || r.pid == rows[i].pid
  {
    var moved := Row(rows[i].pid, path, false);
    var rows' := rows[i := moved];
    assert rows'[i] == moved;
    forall c | c in Moved(configured, rows[i].root, path) && Registered(configured, rows, None)
      ensures exists r :: r in rows' && r.root == c && !r.podcast {
      if c == path {
        assert moved in rows';
      } else {
        var m :| 0 <= m < |configured| && Moved(configured, rows[i].root, path)[m] == c;
        assert configured[m] in configured;
        var r :| r in rows && r.root == c && !r.podcast;
        var k :| 0 <= k < |rows| && rows[k] == r;
        assert rows'[k] == r;
      }
    }
    forall k | 0 <= k < |rows| && k != i ensures !Overlap(rows[k].root, path) {
      assert rows[k] in rows;
    }
  }
}
