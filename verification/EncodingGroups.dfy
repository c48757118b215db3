/** Grouping of a catalog's alternate encodings (upgrade.go): a breadth-first walk over the
    similarity probes, and the connected components it must return. */
module EncodingGroups {
  import opened Common

  type Pid = string

  datatype Item = Item(pid: Pid, filePid: Pid)

  /** What probing one item's fingerprint answers; Vanished is an item gone since the listing. */
  datatype Probe = Found(alts: seq<Pid>) | Vanished | Failed

  type Index = map<Pid, Probe>

  datatype Error = Canceled | ProbeFailed(pid: Pid)
  datatype Result<T> = Ok(value: T) | Err(error: Error)

  /** An item the index does not hold has vanished as well. */
  function Ask(g: Index, p: Pid): Probe {
    if p in g then g[p] else Vanished
  }

  // ---------------------------------------------------------------------------
  // Reference: connected components of the items still there
  // ---------------------------------------------------------------------------

  predicate Live(g: Index, p: Pid) {
    Ask(g, p).Found?
  }

  predicate Adjacent(g: Index, a: Pid, b: Pid) {
    Live(g, a) && Live(g, b) && b != "" && b in g[a].alts
  }

  ghost predicate Symmetric(g: Index) {
    forall a, b :: Adjacent(g, a, b) ==> Adjacent(g, b, a)
  }

  ghost predicate Path(g: Index, p: seq<Pid>) {
    && p != []
    && Live(g, p[|p| - 1])
    && (|p| > 1 ==> Path(g, p[..|p| - 1]) && Adjacent(g, p[|p| - 2], p[|p| - 1]))
  }

  ghost predicate Connected(g: Index, a: Pid, b: Pid) {
    exists p :: Path(g, p) && p[0] == a && p[|p| - 1] == b
  }

  ghost function Component(g: Index, a: Pid): set<Pid> {
    set b | b in g && Connected(g, a, b)
  }

  function Seeds(items: seq<Item>): set<Pid> {
    set i | 0 <= i < |items| && items[i].filePid != "" :: items[i].pid
  }

  /** The components of two or more that hold a seed. */
  ghost function Groups(g: Index, seeds: set<Pid>): set<set<Pid>> {
    set s | s in seeds && Live(g, s) && |Component(g, s)| >= 2 :: Component(g, s)
  }

  ghost function Mentioned(g: Index): set<Pid> {
    set k, a | k in g && g[k].Found? && a in g[k].alts :: a
  }

  /** The walks come to p: it is a seed, or listed by an item connected to one. */
  ghost predicate ReachedFrom(g: Index, seed: Pid, p: Pid) {
    p == seed || (p != "" && exists a :: Connected(g, seed, a) && Live(g, a) && p in g[a].alts)
  }

  /** Every item that the walks ask for, vanished ones too. */
  ghost function Reached(g: Index, seeds: set<Pid>): set<Pid> {
    set p | p in Mentioned(g) + seeds && exists s :: s in seeds && ReachedFrom(g, s, p)
  }

  // ---------------------------------------------------------------------------
  // Connectivity
  // ---------------------------------------------------------------------------

  /** Whatever an item of s lists is in s. */
  ghost predicate Closed(g: Index, s: set<Pid>) {
    forall a, b :: a in s && Live(g, a) && b != "" && b in g[a].alts ==> b in s
  }

  lemma ConnectedRefl(g: Index, a: Pid)
    requires Live(g, a)
    ensures Connected(g, a, a)
  {
    assert Path(g, [a]);
  }

  lemma ConnectedExtends(g: Index, a: Pid, b: Pid, c: Pid)
    requires Connected(g, a, b) && Adjacent(g, b, c)
    ensures Connected(g, a, c)
  {
    var p :| Path(g, p) && p[0] == a && p[|p| - 1] == b;
    var q := p + [c];
    assert q[..|q| - 1] == p;
    assert Path(g, q);
  }

  lemma {:induction false} PathTransits(g: Index, a: Pid, p: seq<Pid>)
    requires Path(g, p) && Connected(g, a, p[0])
    ensures Connected(g, a, p[|p| - 1])
  {
    if |p| > 1 {
      PathTransits(g, a, p[..|p| - 1]);
      ConnectedExtends(g, a, p[|p| - 2], p[|p| - 1]);
    }
  }

  lemma ConnectedTransitive(g: Index, a: Pid, b: Pid, c: Pid)
    requires Connected(g, a, b) && Connected(g, b, c)
    ensures Connected(g, a, c)
  {
    var p :| Path(g, p) && p[0] == b && p[|p| - 1] == c;
    PathTransits(g, a, p);
  }

  lemma {:induction false} PathReverses(g: Index, p: seq<Pid>)
    requires Symmetric(g) && Path(g, p)
    ensures Connected(g, p[|p| - 1], p[0])
  {
    var n := |p| - 1;
    ConnectedRefl(g, p[n]);
    if n > 0 {
      PathReverses(g, p[..n]);
      ConnectedExtends(g, p[n], p[n], p[n - 1]);
      ConnectedTransitive(g, p[n], p[n - 1], p[0]);
    }
  }

  lemma ConnectedSymmetric(g: Index, a: Pid, b: Pid)
    requires Symmetric(g) && Connected(g, a, b)
    ensures Connected(g, b, a)
  {
    var p :| Path(g, p) && p[0] == a && p[|p| - 1] == b;
    PathReverses(g, p);
  }

  /** Connected items have one component. */
  lemma SameComponent(g: Index, a: Pid, b: Pid)
    requires Symmetric(g) && Connected(g, a, b)
    ensures Component(g, a) == Component(g, b)
  {
    ConnectedSymmetric(g, a, b);
    forall c | c in g ensures Connected(g, a, c) <==> Connected(g, b, c) {
      if Connected(g, a, c) {
        ConnectedTransitive(g, b, a, c);
      }
      if Connected(g, b, c) {
        ConnectedTransitive(g, a, b, c);
      }
    }
  }

  lemma {:induction false} PathStaysIn(g: Index, s: set<Pid>, p: seq<Pid>)
    requires Closed(g, s) && Path(g, p) && p[0] in s
    ensures Live(g, p[0]) && p[|p| - 1] in s
  {
    if |p| > 1 {
      PathStaysIn(g, s, p[..|p| - 1]);
    }
  }

  lemma ClosedHoldsConnected(g: Index, s: set<Pid>, a: Pid, b: Pid)
    requires Closed(g, s) && a in s && Connected(g, a, b)
    ensures b in s
  {
    var p :| Path(g, p) && p[0] == a && p[|p| - 1] == b;
    PathStaysIn(g, s, p);
  }

  lemma ClosedHoldsComponent(g: Index, s: set<Pid>, a: Pid)
    requires Closed(g, s) && a in s
    ensures Component(g, a) <= s
  {
    forall b | b in Component(g, a) ensures b in s {
      ClosedHoldsConnected(g, s, a, b);
    }
  }

  lemma {:induction false} ElementsCount(c: seq<Pid>)
    requires NoRepeats(c)
    ensures |Elements(c)| == |c|
  {
    if c != [] {
      var t := c[..|c| - 1];
      ElementsCount(t);
      assert Elements(c) == Elements(t) + {c[|c| - 1]};
    }
  }

  /** Neighbours are two items still there of which a probe of the one lists the other, by its pid; a
      walk begins at every listed item with a file. */
  lemma GraphMeans(g: Index, a: Pid, b: Pid, items: seq<Item>)
    ensures Adjacent(g, a, b) <==>
              a in g && g[a].Found? && b in g && g[b].Found? && b != ""
              && exists i :: 0 <= i < |g[a].alts| && g[a].alts[i] == b
    ensures a in Seeds(items) <==> exists i :: 0 <= i < |items| && items[i].pid == a && items[i].filePid != ""
  {}

  // ---------------------------------------------------------------------------
  // The walk
  // ---------------------------------------------------------------------------

  /** What a seed's walk has: before is what was visited ahead of the seed, gone what it
      dequeued and found vanished. */
  ghost predicate Walking(g: Index, before: set<Pid>, seed: Pid, visited: set<Pid>,
                          component: seq<Pid>, queue: seq<Pid>, gone: set<Pid>)
  {
    && visited == before + Elements(component) + Elements(queue) + gone
    && seed in visited
    && NoRepeats(component)
    && (forall x :: x in component ==> Live(g, x) && x !in before && Connected(g, seed, x))
    && (forall x :: x in queue && Live(g, x) ==> Connected(g, seed, x))
    && (forall x :: x in queue ==> x !in before && x !in component)
    && NoRepeats(queue)
    && (forall x :: x in visited && x !in before ==> ReachedFrom(g, seed, x))
    && (forall x :: x in gone ==> Ask(g, x) == Vanished)
    && (forall a, b :: a in component && b != "" && b in g[a].alts ==> b in visited)
  }

  lemma NovelCounted(visited: set<Pid>, queue: seq<Pid>, novel: seq<Pid>)
    requires NoRepeats(queue + novel) && forall x :: x in novel ==> x !in visited
    ensures |visited + Elements(novel)| == |visited| + |novel|
  {
    assert (queue + novel)[|queue|..] == novel;
    ElementsCount(novel);
    assert visited !! Elements(novel);
  }

  /** The neighbours not seen before, in the order the probe lists them. */
  method Enqueue(visited0: set<Pid>, queue0: seq<Pid>, alts: seq<Pid>)
    returns (visited: set<Pid>, queue: seq<Pid>)
    requires NoRepeats(queue0) && Elements(queue0) <= visited0
    ensures queue0 <= queue && NoRepeats(queue)
    ensures forall x :: x in queue[|queue0|..] <==> x in alts && x != "" && x !in visited0
    ensures visited == visited0 + Elements(queue[|queue0|..])
  {
    visited, queue := visited0, queue0;
    ghost var novel: seq<Pid> := [];
    for i := 0 to |alts|
      invariant queue == queue0 + novel && NoRepeats(queue)
      invariant forall x :: x in novel <==> x in alts[..i] && x != "" && x !in visited0
      invariant visited == visited0 + Elements(novel)
    {
      var a := alts[i];
      assert alts[..i + 1] == alts[..i] + [a];
      if a != "" && a !in visited {
        assert a !in queue0 by { assert a in queue0 ==> a in Elements(queue0); }
        assert a !in novel by { assert a in novel ==> a in Elements(novel); }
        visited, queue := visited + {a}, queue + [a];
        novel := novel + [a];
      }
    }
    assert queue[|queue0|..] == novel;
  }

  /** Dequeuing a vanished item. */
  lemma WalkPastVanished(g: Index, before: set<Pid>, seed: Pid, visited: set<Pid>,
                         component: seq<Pid>, queue: seq<Pid>, gone: set<Pid>)
    requires Walking(g, before, seed, visited, component, queue, gone)
    requires queue != [] && Ask(g, queue[0]) == Vanished
    ensures Walking(g, before, seed, visited, component, queue[1..], gone + {queue[0]})
  {
    assert Elements(queue) == {queue[0]} + Elements(queue[1..]);
  }

  /** Dequeuing a live item and enqueuing its new neighbours. */
  lemma WalkStep(g: Index, before: set<Pid>, seed: Pid, visited: set<Pid>, component: seq<Pid>,
                 queue: seq<Pid>, gone: set<Pid>, novel: seq<Pid>)
    requires Walking(g, before, seed, visited, component, queue, gone)
    requires queue != [] && Live(g, queue[0]) && NoRepeats(queue[1..] + novel)
    requires forall x :: x in novel <==> x in g[queue[0]].alts && x != "" && x !in visited
    ensures Walking(g, before, seed, visited + Elements(novel), component + [queue[0]], queue[1..] + novel, gone)
  {
    var cur, rest := queue[0], queue[1..];
    assert Elements(queue) == {cur} + Elements(rest);
    assert Elements(component + [cur]) == Elements(component) + {cur};
    assert Elements(rest + novel) == Elements(rest) + Elements(novel);
    forall x | x in novel && Live(g, x) ensures Connected(g, seed, x) {
      assert Adjacent(g, cur, x);
      ConnectedExtends(g, seed, cur, x);
    }
    forall x | x in rest + novel ensures x !in before && x !in component + [cur] {
      if x in novel {
        assert x !in visited;
        assert x in component ==> x in Elements(component);
      }
    }
    forall x | x in novel ensures ReachedFrom(g, seed, x) {
      assert Connected(g, seed, cur) && x in g[cur].alts;
    }
    forall a, b | a in component + [cur] && b != "" && b in g[a].alts ensures b in visited + Elements(novel) {
    }
  }

  /** An exhausted queue leaves the seed's whole component, or nothing for a vanished seed. */
  lemma WalkEnds(g: Index, before: set<Pid>, seed: Pid, visited: set<Pid>, component: seq<Pid>, gone: set<Pid>)
    requires Symmetric(g) && Closed(g, before) && seed !in before
    requires Walking(g, before, seed, visited, component, [], gone)
    ensures Closed(g, visited) && NoRepeats(component) && Elements(component) !! before
              && Elements(component) <= visited
    ensures Elements(component) == if Live(g, seed) then Component(g, seed) else {}
    ensures forall x :: x in visited && Live(g, x) && x !in before ==> x in component
    ensures forall x :: x in visited && x !in before ==> Ask(g, x) != Failed
  {
    assert Elements<Pid>([]) == {};
    if Live(g, seed) {
      ClosedHoldsComponent(g, visited, seed);
      forall b | b in Component(g, seed) ensures b in component {
        if b in before {
          ConnectedSymmetric(g, seed, b);
          ClosedHoldsComponent(g, before, b);
        }
      }
      assert Elements(component) <= Component(g, seed);
    } else if component != [] {
      assert Connected(g, seed, component[0]);
      var p :| Path(g, p) && p[0] == seed && p[|p| - 1] == component[0];
      PathStaysIn(g, visited, p);
    }
  }

  /** The walk from one seed; cancelAfter counts the dequeues the context still allows. */
  method Walk(g: Index, visited0: set<Pid>, seed: Pid, cancelAfter: int)
    returns (error: seq<Error>, visited: set<Pid>, component: seq<Pid>, left: int)
    requires Symmetric(g) && Closed(g, visited0) && seed !in visited0
    ensures |error| <= 1 && visited0 <= visited && seed in visited
    ensures error == [] ==> Closed(g, visited) && NoRepeats(component) && Elements(component) !! visited0
    ensures error == [] ==> Elements(component) == if Live(g, seed) then Component(g, seed) else {}
    ensures error == [] ==> forall x :: x in visited && Live(g, x) && x !in visited0 ==> x in component
    ensures error == [] ==> Elements(component) <= visited
    ensures forall x :: x in visited && x !in visited0 ==> ReachedFrom(g, seed, x)
    ensures error == [] ==> left == cancelAfter - |visited| + |visited0|
                            && forall x :: x in visited && x !in visited0 ==> Ask(g, x) != Failed
    ensures error == [] ==> (cancelAfter < 0 || 0 <= left)
    ensures error != [] ==> || (error == [Canceled] && 0 <= cancelAfter < |visited| - |visited0|)
                            || (error[0].ProbeFailed? && Ask(g, error[0].pid) == Failed
                                && error[0].pid in visited && error[0].pid !in visited0)
  {
    hide Closed, Symmetric, Component, Walking, Mentioned, NoRepeats, ReachedFrom, Connected, Elements;
    visited, component, left, error := visited0 + {seed}, [], cancelAfter, [];
    var queue := [seed];
    ghost var gone: set<Pid> := {};
    ghost var all := Mentioned(g) + {seed};
    WalkBegins(g, visited0, seed);
    while queue != []
      invariant visited0 <= visited && seed in visited
      invariant Walking(g, visited0, seed, visited, component, queue, gone)
      invariant |queue| + cancelAfter - left == |visited| - |visited0|
      invariant if cancelAfter < 0 then left < 0 else 0 <= left
      decreases all - visited, |queue|
    {
      if left == 0 {
        WalkReached(g, visited0, seed, visited, component, queue, gone);
        return [Canceled], visited, [], left;
      }
      left := left - 1;
      var cur, rest := queue[0], queue[1..];
      match Ask(g, cur)
      case Vanished =>
        WalkPastVanished(g, visited0, seed, visited, component, queue, gone);
        queue, gone := rest, gone + {cur};
      case Failed =>
        QueueVisited(g, visited0, seed, visited, component, queue, gone);
        WalkReached(g, visited0, seed, visited, component, queue, gone);
        return [ProbeFailed(cur)], visited, [], left;
      case Found(alts) =>
        QueueVisited(g, visited0, seed, visited, component, queue, gone);
        var visited', queue' := Enqueue(visited, rest, alts);
        ghost var novel := queue'[|rest|..];
        assert queue' == rest + novel;
        WalkStep(g, visited0, seed, visited, component, queue, gone, novel);
        WalkShrinks(g, cur, seed, visited, novel);
        NovelCounted(visited, rest, novel);
        visited, queue := visited', queue';
        component := component + [cur];
    }
    WalkEnds(g, visited0, seed, visited, component, gone);
    WalkReached(g, visited0, seed, visited, component, [], gone);
  }

  lemma WalkBegins(g: Index, before: set<Pid>, seed: Pid)
    requires seed !in before
    ensures Walking(g, before, seed, before + {seed}, [], [seed], {})
  {
    if Live(g, seed) {
      ConnectedRefl(g, seed);
    }
  }

  lemma QueueVisited(g: Index, before: set<Pid>, seed: Pid, visited: set<Pid>,
                     component: seq<Pid>, queue: seq<Pid>, gone: set<Pid>)
    requires Walking(g, before, seed, visited, component, queue, gone) && queue != []
    ensures NoRepeats(queue[1..]) && Elements(queue[1..]) <= visited && queue[0] in visited && queue[0] !in before
  {
    assert forall x :: x in queue[1..] ==> x in queue;
    assert queue[0] in Elements(queue);
  }

  lemma WalkReached(g: Index, before: set<Pid>, seed: Pid, visited: set<Pid>,
                    component: seq<Pid>, queue: seq<Pid>, gone: set<Pid>)
    requires Walking(g, before, seed, visited, component, queue, gone)
    ensures forall x :: x in visited && x !in before ==> ReachedFrom(g, seed, x)
  {}

  lemma WalkShrinks(g: Index, cur: Pid, seed: Pid, visited: set<Pid>, novel: seq<Pid>)
    requires Live(g, cur)
    requires forall x :: x in novel <==> x in g[cur].alts && x != "" && x !in visited
    ensures var all := Mentioned(g) + {seed};
            if novel == [] then visited + Elements(novel) == visited
            else all - (visited + Elements(novel)) < all - visited
  {
    if novel != [] {
      assert novel[0] in g[cur].alts;
      assert novel[0] in Mentioned(g) && novel[0] in Elements(novel);
    }
  }

  /** Some group of out is p's component, when that has two or more items. */
  ghost predicate Represented(g: Index, out: seq<seq<Pid>>, p: Pid) {
    |Component(g, p)| >= 2 ==> exists j :: 0 <= j < |out| && Elements(out[j]) == Component(g, p)
  }

  ghost predicate WholeComponents(g: Index, seeds: set<Pid>, out: seq<seq<Pid>>) {
    && (forall j :: 0 <= j < |out| ==> NoRepeats(out[j]) && |out[j]| >= 2)
    && (forall j :: 0 <= j < |out| ==> exists s :: s in seeds && Live(g, s) && Elements(out[j]) == Component(g, s))
    && (forall i, j :: 0 <= i < j < |out| ==> Elements(out[i]) !! Elements(out[j]))
  }

  /** What the outer loop keeps: visited is closed, holds the groups, and each of its live
      items is represented. */
  ghost predicate Grouped(g: Index, seeds: set<Pid>, visited: set<Pid>, out: seq<seq<Pid>>) {
    && Closed(g, visited)
    && WholeComponents(g, seeds, out)
    && (forall j :: 0 <= j < |out| ==> Elements(out[j]) <= visited)
    && forall p :: p in visited && Live(g, p) ==> Represented(g, out, p)
  }

  method EncodingComponents(g: Index, items: seq<Item>, cancelAfter: int) returns (r: Result<seq<seq<Pid>>>)
    requires Symmetric(g)
    ensures r.Ok? ==> WholeComponents(g, Seeds(items), r.value)
    ensures r.Ok? ==> (set j | 0 <= j < |r.value| :: Elements(r.value[j])) == Groups(g, Seeds(items))
    ensures var reached := Reached(g, Seeds(items));
            && (r.Ok? <==> (forall p :: p in reached ==> Ask(g, p) != Failed) && !(0 <= cancelAfter < |reached|))
            && (r.Err? && r.error.Canceled? ==> 0 <= cancelAfter < |reached|)
            && (r.Err? && r.error.ProbeFailed? ==> r.error.pid in reached && Ask(g, r.error.pid) == Failed)
  {
    hide Closed, Component, Groups, Represented, Reached, ReachedFrom, WholeComponents;
    var out: seq<seq<Pid>> := [];
    var visited: set<Pid> := {};
    var left := cancelAfter;
    NothingGrouped(g, Seeds(items));
    for i := 0 to |items|
      invariant left == cancelAfter - |visited| && (cancelAfter < 0 || 0 <= left)
      invariant visited <= Reached(g, Seeds(items)) && forall p :: p in visited ==> Ask(g, p) != Failed
      invariant Grouped(g, Seeds(items), visited, out)
      invariant forall k :: 0 <= k < i && items[k].filePid != "" ==> items[k].pid in visited
    {
      var seed := items[i];
      if seed.pid in visited || seed.filePid == "" {
        continue;
      }
      var error, visited', component, left' := Walk(g, visited, seed.pid, left);
      assert seed.pid in Seeds(items);
      VisitsReached(g, Seeds(items), visited, seed.pid, visited');
      if error != [] {
        return Err(error[0]);
      }
      AddsGroup(g, Seeds(items), visited, out, seed.pid, visited', component);
      visited, left := visited', left';
      if |component| >= 2 {
        out := out + [component];
      }
    }
    GroupsAreComponents(g, Seeds(items), out, visited);
    AllReached(g, Seeds(items), visited, out);
    return Ok(out);
  }

  lemma VisitsReached(g: Index, seeds: set<Pid>, before: set<Pid>, seed: Pid, visited: set<Pid>)
    requires before <= Reached(g, seeds) && before <= visited && seed in seeds
    requires forall x :: x in visited && x !in before ==> ReachedFrom(g, seed, x)
    ensures visited <= Reached(g, seeds) && |visited| <= |Reached(g, seeds)|
  {
    hide Connected;
    forall x | x in visited && x !in before ensures x in Reached(g, seeds) {
      if x != seed {
        var a :| Connected(g, seed, a) && Live(g, a) && x in g[a].alts;
        assert x in Mentioned(g);
      }
    }
    SubsetCount(visited, Reached(g, seeds));
  }

  lemma {:induction false} SubsetCount(s: set<Pid>, t: set<Pid>)
    requires s <= t
    ensures |s| <= |t|
  {
    assert t == s + (t - s);
  }

  /** A closed set that holds the seeds holds all that their walks come to. */
  lemma AllReached(g: Index, seeds: set<Pid>, visited: set<Pid>, out: seq<seq<Pid>>)
    requires Grouped(g, seeds, visited, out) && seeds <= visited <= Reached(g, seeds)
    ensures visited == Reached(g, seeds)
  {
    hide Connected, Component, WholeComponents, Represented;
    forall p | p in Reached(g, seeds) ensures p in visited {
      var s :| s in seeds && ReachedFrom(g, s, p);
      if p != s {
        var a :| Connected(g, s, a) && Live(g, a) && p in g[a].alts;
        ClosedHoldsConnected(g, visited, s, a);
      }
    }
  }

  lemma NothingGrouped(g: Index, seeds: set<Pid>)
    ensures Grouped(g, seeds, {}, [])
  {}

  lemma AddsGroup(g: Index, seeds: set<Pid>, before: set<Pid>, was: seq<seq<Pid>>, seed: Pid, visited: set<Pid>,
                  component: seq<Pid>)
    requires Symmetric(g) && seed in seeds && Grouped(g, seeds, before, was)
    requires before <= visited && Closed(g, visited) && NoRepeats(component)
    requires Elements(component) !! before && Elements(component) <= visited
    requires Elements(component) == if Live(g, seed) then Component(g, seed) else {}
    requires forall x :: x in visited && Live(g, x) && x !in before ==> x in component
    ensures Grouped(g, seeds, visited, if |component| >= 2 then was + [component] else was)
  {
    hide Closed, Component;
    ElementsCount(component);
    var out := if |component| >= 2 then was + [component] else was;
    assert WholeComponents(g, seeds, out);
    forall p | p in visited && Live(g, p) ensures Represented(g, out, p) {
      if p in before {
        assert Represented(g, was, p);
        KeepsRepresented(g, was, out, p);
      } else {
        assert p in Elements(component);
        MemberConnected(g, seed, p);
        SameComponent(g, seed, p);
        if |component| >= 2 {
          assert Elements(out[|out| - 1]) == Component(g, p);
        }
      }
    }
  }

  lemma MemberConnected(g: Index, a: Pid, b: Pid)
    requires b in Component(g, a)
    ensures Connected(g, a, b)
  {}

  lemma KeepsRepresented(g: Index, out: seq<seq<Pid>>, out': seq<seq<Pid>>, p: Pid)
    requires Represented(g, out, p) && out <= out'
    ensures Represented(g, out', p)
  {
    hide Component;
    if |Component(g, p)| >= 2 {
      var j :| 0 <= j < |out| && Elements(out[j]) == Component(g, p);
      assert Elements(out'[j]) == Component(g, p);
    }
  }

  lemma GroupsAreComponents(g: Index, seeds: set<Pid>, out: seq<seq<Pid>>, visited: set<Pid>)
    requires Grouped(g, seeds, visited, out) && seeds <= visited
    ensures (set j | 0 <= j < |out| :: Elements(out[j])) == Groups(g, seeds)
  {
    hide Component, Closed;
    var sets := set j | 0 <= j < |out| :: Elements(out[j]);
    forall c | c in sets ensures c in Groups(g, seeds) {
      var j :| 0 <= j < |out| && c == Elements(out[j]);
      ElementsCount(out[j]);
    }
    forall c | c in Groups(g, seeds) ensures c in sets {
      var s :| s in seeds && Live(g, s) && |Component(g, s)| >= 2 && c == Component(g, s);
      assert Represented(g, out, s);
    }
  }
}
