/** The provider port of the enrichment pass (enrich/provider.go, enrich/enrich.go): what
    providers answer, and the circuit breaker over the calls made of them. */
module Breaker {
  import opened Common

  type Name = string

  datatype Capability = Identity | Genres | Cover | Lyrics | BookMeta | AuxArt | ArtistFront | ArtistAuxArt | Fields

  datatype Rung = ReleaseGroupRung | ReleaseRung | ArtistRung | RecordingRung | BookRung

  /** union is what a provider advertises, declared its own account of each rung, if it gives one. */
  datatype Provider = Provider(name: Name, union: set<Capability>, declared: Option<map<Rung, set<Capability>>>)

  function CapabilitiesAt(p: Provider, t: Rung): set<Capability> {
    match p.declared
    case None => p.union
    case Some(d) => (if t in d then d[t] else {}) * p.union
  }

  /** Any overlap counts. */
  predicate Has(c: set<Capability>, want: set<Capability>) {
    c * want != {}
  }

  predicate Serves(p: Provider, t: Rung, want: set<Capability>) {
    Has(CapabilitiesAt(p, t), want)
  }

  /** A provider serves a rung with any one of the capabilities wanted, as far as it advertises it and,
      where it says what it does at each rung, says so of this one. */
  lemma ServesMeans(p: Provider, t: Rung, want: set<Capability>)
    ensures Serves(p, t, want) <==>
              exists c :: c in want && c in p.union
                && (p.declared.None? || (t in p.declared.value && c in p.declared.value[t]))
  {
    if c :| c in want && c in p.union && (p.declared.None? || (t in p.declared.value && c in p.declared.value[t])) {
      assert c in CapabilitiesAt(p, t) * want;
    }
    if Serves(p, t, want) {
      var c :| c in CapabilitiesAt(p, t) * want;
      assert c in want && c in p.union;
    }
  }

  datatype Role = Front | Back | Disc | Booklet | Background

  /** An image is its bytes; one with none is no image. */
  type Image = seq<Byte>

  datatype Candidate = Candidate(art: map<Role, Image>, cover: Image, frontIsGroupFront: bool,
                                 fields: map<string, string>, publisher: string, asin: string, isbn: string,
                                 genres: seq<string>, lyrics: string)

  /** What one call came back with. Aborted is an error while the run's own context is done. */
  datatype Reply = Failed | Aborted | NoMatch | Match(candidate: Candidate)

  /** What a provider itself can answer. */
  type Answer = r: Reply | !r.Aborted? witness Failed

  datatype Call = Call(name: Name, reply: Reply)

  const TRIP_AFTER := 3

  // ---------------------------------------------------------------------------
  // History of calls
  // ---------------------------------------------------------------------------

  /** The run of failures n's calls end with; an aborted call says nothing. */
  ghost function Streak(calls: seq<Call>, n: Name): nat {
    if calls == [] then 0
    else
      var last, before := calls[|calls| - 1], Streak(calls[..|calls| - 1], n);
      if last.name != n || last.reply.Aborted? then before
      else if last.reply.Failed? then before + 1
      else 0
  }

  lemma StreakAppends(calls: seq<Call>, c: Call, n: Name)
    ensures Streak(calls + [c], n)
         == if c.name != n || c.reply.Aborted? then Streak(calls, n)
            else if c.reply.Failed? then Streak(calls, n) + 1
            else 0
  {
    assert (calls + [c])[..|calls|] == calls;
  }

  /** Nobody is called with its streak already at the trip. */
  ghost predicate Disciplined(calls: seq<Call>) {
    forall i :: 0 <= i < |calls| ==> Streak(calls[..i], calls[i].name) < TRIP_AFTER
  }

  lemma DisciplinedAppends(calls: seq<Call>, c: Call)
    requires Disciplined(calls) && Streak(calls, c.name) < TRIP_AFTER
    ensures Disciplined(calls + [c])
  {
    hide Streak;
    var more := calls + [c];
    forall i | 0 <= i < |more| ensures Streak(more[..i], more[i].name) < TRIP_AFTER {
      assert more[..i] == calls[..i];
      assert i == |calls| ==> calls[..i] == calls;
    }
  }

  lemma DisciplinedPrefix(calls: seq<Call>, k: nat)
    requires Disciplined(calls) && k <= |calls|
    ensures Disciplined(calls[..k])
  {
    hide Streak;
    forall i | 0 <= i < k ensures Streak(calls[..k][..i], calls[..k][i].name) < TRIP_AFTER {
      assert calls[..k][..i] == calls[..i];
    }
  }

  /** No streak passes the trip. */
  lemma {:induction false} StreakBounded(calls: seq<Call>, n: Name)
    requires Disciplined(calls)
    ensures Streak(calls, n) <= TRIP_AFTER
  {
    if calls != [] {
      var k := |calls| - 1;
      DisciplinedPrefix(calls, k);
      StreakBounded(calls[..k], n);
      assert Streak(calls[..k], calls[k].name) < TRIP_AFTER;
    }
  }

  lemma LastCallAllowed(calls: seq<Call>)
    requires Disciplined(calls) && calls != []
    ensures Streak(calls[..|calls| - 1], calls[|calls| - 1].name) < TRIP_AFTER
  {}

  /** A provider that has tripped is never called again. */
  lemma {:induction false} TrippedStaysOut(calls: seq<Call>, k: nat, n: Name)
    requires Disciplined(calls) && k <= |calls| && Streak(calls[..k], n) == TRIP_AFTER
    ensures forall i :: k <= i < |calls| ==> calls[i].name != n
    ensures Streak(calls, n) == TRIP_AFTER
  {
    hide Disciplined;
    var m := |calls|;
    if k == m {
      assert calls[..k] == calls;
    } else {
      var init := calls[..m - 1];
      DisciplinedPrefix(calls, m - 1);
      assert init[..k] == calls[..k];
      TrippedStaysOut(init, k, n);
      LastCallAllowed(calls);
      forall i | k <= i < m ensures calls[i].name != n {
        assert i < m - 1 ==> init[i] == calls[i];
      }
    }
  }

  ghost function CallsOf(calls: seq<Call>, n: Name): nat {
    if calls == [] then 0
    else CallsOf(calls[..|calls| - 1], n) + if calls[|calls| - 1].name == n then 1 else 0
  }

  ghost function AbortedCallsOf(calls: seq<Call>, n: Name): nat {
    if calls == [] then 0
    else
      var last := calls[|calls| - 1];
      AbortedCallsOf(calls[..|calls| - 1], n) + if last.name == n && last.reply.Aborted? then 1 else 0
  }

  ghost predicate NeverAnswers(calls: seq<Call>, n: Name) {
    forall i :: 0 <= i < |calls| && calls[i].name == n ==> calls[i].reply.Failed? || calls[i].reply.Aborted?
  }

  /** A provider that never answers is called three times at most, beyond the calls the run's
      own end cut off, which say nothing about it. */
  lemma {:induction false} SilentProviderCalls(calls: seq<Call>, n: Name)
    requires Disciplined(calls) && NeverAnswers(calls, n)
    ensures CallsOf(calls, n) == Streak(calls, n) + AbortedCallsOf(calls, n) <= TRIP_AFTER + AbortedCallsOf(calls, n)
  {
    StreakBounded(calls, n);
    if calls != [] {
      var k := |calls| - 1;
      DisciplinedPrefix(calls, k);
      assert NeverAnswers(calls[..k], n);
      SilentProviderCalls(calls[..k], n);
    }
  }

  /** A context that is done stays so: past an aborted call no error is a failure. */
  ghost predicate Sticky(calls: seq<Call>) {
    forall i, j :: 0 <= i < j < |calls| && calls[i].reply.Aborted? ==> !calls[j].reply.Failed?
  }

  /** A silent provider cut off once never comes to trip: it was short of it then, and fails no more. */
  lemma {:induction false} CutOffShort(calls: seq<Call>, n: Name)
    requires Disciplined(calls) && Sticky(calls) && AbortedCallsOf(calls, n) > 0
    ensures Streak(calls, n) < TRIP_AFTER
  {
    var k := |calls| - 1;
    var init, last := calls[..k], calls[k];
    LastCallAllowed(calls);
    if last.name != n || !last.reply.Aborted? {
      DisciplinedPrefix(calls, k);
      CutOffShort(init, n);
      AbortedCall(init, n);
    }
  }

  lemma {:induction false} AbortedCall(calls: seq<Call>, n: Name)
    requires AbortedCallsOf(calls, n) > 0
    ensures exists i :: 0 <= i < |calls| && calls[i].reply.Aborted?
  {
    var k := |calls| - 1;
    if !calls[k].reply.Aborted? {
      AbortedCall(calls[..k], n);
      var i :| 0 <= i < k && calls[..k][i].reply.Aborted?;
      assert calls[i].reply.Aborted?;
    }
  }

  lemma {:induction false} CallsConcat(a: seq<Call>, b: seq<Call>, n: Name)
    ensures CallsOf(a + b, n) == CallsOf(a, n) + CallsOf(b, n)
  {
    if b == [] {
      assert a + b == a;
    } else {
      var k := |b| - 1;
      CallsConcat(a, b[..k], n);
      assert (a + b)[..|a| + k] == a + b[..k];
    }
  }

  /** Calls none of which was cut off before the first k count only after them. */
  lemma {:induction false} AbortedAmong(calls: seq<Call>, k: nat, n: Name)
    requires k <= |calls| && forall i :: 0 <= i < k ==> !calls[i].reply.Aborted?
    ensures AbortedCallsOf(calls, n) <= CallsOf(calls[k..], n)
  {
    if calls != [] {
      var m := |calls| - 1;
      if k <= m {
        AbortedAmong(calls[..m], k, n);
        assert calls[k..][..m - k] == calls[..m][k..];
      } else {
        AbortedAmong(calls[..m], m, n);
        assert calls[..m][m..] == [];
      }
    }
  }

  // ---------------------------------------------------------------------------
  // The breaker
  // ---------------------------------------------------------------------------

  /** One provider's turn in a gather: whether the gather wanted it, whether it was out of the
      pass, and, when it was called, what it answered. */
  datatype Visit = Visit(wanted: bool, out: bool, reply: Reply) {
    predicate Called() { wanted && !out }
    predicate Answered() { Called() && reply.Match? }
    predicate Erred() { Called() && (reply.Failed? || reply.Aborted?) }
    predicate Skipped() { wanted && out }
  }

  /** The calls the visits made, in order. */
  ghost function CallsMade(ps: seq<Provider>, visits: seq<Visit>): seq<Call>
    requires |visits| <= |ps|
  {
    if visits == [] then []
    else
      var k := |visits| - 1;
      CallsMade(ps, visits[..k]) + if visits[k].Called() then [Call(ps[k].name, visits[k].reply)] else []
  }

  /** A provider is out exactly when its calls so far end in a full streak. */
  ghost predicate OutWhenTripped(ps: seq<Provider>, before: seq<Call>, visits: seq<Visit>)
    requires |visits| <= |ps|
  {
    forall j :: 0 <= j < |visits| && visits[j].wanted ==>
      (visits[j].out <==> Streak(before + CallsMade(ps, visits[..j]), ps[j].name) == TRIP_AFTER)
  }

  lemma VisitAppends(ps: seq<Provider>, before: seq<Call>, visits: seq<Visit>, v: Visit)
    requires |visits| < |ps| && OutWhenTripped(ps, before, visits)
    requires v.wanted ==>
      (v.out <==> Streak(before + CallsMade(ps, visits), ps[|visits|].name) == TRIP_AFTER)
    ensures OutWhenTripped(ps, before, visits + [v])
    ensures CallsMade(ps, visits + [v])
         == CallsMade(ps, visits) + if v.Called() then [Call(ps[|visits|].name, v.reply)] else []
  {
    hide Streak;
    var more := visits + [v];
    assert more[..|visits|] == visits;
    forall j | 0 <= j < |more| && more[j].wanted
      ensures more[j].out <==> Streak(before + CallsMade(ps, more[..j]), ps[j].name) == TRIP_AFTER
    {
      assert j < |visits| ==> more[..j] == visits[..j];
    }
  }

  /** The counters say what the calls do. */
  ghost predicate Tracks(failures: map<Name, nat>, tripped: set<Name>, calls: seq<Call>) {
    && Disciplined(calls)
    && (forall n :: Streak(calls, n) == if n in failures then failures[n] else 0)
    && (forall n :: n in tripped <==> Streak(calls, n) == TRIP_AFTER)
  }

  lemma StreakOf(failures: map<Name, nat>, tripped: set<Name>, calls: seq<Call>, n: Name)
    requires Tracks(failures, tripped, calls)
    ensures Streak(calls, n) == if n in failures then failures[n] else 0
  {}

  function CountFailure(failures: map<Name, nat>, n: Name): map<Name, nat> {
    failures[n := (if n in failures then failures[n] else 0) + 1]
  }

  lemma TracksStep(failures: map<Name, nat>, tripped: set<Name>, calls: seq<Call>, n: Name, r: Reply)
    requires Tracks(failures, tripped, calls) && n !in tripped
    ensures var calls' := calls + [Call(n, r)];
            match r
            case Aborted => Tracks(failures, tripped, calls')
            case Failed =>
              var failures' := CountFailure(failures, n);
              Tracks(failures', if failures'[n] == TRIP_AFTER then tripped + {n} else tripped, calls')
            case _ => Tracks(failures - {n}, tripped, calls')
  {
    hide Streak, Disciplined;
    StreakBounded(calls, n);
    DisciplinedAppends(calls, Call(n, r));
    forall m ensures Streak(calls + [Call(n, r)], m)
      == if n != m || r.Aborted? then Streak(calls, m) else if r.Failed? then Streak(calls, m) + 1 else 0
    {
      StreakAppends(calls, Call(n, r), m);
    }
  }

  ghost predicate DistinctNames(ps: seq<Provider>) {
    forall i, j :: 0 <= i < j < |ps| ==> ps[i].name != ps[j].name
  }

  /** One gather calls a provider once at most. */
  lemma {:induction false} OneCallEach(ps: seq<Provider>, visits: seq<Visit>, n: Name)
    requires |visits| <= |ps| && DistinctNames(ps)
    ensures CallsOf(CallsMade(ps, visits), n) <= 1
    ensures (forall j :: 0 <= j < |visits| ==> ps[j].name != n) ==> CallsOf(CallsMade(ps, visits), n) == 0
  {
    if visits != [] {
      var k := |visits| - 1;
      OneCallEach(ps, visits[..k], n);
      var last := if visits[k].Called() then [Call(ps[k].name, visits[k].reply)] else [];
      CallsConcat(CallsMade(ps, visits[..k]), last, n);
      CallsOfOne(Call(ps[k].name, visits[k].reply), n);
    }
  }

  lemma CallsOfOne(c: Call, n: Name)
    ensures CallsOf([c], n) == (if c.name == n then 1 else 0) && CallsOf([], n) == 0
  {
    assert [c][..0] == [];
  }

  /** Every reply is the provider's own, but that an error once the run's context is done, from call
      doneFrom on, is an aborted call; it is done no later than by the first call it ends during. */
  ghost predicate Heard(calls: seq<Call>, answer: nat -> Answer, endsDuring: nat -> bool, doneFrom: Option<nat>) {
    && (doneFrom.Some? ==> doneFrom.value <= |calls|)
    && (forall k :: 0 <= k < |calls| && (doneFrom.Some? ==> k < doneFrom.value) ==> !endsDuring(k))
    && forall k :: 0 <= k < |calls| ==>
         calls[k].reply == if answer(k).Failed? && doneFrom.Some? && doneFrom.value <= k then Aborted else answer(k)
  }

  lemma HeardStep(calls: seq<Call>, answer: nat -> Answer, endsDuring: nat -> bool, doneFrom: Option<nat>, n: Name)
    requires Heard(calls, answer, endsDuring, doneFrom)
    ensures var k := |calls|;
            var doneFrom' := if doneFrom.None? && endsDuring(k) then Some(k) else doneFrom;
            var r := if answer(k).Failed? && doneFrom'.Some? then Aborted else answer(k);
            Heard(calls + [Call(n, r)], answer, endsDuring, doneFrom')
  {}

  lemma HeardIsSticky(calls: seq<Call>, answer: nat -> Answer, endsDuring: nat -> bool, doneFrom: Option<nat>)
    requires Heard(calls, answer, endsDuring, doneFrom)
    ensures Sticky(calls)
    ensures doneFrom.None? ==> forall k :: 0 <= k < |calls| ==> !calls[k].reply.Aborted?
  {}

  /** Over some calls a context not done before comes to be so, if it does, during one of them. */
  predicate EndsInCall(endsDuring: nat -> bool, was: Option<nat>, now: Option<nat>, calls: nat) {
    now == was || (was.None? && now.Some? && now.value < calls && endsDuring(now.value))
  }

  /** A run's per-pass state. answer stands for the providers: what the n-th call of the run would
      be answered, whoever it is made to; endsDuring says whether the run's context is done by the
      time that call returns. A context that is done stays so. */
  class RunState {
    const providers: seq<Provider>
    const answer: nat -> Answer
    const endsDuring: nat -> bool
    var doneFrom: Option<nat>
    var failures: map<Name, nat>
    var tripped: set<Name>
    var calls: seq<Call>

    ghost predicate Valid()
      reads this
    {
      Tracks(failures, tripped, calls) && Heard(calls, answer, endsDuring, doneFrom)
    }

    constructor (providers: seq<Provider>, answer: nat -> Answer, endsDuring: nat -> bool)
      ensures Valid() && this.providers == providers && this.answer == answer && this.endsDuring == endsDuring
      ensures calls == [] && tripped == {} && doneFrom == None
    {
      this.providers, this.answer, this.endsDuring := providers, answer, endsDuring;
      failures, tripped, calls, doneFrom := map[], {}, [], None;
    }

    /** The context found alive or not between calls. */
    method CheckContext(alive: bool) returns (done: bool)
      requires Valid()
      modifies `doneFrom
      ensures Valid() && (done <==> doneFrom.Some?) && (done <==> old(doneFrom).Some? || !alive)
      ensures old(doneFrom).Some? ==> doneFrom == old(doneFrom)
    {
      hide Tracks;
      if doneFrom.None? && !alive {
        doneFrom := Some(|calls|);
      }
      done := doneFrom.Some?;
    }

    method CallProvider(p: Provider) returns (r: Reply)
      requires Valid() && p.name !in tripped
      modifies this
      ensures Valid()
      ensures doneFrom == if old(doneFrom).None? && endsDuring(|old(calls)|) then Some(|old(calls)|) else old(doneFrom)
      ensures r == if answer(|old(calls)|).Failed? && doneFrom.Some? then Aborted else answer(|old(calls)|)
      ensures calls == old(calls) + [Call(p.name, r)]
      ensures old(tripped) <= tripped
      ensures tripped == old(tripped)
                || (r.Failed? && Streak(calls, p.name) == TRIP_AFTER && tripped == old(tripped) + {p.name})
    {
      hide Heard, Disciplined;
      HeardStep(calls, answer, endsDuring, doneFrom, p.name);
      if doneFrom.None? && endsDuring(|calls|) {
        doneFrom := Some(|calls|);
      }
      r := answer(|calls|);
      if r.Failed? && doneFrom.Some? {
        r := Aborted;
      }
      TracksStep(failures, tripped, calls, p.name, r);
      hide Tracks, Streak;
      calls := calls + [Call(p.name, r)];
      match r
      case Aborted =>
      case Failed =>
        failures := CountFailure(failures, p.name);
        if failures[p.name] == TRIP_AFTER {
          tripped := tripped + {p.name};
        }
        StreakOf(failures, tripped, calls, p.name);
      case _ =>
        failures := failures - {p.name};
    }

    /** The turn of the provider at j in a gather whose visits so far are given. */
    method Consult(j: nat, wanted: bool, ghost before: seq<Call>, ghost visits: seq<Visit>) returns (v: Visit)
      requires Valid() && j == |visits| < |providers|
      requires calls == before + CallsMade(providers, visits) && OutWhenTripped(providers, before, visits)
      modifies this
      ensures Valid() && v.wanted == wanted
      ensures calls == before + CallsMade(providers, visits + [v])
      ensures OutWhenTripped(providers, before, visits + [v])
      ensures old(tripped) <= tripped && EndsInCall(endsDuring, old(doneFrom), doneFrom, |calls|)
      ensures |old(calls)| <= |calls|
      ensures v.out ==> v.wanted
    {
      hide Streak, Disciplined, OutWhenTripped, CallsMade, Heard;
      var p := providers[j];
      var out := wanted && p.name in tripped;
      v := Visit(wanted, out, NoMatch);
      ghost var was := calls;
      if v.Called() {
        var r := CallProvider(p);
        v := v.(reply := r);
      }
      VisitAppends(providers, before, visits, v);
    }

    method Live(t: Rung, want: set<Capability>) returns (b: bool)
      ensures b <==> exists p :: p in providers && p.name !in tripped && Serves(p, t, want)
    {
      b := false;
      for i := 0 to |providers|
        invariant !b && forall k :: 0 <= k < i ==> providers[k].name in tripped || !Serves(providers[k], t, want)
      {
        if providers[i].name !in tripped && Serves(providers[i], t, want) {
          return true;
        }
      }
    }
  }

  lemma StreakOfNone(n: Name)
    ensures Streak([], n) == 0
  {}
}
