/** The field, genre and lyrics gathers of the enrichment pass (enrich/enrich.go), and the
    auxiliary-art backfill's. */
module FieldGathers {
  import opened Common
  import opened Breaker
  import opened Gathers

  // ---------------------------------------------------------------------------
  // Fields
  // ---------------------------------------------------------------------------

  datatype Field = Field(value: string, provider: Name)

  predicate Blank(s: string) {
    forall c :: c in s ==> c in " \t\n\r"
  }

  /** The dedicated slots a book candidate answers beside its field map. */
  function Slot(c: Candidate, key: string): string {
    if key == "publisher" then c.publisher else if key == "asin" then c.asin else if key == "isbn" then c.isbn else ""
  }

  /** What a candidate says for one key: its field, or for a book the slot standing in for it. */
  function ValueOf(c: Candidate, book: bool, key: string): string {
    if key in c.fields && !Blank(c.fields[key]) then c.fields[key]
    else if book then Slot(c, key)
    else ""
  }

  function FieldOffers(c: Candidate, book: bool, allowed: set<string>, provider: Name): map<string, Field> {
    map k | k in allowed && !Blank(ValueOf(c, book, k)) :: Field(ValueOf(c, book, k), provider)
  }

  function FieldsIn(v: Visit, book: bool, allowed: set<string>, provider: Name): map<string, Field> {
    if v.Answered() then FieldOffers(v.reply.candidate, book, allowed, provider) else map[]
  }

  /** The first offer of each key. */
  ghost function FieldsOf(ps: seq<Provider>, book: bool, allowed: set<string>, visits: seq<Visit>): map<string, Field>
    requires |visits| <= |ps|
  {
    if visits == [] then map[]
    else
      var k := |visits| - 1;
      FieldsIn(visits[k], book, allowed, ps[k].name) + FieldsOf(ps, book, allowed, visits[..k])
  }

  /** What a candidate offers an allowed key: its field's value when that has more than white space, and
      for a book the slot of the key, when that has. */
  lemma FieldMeans(c: Candidate, book: bool, allowed: set<string>, provider: Name, key: string)
    ensures var offers := FieldOffers(c, book, allowed, provider);
            var field := if key in c.fields then c.fields[key] else "";
            var slot := if !book then "" else if key == "publisher" then c.publisher else if key == "asin" then c.asin
                        else if key == "isbn" then c.isbn else "";
            && (key in offers <==> key in allowed && (HasText(field) || HasText(slot)))
            && (key in offers ==> offers[key] == Field(if HasText(field) then field else slot, provider))
  {}

  predicate HasText(s: string) {
    exists c :: c in s && c != ' ' && c != '\t' && c != '\n' && c != '\r'
  }

  /** Whether the j-th visit offers the key a value. */
  ghost predicate FieldAt(ps: seq<Provider>, book: bool, allowed: set<string>, visits: seq<Visit>, key: string, j: nat)
    requires j < |visits| <= |ps|
  {
    key in FieldsIn(visits[j], book, allowed, ps[j].name)
  }

  lemma {:induction false} FieldWhenOffered(ps: seq<Provider>, book: bool, allowed: set<string>, visits: seq<Visit>,
                                            key: string)
    requires |visits| <= |ps|
    ensures key in FieldsOf(ps, book, allowed, visits)
       <==> exists j :: 0 <= j < |visits| && FieldAt(ps, book, allowed, visits, key, j)
  {
    if visits != [] {
      var k := |visits| - 1;
      var init := visits[..k];
      FieldWhenOffered(ps, book, allowed, init, key);
      assert forall j :: 0 <= j < k ==>
             (FieldAt(ps, book, allowed, init, key, j) <==> FieldAt(ps, book, allowed, visits, key, j));
      assert key in FieldsIn(visits[k], book, allowed, ps[k].name) <==> FieldAt(ps, book, allowed, visits, key, k);
      hide FieldsIn, FieldAt;
    }
  }

  lemma {:induction false} FirstFieldHeld(ps: seq<Provider>, book: bool, allowed: set<string>, visits: seq<Visit>,
                                          key: string, j: nat)
    requires j < |visits| <= |ps| && FieldAt(ps, book, allowed, visits, key, j)
    requires forall i :: 0 <= i < j ==> !FieldAt(ps, book, allowed, visits, key, i)
    ensures key in FieldsOf(ps, book, allowed, visits)
    ensures FieldsOf(ps, book, allowed, visits)[key] == FieldsIn(visits[j], book, allowed, ps[j].name)[key]
  {
    hide FieldsIn;
    var k := |visits| - 1;
    var init := visits[..k];
    if j < k {
      assert forall i :: 0 <= i <= j ==>
             (FieldAt(ps, book, allowed, init, key, i) <==> FieldAt(ps, book, allowed, visits, key, i));
      FirstFieldHeld(ps, book, allowed, init, key, j);
    } else {
      FieldWhenOffered(ps, book, allowed, init, key);
      assert forall i :: 0 <= i < k ==>
             (FieldAt(ps, book, allowed, init, key, i) <==> FieldAt(ps, book, allowed, visits, key, i));
    }
  }

  /** A key is held exactly when someone offered it, with the first offer and its provider. */
  lemma FirstFieldWins(ps: seq<Provider>, book: bool, allowed: set<string>, visits: seq<Visit>, key: string)
    requires |visits| <= |ps|
    ensures var held := FieldsOf(ps, book, allowed, visits);
            && (key in held <==> exists j :: 0 <= j < |visits| && FieldAt(ps, book, allowed, visits, key, j))
            && forall j :: 0 <= j < |visits| && FieldAt(ps, book, allowed, visits, key, j)
                 && (forall i :: 0 <= i < j ==> !FieldAt(ps, book, allowed, visits, key, i))
                 ==> key in held && held[key] == FieldsIn(visits[j], book, allowed, ps[j].name)[key]
  {
    hide FieldsOf, FieldsIn;
    FieldWhenOffered(ps, book, allowed, visits, key);
    var held := FieldsOf(ps, book, allowed, visits);
    forall j | 0 <= j < |visits| && FieldAt(ps, book, allowed, visits, key, j)
               && (forall i :: 0 <= i < j ==> !FieldAt(ps, book, allowed, visits, key, i))
      ensures key in held && held[key] == FieldsIn(visits[j], book, allowed, ps[j].name)[key]
    {
      FirstFieldHeld(ps, book, allowed, visits, key, j);
    }
  }

  lemma {:induction false} FieldKeysAllowed(ps: seq<Provider>, book: bool, allowed: set<string>, visits: seq<Visit>)
    requires |visits| <= |ps|
    ensures FieldsOf(ps, book, allowed, visits).Keys <= allowed
  {
    if visits != [] {
      FieldKeysAllowed(ps, book, allowed, visits[..|visits| - 1]);
    }
  }

  lemma FieldsExtend(ps: seq<Provider>, book: bool, allowed: set<string>, visits: seq<Visit>, v: Visit)
    requires |visits| < |ps|
    ensures FieldsOf(ps, book, allowed, visits + [v])
         == FieldsIn(v, book, allowed, ps[|visits|].name) + FieldsOf(ps, book, allowed, visits)
    ensures FieldsIn(v, book, allowed, ps[|visits|].name).Keys <= allowed
  {
    assert (visits + [v])[..|visits|] == visits;
  }

  lemma Overridden<K, V>(a: map<K, V>, b: map<K, V>)
    requires a.Keys <= b.Keys
    ensures a + b == b
  {}

  /** Once every allowed key is held, no further answer changes anything. */
  lemma {:induction false} NothingToGain(ps: seq<Provider>, book: bool, allowed: set<string>, visits: seq<Visit>,
                                         more: seq<Visit>)
    requires |visits| + |more| <= |ps| && FieldsOf(ps, book, allowed, visits).Keys == allowed
    ensures FieldsOf(ps, book, allowed, visits + more) == FieldsOf(ps, book, allowed, visits)
  {
    hide FieldsOf, FieldsIn;
    if more == [] {
      assert visits + more == visits;
    } else {
      var init, v := visits + more[..|more| - 1], more[|more| - 1];
      NothingToGain(ps, book, allowed, visits, more[..|more| - 1]);
      FieldsExtend(ps, book, allowed, init, v);
      Overridden(FieldsIn(v, book, allowed, ps[|init|].name), FieldsOf(ps, book, allowed, init));
      assert visits + more == init + [v];
    }
  }

  method TakeFields(fields: map<string, string>, allowed: set<string>, provider: Name, held0: map<string, Field>)
    returns (held: map<string, Field>)
    ensures Merged(held, held0, map k | k in fields && k in allowed && !Blank(fields[k])
              && k !in held0 :: Field(fields[k], provider))
  {
    ghost var goal := map k | k in fields && k in allowed && !Blank(fields[k])
      && k !in held0 :: Field(fields[k], provider);
    held := held0;
    var todo := fields.Keys;
    while todo != {}
      invariant todo <= fields.Keys && Taken(goal, held0, todo, held)
      decreases todo
    {
      var key :| key in todo;
      TakenStep(goal, held0, todo, held, key);
      hide Taken;
      todo := todo - {key};
      if key in allowed && !Blank(fields[key]) && key !in held {
        held := held[key := Field(fields[key], provider)];
      }
    }
    TakenAll(goal, held0, held);
  }

  function TakeSlot(key: string, value: string, allowed: set<string>, provider: Name, held: map<string, Field>)
    : map<string, Field>
  {
    if key in allowed && !Blank(value) && key !in held then held[key := Field(value, provider)] else held
  }

  function TakeSlots(c: Candidate, allowed: set<string>, provider: Name, held: map<string, Field>): map<string, Field> {
    TakeSlot("isbn", c.isbn, allowed, provider,
      TakeSlot("asin", c.asin, allowed, provider,
        TakeSlot("publisher", c.publisher, allowed, provider, held)))
  }

  lemma SlotTaken(c: Candidate, allowed: set<string>, provider: Name, held: map<string, Field>, k: string)
    ensures var r := TakeSlots(c, allowed, provider, held);
            && (k in r <==> k in held || (k in allowed && !Blank(Slot(c, k))))
            && (k in held ==> r[k] == held[k])
            && (k in r && k !in held ==> r[k] == Field(Slot(c, k), provider))
  {
    hide Blank;
    BlankEmpty();
  }

  lemma BlankEmpty()
    ensures Blank("")
  {}

  method TakeCandidate(c: Candidate, book: bool, allowed: set<string>, provider: Name, held0: map<string, Field>)
    returns (held: map<string, Field>)
    ensures Merged(held, held0, FieldOffers(c, book, allowed, provider))
  {
    hide Blank, TakeSlots, Slot;
    held := TakeFields(c.fields, allowed, provider, held0);
    ghost var mapped := held;
    if book {
      held := TakeSlots(c, allowed, provider, held);
    }
    BlankEmpty();
    forall k ensures book ==>
      && (k in held <==> k in mapped || (k in allowed && !Blank(Slot(c, k))))
      && (k in mapped ==> held[k] == mapped[k])
      && (k in held && k !in mapped ==> held[k] == Field(Slot(c, k), provider))
    {
      SlotTaken(c, allowed, provider, mapped, k);
    }
    OffersTaken(c, book, allowed, provider, held0, mapped, held);
  }

  lemma OffersTaken(c: Candidate, book: bool, allowed: set<string>, provider: Name,
                    held0: map<string, Field>, mapped: map<string, Field>, held: map<string, Field>)
    requires Merged(mapped, held0, map k | k in c.fields && k in allowed && !Blank(c.fields[k])
               && k !in held0 :: Field(c.fields[k], provider))
    requires !book ==> held == mapped
    requires book ==> forall k ::
      && (k in held <==> k in mapped || (k in allowed && !Blank(Slot(c, k))))
      && (k in mapped ==> held[k] == mapped[k])
      && (k in held && k !in mapped ==> held[k] == Field(Slot(c, k), provider))
    ensures Merged(held, held0, FieldOffers(c, book, allowed, provider))
  {
    hide Blank, Slot;
    BlankEmpty();
    var offers := FieldOffers(c, book, allowed, provider);
    forall k ensures k in held <==> k in held0 || k in offers {
      assert k in mapped <==> k in held0 || (k in c.fields && k in allowed && !Blank(c.fields[k]));
    }
    assert held.Keys == held0.Keys + offers.Keys;
  }

  ghost predicate SomeErred(visits: seq<Visit>) {
    exists j :: 0 <= j < |visits| && visits[j].Erred()
  }

  ghost predicate SomeSkipped(visits: seq<Visit>) {
    exists j :: 0 <= j < |visits| && visits[j].Skipped()
  }

  lemma VisitTallies(visits: seq<Visit>, v: Visit)
    ensures SomeErred(visits + [v]) <==> SomeErred(visits) || v.Erred()
    ensures SomeSkipped(visits + [v]) <==> SomeSkipped(visits) || v.Skipped()
  {
    var more := visits + [v];
    assert more[|visits|] == v && forall j :: 0 <= j < |visits| ==> more[j] == visits[j];
  }

  lemma FieldsStep(ps: seq<Provider>, book: bool, allowed: set<string>, visits: seq<Visit>, v: Visit,
                   held: map<string, Field>, held': map<string, Field>)
    requires |visits| < |ps| && held == FieldsOf(ps, book, allowed, visits)
    requires Merged(held', held, FieldsIn(v, book, allowed, ps[|visits|].name))
    ensures held' == FieldsOf(ps, book, allowed, visits + [v])
  {
    hide FieldsIn;
    assert (visits + [v])[..|visits|] == visits;
  }

  /** Everyone serving the walk is wanted, in turn, until every allowed key is held. */
  ghost predicate ServersWanted(ps: seq<Provider>, t: Rung, want: set<Capability>, visits: seq<Visit>)
    requires |visits| <= |ps|
  {
    forall j :: 0 <= j < |visits| ==> (visits[j].wanted <==> Serves(ps[j], t, want))
  }

  /** One provider's turn; what it answers goes to the keys still open. */
  method FieldTurn(st: RunState, t: Rung, want: set<Capability>, allowed: set<string>, held: map<string, Field>,
                   ghost before: seq<Call>, visits: seq<Visit>)
    returns (held': map<string, Field>, v: Visit)
    requires st.Valid() && |visits| < |st.providers|
    requires st.calls == before + CallsMade(st.providers, visits) && OutWhenTripped(st.providers, before, visits)
    requires held == FieldsOf(st.providers, t == BookRung, allowed, visits)
    modifies st
    ensures st.Valid() && old(st.tripped) <= st.tripped && (v.wanted <==> Serves(st.providers[|visits|], t, want))
    ensures st.calls == before + CallsMade(st.providers, visits + [v])
              && OutWhenTripped(st.providers, before, visits + [v])
    ensures held' == FieldsOf(st.providers, t == BookRung, allowed, visits + [v])
    ensures !v.Answered() ==> held' == held
  {
    hide FieldsOf, CallsMade, OutWhenTripped, Serves, Tracks, Heard, Merged, FieldOffers;
    var p, book := st.providers[|visits|], t == BookRung;
    v := st.Consult(|visits|, Serves(p, t, want), before, visits);
    held' := held;
    if v.Answered() {
      held' := TakeCandidate(v.reply.candidate, book, allowed, p.name, held);
    } else {
      MergedNothing(held);
    }
    FieldsStep(st.providers, book, allowed, visits, v, held, held');
  }

  method GatherFields(st: RunState, t: Rung, want: set<Capability>, allowed: set<string>)
    returns (held: map<string, Field>, sf: Shortfall, visits: seq<Visit>)
    requires st.Valid()
    modifies st
    ensures st.Valid() && old(st.tripped) <= st.tripped
    ensures |visits| <= |st.providers| && ServersWanted(st.providers, t, want, visits)
    ensures st.calls == old(st.calls) + CallsMade(st.providers, visits)
              && OutWhenTripped(st.providers, old(st.calls), visits)
    ensures held == FieldsOf(st.providers, t == BookRung, allowed, visits)
    ensures sf.incomplete <==> held.Keys != allowed && SomeErred(visits)
    ensures sf.unasked <==> held.Keys != allowed && SomeSkipped(visits)
    ensures forall more :: |visits| + |more| == |st.providers| ==>
              FieldsOf(st.providers, t == BookRung, allowed, visits + more) == held
    ensures FieldsOpen(st.providers, t == BookRung, allowed, visits, |visits|)
    ensures |visits| < |st.providers| ==> visits != [] && visits[|visits| - 1].Answered() && held.Keys == allowed
  {
    hide FieldsOpen, FieldsOf, CallsMade, OutWhenTripped, Serves, Tracks, Heard, SomeErred, SomeSkipped;
    var ps, book := st.providers, t == BookRung;
    ghost var before := st.calls;
    held, visits := map[], [];
    var failed, skipped := false, false;
    FieldsBegin(ps, book, allowed, before);
    FieldsGoneOn(ps, book, allowed, []);
    while |visits| < |ps|
      invariant |visits| <= |ps| && ServersWanted(ps, t, want, visits)
      invariant st.Valid() && old(st.tripped) <= st.tripped
      invariant st.calls == before + CallsMade(ps, visits) && OutWhenTripped(ps, before, visits)
      invariant held == FieldsOf(ps, book, allowed, visits)
      invariant FieldsOpen(ps, book, allowed, visits, |visits| + 1)
      invariant (failed <==> SomeErred(visits)) && (skipped <==> SomeSkipped(visits))
      decreases |ps| - |visits|
    {
      var held', v := FieldTurn(st, t, want, allowed, held, before, visits);
      VisitTallies(visits, v);
      failed, skipped := failed || v.Erred(), skipped || v.Skipped();
      FieldsGoOn(ps, book, allowed, visits, v);
      held, visits := held', visits + [v];
      AllHeld(ps, book, allowed, visits, held);
      if v.Answered() && |held| == |allowed| {
        break;
      }
    }
    FieldsGoneOn(ps, book, allowed, visits);
    StoppingLosesNothing(ps, book, allowed, visits, held);
    sf := Shortfall(failed && |held| < |allowed|, skipped && |held| < |allowed|);
  }

  /** After none of the first n visits but the last was every allowed key held by an answer: the walk
      stops at the first answer that leaves nothing open. */
  ghost predicate FieldsOpen(ps: seq<Provider>, book: bool, allowed: set<string>, visits: seq<Visit>, n: nat)
    requires |visits| <= |ps|
  {
    forall j :: 1 <= j < n && j <= |visits| && visits[j - 1].Answered() ==>
      FieldsOf(ps, book, allowed, visits[..j]).Keys != allowed
  }

  lemma FieldsGoOn(ps: seq<Provider>, book: bool, allowed: set<string>, visits: seq<Visit>, v: Visit)
    requires |visits| < |ps| && FieldsOpen(ps, book, allowed, visits, |visits| + 1)
    ensures FieldsOpen(ps, book, allowed, visits + [v], |visits| + 1)
    ensures !(v.Answered() && FieldsOf(ps, book, allowed, visits + [v]).Keys == allowed) ==>
              FieldsOpen(ps, book, allowed, visits + [v], |visits| + 2)
  {
    hide FieldsOf;
    var more := visits + [v];
    assert forall j :: 1 <= j <= |visits| ==> more[..j] == visits[..j] && more[j - 1] == visits[j - 1];
    assert more[..|more|] == more;
  }

  lemma FieldsGoneOn(ps: seq<Provider>, book: bool, allowed: set<string>, visits: seq<Visit>)
    requires |visits| <= |ps|
    ensures FieldsOpen(ps, book, allowed, visits, |visits| + 1) ==> FieldsOpen(ps, book, allowed, visits, |visits|)
    ensures FieldsOpen(ps, book, allowed, [], 1)
  {}

  lemma AllHeld(ps: seq<Provider>, book: bool, allowed: set<string>, visits: seq<Visit>, held: map<string, Field>)
    requires |visits| <= |ps| && held == FieldsOf(ps, book, allowed, visits)
    ensures |held| == |allowed| <==> held.Keys == allowed
  {
    hide FieldsOf;
    FieldKeysAllowed(ps, book, allowed, visits);
    assert |held| == |held.Keys|;
    SubsetCount(held.Keys, allowed);
  }

  lemma StoppingLosesNothing(ps: seq<Provider>, book: bool, allowed: set<string>, visits: seq<Visit>,
                             held: map<string, Field>)
    requires |visits| <= |ps| && held == FieldsOf(ps, book, allowed, visits)
    requires |visits| < |ps| ==> |held| == |allowed|
    ensures |held| < |allowed| <==> held.Keys != allowed
    ensures forall more :: |visits| + |more| == |ps| ==> FieldsOf(ps, book, allowed, visits + more) == held
  {
    hide FieldsOf;
    FieldKeysAllowed(ps, book, allowed, visits);
    assert |held| == |held.Keys|;
    SubsetCount(held.Keys, allowed);
    forall more | |visits| + |more| == |ps| ensures FieldsOf(ps, book, allowed, visits + more) == held {
      if more == [] {
        assert visits + more == visits;
      } else {
        NothingToGain(ps, book, allowed, visits, more);
      }
    }
  }

  lemma FieldsBegin(ps: seq<Provider>, book: bool, allowed: set<string>, before: seq<Call>)
    ensures FieldsOf(ps, book, allowed, []) == map[] && !SomeErred([]) && !SomeSkipped([])
    ensures before + CallsMade(ps, []) == before && OutWhenTripped(ps, before, [])
  {}

  lemma MergedNothing(held: map<string, Field>)
    ensures Merged(held, held, map[])
  {}

  // ---------------------------------------------------------------------------
  // Genres
  // ---------------------------------------------------------------------------

  const MUSICBRAINZ: Name := "musicbrainz"
  const MAX_ENRICH_GENRES := 6

  /** One genre name with its match key and the provider behind it. */
  datatype Genre = Genre(name: string, key: string, provider: Name)

  /** Genre splitting and match keys, as the identity package has them. */
  datatype Identity = Identity(split: string -> seq<string>, matchKey: string -> string)

  datatype GenreCandidate = GenreCandidate(text: string, provider: Name)

  function EntriesOf(c: GenreCandidate, id: Identity): seq<Genre> {
    var names := id.split(c.text);
    seq(|names|, i requires 0 <= i < |names| => Genre(names[i], id.matchKey(names[i]), c.provider))
  }

  function Entries(cands: seq<GenreCandidate>, id: Identity): seq<Genre> {
    if cands == [] then [] else Entries(cands[..|cands| - 1], id) + EntriesOf(cands[|cands| - 1], id)
  }

  function Others(kept: seq<Genre>): nat {
    if kept == [] then 0
    else Others(kept[..|kept| - 1]) + if kept[|kept| - 1].provider == MUSICBRAINZ then 0 else 1
  }

  function Keys(kept: seq<Genre>): set<string> {
    set g | g in kept :: g.key
  }

  predicate Admitted(kept: seq<Genre>, g: Genre) {
    g.key != "" && g.key !in Keys(kept) && (g.provider == MUSICBRAINZ || Others(kept) < MAX_ENRICH_GENRES)
  }

  /** The merge: each entry in turn, when it has a key, brings a new one, and is within the cap
      or MusicBrainz's own. */
  ghost function Merge(entries: seq<Genre>): seq<Genre> {
    if entries == [] then []
    else
      var before, g := Merge(entries[..|entries| - 1]), entries[|entries| - 1];
      if Admitted(before, g) then before + [g] else before
  }

  lemma MergeAppends(entries: seq<Genre>, g: Genre)
    ensures Merge(entries + [g]) == if Admitted(Merge(entries), g) then Merge(entries) + [g] else Merge(entries)
  {
    assert (entries + [g])[..|entries|] == entries;
  }

  lemma KeysAppend(kept: seq<Genre>, g: Genre)
    ensures Keys(kept + [g]) == Keys(kept) + {g.key}
    ensures Others(kept + [g]) == Others(kept) + if g.provider == MUSICBRAINZ then 0 else 1
  {
    assert (kept + [g])[..|kept|] == kept;
    assert forall x :: x in kept + [g] <==> x in kept || x == g;
  }

  ghost predicate DistinctKeys(kept: seq<Genre>) {
    forall i, j :: 0 <= i < j < |kept| ==> kept[i].key != kept[j].key
  }

  /** No key repeats, at most six names are credited to other providers, every MusicBrainz key
      is there whatever came before it, and another's key is missing only at the cap. */
  lemma {:induction false} MergeKeeps(entries: seq<Genre>)
    ensures DistinctKeys(Merge(entries)) && Others(Merge(entries)) <= 6
    ensures forall g :: g in Merge(entries) ==> g in entries
    ensures forall g :: g in entries && g.key != "" && g.provider == MUSICBRAINZ ==> g.key in Keys(Merge(entries))
    ensures forall g :: g in entries && g.key != "" && g.key !in Keys(Merge(entries)) ==>
              Others(Merge(entries)) == MAX_ENRICH_GENRES
  {
    if entries != [] {
      var init, g := entries[..|entries| - 1], entries[|entries| - 1];
      MergeKeeps(init);
      assert forall x :: x in entries <==> x in init || x == g;
      var before := Merge(init);
      KeysAppend(before, g);
      hide Keys, Others;
      if Admitted(before, g) {
        KeyOfMember(before);
      }
    }
  }

  /** What is kept is kept in order: more entries only add to the end. */
  lemma {:induction false} MergeGrows(a: seq<Genre>, b: seq<Genre>)
    ensures Merge(a) <= Merge(a + b)
  {
    hide Admitted;
    if b == [] {
      assert a + b == a;
    } else {
      var k := |b| - 1;
      MergeGrows(a, b[..k]);
      assert (a + b)[..|a| + k] == a + b[..k];
    }
  }

  /** The names counted against the cap are those of others than MusicBrainz. */
  lemma {:induction false} OthersAre(kept: seq<Genre>)
    ensures Others(kept) == |set i | 0 <= i < |kept| && kept[i].provider != "musicbrainz"|
  {
    if kept != [] {
      var k := |kept| - 1;
      OthersAre(kept[..k]);
      var was := set i | 0 <= i < k && kept[..k][i].provider != "musicbrainz";
      var now := set i | 0 <= i < |kept| && kept[i].provider != "musicbrainz";
      assert now == was + if kept[k].provider != "musicbrainz" then {k} else {};
    }
  }

  /** The display genre is credited to the first provider kept. */
  lemma {:induction false} PrimaryIs(kept: seq<Genre>)
    requires forall g :: g in kept ==> g.provider != ""
    ensures Primary(kept) == if kept == [] then "" else kept[0].provider
  {
    if kept != [] {
      var init := kept[..|kept| - 1];
      assert forall g :: g in init ==> g in kept;
      PrimaryIs(init);
      assert kept[|kept| - 1] in kept;
    }
  }

  /** The entries are the names each candidate splits into, in order, with their keys and its provider. */
  lemma {:induction false} EntriesAre(a: seq<GenreCandidate>, b: seq<GenreCandidate>, id: Identity)
    ensures Entries(a + b, id) == Entries(a, id) + Entries(b, id)
    ensures forall c :: Entries([c], id) == seq(|id.split(c.text)|, i requires 0 <= i < |id.split(c.text)| =>
                                               Genre(id.split(c.text)[i], id.matchKey(id.split(c.text)[i]), c.provider))
  {
    forall c: GenreCandidate ensures Entries([c], id) == EntriesOf(c, id) {
      assert [c][..0] == [];
    }
    if b == [] {
      assert a + b == a;
    } else {
      var k := |b| - 1;
      EntriesAre(a, b[..k], id);
      assert (a + b)[..|a| + k] == a + b[..k];
    }
  }

  lemma KeyOfMember(kept: seq<Genre>)
    ensures forall i :: 0 <= i < |kept| ==> kept[i].key in Keys(kept)
  {
    forall i | 0 <= i < |kept| ensures kept[i].key in Keys(kept) {
      assert kept[i] in kept;
    }
  }

  function Primary(kept: seq<Genre>): Name {
    if kept == [] then ""
    else
      var before := Primary(kept[..|kept| - 1]);
      if before == "" then kept[|kept| - 1].provider else before
  }

  method MergeGenres(cands: seq<GenreCandidate>, id: Identity) returns (kept: seq<Genre>, primary: Name)
    ensures kept == Merge(Entries(cands, id)) && primary == Primary(kept)
  {
    hide Merge, Keys, Others;
    kept, primary := [], "";
    var seen: set<string> := {};
    var nonMB := 0;
    MergeBegins();
    for i := 0 to |cands|
      invariant kept == Merge(Entries(cands[..i], id)) && primary == Primary(kept)
      invariant seen == Keys(kept) && nonMB == Others(kept)
    {
      var c := cands[i];
      var isMB := c.provider == MUSICBRAINZ;
      var names := id.split(c.text);
      ghost var done, here := Entries(cands[..i], id), EntriesOf(c, id);
      assert done + here[..0] == done;
      for j := 0 to |names|
        invariant kept == Merge(done + here[..j]) && primary == Primary(kept)
        invariant seen == Keys(kept) && nonMB == Others(kept)
      {
        var g := Genre(names[j], id.matchKey(names[j]), c.provider);
        assert done + here[..j + 1] == done + here[..j] + [g];
        MergeAppends(done + here[..j], g);
        KeysAppend(kept, g);
        assert (kept + [g])[..|kept|] == kept;
        if g.key == "" || g.key in seen {
          continue;
        }
        if !isMB && nonMB >= MAX_ENRICH_GENRES {
          continue;
        }
        seen := seen + {g.key};
        if !isMB {
          nonMB := nonMB + 1;
        }
        if primary == "" {
          primary := c.provider;
        }
        kept := kept + [g];
      }
      assert here[..|names|] == here && cands[..i + 1][..i] == cands[..i];
    }
    assert cands[..|cands|] == cands;
  }

  lemma MergeBegins()
    ensures Merge([]) == [] && Keys([]) == {} && Others([]) == 0
  {}

  /** What the visits offer: the baseline at the MusicBrainz entry's place, and the others'. */
  ghost function CandidatesOf(ps: seq<Provider>, baseline: seq<string>, visits: seq<Visit>): seq<GenreCandidate>
    requires |visits| <= |ps|
  {
    if visits == [] then []
    else
      var k := |visits| - 1;
      CandidatesOf(ps, baseline, visits[..k]) +
        if ps[k].name == MUSICBRAINZ then Credited(baseline, MUSICBRAINZ)
        else if visits[k].Answered() then Credited(visits[k].reply.candidate.genres, ps[k].name)
        else []
  }

  function Credited(names: seq<string>, provider: Name): seq<GenreCandidate> {
    seq(|names|, i requires 0 <= i < |names| => GenreCandidate(names[i], provider))
  }

  /** Every listed provider's genres stand at its place: the baseline at MusicBrainz's, asked or not, and
      another's own when it answered. */
  lemma CandidatesAre(ps: seq<Provider>, baseline: seq<string>, visits: seq<Visit>, v: Visit)
    requires |visits| < |ps|
    ensures CandidatesOf(ps, baseline, []) == []
    ensures var before, after := CandidatesOf(ps, baseline, visits), CandidatesOf(ps, baseline, visits + [v]);
            var p := ps[|visits|].name;
            var names := if p == "musicbrainz" then baseline
                         else if v.wanted && !v.out && v.reply.Match? then v.reply.candidate.genres else [];
            && |after| == |before| + |names| && before <= after
            && forall i :: 0 <= i < |names| ==> after[|before| + i] == GenreCandidate(names[i], p)
  {
    assert (visits + [v])[..|visits|] == visits;
  }

  method GatherGenres(st: RunState, baseline: seq<string>, id: Identity)
    returns (kept: seq<Genre>, primary: Name, sf: Shortfall, visits: seq<Visit>)
    requires st.Valid()
    modifies st
    ensures st.Valid() && old(st.tripped) <= st.tripped && |visits| == |st.providers|
    ensures EndsInCall(st.endsDuring, old(st.doneFrom), st.doneFrom, |st.calls|)
    ensures forall j :: 0 <= j < |visits| ==> (visits[j].wanted <==>
              st.providers[j].name != MUSICBRAINZ && Serves(st.providers[j], ReleaseGroupRung, {Genres}))
    ensures st.calls == old(st.calls) + CallsMade(st.providers, visits)
              && OutWhenTripped(st.providers, old(st.calls), visits)
    ensures kept == Merge(Entries(CandidatesOf(st.providers, baseline, visits), id)) && primary == Primary(kept)
    ensures sf.incomplete <==> SomeErred(visits)
    ensures sf.unasked <==> SomeSkipped(visits)
  {
    hide CallsMade, OutWhenTripped, Serves, Tracks, Heard, SomeErred, SomeSkipped, Merge, Entries;
    var ps := st.providers;
    ghost var before := st.calls;
    var cands: seq<GenreCandidate> := [];
    visits, sf := [], Shortfall(false, false);
    FieldsBegin(ps, false, {}, before);
    while |visits| < |ps|
      invariant |visits| <= |ps|
      invariant forall j :: 0 <= j < |visits| ==> (visits[j].wanted <==>
                  ps[j].name != MUSICBRAINZ && Serves(ps[j], ReleaseGroupRung, {Genres}))
      invariant st.Valid() && old(st.tripped) <= st.tripped
      invariant EndsInCall(st.endsDuring, old(st.doneFrom), st.doneFrom, |st.calls|)
      invariant st.calls == before + CallsMade(ps, visits) && OutWhenTripped(ps, before, visits)
      invariant cands == CandidatesOf(ps, baseline, visits)
      invariant (sf.incomplete <==> SomeErred(visits)) && (sf.unasked <==> SomeSkipped(visits))
      decreases |ps| - |visits|
    {
      var p := ps[|visits|];
      var v := st.Consult(|visits|, p.name != MUSICBRAINZ && Serves(p, ReleaseGroupRung, {Genres}), before, visits);
      VisitTallies(visits, v);
      sf := Shortfall(sf.incomplete || v.Erred(), sf.unasked || v.Skipped());
      if p.name == MUSICBRAINZ {
        cands := cands + Credited(baseline, MUSICBRAINZ);
      } else if v.Answered() {
        cands := cands + Credited(v.reply.candidate.genres, p.name);
      }
      assert (visits + [v])[..|visits|] == visits;
      visits := visits + [v];
    }
    kept, primary := MergeGenres(cands, id);
  }

  /** Wherever MusicBrainz is listed, every key of its baseline is in the merge. */
  lemma BaselineKept(ps: seq<Provider>, baseline: seq<string>, visits: seq<Visit>, id: Identity, k: nat, text: string,
                     name: string)
    requires |visits| <= |ps| && k < |visits| && ps[k].name == MUSICBRAINZ
    requires text in baseline && name in id.split(text) && id.matchKey(name) != ""
    ensures id.matchKey(name) in Keys(Merge(Entries(CandidatesOf(ps, baseline, visits), id)))
  {
    var cands := CandidatesOf(ps, baseline, visits);
    CandidateListed(ps, baseline, visits, k, text);
    EntryListed(cands, id, GenreCandidate(text, MUSICBRAINZ), name);
    MergeKeeps(Entries(cands, id));
  }

  lemma {:induction false} CandidateListed(ps: seq<Provider>, baseline: seq<string>, visits: seq<Visit>, k: nat,
                                           text: string)
    requires |visits| <= |ps| && k < |visits| && ps[k].name == MUSICBRAINZ && text in baseline
    ensures GenreCandidate(text, MUSICBRAINZ) in CandidatesOf(ps, baseline, visits)
  {
    var m := |visits| - 1;
    if k < m {
      CandidateListed(ps, baseline, visits[..m], k, text);
    } else {
      var i :| 0 <= i < |baseline| && baseline[i] == text;
      assert Credited(baseline, MUSICBRAINZ)[i] == GenreCandidate(text, MUSICBRAINZ);
    }
  }

  lemma {:induction false} EntryListed(cands: seq<GenreCandidate>, id: Identity, c: GenreCandidate, name: string)
    requires c in cands && name in id.split(c.text)
    ensures Genre(name, id.matchKey(name), c.provider) in Entries(cands, id)
  {
    var m := |cands| - 1;
    if c in cands[..m] {
      EntryListed(cands[..m], id, c, name);
    } else {
      assert cands[m] == c;
      var i :| 0 <= i < |id.split(c.text)| && id.split(c.text)[i] == name;
      assert EntriesOf(c, id)[i] == Genre(name, id.matchKey(name), c.provider);
    }
  }

  // ---------------------------------------------------------------------------
  // Lyrics and the auxiliary-art backfill
  // ---------------------------------------------------------------------------

  predicate HasLyrics(v: Visit) {
    v.Answered() && v.reply.candidate.lyrics != ""
  }

  /** The first provider with words ends the walk. */
  method GatherLyrics(st: RunState) returns (got: Option<Field>, sf: Shortfall, visits: seq<Visit>)
    requires st.Valid()
    modifies st
    ensures st.Valid() && old(st.tripped) <= st.tripped
    ensures |visits| <= |st.providers| && ServersWanted(st.providers, RecordingRung, {Lyrics}, visits)
    ensures st.calls == old(st.calls) + CallsMade(st.providers, visits)
              && OutWhenTripped(st.providers, old(st.calls), visits)
    ensures forall j :: 0 <= j < |visits| && HasLyrics(visits[j]) ==>
              j == |visits| - 1 && got == Some(Field(visits[j].reply.candidate.lyrics, st.providers[j].name))
    ensures got.Some? ==> visits != [] && HasLyrics(visits[|visits| - 1])
    ensures got.None? ==> |visits| == |st.providers|
    ensures got.Some? ==> got.value.value != ""
    ensures forall j :: 0 <= j < |visits| && visits[j].Answered() && (got.None? || j < |visits| - 1) ==>
              visits[j].reply.candidate.lyrics == ""
    ensures sf.incomplete <==> got.None? && SomeErred(visits)
    ensures sf.unasked <==> got.None? && SomeSkipped(visits)
  {
    hide CallsMade, OutWhenTripped, Serves, Tracks, Heard, SomeErred, SomeSkipped;
    var ps := st.providers;
    ghost var before := st.calls;
    got, visits := None, [];
    var failed, skipped := false, false;
    FieldsBegin(ps, false, {}, before);
    while |visits| < |ps| && got.None?
      invariant |visits| <= |ps| && ServersWanted(ps, RecordingRung, {Lyrics}, visits)
      invariant st.Valid() && old(st.tripped) <= st.tripped
      invariant st.calls == before + CallsMade(ps, visits) && OutWhenTripped(ps, before, visits)
      invariant forall j :: 0 <= j < |visits| && HasLyrics(visits[j]) ==>
                  j == |visits| - 1 && got == Some(Field(visits[j].reply.candidate.lyrics, ps[j].name))
      invariant got.Some? ==> visits != [] && HasLyrics(visits[|visits| - 1])
      invariant (failed <==> SomeErred(visits)) && (skipped <==> SomeSkipped(visits))
      decreases |ps| - |visits|
    {
      var p := ps[|visits|];
      var v := st.Consult(|visits|, Serves(p, RecordingRung, {Lyrics}), before, visits);
      VisitTallies(visits, v);
      failed, skipped := failed || v.Erred(), skipped || v.Skipped();
      if HasLyrics(v) {
        got := Some(Field(v.reply.candidate.lyrics, p.name));
      }
      visits := visits + [v];
    }
    sf := Shortfall(failed && got.None?, skipped && got.None?);
  }

  /** The auxiliary roles alone, from those serving them, until every one is held. */
  method GatherAuxArt(st: RunState, t: Rung)
    returns (art: map<Role, Art>, provider: Name, sf: Shortfall, visits: seq<Visit>)
    requires st.Valid()
    modifies st
    ensures st.Valid() && old(st.tripped) <= st.tripped
    ensures |visits| <= |st.providers| && ServersWanted(st.providers, t, ArtCaps(t).1, visits)
    ensures st.calls == old(st.calls) + CallsMade(st.providers, visits)
              && OutWhenTripped(st.providers, old(st.calls), visits)
    ensures HoldsArt(art, Open, AuxOf(st.providers, AuxRoles(t), visits))
    ensures provider == FirstAuxProvider(st.providers, AuxRoles(t), visits)
    ensures var full := AuxOf(st.providers, AuxRoles(t), visits).Keys == AuxRoles(t);
            && (|visits| < |st.providers| ==> full && visits != [] && visits[|visits| - 1].Answered())
            && RolesOpen(st.providers, AuxRoles(t), visits, |visits|)
            && (sf.incomplete <==> !full && SomeErred(visits))
            && (sf.unasked <==> !full && SomeSkipped(visits))
  {
    hide RolesOpen, CallsMade, OutWhenTripped, Serves, Tracks, Heard, SomeErred, SomeSkipped, AuxOf, FirstAuxProvider,
      HoldsArt, AuxRoles, AuxMatches, Absorbed, NewArt, Offered, ArtCaps;
    var ps, roles := st.providers, AuxRoles(t);
    ghost var before := st.calls;
    var s := ArtState(map[], "", "", false, 0);
    visits := [];
    var failed, skipped := false, false;
    FieldsBegin(ps, false, {}, before);
    AuxBegins(ps, roles);
    RolesGoneOn(ps, roles, []);
    while |visits| < |ps|
      invariant |visits| <= |ps| && ServersWanted(ps, t, ArtCaps(t).1, visits)
      invariant st.Valid() && old(st.tripped) <= st.tripped
      invariant st.calls == before + CallsMade(ps, visits) && OutWhenTripped(ps, before, visits)
      invariant AuxMatches(s, ps, roles, visits) && RolesOpen(ps, roles, visits, |visits| + 1)
      invariant (failed <==> SomeErred(visits)) && (skipped <==> SomeSkipped(visits))
      decreases |ps| - |visits|
    {
      var p := ps[|visits|];
      var v := st.Consult(|visits|, Serves(p, t, ArtCaps(t).1), before, visits);
      VisitTallies(visits, v);
      failed, skipped := failed || v.Erred(), skipped || v.Skipped();
      var s' := s;
      if v.Answered() {
        s' := Absorb(v.reply.candidate, p.name, roles, false, s);
      }
      AuxMatchesStep(ps, roles, visits, v, s, s');
      RolesGoOn(ps, roles, visits, v);
      s, visits := s', visits + [v];
      AuxRead(s, ps, roles, visits);
      if v.Answered() && s.auxHeld == |roles| {
        break;
      }
    }
    AuxRead(s, ps, roles, visits);
    RolesGoneOn(ps, roles, visits);
    art, provider := s.art, s.auxProvider;
    sf := Shortfall(failed && s.auxHeld < |roles|, skipped && s.auxHeld < |roles|);
  }

  ghost predicate RolesOpen(ps: seq<Provider>, roles: set<Role>, visits: seq<Visit>, n: nat)
    requires |visits| <= |ps|
  {
    forall j :: 1 <= j < n && j <= |visits| && visits[j - 1].Answered() ==> AuxOf(ps, roles, visits[..j]).Keys != roles
  }

  lemma RolesGoOn(ps: seq<Provider>, roles: set<Role>, visits: seq<Visit>, v: Visit)
    requires |visits| < |ps| && RolesOpen(ps, roles, visits, |visits| + 1)
    ensures RolesOpen(ps, roles, visits + [v], |visits| + 1)
    ensures !(v.Answered() && AuxOf(ps, roles, visits + [v]).Keys == roles) ==>
              RolesOpen(ps, roles, visits + [v], |visits| + 2)
  {
    hide AuxOf;
    var more := visits + [v];
    assert forall j :: 1 <= j <= |visits| ==> more[..j] == visits[..j] && more[j - 1] == visits[j - 1];
    assert more[..|more|] == more;
  }

  lemma RolesGoneOn(ps: seq<Provider>, roles: set<Role>, visits: seq<Visit>)
    requires |visits| <= |ps|
    ensures RolesOpen(ps, roles, visits, |visits| + 1) ==> RolesOpen(ps, roles, visits, |visits|)
    ensures RolesOpen(ps, roles, [], 1)
  {}

  ghost predicate AuxMatches(s: ArtState, ps: seq<Provider>, roles: set<Role>, visits: seq<Visit>)
    requires |visits| <= |ps|
  {
    HoldsState(s, Open, AuxOf(ps, roles, visits), FirstAuxProvider(ps, roles, visits))
  }

  lemma AuxRead(s: ArtState, ps: seq<Provider>, roles: set<Role>, visits: seq<Visit>)
    requires |visits| <= |ps| && AuxMatches(s, ps, roles, visits)
    ensures HoldsArt(s.art, Open, AuxOf(ps, roles, visits)) && s.auxProvider == FirstAuxProvider(ps, roles, visits)
    ensures s.auxHeld <= |roles| && (s.auxHeld < |roles| <==> AuxOf(ps, roles, visits).Keys != roles)
  {
    AuxRolesOnly(ps, roles, visits);
    SubsetCount(AuxOf(ps, roles, visits).Keys, roles);
  }

  lemma AuxBegins(ps: seq<Provider>, roles: set<Role>)
    ensures AuxMatches(ArtState(map[], "", "", false, 0), ps, roles, [])
  {}

  lemma AuxMatchesStep(ps: seq<Provider>, roles: set<Role>, visits: seq<Visit>, v: Visit, s: ArtState, s': ArtState)
    requires |visits| < |ps| && Front !in roles && AuxMatches(s, ps, roles, visits)
    requires if v.Answered()
             then Absorbed(s, s', NewArt(Offered(v.reply.candidate, false), roles, ps[|visits|].name, s.art),
               ps[|visits|].name, false)
             else s' == s
    ensures AuxMatches(s', ps, roles, visits + [v])
  {
    hide AuxOf, FirstAuxProvider, HoldsState, NewArt, Offered, AuxOffers, Absorbed, AddsAux, OffersIn;
    var p, a := ps[|visits|], AuxOf(ps, roles, visits);
    AuxStepOf(ps, roles, visits, v);
    if v.Answered() {
      var n, offers := NewArt(Offered(v.reply.candidate, false), roles, p.name, s.art),
        AuxOffers(v.reply.candidate, roles, p.name);
      AnswerOffers(v, roles, p.name);
      NewArtIs(v.reply.candidate, roles, p.name, false, s.art);
      assert Front !in offers by { FrontNotOffered(v.reply.candidate, roles, p.name); }
      TakenIn(s, s', n, Open, Open, a, offers, FirstAuxProvider(ps, roles, visits), p.name, false, false);
    } else {
      assert OffersIn(v, roles, p.name) == map[] by { SilentOffers(v, roles, p.name); }
      assert map[] + a == a;
    }
  }

  lemma FrontNotOffered(c: Candidate, roles: set<Role>, provider: Name)
    requires Front !in roles
    ensures Front !in AuxOffers(c, roles, provider)
  {}

  lemma SilentOffers(v: Visit, roles: set<Role>, provider: Name)
    requires !v.Answered()
    ensures OffersIn(v, roles, provider) == map[]
  {}
}
