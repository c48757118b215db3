/** The gathers of the enrichment pass (enrich/enrich.go): what one target's walk collects from
    the providers, first offer first, and what it reports short. */
module Gathers {
  import opened Common
  import opened Breaker

  datatype Art = Art(data: Image, provider: Name)

  /** incomplete: a provider called for an open slot failed; unasked: one serving it was out. */
  datatype Shortfall = Shortfall(incomplete: bool, unasked: bool)

  function ArtCaps(t: Rung): (set<Capability>, set<Capability>) {
    if t == ArtistRung then ({ArtistFront}, {ArtistAuxArt}) else ({Cover}, {AuxArt})
  }

  function AuxRoles(t: Rung): (r: set<Role>)
    ensures Front !in r
  {
    if t == ArtistRung then {Background} else {Back, Disc, Booklet, Background}
  }

  // ---------------------------------------------------------------------------
  // Art: reference
  // ---------------------------------------------------------------------------

  datatype FrontState = Open | FromGroup(provider: Name) | Held(art: Art)

  /** The cover alias stands in for a front the role map has no bytes for. */
  function FrontImage(c: Candidate): Image {
    if Front in c.art && c.art[Front] != [] then c.art[Front] else c.cover
  }

  /** How the visits settle the front: the first answer of a front provider that settles it. */
  ghost function FrontOf(ps: seq<Provider>, t: Rung, visits: seq<Visit>): FrontState
    requires |visits| <= |ps|
  {
    if visits == [] then Open
    else
      var k := |visits| - 1;
      var before, p, v := FrontOf(ps, t, visits[..k]), ps[k], visits[k];
      if !before.Open? then before
      else if !v.Answered() || !Serves(p, t, ArtCaps(t).0) then Open
      else if v.reply.candidate.frontIsGroupFront then FromGroup(p.name)
      else if FrontImage(v.reply.candidate) == [] then Open
      else Held(Art(FrontImage(v.reply.candidate), p.name))
  }

  /** An answer that settles the front: a front provider's, with the group's picture or a usable one. */
  predicate SettlesFront(p: Provider, t: Rung, v: Visit) {
    v.Answered() && Serves(p, t, ArtCaps(t).0)
      && (v.reply.candidate.frontIsGroupFront || FrontImage(v.reply.candidate) != [])
  }

  /** The front is open exactly while nobody has settled it, and otherwise is what the first to
      settle it said, the group's picture before any bytes beside it. */
  lemma {:induction false} FirstFrontWins(ps: seq<Provider>, t: Rung, visits: seq<Visit>)
    requires |visits| <= |ps|
    ensures FrontOf(ps, t, visits).Open? <==> forall j :: 0 <= j < |visits| ==> !SettlesFront(ps[j], t, visits[j])
    ensures forall j :: 0 <= j < |visits| && SettlesFront(ps[j], t, visits[j])
              && (forall i :: 0 <= i < j ==> !SettlesFront(ps[i], t, visits[i]))
              ==> FrontOf(ps, t, visits) == if visits[j].reply.candidate.frontIsGroupFront then FromGroup(ps[j].name)
                                            else Held(Art(FrontImage(visits[j].reply.candidate), ps[j].name))
  {
    hide SettlesFront, FrontImage, FrontOf;
    FrontOfLast(ps, t, visits);
    if visits != [] {
      var k := |visits| - 1;
      FirstFrontWins(ps, t, visits[..k]);
      assert forall j :: 0 <= j < k ==> visits[..k][j] == visits[j];
    }
  }

  lemma FrontOfLast(ps: seq<Provider>, t: Rung, visits: seq<Visit>)
    requires |visits| <= |ps|
    ensures visits == [] ==> FrontOf(ps, t, visits).Open?
    ensures visits != [] ==>
              var k := |visits| - 1;
              var before := FrontOf(ps, t, visits[..k]);
              FrontOf(ps, t, visits)
              == if !before.Open? then before
                 else if !SettlesFront(ps[k], t, visits[k]) then Open
                 else if visits[k].reply.candidate.frontIsGroupFront then FromGroup(ps[k].name)
                 else Held(Art(FrontImage(visits[k].reply.candidate), ps[k].name))
  {
    hide Serves, FrontImage;
  }

  /** The usable auxiliary images one candidate offers. */
  function AuxOffers(c: Candidate, roles: set<Role>, provider: Name): map<Role, Art> {
    map r | r in roles && r in c.art && c.art[r] != [] :: Art(c.art[r], provider)
  }

  function OffersIn(v: Visit, roles: set<Role>, provider: Name): map<Role, Art> {
    if v.Answered() then AuxOffers(v.reply.candidate, roles, provider) else map[]
  }

  ghost function AuxOf(ps: seq<Provider>, roles: set<Role>, visits: seq<Visit>): map<Role, Art>
    requires |visits| <= |ps|
  {
    if visits == [] then map[]
    else
      var k := |visits| - 1;
      OffersIn(visits[k], roles, ps[k].name) + AuxOf(ps, roles, visits[..k])
  }

  /** What an answer offers: every image with bytes under a role the entity carries, in the provider's
      name; an answer that is none offers nothing. */
  lemma OffersMean(v: Visit, roles: set<Role>, provider: Name, r: Role)
    ensures r in OffersIn(v, roles, provider) <==>
              v.wanted && !v.out && v.reply.Match? && r in roles && r in v.reply.candidate.art
                && |v.reply.candidate.art[r]| > 0
    ensures r in OffersIn(v, roles, provider) ==>
              OffersIn(v, roles, provider)[r].data == v.reply.candidate.art[r]
                && OffersIn(v, roles, provider)[r].provider == provider
  {}

  /** A candidate's front is its own front image when that has bytes, and its cover otherwise. */
  lemma FrontImageMeans(c: Candidate)
    ensures Front in c.art && |c.art[Front]| > 0 ==> FrontImage(c) == c.art[Front]
    ensures Front !in c.art || |c.art[Front]| == 0 ==> FrontImage(c) == c.cover
  {}

  /** An artist has a front and a background under capabilities of its own; every other entity a front
      and four more roles under the release ones. */
  lemma SlotsAre(t: Rung, c: Capability, r: Role)
    ensures c in ArtCaps(t).0 <==> c == if t == ArtistRung then ArtistFront else Cover
    ensures c in ArtCaps(t).1 <==> c == if t == ArtistRung then ArtistAuxArt else AuxArt
    ensures r in AuxRoles(t) <==> r == Background || (t != ArtistRung && r != Front)
  {}

  /** The auxiliary images are credited to the first provider that offered any. */
  lemma {:induction false} FirstAuxIs(ps: seq<Provider>, roles: set<Role>, visits: seq<Visit>)
    requires |visits| <= |ps| && forall p :: p in ps ==> p.name != ""
    ensures FirstAuxProvider(ps, roles, visits) == "" <==>
              forall j :: 0 <= j < |visits| ==> !OffersAny(ps, roles, visits, j)
    ensures forall j :: 0 <= j < |visits| && OffersAny(ps, roles, visits, j)
                        && (forall i :: 0 <= i < j ==> !OffersAny(ps, roles, visits, i))
              ==> FirstAuxProvider(ps, roles, visits) == ps[j].name
  {
    hide OffersAny, FirstAuxProvider;
    if visits != [] {
      var k := |visits| - 1;
      FirstAuxIs(ps, roles, visits[..k]);
      OffersAnyAhead(ps, roles, visits, k);
      FirstAuxStep(ps, roles, visits);
      assert ps[k] in ps;
    } else {
      FirstAuxNone(ps, roles);
    }
  }

  lemma FirstAuxNone(ps: seq<Provider>, roles: set<Role>)
    ensures FirstAuxProvider(ps, roles, []) == ""
  {}

  lemma FirstAuxStep(ps: seq<Provider>, roles: set<Role>, visits: seq<Visit>)
    requires 0 < |visits| <= |ps|
    requires var k := |visits| - 1;
             FirstAuxProvider(ps, roles, visits[..k]) == "" ==>
               forall j :: 0 <= j < k ==> !OffersAny(ps, roles, visits[..k], j)
    ensures var k := |visits| - 1;
            var before := FirstAuxProvider(ps, roles, visits[..k]);
            FirstAuxProvider(ps, roles, visits)
            == if before == "" && OffersAny(ps, roles, visits, k) then ps[k].name else before
  {
    hide OffersIn, AuxOf;
    var k := |visits| - 1;
    if FirstAuxProvider(ps, roles, visits[..k]) == "" {
      NothingHeld(ps, roles, visits[..k]);
    }
  }

  lemma OffersAnyAhead(ps: seq<Provider>, roles: set<Role>, visits: seq<Visit>, k: nat)
    requires k <= |visits| <= |ps|
    ensures forall j :: 0 <= j < k ==> (OffersAny(ps, roles, visits[..k], j) <==> OffersAny(ps, roles, visits, j))
  {
    hide OffersIn;
  }

  ghost predicate OffersAny(ps: seq<Provider>, roles: set<Role>, visits: seq<Visit>, j: nat)
    requires j < |visits| <= |ps|
  {
    OffersIn(visits[j], roles, ps[j].name).Keys != {}
  }

  lemma {:induction false} NothingHeld(ps: seq<Provider>, roles: set<Role>, visits: seq<Visit>)
    requires |visits| <= |ps| && forall j :: 0 <= j < |visits| ==> !OffersAny(ps, roles, visits, j)
    ensures AuxOf(ps, roles, visits) == map[]
  {
    if visits != [] {
      var k := |visits| - 1;
      assert forall j :: 0 <= j < k ==> (OffersAny(ps, roles, visits[..k], j) <==> OffersAny(ps, roles, visits, j));
      NothingHeld(ps, roles, visits[..k]);
      assert !OffersAny(ps, roles, visits, k);
      assert OffersIn(visits[k], roles, ps[k].name) == map[];
    }
  }

  /** Whether the j-th visit offers the role. */
  ghost predicate OffersAt(ps: seq<Provider>, roles: set<Role>, visits: seq<Visit>, r: Role, j: nat)
    requires j < |visits| <= |ps|
  {
    r in OffersIn(visits[j], roles, ps[j].name)
  }

  /** Whether what is held of the role is the j-th visit's offer of it, provider and all. */
  ghost predicate HeldFrom(ps: seq<Provider>, roles: set<Role>, visits: seq<Visit>, r: Role, j: nat)
    requires j < |visits| <= |ps| && OffersAt(ps, roles, visits, r, j) && r in AuxOf(ps, roles, visits)
  {
    AuxOf(ps, roles, visits)[r] == OffersIn(visits[j], roles, ps[j].name)[r]
  }

  lemma {:induction false} HeldWhenOffered(ps: seq<Provider>, roles: set<Role>, visits: seq<Visit>, r: Role)
    requires |visits| <= |ps|
    ensures r in AuxOf(ps, roles, visits) <==> exists j :: 0 <= j < |visits| && OffersAt(ps, roles, visits, r, j)
  {
    if visits != [] {
      var k := |visits| - 1;
      HeldWhenOffered(ps, roles, visits[..k], r);
      assert forall j :: 0 <= j < k ==> (OffersAt(ps, roles, visits[..k], r, j) <==> OffersAt(ps, roles, visits, r, j));
      assert r in OffersIn(visits[k], roles, ps[k].name) <==> OffersAt(ps, roles, visits, r, k);
      hide OffersIn, OffersAt;
    }
  }

  lemma {:induction false} FirstOfferHeld(ps: seq<Provider>, roles: set<Role>, visits: seq<Visit>, r: Role, j: nat)
    requires j < |visits| <= |ps| && OffersAt(ps, roles, visits, r, j)
    requires forall i :: 0 <= i < j ==> !OffersAt(ps, roles, visits, r, i)
    ensures r in AuxOf(ps, roles, visits)
    ensures AuxOf(ps, roles, visits)[r] == OffersIn(visits[j], roles, ps[j].name)[r]
  {
    hide OffersIn;
    var k := |visits| - 1;
    if j < k {
      assert forall i :: 0 <= i <= j ==>
             (OffersAt(ps, roles, visits[..k], r, i) <==> OffersAt(ps, roles, visits, r, i));
      FirstOfferHeld(ps, roles, visits[..k], r, j);
    } else {
      HeldWhenOffered(ps, roles, visits[..k], r);
      assert forall i :: 0 <= i < k ==> (OffersAt(ps, roles, visits[..k], r, i) <==> OffersAt(ps, roles, visits, r, i));
    }
  }

  /** A role is held exactly when someone offered it, with the first offer made of it. */
  lemma FirstOfferWins(ps: seq<Provider>, roles: set<Role>, visits: seq<Visit>, r: Role)
    requires |visits| <= |ps|
    ensures r in AuxOf(ps, roles, visits) <==> exists j :: 0 <= j < |visits| && OffersAt(ps, roles, visits, r, j)
    ensures forall j :: 0 <= j < |visits| && OffersAt(ps, roles, visits, r, j)
              && (forall i :: 0 <= i < j ==> !OffersAt(ps, roles, visits, r, i))
              ==> r in AuxOf(ps, roles, visits) && HeldFrom(ps, roles, visits, r, j)
  {
    hide AuxOf, OffersIn;
    HeldWhenOffered(ps, roles, visits, r);
    forall j | 0 <= j < |visits| && OffersAt(ps, roles, visits, r, j)
               && (forall i :: 0 <= i < j ==> !OffersAt(ps, roles, visits, r, i))
      ensures r in AuxOf(ps, roles, visits) && HeldFrom(ps, roles, visits, r, j)
    {
      FirstOfferHeld(ps, roles, visits, r, j);
    }
  }

  ghost predicate FrontWanted(ps: seq<Provider>, t: Rung, visits: seq<Visit>, p: Provider)
    requires |visits| <= |ps|
  {
    Serves(p, t, ArtCaps(t).0) && FrontOf(ps, t, visits).Open?
  }

  ghost predicate AuxWanted(ps: seq<Provider>, t: Rung, full: bool, visits: seq<Visit>, p: Provider)
    requires |visits| <= |ps|
  {
    full && Serves(p, t, ArtCaps(t).1) && AuxOf(ps, AuxRoles(t), visits).Keys != AuxRoles(t)
  }

  /** Whether the auxiliary roles are this walk's to fill: it asks for them, and someone serves them. */
  predicate AuxIsOurs(ps: seq<Provider>, t: Rung, full: bool) {
    full && exists p :: p in ps && Serves(p, t, ArtCaps(t).1)
  }

  /** Who is asked: each provider in turn while there is a slot open it could fill. */
  ghost predicate Asked(ps: seq<Provider>, t: Rung, full: bool, visits: seq<Visit>)
    requires |visits| <= |ps|
  {
    && (forall j :: 0 <= j < |visits| ==>
          (visits[j].wanted <==> FrontWanted(ps, t, visits[..j], ps[j]) || AuxWanted(ps, t, full, visits[..j], ps[j])))
    && (forall j :: 0 <= j < |visits| ==> AuxIsOurs(ps, t, full) || FrontOf(ps, t, visits[..j]).Open?)
  }

  /** The walk goes up to the provider after which nothing is left to ask for. */
  ghost predicate ArtWalk(ps: seq<Provider>, t: Rung, full: bool, visits: seq<Visit>) {
    && |visits| <= |ps|
    && Asked(ps, t, full, visits)
    && (|visits| < |ps| ==> !AuxIsOurs(ps, t, full) && !FrontOf(ps, t, visits).Open?)
  }

  ghost predicate FrontFailed(ps: seq<Provider>, t: Rung, visits: seq<Visit>)
    requires |visits| <= |ps|
  {
    exists j :: 0 <= j < |visits| && visits[j].Erred() && FrontWanted(ps, t, visits[..j], ps[j])
  }

  ghost predicate AuxFailed(ps: seq<Provider>, t: Rung, full: bool, visits: seq<Visit>)
    requires |visits| <= |ps|
  {
    exists j :: 0 <= j < |visits| && visits[j].Erred() && AuxWanted(ps, t, full, visits[..j], ps[j])
  }

  ghost predicate SkippedServing(ps: seq<Provider>, t: Rung, want: set<Capability>, visits: seq<Visit>)
    requires |visits| <= |ps|
  {
    exists j :: 0 <= j < |visits| && visits[j].Skipped() && Serves(ps[j], t, want)
  }

  ghost function FirstAuxProvider(ps: seq<Provider>, roles: set<Role>, visits: seq<Visit>): Name
    requires |visits| <= |ps|
  {
    if visits == [] then ""
    else
      var k := |visits| - 1;
      var before := FirstAuxProvider(ps, roles, visits[..k]);
      if before == "" && OffersIn(visits[k], roles, ps[k].name).Keys - AuxOf(ps, roles, visits[..k]).Keys != {}
      then ps[k].name else before
  }

  function FrontProvider(f: FrontState): Name {
    match f case Open => "" case FromGroup(n) => n case Held(a) => a.provider
  }

  datatype ArtGather = ArtGather(art: map<Role, Art>, frontProvider: Name, auxProvider: Name, fromGroup: bool,
                                 front: Shortfall, aux: Shortfall)

  // ---------------------------------------------------------------------------
  // Art: the loops
  // ---------------------------------------------------------------------------

  /** The images of offered that fill a slot still open, in whatever order they come. */
  function NewArt(offered: map<Role, Image>, roles: set<Role>, provider: Name, held: map<Role, Art>): map<Role, Art> {
    map r | r in offered && (r == Front || r in roles) && offered[r] != [] && r !in held :: Art(offered[r], provider)
  }

  /** art is held and, where that has nothing, more. */
  ghost predicate Merged<K, V>(art: map<K, V>, held: map<K, V>, more: map<K, V>) {
    && art.Keys == held.Keys + more.Keys
    && (forall r :: r in held ==> art[r] == held[r])
    && (forall r :: r in more && r !in held ==> art[r] == more[r])
  }

  /** art is held and the part of goal that is not still to be looked at. */
  ghost predicate Taken<K, V>(goal: map<K, V>, held: map<K, V>, todo: set<K>, art: map<K, V>) {
    && (forall r :: r in held ==> r in art && art[r] == held[r])
    && (forall r :: r in goal && r !in todo ==> r in art && art[r] == goal[r])
    && (forall r :: r in art ==> r in held || (r in goal && r !in todo))
  }

  lemma TakenStep<K, V>(goal: map<K, V>, held: map<K, V>, todo: set<K>, art: map<K, V>, r: K)
    requires Taken(goal, held, todo, art) && r in todo
    requires forall x :: x in goal ==> x !in held
    ensures r in goal ==> r !in art && Taken(goal, held, todo - {r}, art[r := goal[r]])
    ensures r !in goal ==> Taken(goal, held, todo - {r}, art)
    ensures r in art <==> r in held
  {}

  /** Whether the front of goal, and how many of its other roles, are no longer to be looked at. */
  ghost predicate Tolled(goal: map<Role, Art>, todo: set<Role>, front: bool, aux: nat) {
    (front <==> Front in goal && Front !in todo) && aux == |goal.Keys - {Front} - todo|
  }

  lemma TollStep(goal: map<Role, Art>, todo: set<Role>, front: bool, aux: nat, r: Role)
    requires r in todo && Tolled(goal, todo, front, aux)
    ensures Tolled(goal, todo - {r}, front || (r in goal && r == Front), aux + if r in goal && r != Front then 1 else 0)
  {
    LeavesTodo(goal.Keys - {Front}, todo, r);
  }

  lemma LeavesTodo<T>(s: set<T>, todo: set<T>, r: T)
    requires r in todo
    ensures |s - (todo - {r})| == |s - todo| + if r in s then 1 else 0
  {
    assert s - (todo - {r}) == if r in s then (s - todo) + {r} else s - todo;
  }

  lemma TollEnds(goal: map<Role, Art>, front: bool, aux: nat)
    requires Tolled(goal, {}, front, aux)
    ensures (front <==> Front in goal) && aux == |goal.Keys - {Front}|
  {
    assert goal.Keys - {Front} - {} == goal.Keys - {Front};
  }

  method TakeOffers(offered: map<Role, Image>, roles: set<Role>, provider: Name, held: map<Role, Art>)
    returns (art: map<Role, Art>, frontTaken: bool, auxTaken: nat)
    requires Front !in roles
    ensures Merged(art, held, NewArt(offered, roles, provider, held))
    ensures frontTaken <==> Front in NewArt(offered, roles, provider, held)
    ensures auxTaken == |NewArt(offered, roles, provider, held).Keys - {Front}|
  {
    hide Taken, NewArt, Merged, Tolled;
    ghost var goal := NewArt(offered, roles, provider, held);
    art, frontTaken, auxTaken := held, false, 0;
    var todo := offered.Keys;
    forall r ensures r in goal ==> r in offered && r !in held {
      NewArtAt(offered, roles, provider, held, r);
    }
    TakenBegins(goal, held, todo);
    while todo != {}
      invariant todo <= offered.Keys
      invariant Taken(goal, held, todo, art)
      invariant Tolled(goal, todo, frontTaken, auxTaken)
      decreases todo
    {
      var role :| role in todo;
      NewArtAt(offered, roles, provider, held, role);
      TakenStep(goal, held, todo, art, role);
      TollStep(goal, todo, frontTaken, auxTaken, role);
      todo := todo - {role};
      if (role == Front || role in roles) && offered[role] != [] && role !in art {
        art := art[role := Art(offered[role], provider)];
        if role == Front {
          frontTaken := true;
        } else {
          auxTaken := auxTaken + 1;
        }
      }
    }
    TollEnds(goal, frontTaken, auxTaken);
    TakenAll(goal, held, art);
  }

  lemma NewArtAt(offered: map<Role, Image>, roles: set<Role>, provider: Name, held: map<Role, Art>, r: Role)
    ensures var n := NewArt(offered, roles, provider, held);
            && (r in n <==> r in offered && (r == Front || r in roles) && offered[r] != [] && r !in held)
            && (r in n ==> n[r] == Art(offered[r], provider))
  {}

  lemma TakenAll<K, V>(goal: map<K, V>, held: map<K, V>, art: map<K, V>)
    requires Taken(goal, held, {}, art) && forall r :: r in goal ==> r !in held
    ensures Merged(art, held, goal)
  {}

  lemma TakenBegins(goal: map<Role, Art>, held: map<Role, Art>, todo: set<Role>)
    requires goal.Keys <= todo
    ensures Taken(goal, held, todo, held)
    ensures Tolled(goal, todo, false, 0)
  {
    assert goal.Keys - {Front} - todo == {};
  }

  /** What a gather's walk holds so far. */
  datatype ArtState = ArtState(art: map<Role, Art>, frontProvider: Name, auxProvider: Name, fromGroup: bool,
                               auxHeld: nat)

  ghost predicate HoldsArt(art: map<Role, Art>, f: FrontState, a: map<Role, Art>) {
    && (Front in art <==> f.Held?)
    && (f.Held? ==> art[Front] == f.art)
    && (forall r :: r != Front ==> (r in art <==> r in a))
    && (forall r :: r != Front && r in a ==> art[r] == a[r])
  }

  /** The loop's variables say what the reference makes of the visits. */
  ghost predicate Matches(s: ArtState, ps: seq<Provider>, t: Rung, visits: seq<Visit>)
    requires |visits| <= |ps|
  {
    HoldsState(s, FrontOf(ps, t, visits), AuxOf(ps, AuxRoles(t), visits), FirstAuxProvider(ps, AuxRoles(t), visits))
  }

  ghost predicate HoldsState(s: ArtState, f: FrontState, a: map<Role, Art>, auxProvider: Name) {
    && HoldsArt(s.art, f, a)
    && s.frontProvider == FrontProvider(f)
    && s.fromGroup == f.FromGroup?
    && s.auxProvider == auxProvider
    && s.auxHeld == |a.Keys|
  }

  /** The roles a candidate is taken to offer: a front only when it was asked for one, and no
      bytes for a front it settles with the group's picture. */
  function Offered(c: Candidate, askFront: bool): map<Role, Image> {
    if !askFront || c.frontIsGroupFront then c.art - {Front}
    else c.art[Front := FrontImage(c)]
  }

  /** s' is s with the images new_ of one answer taken in. */
  ghost predicate Absorbed(s: ArtState, s': ArtState, new_: map<Role, Art>, provider: Name, group: bool) {
    && Merged(s'.art, s.art, new_)
    && s'.frontProvider == (if group || Front in new_ then provider else s.frontProvider)
    && s'.auxProvider == (if s.auxProvider == "" && |new_.Keys - {Front}| > 0 then provider else s.auxProvider)
    && s'.fromGroup == (s.fromGroup || group)
    && s'.auxHeld == s.auxHeld + |new_.Keys - {Front}|
  }

  method OfferedRoles(c: Candidate, askFront: bool) returns (offered: map<Role, Image>)
    ensures offered == Offered(c, askFront)
  {
    offered := c.art;
    if askFront && !c.frontIsGroupFront {
      if Front !in offered || offered[Front] == [] {
        offered := offered[Front := c.cover];
      }
    } else {
      offered := offered - {Front};
    }
  }

  method Absorb(c: Candidate, provider: Name, roles: set<Role>, askFront: bool, s: ArtState) returns (s': ArtState)
    requires Front !in roles
    ensures Absorbed(s, s', NewArt(Offered(c, askFront), roles, provider, s.art), provider,
                     askFront && c.frontIsGroupFront)
  {
    hide NewArt, Merged, Offered;
    var fromGroup, frontProvider := s.fromGroup, s.frontProvider;
    if askFront && c.frontIsGroupFront {
      fromGroup, frontProvider := true, provider;
    }
    var offered := OfferedRoles(c, askFront);
    var art, frontTaken, auxTaken := TakeOffers(offered, roles, provider, s.art);
    if frontTaken {
      frontProvider := provider;
    }
    s' := ArtState(art, frontProvider, if s.auxProvider == "" && auxTaken > 0 then provider else s.auxProvider,
                   fromGroup, s.auxHeld + auxTaken);
  }

  lemma {:induction false} AuxRolesOnly(ps: seq<Provider>, roles: set<Role>, visits: seq<Visit>)
    requires |visits| <= |ps|
    ensures AuxOf(ps, roles, visits).Keys <= roles
  {
    if visits != [] {
      AuxRolesOnly(ps, roles, visits[..|visits| - 1]);
    }
  }

  lemma FrontStep(ps: seq<Provider>, t: Rung, visits: seq<Visit>, v: Visit)
    requires |visits| < |ps|
    ensures FrontOf(ps, t, visits + [v])
         == if !v.Answered() || !FrontWanted(ps, t, visits, ps[|visits|]) then FrontOf(ps, t, visits)
            else if v.reply.candidate.frontIsGroupFront then FromGroup(ps[|visits|].name)
            else if FrontImage(v.reply.candidate) == [] then Open
            else Held(Art(FrontImage(v.reply.candidate), ps[|visits|].name))
  {
    assert (visits + [v])[..|visits|] == visits;
  }

  lemma AuxStepOf(ps: seq<Provider>, roles: set<Role>, visits: seq<Visit>, v: Visit)
    requires |visits| < |ps|
    ensures var offers, a := OffersIn(v, roles, ps[|visits|].name), AuxOf(ps, roles, visits);
            && AuxOf(ps, roles, visits + [v]) == offers + a
            && |(offers + a).Keys| == |a.Keys| + |offers.Keys - a.Keys|
            && FirstAuxProvider(ps, roles, visits + [v])
               == if FirstAuxProvider(ps, roles, visits) == "" && |offers.Keys - a.Keys| > 0
                  then ps[|visits|].name else FirstAuxProvider(ps, roles, visits)
  {
    var offers, a := OffersIn(v, roles, ps[|visits|].name), AuxOf(ps, roles, visits);
    assert (visits + [v])[..|visits|] == visits;
    assert (offers + a).Keys == a.Keys + (offers.Keys - a.Keys);
    hide OffersIn;
  }

  /** n adds a's missing roles out of offers, besides any front. */
  ghost predicate AddsAux(n: map<Role, Art>, offers: map<Role, Art>, a: map<Role, Art>) {
    && (forall r :: r != Front ==> (r in n <==> r in offers && r !in a))
    && (forall r :: r != Front && r in n ==> n[r] == offers[r])
  }

  lemma AddsAuxCount(n: map<Role, Art>, offers: map<Role, Art>, a: map<Role, Art>)
    requires AddsAux(n, offers, a) && Front !in offers
    ensures |n.Keys - {Front}| == |offers.Keys - a.Keys|
  {
    assert n.Keys - {Front} == offers.Keys - a.Keys;
  }

  /** The images an answer adds: a usable front it was asked for, and its offers of the
      auxiliary roles not yet held. */
  lemma NewArtIs(c: Candidate, roles: set<Role>, provider: Name, askFront: bool, held: map<Role, Art>)
    requires Front !in roles
    ensures var n := NewArt(Offered(c, askFront), roles, provider, held);
            && (Front in n <==> askFront && !c.frontIsGroupFront && FrontImage(c) != [] && Front !in held)
            && (Front in n ==> n[Front] == Art(FrontImage(c), provider))
            && AddsAux(n, AuxOffers(c, roles, provider), held)
  {
    assert forall r :: r != Front ==> (r in Offered(c, askFront) <==> r in c.art);
  }

  lemma QuietVisit(ps: seq<Provider>, t: Rung, visits: seq<Visit>, v: Visit, s: ArtState)
    requires |visits| < |ps| && !v.Answered() && Matches(s, ps, t, visits)
    ensures Matches(s, ps, t, visits + [v])
  {
    hide FrontOf, AuxOf, FirstAuxProvider, HoldsArt;
    FrontStep(ps, t, visits, v);
    AuxStepOf(ps, AuxRoles(t), visits, v);
    assert map[] + AuxOf(ps, AuxRoles(t), visits) == AuxOf(ps, AuxRoles(t), visits);
  }

  /** Taking an answer in as the loop does is what the reference makes of one more visit. */
  lemma AnsweredVisit(ps: seq<Provider>, t: Rung, visits: seq<Visit>, v: Visit, s: ArtState, s': ArtState)
    requires |visits| < |ps| && v.Answered() && Matches(s, ps, t, visits)
    requires var askFront := FrontWanted(ps, t, visits, ps[|visits|]);
             var c, provider := v.reply.candidate, ps[|visits|].name;
             Absorbed(s, s', NewArt(Offered(c, askFront), AuxRoles(t), provider, s.art), provider,
                      askFront && c.frontIsGroupFront)
    ensures Matches(s', ps, t, visits + [v])
  {
    hide FrontOf, AuxOf, FirstAuxProvider, NewArt, Offered, AuxOffers, OffersIn, AuxRoles, HoldsState, Absorbed,
      AddsAux, FrontWanted;
    var roles, c, p := AuxRoles(t), v.reply.candidate, ps[|visits|];
    var f, a, first := FrontOf(ps, t, visits), AuxOf(ps, roles, visits), FirstAuxProvider(ps, roles, visits);
    var askFront := FrontWanted(ps, t, visits, p);
    var n, offers := NewArt(Offered(c, askFront), roles, p.name, s.art), AuxOffers(c, roles, p.name);
    StateRead(s, f, a, first);
    FrontNext(ps, t, visits, v, s.art, n);
    AuxStepOf(ps, roles, visits, v);
    AnswerOffers(v, roles, p.name);
    NoFrontAmong(ps, t, visits, c, p.name);
    TakenIn(s, s', n, f, FrontOf(ps, t, visits + [v]), a, offers, first, p.name, askFront,
            askFront && c.frontIsGroupFront);
  }

  lemma StateRead(s: ArtState, f: FrontState, a: map<Role, Art>, first: Name)
    requires HoldsState(s, f, a, first)
    ensures HoldsArt(s.art, f, a)
  {}

  lemma AnswerOffers(v: Visit, roles: set<Role>, provider: Name)
    requires v.Answered()
    ensures OffersIn(v, roles, provider) == AuxOffers(v.reply.candidate, roles, provider)
  {}

  lemma NoFrontAmong(ps: seq<Provider>, t: Rung, visits: seq<Visit>, c: Candidate, provider: Name)
    requires |visits| <= |ps|
    ensures Front !in AuxOf(ps, AuxRoles(t), visits) && Front !in AuxOffers(c, AuxRoles(t), provider)
  {
    AuxRolesOnly(ps, AuxRoles(t), visits);
  }

  /** The same, with the reference's values before and after named. */
  lemma TakenIn(s: ArtState, s': ArtState, n: map<Role, Art>, f: FrontState, f': FrontState, a: map<Role, Art>,
                offers: map<Role, Art>, first: Name, provider: Name, askFront: bool, group: bool)
    requires HoldsState(s, f, a, first) && Front !in offers && AddsAux(n, offers, s.art)
    requires Absorbed(s, s', n, provider, group) && (askFront ==> f.Open?) && (group ==> askFront)
    requires Front in n ==> askFront && !group && n[Front].provider == provider
    requires f' == if group then FromGroup(provider) else if Front in n then Held(n[Front]) else f
    requires |(offers + a).Keys| == |a.Keys| + |offers.Keys - a.Keys|
    ensures HoldsState(s', f', offers + a, if first == "" && |offers.Keys - a.Keys| > 0 then provider else first)
  {
    hide HoldsArt, Merged, AddsAux, FrontProvider;
    HeldAuxKeys(s.art, n, f, a, offers);
    AddsAuxCount(n, offers, a);
    FrontNamed(f, f', n, provider, askFront, group);
    MergedHolds(s.art, s'.art, n, f, f', a, offers);
  }

  lemma FrontNamed(f: FrontState, f': FrontState, n: map<Role, Art>, provider: Name, askFront: bool, group: bool)
    requires (askFront ==> f.Open?) && (group ==> askFront)
    requires Front in n ==> askFront && !group && n[Front].provider == provider
    requires f' == if group then FromGroup(provider) else if Front in n then Held(n[Front]) else f
    ensures FrontProvider(f') == if group || Front in n then provider else FrontProvider(f)
    ensures f'.FromGroup? <==> f.FromGroup? || group
    ensures (f'.Held? <==> f.Held? || Front in n) && (f.Held? ==> f' == f)
    ensures Front in n ==> !f.Held? && f' == Held(n[Front])
  {}

  /** The front after one more answer, and what that answer adds. */
  lemma FrontNext(ps: seq<Provider>, t: Rung, visits: seq<Visit>, v: Visit, art: map<Role, Art>, n: map<Role, Art>)
    requires |visits| < |ps| && v.Answered() && HoldsArt(art, FrontOf(ps, t, visits), AuxOf(ps, AuxRoles(t), visits))
    requires n ==
               NewArt(Offered(v.reply.candidate, FrontWanted(ps, t, visits, ps[|visits|])), AuxRoles(t),
                 ps[|visits|].name, art)
    ensures var askFront, c, provider := FrontWanted(ps, t, visits, ps[|visits|]), v.reply.candidate, ps[|visits|].name;
            var group := askFront && c.frontIsGroupFront;
            && (askFront ==> FrontOf(ps, t, visits).Open?)
            && (Front in n ==> askFront && !group && n[Front].provider == provider)
            && FrontOf(ps, t, visits + [v])
               == (if group then FromGroup(provider) else if Front in n then Held(n[Front]) else FrontOf(ps, t, visits))
            && AddsAux(n, AuxOffers(c, AuxRoles(t), provider), art)
  {
    hide FrontOf, AuxOf, NewArt, Offered, AuxOffers, AuxRoles, HoldsArt, AddsAux, Serves, FrontImage;
    FrontStep(ps, t, visits, v);
    NewArtIs(v.reply.candidate, AuxRoles(t), ps[|visits|].name, FrontWanted(ps, t, visits, ps[|visits|]), art);
    HeldFront(art, FrontOf(ps, t, visits), AuxOf(ps, AuxRoles(t), visits));
  }

  lemma HeldFront(art: map<Role, Art>, f: FrontState, a: map<Role, Art>)
    requires HoldsArt(art, f, a)
    ensures Front in art <==> f.Held?
  {}

  lemma HeldAuxKeys(art: map<Role, Art>, n: map<Role, Art>, f: FrontState, a: map<Role, Art>, offers: map<Role, Art>)
    requires HoldsArt(art, f, a) && AddsAux(n, offers, art)
    ensures AddsAux(n, offers, a) && (Front in art <==> f.Held?)
  {}

  lemma MergedHolds(art: map<Role, Art>, art': map<Role, Art>, n: map<Role, Art>, f: FrontState, f': FrontState,
                    a: map<Role, Art>, offers: map<Role, Art>)
    requires HoldsArt(art, f, a) && Merged(art', art, n) && AddsAux(n, offers, a)
    requires f'.Held? <==> f.Held? || Front in n
    requires f.Held? ==> f' == f
    requires Front in n && !f.Held? ==> f'.Held? && f'.art == n[Front]
    ensures HoldsArt(art', f', offers + a)
  {}

  /** What the visits of an art gather amount to. */
  ghost predicate ArtResult(ps: seq<Provider>, t: Rung, full: bool, visits: seq<Visit>, g: ArtGather)
    requires |visits| <= |ps|
  {
    var f, a, roles := FrontOf(ps, t, visits), AuxOf(ps, AuxRoles(t), visits), AuxRoles(t);
    var auxOpen := AuxIsOurs(ps, t, full) && a.Keys != roles;
    && HoldsArt(g.art, f, a)
    && g.fromGroup == f.FromGroup?
    && g.frontProvider == FrontProvider(f)
    && g.auxProvider == FirstAuxProvider(ps, roles, visits)
    && (g.front.incomplete <==> f.Open? && FrontFailed(ps, t, visits))
    && (g.front.unasked <==> f.Open? && SkippedServing(ps, t, ArtCaps(t).0, visits))
    && (g.aux.incomplete <==> auxOpen && AuxFailed(ps, t, full, visits))
    && (g.aux.unasked <==> auxOpen && SkippedServing(ps, t, ArtCaps(t).1, visits))
  }

  /** A settled front stays settled and a held role held, over the visits after the j-th. */
  lemma {:induction false} SlotsStayFilled(ps: seq<Provider>, t: Rung, visits: seq<Visit>, j: nat)
    requires j <= |visits| <= |ps|
    ensures FrontOf(ps, t, visits).Open? ==> FrontOf(ps, t, visits[..j]).Open?
    ensures AuxOf(ps, AuxRoles(t), visits[..j]).Keys <= AuxOf(ps, AuxRoles(t), visits).Keys <= AuxRoles(t)
    decreases |visits|
  {
    hide AuxRoles, ArtCaps, Serves, FrontImage;
    if visits != [] {
      var k := |visits| - 1;
      assert visits[..|visits|] == visits;
      SlotsStayFilled(ps, t, visits[..k], if j < k then j else k);
      assert visits[..k][..k] == visits[..k];
      assert j <= k ==> visits[..k][..j] == visits[..j];
    } else {
      assert visits[..j] == visits;
    }
  }

  /** What a half wants for, said of the providers asked and the art left. A half is incomplete when a
      provider that serves it failed, and unasked when one was out, and at the end it is open: for the
      front, without an image and without the group's; for the others, asked for and without a role.
      A walk whose lookup asks for no more than a front, or that nobody serves the rest for, ends at the
      first to settle the front; any other goes over every provider. */
  lemma HalvesMean(ps: seq<Provider>, t: Rung, full: bool, visits: seq<Visit>, g: ArtGather)
    requires ArtWalk(ps, t, full, visits) && ArtResult(ps, t, full, visits, g)
    ensures g.front.incomplete <==>
              Front !in g.art && !g.fromGroup
              && exists j :: 0 <= j < |visits| && visits[j].Erred() && Serves(ps[j], t, ArtCaps(t).0)
    ensures g.front.unasked <==>
              Front !in g.art && !g.fromGroup
              && exists j :: 0 <= j < |visits| && visits[j].Skipped() && Serves(ps[j], t, ArtCaps(t).0)
    ensures g.aux.incomplete <==>
              full && (exists r :: r in AuxRoles(t) && r !in g.art)
              && exists j :: 0 <= j < |visits| && visits[j].Erred() && Serves(ps[j], t, ArtCaps(t).1)
    ensures g.aux.unasked <==>
              full && (exists r :: r in AuxRoles(t) && r !in g.art)
              && exists j :: 0 <= j < |visits| && visits[j].Skipped() && Serves(ps[j], t, ArtCaps(t).1)
    ensures var alone := !full || forall i :: 0 <= i < |ps| ==> !Serves(ps[i], t, ArtCaps(t).1);
            && (|visits| < |ps| ==> alone && (Front in g.art || g.fromGroup))
            && (alone ==> forall i :: 0 <= i < |visits| - 1 ==> !SettlesFront(ps[i], t, visits[i]))
  {
    hide FrontOf, AuxOf, Serves, ArtCaps, SettlesFront, AuxRoles;
    SlotsLeft(ps, t, visits, g.art);
    forall j | 0 <= j < |visits|
      ensures FrontOf(ps, t, visits).Open? ==> FrontOf(ps, t, visits[..j]).Open?
      ensures AuxOf(ps, AuxRoles(t), visits).Keys != AuxRoles(t) ==>
                AuxOf(ps, AuxRoles(t), visits[..j]).Keys != AuxRoles(t)
    {
      SlotsStayFilled(ps, t, visits, j);
    }
    if visits != [] {
      FrontUnsettled(ps, t, visits, |visits| - 1);
    }
  }

  lemma SlotsLeft(ps: seq<Provider>, t: Rung, visits: seq<Visit>, art: map<Role, Art>)
    requires |visits| <= |ps| && HoldsArt(art, FrontOf(ps, t, visits), AuxOf(ps, AuxRoles(t), visits))
    ensures AuxOf(ps, AuxRoles(t), visits).Keys != AuxRoles(t) <==> exists r :: r in AuxRoles(t) && r !in art
  {
    hide FrontOf, AuxOf;
    SlotsStayFilled(ps, t, visits, |visits|);
    FrontNoRole(t);
  }

  lemma FrontUnsettled(ps: seq<Provider>, t: Rung, visits: seq<Visit>, k: nat)
    requires k <= |visits| <= |ps|
    ensures FrontOf(ps, t, visits[..k]).Open? <==> forall i :: 0 <= i < k ==> !SettlesFront(ps[i], t, visits[i])
  {
    hide FrontOf, SettlesFront;
    FirstFrontWins(ps, t, visits[..k]);
    assert forall i :: 0 <= i < k ==> visits[..k][i] == visits[i];
  }

  lemma FrontNoRole(t: Rung)
    ensures Front !in AuxRoles(t)
  {}

  /** The loop's own tallies of failures and skips. */
  ghost predicate Tallied(ps: seq<Provider>, t: Rung, full: bool, visits: seq<Visit>, failedFront: bool,
                          failedAux: bool, skipped: seq<Provider>)
    requires |visits| <= |ps|
  {
    && (failedFront <==> FrontFailed(ps, t, visits))
    && (failedAux <==> AuxIsOurs(ps, t, full) && AuxFailed(ps, t, full, visits))
    && (forall want :: (exists p :: p in skipped && Serves(p, t, want)) <==> SkippedServing(ps, t, want, visits))
  }

  lemma TallyStep(ps: seq<Provider>, t: Rung, full: bool, visits: seq<Visit>, v: Visit, failedFront: bool,
                  failedAux: bool, skipped: seq<Provider>)
    requires |visits| < |ps| && Tallied(ps, t, full, visits, failedFront, failedAux, skipped)
    ensures Tallied(ps, t, full, visits + [v],
                    failedFront || (v.Erred() && FrontWanted(ps, t, visits, ps[|visits|])),
                    failedAux || (v.Erred() && AuxIsOurs(ps, t, full) && AuxWanted(ps, t, full, visits, ps[|visits|])),
                    if v.Skipped() then skipped + [ps[|visits|]] else skipped)
  {
    var more, k := visits + [v], |visits|;
    hide FrontWanted, AuxWanted, AuxIsOurs;
    assert forall j :: 0 <= j < k ==> more[..j] == visits[..j] && more[j] == visits[j];
    assert more[..k] == visits && more[k] == v;
    FailedStep(ps, t, full, visits, v);
    forall want ensures SkippedServing(ps, t, want, more) <==>
      SkippedServing(ps, t, want, visits) || (v.Skipped() && Serves(ps[k], t, want)) {
      SkippedStep(ps, t, want, visits, v);
    }
    hide FrontFailed, AuxFailed, SkippedServing, Serves;
    var skipped' := if v.Skipped() then skipped + [ps[k]] else skipped;
    forall want ensures (exists p :: p in skipped' && Serves(p, t, want)) <==> SkippedServing(ps, t, want, more) {
      assert (exists p :: p in skipped && Serves(p, t, want)) <==> SkippedServing(ps, t, want, visits);
      if v.Skipped() {
        assert ps[k] in skipped';
        assert forall p :: p in skipped' <==> p in skipped || p == ps[k];
      }
    }
  }

  lemma FailedStep(ps: seq<Provider>, t: Rung, full: bool, visits: seq<Visit>, v: Visit)
    requires |visits| < |ps|
    ensures FrontFailed(ps, t, visits + [v])
       <==> FrontFailed(ps, t, visits) || (v.Erred() && FrontWanted(ps, t, visits, ps[|visits|]))
    ensures AuxFailed(ps, t, full, visits + [v])
       <==> AuxFailed(ps, t, full, visits) || (v.Erred() && AuxWanted(ps, t, full, visits, ps[|visits|]))
  {
    hide FrontWanted, AuxWanted;
    var more, k := visits + [v], |visits|;
    assert forall j :: 0 <= j < k ==> more[..j] == visits[..j] && more[j] == visits[j];
    assert more[..k] == visits && more[k] == v;
  }

  lemma SkippedStep(ps: seq<Provider>, t: Rung, want: set<Capability>, visits: seq<Visit>, v: Visit)
    requires |visits| < |ps|
    ensures SkippedServing(ps, t, want, visits + [v])
       <==> SkippedServing(ps, t, want, visits) || (v.Skipped() && Serves(ps[|visits|], t, want))
  {
    hide Serves;
    var more, k := visits + [v], |visits|;
    assert forall j :: 0 <= j < k ==> more[j] == visits[j];
    assert more[k] == v;
  }

  lemma WalkExtends(ps: seq<Provider>, t: Rung, full: bool, visits: seq<Visit>, v: Visit)
    requires |visits| < |ps| && Asked(ps, t, full, visits)
    requires v.wanted <==> FrontWanted(ps, t, visits, ps[|visits|]) || AuxWanted(ps, t, full, visits, ps[|visits|])
    requires AuxIsOurs(ps, t, full) || FrontOf(ps, t, visits).Open?
    ensures Asked(ps, t, full, visits + [v])
  {
    hide FrontWanted, AuxWanted, AuxIsOurs, FrontOf;
    var more, k := visits + [v], |visits|;
    assert forall j :: 0 <= j < k ==> more[..j] == visits[..j] && more[j] == visits[j];
    assert more[..k] == visits && more[k] == v;
  }

  method ServesAny(ps: seq<Provider>, t: Rung, want: set<Capability>) returns (b: bool)
    ensures b <==> exists p :: p in ps && Serves(p, t, want)
  {
    for i := 0 to |ps|
      invariant forall p :: p in ps[..i] ==> !Serves(p, t, want)
    {
      if Serves(ps[i], t, want) {
        return true;
      }
      assert ps[..i + 1] == ps[..i] + [ps[i]];
    }
    assert ps[..|ps|] == ps;
    return false;
  }

  datatype ArtLoop = ArtLoop(held: ArtState, failedFront: bool, failedAux: bool, skipped: seq<Provider>)

  ghost predicate InLoop(ps: seq<Provider>, t: Rung, full: bool, visits: seq<Visit>, l: ArtLoop)
    requires |visits| <= |ps|
  {
    && Asked(ps, t, full, visits)
    && Matches(l.held, ps, t, visits)
    && Tallied(ps, t, full, visits, l.failedFront, l.failedAux, l.skipped)
  }

  /** One provider's turn: asked for what is open and it serves, skipped when it is out. */
  method ArtTurn(st: RunState, t: Rung, full: bool, wantAux: bool, l: ArtLoop, ghost before: seq<Call>,
                 visits: seq<Visit>)
    returns (l': ArtLoop, v: Visit)
    requires st.Valid() && |visits| < |st.providers| && InLoop(st.providers, t, full, visits, l)
    requires st.calls == before + CallsMade(st.providers, visits) && OutWhenTripped(st.providers, before, visits)
    requires wantAux <==> AuxIsOurs(st.providers, t, full)
    requires wantAux || FrontOf(st.providers, t, visits).Open?
    modifies st
    ensures st.Valid() && old(st.tripped) <= st.tripped && |old(st.calls)| <= |st.calls|
    ensures EndsInCall(st.endsDuring, old(st.doneFrom), st.doneFrom, |st.calls|)
    ensures st.calls == before + CallsMade(st.providers, visits + [v])
              && OutWhenTripped(st.providers, before, visits + [v])
    ensures InLoop(st.providers, t, full, visits + [v], l')
  {
    hide FrontOf, AuxOf, FirstAuxProvider, Asked, Tallied, CallsMade, OutWhenTripped, HoldsArt, Absorbed, Serves,
      Tracks, Heard, Matches, AuxIsOurs, NewArt, Offered, ArtCaps, AuxRoles, FrontWanted, AuxWanted;
    var ps, roles, s, j := st.providers, AuxRoles(t), l.held, |visits|;
    var p := ps[j];
    AsksForOpen(s, ps, t, full, visits, p);
    var askFront := Serves(p, t, ArtCaps(t).0) && !s.fromGroup && Front !in s.art;
    var askAux := full && Serves(p, t, ArtCaps(t).1) && s.auxHeld < |roles|;
    v := st.Consult(j, askFront || askAux, before, visits);
    WalkExtends(ps, t, full, visits, v);
    TallyStep(ps, t, full, visits, v, l.failedFront, l.failedAux, l.skipped);
    var s' := TakeAnswer(ps, t, visits, v, s, askFront);
    l' := ArtLoop(s', l.failedFront || (v.Erred() && askFront), l.failedAux || (v.Erred() && wantAux && askAux),
                  if v.Skipped() then l.skipped + [p] else l.skipped);
  }

  /** What a turn leaves held: an answer's offers taken in, anything else passed over. */
  method TakeAnswer(ps: seq<Provider>, t: Rung, visits: seq<Visit>, v: Visit, s: ArtState, askFront: bool)
    returns (s': ArtState)
    requires |visits| < |ps| && Matches(s, ps, t, visits) && (askFront <==> FrontWanted(ps, t, visits, ps[|visits|]))
    ensures Matches(s', ps, t, visits + [v])
  {
    hide Matches, FrontWanted, Absorbed, NewArt, Offered;
    s' := s;
    if v.Answered() {
      s' := Absorb(v.reply.candidate, ps[|visits|].name, AuxRoles(t), askFront, s);
      AnsweredVisit(ps, t, visits, v, s, s');
    } else {
      QuietVisit(ps, t, visits, v, s);
    }
  }

  /** What the loop asks a provider for is what is open and it serves. */
  lemma AsksForOpen(s: ArtState, ps: seq<Provider>, t: Rung, full: bool, visits: seq<Visit>, p: Provider)
    requires |visits| <= |ps| && Matches(s, ps, t, visits)
    ensures Serves(p, t, ArtCaps(t).0) && !s.fromGroup && Front !in s.art <==> FrontWanted(ps, t, visits, p)
    ensures full && Serves(p, t, ArtCaps(t).1) && s.auxHeld < |AuxRoles(t)| <==> AuxWanted(ps, t, full, visits, p)
    ensures Front !in AuxRoles(t)
  {
    hide FrontOf, AuxOf, Serves, Matches;
    SlotsOpen(s, ps, t, visits);
  }

  /** What the loop's variables come to: a half is short only while it is open. */
  method ArtEnd(ps: seq<Provider>, t: Rung, full: bool, wantAux: bool, l: ArtLoop, ghost visits: seq<Visit>)
    returns (g: ArtGather)
    requires |visits| <= |ps| && InLoop(ps, t, full, visits, l) && (wantAux <==> AuxIsOurs(ps, t, full))
    ensures ArtResult(ps, t, full, visits, g) && !(g.fromGroup && Front in g.art)
  {
    hide FrontOf, AuxOf, FirstAuxProvider, Asked, Tallied, HoldsArt, Serves, AuxIsOurs, FrontFailed, AuxFailed,
      SkippedServing;
    var s := l.held;
    SlotsOpen(s, ps, t, visits);
    var frontSettled := s.fromGroup || Front in s.art;
    var auxOpen := wantAux && s.auxHeld < |AuxRoles(t)|;
    var frontSkipped := ServesAny(l.skipped, t, ArtCaps(t).0);
    var auxSkipped := ServesAny(l.skipped, t, ArtCaps(t).1);
    TalliesRead(ps, t, full, visits, l.failedFront, l.failedAux, l.skipped);
    g := ArtGather(s.art, s.frontProvider, s.auxProvider, s.fromGroup,
                   Shortfall(l.failedFront && !frontSettled, !frontSettled && frontSkipped),
                   Shortfall(l.failedAux && auxOpen, auxOpen && auxSkipped));
  }

  method GatherArt(st: RunState, t: Rung, full: bool) returns (g: ArtGather, visits: seq<Visit>)
    requires st.Valid()
    modifies st
    ensures st.Valid() && old(st.tripped) <= st.tripped
    ensures EndsInCall(st.endsDuring, old(st.doneFrom), st.doneFrom, |st.calls|)
    ensures |visits| <= |st.providers| && ArtWalk(st.providers, t, full, visits)
    ensures st.calls == old(st.calls) + CallsMade(st.providers, visits)
    ensures OutWhenTripped(st.providers, old(st.calls), visits)
    ensures ArtResult(st.providers, t, full, visits, g)
    ensures !(g.fromGroup && Front in g.art)
  {
    hide FrontOf, AuxOf, Asked, CallsMade, OutWhenTripped, Serves, Tracks, Heard, ArtResult, Tallied, Matches;
    var ps := st.providers;
    ghost var before := st.calls;
    var served := ServesAny(ps, t, ArtCaps(t).1);
    var wantAux := full && served;
    var l := ArtLoop(ArtState(map[], "", "", false, 0), false, false, []);
    visits := [];
    GatherBegins(ps, t, full, before);
    while |visits| < |ps| && (wantAux || !(l.held.fromGroup || Front in l.held.art))
      invariant |visits| <= |ps| && InLoop(ps, t, full, visits, l)
      invariant st.Valid() && old(st.tripped) <= st.tripped
      invariant EndsInCall(st.endsDuring, old(st.doneFrom), st.doneFrom, |st.calls|)
      invariant st.calls == before + CallsMade(ps, visits) && OutWhenTripped(ps, before, visits)
      decreases |ps| - |visits|
    {
      SlotsOpen(l.held, ps, t, visits);
      var l', v := ArtTurn(st, t, full, wantAux, l, before, visits);
      l, visits := l', visits + [v];
    }
    SlotsOpen(l.held, ps, t, visits);
    g := ArtEnd(ps, t, full, wantAux, l, visits);
  }

  lemma GatherBegins(ps: seq<Provider>, t: Rung, full: bool, before: seq<Call>)
    ensures Asked(ps, t, full, []) && Matches(ArtState(map[], "", "", false, 0), ps, t, [])
    ensures Tallied(ps, t, full, [], false, false, [])
    ensures before + CallsMade(ps, []) == before && OutWhenTripped(ps, before, []) && FrontOf(ps, t, []).Open?
  {}

  lemma TalliesRead(ps: seq<Provider>, t: Rung, full: bool, visits: seq<Visit>, failedFront: bool, failedAux: bool,
                    skipped: seq<Provider>)
    requires |visits| <= |ps| && Tallied(ps, t, full, visits, failedFront, failedAux, skipped)
    ensures failedFront <==> FrontFailed(ps, t, visits)
    ensures failedAux <==> AuxIsOurs(ps, t, full) && AuxFailed(ps, t, full, visits)
    ensures forall want :: (exists p :: p in skipped && Serves(p, t, want)) <==> SkippedServing(ps, t, want, visits)
  {}

  /** The count of auxiliary roles held falls short exactly while one is open. */
  lemma SlotsOpen(s: ArtState, ps: seq<Provider>, t: Rung, visits: seq<Visit>)
    requires |visits| <= |ps| && Matches(s, ps, t, visits)
    ensures s.auxHeld < |AuxRoles(t)| <==> AuxOf(ps, AuxRoles(t), visits).Keys != AuxRoles(t)
    ensures !s.fromGroup && Front !in s.art <==> FrontOf(ps, t, visits).Open?
    ensures !(s.fromGroup && Front in s.art)
  {
    AuxRolesOnly(ps, AuxRoles(t), visits);
    SubsetCount(AuxOf(ps, AuxRoles(t), visits).Keys, AuxRoles(t));
  }

  lemma {:induction false} SubsetCount<T>(a: set<T>, b: set<T>)
    requires a <= b
    ensures |a| <= |b| && (|a| < |b| <==> a != b)
  {
    var rest := b - a;
    assert b == a + rest;
    assert rest == {} ==> a == b;
  }
}
