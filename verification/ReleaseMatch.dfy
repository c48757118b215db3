/** The edition tier of the release matcher (enrich/release.go): format ancestry, the media and
    country predicates, and the uniqueness gate over a whole release group. */
module ReleaseMatch {
  import opened Common

  /** A format's parents; any table, cyclic ones included. */
  type Ancestry = map<string, seq<string>>

  function Parents(t: Ancestry, f: string): seq<string> {
    if f in t then t[f] else []
  }

  // ---------------------------------------------------------------------------
  // Format ancestry
  // ---------------------------------------------------------------------------

  /** f and its ancestors, each the parent of the one before. */
  ghost predicate Chain(t: Ancestry, p: seq<string>) {
    && p != []
    && (|p| > 1 ==> Chain(t, p[..|p| - 1]) && p[|p| - 1] in Parents(t, p[|p| - 2]))
  }

  /** g is f or an ancestor of it. */
  ghost predicate Above(t: Ancestry, f: string, g: string) {
    exists p :: Chain(t, p) && p[0] == f && p[|p| - 1] == g
  }

  lemma AboveItself(t: Ancestry, f: string)
    ensures Above(t, f, f)
  {
    assert Chain(t, [f]);
  }

  lemma AboveExtends(t: Ancestry, f: string, g: string, h: string)
    requires Above(t, f, g) && h in Parents(t, g)
    ensures Above(t, f, h)
  {
    var p :| Chain(t, p) && p[0] == f && p[|p| - 1] == g;
    assert (p + [h])[..|p|] == p;
    assert Chain(t, p + [h]);
  }

  lemma {:induction false} ChainStaysIn(t: Ancestry, s: set<string>, p: seq<string>)
    requires Chain(t, p) && p[0] in s
    requires forall g, h :: g in s && h in Parents(t, g) ==> h in s
    ensures p[|p| - 1] in s
  {
    if |p| > 1 {
      ChainStaysIn(t, s, p[..|p| - 1]);
    }
  }

  ghost function Mentioned(t: Ancestry): set<string> {
    set f, g | f in t && g in t[f] :: g
  }

  /** out holds ancestors of f without repeats, with every parent of the first i. */
  ghost predicate Closing(t: Ancestry, f: string, out: seq<string>, i: nat) {
    && out != [] && out[0] == f && NoRepeats(out) && i <= |out|
    && (forall g :: g in out ==> Above(t, f, g))
    && forall k, h :: 0 <= k < i && h in Parents(t, out[k]) ==> h in out
  }

  method AddParents(out0: seq<string>, parents: seq<string>) returns (out: seq<string>)
    requires NoRepeats(out0)
    ensures out0 <= out && NoRepeats(out)
    ensures forall g :: g in out <==> g in out0 || g in parents
  {
    out := out0;
    for i := 0 to |parents|
      invariant out0 <= out && NoRepeats(out)
      invariant forall g :: g in out <==> g in out0 || g in parents[..i]
    {
      assert parents[..i + 1] == parents[..i] + [parents[i]];
      if parents[i] !in out {
        out := out + [parents[i]];
      }
    }
    assert parents[..|parents|] == parents;
  }

  lemma ClosingStep(t: Ancestry, f: string, out: seq<string>, out': seq<string>, i: nat)
    requires Closing(t, f, out, i) && i < |out| && out <= out' && NoRepeats(out')
    requires forall g :: g in out' <==> g in out || g in Parents(t, out[i])
    ensures Closing(t, f, out', i + 1)
    ensures Elements(out) <= Elements(out') <= Mentioned(t) + Elements(out)
    ensures out' == out || Elements(out) < Elements(out')
  {
    forall g | g in out' ensures Above(t, f, g) {
      if g !in out {
        assert out[i] in out;
        AboveExtends(t, f, out[i], g);
      }
    }
    forall g | g in out' && g !in out ensures g in Mentioned(t) {
      assert out[i] in t && g in t[out[i]];
    }
    if |out'| > |out| {
      var g := out'[|out|];
      assert g in out' && g !in out by {
        assert forall k :: 0 <= k < |out| ==> out'[k] == out[k];
      }
      assert g in Elements(out') && g !in Elements(out);
    }
  }

  /** A format and every ancestor above it, whatever the table, each once. */
  method FormatClosure(t: Ancestry, f: string) returns (out: seq<string>)
    ensures out != [] && out[0] == f && NoRepeats(out)
    ensures forall g :: g in out <==> Above(t, f, g)
  {
    hide Above, Chain, Mentioned;
    out := [f];
    AboveItself(t, f);
    ghost var all := Mentioned(t) + {f};
    var i := 0;
    while i < |out|
      invariant Closing(t, f, out, i) && Elements(out) <= all
      decreases all - Elements(out), |out| - i
    {
      ghost var was := out;
      out := AddParents(out, Parents(t, out[i]));
      ClosingStep(t, f, was, out, i);
      i := i + 1;
    }
    ClosureWhole(t, f, out);
  }

  lemma ClosureWhole(t: Ancestry, f: string, out: seq<string>)
    requires Closing(t, f, out, |out|)
    ensures forall g :: g in out <==> Above(t, f, g)
  {
    forall g | Above(t, f, g) ensures g in out {
      var p :| Chain(t, p) && p[0] == f && p[|p| - 1] == g;
      forall a, h | a in Elements(out) && h in Parents(t, a) ensures h in Elements(out) {
        var k :| 0 <= k < |out| && out[k] == a;
      }
      ChainStaysIn(t, Elements(out), p);
    }
  }

  ghost predicate Compatible(t: Ancestry, a: string, b: string) {
    a != "" && b != "" && (Above(t, a, b) || Above(t, b, a))
  }

  method FormatsCompatible(t: Ancestry, a: string, b: string) returns (r: bool)
    ensures r <==> Compatible(t, a, b)
    ensures r <==> Compatible(t, b, a)
  {
    if a == "" || b == "" {
      return false;
    }
    var aboveA := FormatClosure(t, a);
    var aboveB := FormatClosure(t, b);
    return b in aboveA || a in aboveB;
  }

  /** t' has every parent t has. */
  ghost predicate Widens(t: Ancestry, t': Ancestry) {
    forall f, g :: g in Parents(t, f) ==> g in Parents(t', f)
  }

  lemma {:induction false} ChainWidens(t: Ancestry, t': Ancestry, p: seq<string>)
    requires Widens(t, t') && Chain(t, p)
    ensures Chain(t', p)
  {
    if |p| > 1 {
      ChainWidens(t, t', p[..|p| - 1]);
    }
  }

  lemma AboveWidens(t: Ancestry, t': Ancestry, a: string, b: string)
    requires Widens(t, t') && Above(t, a, b)
    ensures Above(t', a, b)
  {
    var p :| Chain(t, p) && p[0] == a && p[|p| - 1] == b;
    ChainWidens(t, t', p);
  }

  /** Adding to the table never makes a compatible pair incompatible. */
  lemma WideningKeepsCompatible(t: Ancestry, t': Ancestry, a: string, b: string)
    requires Widens(t, t') && Compatible(t, a, b)
    ensures Compatible(t', a, b)
  {
    if Above(t, a, b) {
      AboveWidens(t, t', a, b);
    } else {
      AboveWidens(t, t', b, a);
    }
  }

  // ---------------------------------------------------------------------------
  // Predicates
  // ---------------------------------------------------------------------------

  /** The tables and foldings of the matcher: format ancestry, spellings folded onto it, the
      folded names it knows, and the foldings of formats, barcodes and release ids. */
  datatype Tables = Tables(ancestry: Ancestry, synonyms: map<string, string>, vocabulary: set<string>,
                           supraNational: set<string>, foldFormat: string -> string,
                           normBarcode: string -> string, foldId: string -> string)

  datatype Edition = Edition(id: string, barcode: string, formats: seq<string>, countries: seq<string>)

  datatype Group = Group(count: int, editions: seq<Edition>)

  /** An album's barcode and what its media and country columns may be offering. */
  datatype Album = Album(barcode: string, media: seq<string>, country: seq<string>)

  const MAX_GROUP_RELEASES := 300

  predicate Complete(g: Group) {
    g.count <= MAX_GROUP_RELEASES && |g.editions| >= g.count
  }

  function Canonical(w: Tables, f: string): string {
    if f in w.synonyms then w.synonyms[f] else f
  }

  ghost predicate FormatFits(w: Tables, alts: seq<string>, f: string) {
    exists a :: a in alts && Compatible(w.ancestry, Canonical(w, a), Canonical(w, w.foldFormat(f)))
  }

  /** A release with no format stays a candidate. */
  ghost predicate MediaFits(w: Tables, alts: seq<string>, e: Edition) {
    e.formats == [] || exists f :: f in e.formats && FormatFits(w, alts, f)
  }

  /** So does one with no country, or none but the supra-national codes. */
  predicate CountryFits(w: Tables, alts: seq<string>, e: Edition) {
    (exists c :: c in e.countries && c in alts) || forall c :: c in e.countries ==> c in w.supraNational
  }

  predicate MediaReads(w: Tables, alts: seq<string>, editions: seq<Edition>) {
    exists a :: a in alts &&
      (Canonical(w, a) in w.vocabulary || a in w.vocabulary || GroupUses(w, Canonical(w, a), editions))
  }

  predicate GroupUses(w: Tables, name: string, editions: seq<Edition>) {
    exists e :: e in editions && exists f :: f in e.formats && Canonical(w, w.foldFormat(f)) == name
  }

  predicate CountryReads(w: Tables, alts: seq<string>) {
    exists a :: a in alts && |a| == 2 && a !in w.supraNational
  }

  ghost predicate MediaAffirmed(w: Tables, alts: seq<string>, editions: seq<Edition>) {
    exists e :: e in editions && e.formats != [] && MediaFits(w, alts, e)
  }

  predicate CountryAffirmed(w: Tables, alts: seq<string>, editions: seq<Edition>) {
    exists e :: e in editions && exists c :: c in e.countries && c !in w.supraNational && c in alts
  }

  /** The alternatives that decide: dropped when they cannot be read, or no release affirms them. */
  ghost function MediaUsed(w: Tables, alts: seq<string>, editions: seq<Edition>): seq<string> {
    if MediaReads(w, alts, editions) && MediaAffirmed(w, alts, editions) then alts else []
  }

  function CountryUsed(w: Tables, alts: seq<string>, editions: seq<Edition>): seq<string> {
    if CountryReads(w, alts) && CountryAffirmed(w, alts, editions) then alts else []
  }

  ghost predicate Survives(w: Tables, media: seq<string>, country: seq<string>, e: Edition) {
    (media == [] || MediaFits(w, media, e)) && (country == [] || CountryFits(w, country, e))
  }

  /** The ids that survive the alternatives. */
  ghost function SurvivingIds(w: Tables, media: seq<string>, country: seq<string>,
                              editions: seq<Edition>): set<string>
  {
    (set e | e in editions && Survives(w, media, country, e) :: e.id) - {""}
  }

  ghost function BarcodeIds(w: Tables, barcode: string, editions: seq<Edition>): set<string> {
    (set e | e in editions && w.normBarcode(e.barcode) == w.normBarcode(barcode) :: e.id) - {""}
  }

  /** One release, up to the case of its id. */
  ghost predicate OneRelease(w: Tables, ids: set<string>) {
    ids != {} && forall a, b :: a in ids && b in ids ==> w.foldId(a) == w.foldId(b)
  }

  datatype Reason = MediumAndCountry | Medium | Country
  datatype Match = NoMatch | ByBarcode(id: string) | ByEdition(id: string, reason: Reason)

  /** What the tier must answer: nothing over a set that is not whole, the one release carrying
      the barcode, or the one release the readable, affirmed alternatives leave. */
  ghost predicate Decides(w: Tables, t: Album, g: Group, m: Match) {
    if !Complete(g) || g.editions == [] then m == NoMatch
    else if w.normBarcode(t.barcode) != "" && OneRelease(w, BarcodeIds(w, t.barcode, g.editions)) then
      m.ByBarcode? && m.id in BarcodeIds(w, t.barcode, g.editions)
    else
      var media, country := MediaUsed(w, t.media, g.editions), CountryUsed(w, t.country, g.editions);
      var ids := SurvivingIds(w, media, country, g.editions);
      if (media == [] && country == []) || !OneRelease(w, ids) then m == NoMatch
      else
        && m.ByEdition? && m.id in ids
        && m.reason == if media == [] then Country else if country == [] then Medium else MediumAndCountry
  }

  // ---------------------------------------------------------------------------
  // What the tier guarantees
  // ---------------------------------------------------------------------------

  /** If the group holds the true release, compatible with both columns, whatever the edition
      tier answers is that release, up to letter case. */
  lemma TrueEditionNamed(w: Tables, t: Album, g: Group, m: Match, e: Edition)
    requires Decides(w, t, g, m) && m.ByEdition?
    requires e in g.editions && e.id != "" && Survives(w, t.media, t.country, e)
    ensures w.foldId(m.id) == w.foldId(e.id)
  {
    var media, country := MediaUsed(w, t.media, g.editions), CountryUsed(w, t.country, g.editions);
    hide MediaFits, CountryFits, MediaReads, CountryReads, MediaAffirmed, CountryAffirmed;
    assert Survives(w, media, country, e);
    assert e.id in SurvivingIds(w, media, country, g.editions);
  }

  /** Whether a column decides, said of the album and the editions themselves: it holds a two-letter
      code of one country that some edition lists. */
  lemma CountryColumnMeans(w: Tables, country: seq<string>, editions: seq<Edition>)
    ensures CountryUsed(w, country, editions) ==
            if (exists a :: a in country && |a| == 2 && a !in w.supraNational)
               && (exists e, c :: e in editions && c in e.countries && c !in w.supraNational && c in country)
            then country else []
  {
    if e, c :| e in editions && c in e.countries && c !in w.supraNational && c in country {
      assert CountryAffirmed(w, country, editions);
    }
  }

  /** Two format names, as the album and a release spell them, of which one is above the other. */
  ghost predicate Kin(w: Tables, a: string, f: string) {
    var x, y := if a in w.synonyms then w.synonyms[a] else a, w.foldFormat(f);
    var z := if y in w.synonyms then w.synonyms[y] else y;
    x != "" && z != "" && (Above(w.ancestry, x, z) || Above(w.ancestry, z, x))
  }

  lemma KinIs(w: Tables, alts: seq<string>, e: Edition)
    ensures MediaFits(w, alts, e) <==> e.formats == [] || exists a, f :: a in alts && f in e.formats && Kin(w, a, f)
  {
    hide Above;
    forall a, f ensures Kin(w, a, f) <==> Compatible(w.ancestry, Canonical(w, a), Canonical(w, w.foldFormat(f))) {
    }
    if a, f :| a in alts && f in e.formats && Kin(w, a, f) {
      assert FormatFits(w, alts, f);
    }
    if e.formats != [] && MediaFits(w, alts, e) {
      var f :| f in e.formats && FormatFits(w, alts, f);
      var a :| a in alts && Compatible(w.ancestry, Canonical(w, a), Canonical(w, w.foldFormat(f)));
      assert Kin(w, a, f);
    }
  }

  /** The media column decides when it names a format the tables or the group know, and some release
      that lists formats lists one of its kin. */
  lemma MediaColumnMeans(w: Tables, media: seq<string>, editions: seq<Edition>)
    ensures MediaUsed(w, media, editions) ==
            if (exists a :: a in media && KnownFormat(w, a, editions))
               && (exists e, a, f :: e in editions && a in media && f in e.formats && Kin(w, a, f))
            then media else []
  {
    hide Kin, Above;
    forall e ensures MediaFits(w, media, e) <==>
      e.formats == [] || exists a, f :: a in media && f in e.formats && Kin(w, a, f) {
      KinIs(w, media, e);
    }
    hide MediaFits;
    MediaReadsMeans(w, media, editions);
    hide MediaReads, KnownFormat;
    if MediaAffirmed(w, media, editions) {
      var e :| e in editions && e.formats != [] && MediaFits(w, media, e);
      var a, f :| a in media && f in e.formats && Kin(w, a, f);
    }
    if e, a, f :| e in editions && a in media && f in e.formats && Kin(w, a, f) {
      assert e.formats != [] && MediaFits(w, media, e);
    }
  }

  lemma MediaReadsMeans(w: Tables, media: seq<string>, editions: seq<Edition>)
    ensures MediaReads(w, media, editions) <==> exists a :: a in media && KnownFormat(w, a, editions)
  {
    hide GroupUses, FormatName;
    forall a ensures GroupUses(w, Canonical(w, a), editions)
                <==> exists e, f :: e in editions && f in e.formats && FormatName(w, f) == Canonical(w, a)
    {
      GroupUsesMeans(w, Canonical(w, a), editions);
    }
  }

  lemma GroupUsesMeans(w: Tables, name: string, editions: seq<Edition>)
    ensures GroupUses(w, name, editions) <==> exists e, f :: e in editions && f in e.formats && FormatName(w, f) == name
  {
    if e, f :| e in editions && f in e.formats && FormatName(w, f) == name {
      assert Canonical(w, w.foldFormat(f)) == name;
    }
    if GroupUses(w, name, editions) {
      var e :| e in editions && exists f :: f in e.formats && Canonical(w, w.foldFormat(f)) == name;
      var f :| f in e.formats && Canonical(w, w.foldFormat(f)) == name;
      assert FormatName(w, f) == name;
    }
  }

  ghost predicate KnownFormat(w: Tables, a: string, editions: seq<Edition>) {
    var x := if a in w.synonyms then w.synonyms[a] else a;
    x in w.vocabulary || a in w.vocabulary || exists e, f :: e in editions && f in e.formats && FormatName(w, f) == x
  }

  function FormatName(w: Tables, f: string): string {
    var y := w.foldFormat(f);
    if y in w.synonyms then w.synonyms[y] else y
  }

  /** An edition that a column cannot rule out: one that lists a country of the album's, or none but
      the supra-national codes; one that lists a format of the album's kin, or none. */
  ghost predicate CountryLeaves(w: Tables, t: Album, e: Edition) {
    (exists c :: c in e.countries && c in t.country) || forall c :: c in e.countries ==> c in w.supraNational
  }

  ghost predicate MediaLeaves(w: Tables, t: Album, e: Edition) {
    e.formats == [] || exists a, f :: a in t.media && f in e.formats && Kin(w, a, f)
  }

  /** What an answer of the edition tier says: the group is whole and within the cap, each column its
      reason names was used, and of the editions those leave, one of which it is, all with an id are
      that one release. */
  lemma EditionAnswerMeans(w: Tables, t: Album, g: Group, m: Match)
    requires Decides(w, t, g, m) && m.ByEdition?
    ensures g.count <= 300 && |g.editions| >= g.count
    ensures m.reason != Medium <==> CountryUsed(w, t.country, g.editions) != []
    ensures m.reason != Country <==> MediaUsed(w, t.media, g.editions) != []
    ensures m.id != ""
    ensures exists e :: e in g.editions && e.id == m.id && (m.reason != Medium ==> CountryLeaves(w, t, e))
                        && (m.reason != Country ==> MediaLeaves(w, t, e))
    ensures forall e :: e in g.editions && e.id != ""
              && (m.reason != Medium ==> CountryLeaves(w, t, e)) && (m.reason != Country ==> MediaLeaves(w, t, e))
              ==> w.foldId(e.id) == w.foldId(m.id)
  {
    hide MediaReads, CountryReads, MediaAffirmed, CountryAffirmed, Kin;
    var d := g.editions;
    var media, country := MediaUsed(w, t.media, d), CountryUsed(w, t.country, d);
    var ids := SurvivingIds(w, media, country, d);
    forall e ensures Survives(w, media, country, e) <==>
      (m.reason != Medium ==> CountryLeaves(w, t, e)) && (m.reason != Country ==> MediaLeaves(w, t, e))
    {
      KinIs(w, t.media, e);
    }
    hide Survives;
    var found :| found in d && Survives(w, media, country, found) && found.id == m.id;
    forall e | e in d && e.id != "" && Survives(w, media, country, e) ensures w.foldId(e.id) == w.foldId(m.id) {
      assert e.id in ids;
    }
  }

  /** What an answer by barcode says: the album has one, an edition of the whole group carries it, and
      all with an id that do are that one release. */
  lemma BarcodeAnswerMeans(w: Tables, t: Album, g: Group, m: Match)
    requires Decides(w, t, g, m) && m.ByBarcode?
    ensures g.count <= 300 && |g.editions| >= g.count
    ensures w.normBarcode(t.barcode) != "" && m.id != ""
    ensures exists e :: e in g.editions && e.id == m.id && w.normBarcode(e.barcode) == w.normBarcode(t.barcode)
    ensures forall e :: e in g.editions && e.id != "" && w.normBarcode(e.barcode) == w.normBarcode(t.barcode)
              ==> w.foldId(e.id) == w.foldId(m.id)
  {
    forall e | e in g.editions && e.id != "" && w.normBarcode(e.barcode) == w.normBarcode(t.barcode)
      ensures w.foldId(e.id) == w.foldId(m.id)
    {
      assert e.id in BarcodeIds(w, t.barcode, g.editions);
    }
  }

  /** And what no answer over a whole group says: neither its barcode nor the columns used, if any,
      leave one release. */
  lemma NoAnswerMeans(w: Tables, t: Album, g: Group, m: Match)
    requires Decides(w, t, g, m) && m == NoMatch
    requires g.count <= 300 && |g.editions| >= g.count && g.editions != []
    ensures w.normBarcode(t.barcode) == ""
            || NotOne(w, g.editions, (e: Edition) => w.normBarcode(e.barcode) == w.normBarcode(t.barcode))
    ensures var byMedia := MediaUsed(w, t.media, g.editions) != [];
            var byCountry := CountryUsed(w, t.country, g.editions) != [];
            byMedia || byCountry ==> NotOne(w, g.editions, (e: Edition) => Left(w, t, e, byMedia, byCountry))
  {
    hide MediaReads, CountryReads, MediaAffirmed, CountryAffirmed, Kin;
    var d := g.editions;
    var media, country := MediaUsed(w, t.media, d), CountryUsed(w, t.country, d);
    IdsNotOne(w, d, (e: Edition) => w.normBarcode(e.barcode) == w.normBarcode(t.barcode), BarcodeIds(w, t.barcode, d));
    if media != [] || country != [] {
      forall e ensures Survives(w, media, country, e) <==> Left(w, t, e, media != [], country != []) {
        KinIs(w, t.media, e);
      }
      hide Survives, Left;
      IdsNotOne(w, d, (e: Edition) => Left(w, t, e, media != [], country != []), SurvivingIds(w, media, country, d));
    }
  }

  /** No edition picked has an id, or two are of different releases. */
  ghost predicate NotOne(w: Tables, editions: seq<Edition>, picked: Edition -> bool) {
    || (forall e :: e in editions && picked(e) ==> e.id == "")
    || exists x, y :: x in editions && y in editions && picked(x) && picked(y) && x.id != "" && y.id != ""
                      && w.foldId(x.id) != w.foldId(y.id)
  }

  ghost predicate Left(w: Tables, t: Album, e: Edition, byMedia: bool, byCountry: bool) {
    (byCountry ==> CountryLeaves(w, t, e)) && (byMedia ==> MediaLeaves(w, t, e))
  }

  lemma IdsNotOne(w: Tables, editions: seq<Edition>, picked: Edition -> bool, ids: set<string>)
    requires ids == (set e | e in editions && picked(e) :: e.id) - {""}
    ensures OneRelease(w, ids) || NotOne(w, editions, picked)
  {
    if ids == {} {
      forall e | e in editions && picked(e) ensures e.id == "" {
        assert e.id == "" || e.id in ids;
      }
    } else if !OneRelease(w, ids) {
      var a, b :| a in ids && b in ids && w.foldId(a) != w.foldId(b);
      var x :| x in editions && picked(x) && x.id == a;
      var y :| y in editions && picked(y) && y.id == b;
    }
  }

  /** Dropping either predicate only enlarges the survivors. */
  lemma DroppingWidens(w: Tables, media: seq<string>, country: seq<string>, editions: seq<Edition>)
    ensures SurvivingIds(w, media, country, editions) <= SurvivingIds(w, [], country, editions)
    ensures SurvivingIds(w, media, country, editions) <= SurvivingIds(w, media, [], editions)
    ensures SurvivingIds(w, [], country, editions) + SurvivingIds(w, media, [], editions) <=
              SurvivingIds(w, [], [], editions)
  {
    hide MediaFits, CountryFits;
    assert forall e :: Survives(w, media, country, e) ==> Survives(w, [], country, e) && Survives(w, media, [], e);
    assert forall e :: Survives(w, [], [], e);
  }

  /** Adding to the format table only enlarges them too. */
  lemma TableWidens(w: Tables, w': Tables, alts: seq<string>, e: Edition)
    requires w' == w.(ancestry := w'.ancestry) && Widens(w.ancestry, w'.ancestry) && MediaFits(w, alts, e)
    ensures MediaFits(w', alts, e)
  {
    hide Compatible;
    if e.formats != [] {
      var f :| f in e.formats && FormatFits(w, alts, f);
      var a :| a in alts && Compatible(w.ancestry, Canonical(w, a), Canonical(w, w.foldFormat(f)));
      WideningKeepsCompatible(w.ancestry, w'.ancestry, Canonical(w, a), Canonical(w, w.foldFormat(f)));
      assert FormatFits(w', alts, f);
    }
  }

  ghost predicate SameAnswer(w: Tables, m: Match, m': Match) {
    match (m, m')
    case (NoMatch, NoMatch) => true
    case (ByBarcode(a), ByBarcode(b)) => w.foldId(a) == w.foldId(b)
    case (ByEdition(a, r), ByEdition(b, s)) => r == s && w.foldId(a) == w.foldId(b)
    case _ => false
  }

  /** Permuting or repeating the editions changes no answer, up to letter case. */
  lemma OrderAndRepeatsDoNotMatter(w: Tables, t: Album, g: Group, g': Group, m: Match, m': Match)
    requires Decides(w, t, g, m) && Decides(w, t, g', m')
    requires Complete(g) && Complete(g') && forall e :: e in g.editions <==> e in g'.editions
    ensures SameAnswer(w, m, m')
  {
    hide MediaFits, CountryFits, CountryReads;
    var d, d' := g.editions, g'.editions;
    assert d == [] <==> d' == [] by {
      assert d != [] ==> d[0] in d';
      assert d' != [] ==> d'[0] in d;
    }
    assert BarcodeIds(w, t.barcode, d) == BarcodeIds(w, t.barcode, d');
    assert MediaReads(w, t.media, d) <==> MediaReads(w, t.media, d');
    assert MediaAffirmed(w, t.media, d) <==> MediaAffirmed(w, t.media, d');
    assert CountryAffirmed(w, t.country, d) <==> CountryAffirmed(w, t.country, d');
    var media, country := MediaUsed(w, t.media, d), CountryUsed(w, t.country, d);
    assert SurvivingIds(w, media, country, d) == SurvivingIds(w, media, country, d');
  }

  // ---------------------------------------------------------------------------
  // The loops
  // ---------------------------------------------------------------------------

  function NonEmpty(ids: seq<string>): set<string> {
    (set x | x in ids) - {""}
  }

  /** The one distinct id, the last spelling of it met; none when there are several or none. */
  method SoleId(w: Tables, ids: seq<string>) returns (found: string)
    ensures found != "" <==> OneRelease(w, NonEmpty(ids))
    ensures found != "" ==> found in NonEmpty(ids)
  {
    found := "";
    for i := 0 to |ids|
      invariant if found == "" then NonEmpty(ids[..i]) == {}
                else found in NonEmpty(ids[..i]) && OneRelease(w, NonEmpty(ids[..i]))
    {
      assert ids[..i + 1] == ids[..i] + [ids[i]];
      assert NonEmpty(ids[..i + 1]) == NonEmpty(ids[..i]) + (if ids[i] == "" then {} else {ids[i]});
      if ids[i] == "" {
        continue;
      }
      if found != "" && w.foldId(found) != w.foldId(ids[i]) {
        assert found in NonEmpty(ids) && ids[i] in NonEmpty(ids);
        return "";
      }
      found := ids[i];
    }
    assert ids[..|ids|] == ids;
  }

  /** The one edition flagged, by its id. */
  method SoleMatching(w: Tables, editions: seq<Edition>, flags: seq<bool>) returns (found: string)
    requires |flags| == |editions|
    ensures var ids := (set i | 0 <= i < |editions| && flags[i] :: editions[i].id) - {""};
            (found != "" <==> OneRelease(w, ids)) && (found != "" ==> found in ids)
  {
    hide OneRelease;
    var ids: seq<string> := [];
    for i := 0 to |editions|
      invariant forall x :: x in ids <==> exists k :: 0 <= k < i && flags[k] && editions[k].id == x
    {
      if flags[i] {
        ids := ids + [editions[i].id];
      }
    }
    assert NonEmpty(ids) == (set i | 0 <= i < |editions| && flags[i] :: editions[i].id) - {""};
    found := SoleId(w, ids);
  }

  method MediaCompatible(w: Tables, alts: seq<string>, e: Edition) returns (r: bool)
    ensures r <==> MediaFits(w, alts, e)
  {
    hide Compatible;
    if e.formats == [] {
      return true;
    }
    for i := 0 to |e.formats|
      invariant forall f :: f in e.formats[..i] ==> !FormatFits(w, alts, f)
    {
      assert e.formats[..i + 1] == e.formats[..i] + [e.formats[i]];
      var rf := Canonical(w, w.foldFormat(e.formats[i]));
      for k := 0 to |alts|
        invariant forall a :: a in alts[..k] ==> !Compatible(w.ancestry, Canonical(w, a), rf)
      {
        assert alts[..k + 1] == alts[..k] + [alts[k]];
        var c := FormatsCompatible(w.ancestry, Canonical(w, alts[k]), rf);
        if c {
          assert FormatFits(w, alts, e.formats[i]);
          return true;
        }
      }
      assert alts[..|alts|] == alts;
    }
    assert e.formats[..|e.formats|] == e.formats;
    return false;
  }

  /** Which editions survive the alternatives in hand. */
  method Surviving(w: Tables, media: seq<string>, country: seq<string>, editions: seq<Edition>)
    returns (flags: seq<bool>)
    ensures |flags| == |editions|
    ensures forall i :: 0 <= i < |editions| ==> (flags[i] <==> Survives(w, media, country, editions[i]))
  {
    hide MediaFits, CountryFits;
    flags := [];
    for i := 0 to |editions|
      invariant |flags| == i
      invariant forall k :: 0 <= k < i ==> (flags[k] <==> Survives(w, media, country, editions[k]))
    {
      var fits := true;
      if media != [] {
        fits := MediaCompatible(w, media, editions[i]);
      }
      flags := flags + [fits && (country == [] || CountryFits(w, country, editions[i]))];
    }
  }

  method AffirmsMedia(w: Tables, alts: seq<string>, editions: seq<Edition>) returns (r: bool)
    ensures r <==> MediaAffirmed(w, alts, editions)
  {
    hide MediaFits;
    for i := 0 to |editions|
      invariant forall k :: 0 <= k < i ==> editions[k].formats == [] || !MediaFits(w, alts, editions[k])
    {
      if editions[i].formats != [] {
        var fits := MediaCompatible(w, alts, editions[i]);
        if fits {
          return true;
        }
      }
    }
    return false;
  }

  method MatchEdition(w: Tables, t: Album, g: Group) returns (m: Match)
    ensures Decides(w, t, g, m)
  {
    hide MediaFits, CountryFits, MediaReads, CountryReads, MediaAffirmed, CountryAffirmed, OneRelease, Survives;
    if !Complete(g) || g.editions == [] {
      return NoMatch;
    }
    var d := g.editions;
    var want := w.normBarcode(t.barcode);
    if want != "" {
      var carries := seq(|d|, i requires 0 <= i < |d| => w.normBarcode(d[i].barcode) == want);
      var id := SoleMatching(w, d, carries);
      assert (set i | 0 <= i < |d| && carries[i] :: d[i].id) - {""} == BarcodeIds(w, t.barcode, d);
      if id != "" {
        return ByBarcode(id);
      }
    }
    var media, country: seq<string> := [], CountryUsed(w, t.country, d);
    if MediaReads(w, t.media, d) {
      var affirmed := AffirmsMedia(w, t.media, d);
      if affirmed {
        media := t.media;
      }
    }
    if media == [] && country == [] {
      return NoMatch;
    }
    var flags := Surviving(w, media, country, d);
    var id := SoleMatching(w, d, flags);
    assert (set i | 0 <= i < |d| && flags[i] :: d[i].id) - {""} == SurvivingIds(w, media, country, d);
    if id == "" {
      return NoMatch;
    }
    return ByEdition(id, if media == [] then Country else if country == [] then Medium else MediumAndCountry);
  }
}
