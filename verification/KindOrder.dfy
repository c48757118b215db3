/** The order a kind change reads an item's files in (kind.go). */
module KindOrder {

  datatype File = File(pid: string, role: string, position: int, essence: string)

  /** A file with, for an alternate, the file it goes with. */
  datatype KindFile = KindFile(file: File, anchor: string)

  datatype Role = Primary | Part | Alternate

  function RoleOf(f: File): Role {
    if f.role == "primary" then Primary else if f.role == "alternate" then Alternate else Part
  }

  // ---------------------------------------------------------------------------
  // Reference order
  // ---------------------------------------------------------------------------

  /** The files of one role, in their order. */
  function OfRole(files: seq<File>, r: Role): seq<File> {
    if files == [] then []
    else OfRole(files[..|files| - 1], r) + if RoleOf(files[|files| - 1]) == r then [files[|files| - 1]] else []
  }

  /** Whom an alternate goes with: the first host at its position, past the end when there is none. */
  function Owner(hosts: seq<File>, a: File): (h: nat)
    ensures h <= |hosts|
    ensures h < |hosts| ==> hosts[h].position == a.position
    ensures forall k :: 0 <= k < h ==> hosts[k].position != a.position
  {
    if hosts == [] then 0
    else
      var before := Owner(hosts[..|hosts| - 1], a);
      if before < |hosts| - 1 || hosts[|hosts| - 1].position == a.position then before else |hosts|
  }

  /** Host h's other encodings, or its copies, in their order. */
  function Owned(alts: seq<File>, hosts: seq<File>, h: nat, encodings: bool): seq<KindFile>
    requires h < |hosts|
  {
    if alts == [] then []
    else
      var a := alts[|alts| - 1];
      Owned(alts[..|alts| - 1], hosts, h, encodings) +
        if Owner(hosts, a) == h && (a.essence != hosts[h].essence) == encodings then [KindFile(a, hosts[h].pid)] else []
  }

  function FirstPrimary(primary: seq<File>): string {
    if primary == [] then "" else primary[0].pid
  }

  /** The alternates nobody at their position owns. */
  function Unowned(alts: seq<File>, hosts: seq<File>, anchor: string): seq<KindFile> {
    if alts == [] then []
    else
      var a := alts[|alts| - 1];
      Unowned(alts[..|alts| - 1], hosts, anchor) + if Owner(hosts, a) == |hosts| then [KindFile(a, anchor)] else []
  }

  function Plain(f: File): KindFile {
    KindFile(f, "")
  }

  /** A part between its other encodings and its copies; a primary ahead of both. */
  function HostBlock(alts: seq<File>, hosts: seq<File>, parts: nat, h: nat): seq<KindFile>
    requires h < |hosts|
  {
    if h < parts then Owned(alts, hosts, h, true) + [Plain(hosts[h])] + Owned(alts, hosts, h, false)
    else [Plain(hosts[h])] + Owned(alts, hosts, h, true) + Owned(alts, hosts, h, false)
  }

  function HostBlocks(alts: seq<File>, hosts: seq<File>, parts: nat, h: nat): seq<KindFile>
    requires h <= |hosts|
  {
    if h == 0 then [] else HostBlocks(alts, hosts, parts, h - 1) + HostBlock(alts, hosts, parts, h - 1)
  }

  lemma HostBlocksStep(alts: seq<File>, hosts: seq<File>, parts: nat, h: nat)
    requires h < |hosts|
    ensures HostBlocks(alts, hosts, parts, h + 1) == HostBlocks(alts, hosts, parts, h) +
              HostBlock(alts, hosts, parts, h)
  {}

  lemma BlockJoins(out: seq<KindFile>, alts: seq<File>, hosts: seq<File>, parts: nat, h: nat)
    requires h < |hosts| && out == HostBlocks(alts, hosts, parts, h)
    ensures var e, p, c := Owned(alts, hosts, h, true), [Plain(hosts[h])], Owned(alts, hosts, h, false);
            HostBlocks(alts, hosts, parts, h + 1) == if h < parts then out + e + p + c else out + p + e + c
  {
    hide Owned;
    HostBlocksStep(alts, hosts, parts, h);
    hide HostBlocks;
    var e, p, c := Owned(alts, hosts, h, true), [Plain(hosts[h])], Owned(alts, hosts, h, false);
    if h < parts {
      assert out + (e + p + c) == out + e + p + c;
    } else {
      assert out + (p + e + c) == out + p + e + c;
    }
  }

  function Anchored(files: seq<File>, anchor: string): seq<KindFile> {
    seq(|files|, i requires 0 <= i < |files| => KindFile(files[i], anchor))
  }

  /** The whole order: for a book, block by block, the parts' blocks first. */
  function ReadOrder(book: bool, files: seq<File>): seq<KindFile> {
    var primary, parts, alts := OfRole(files, Primary), OfRole(files, Part), OfRole(files, Alternate);
    if book then
      HostBlocks(alts, parts + primary, |parts|, |parts + primary|) +
        Unowned(alts, parts + primary, FirstPrimary(primary))
    else Anchored(primary + parts, "") + Anchored(alts, FirstPrimary(primary))
  }

  // ---------------------------------------------------------------------------
  // The loops
  // ---------------------------------------------------------------------------

  /** Which alternates are taken once the hosts before h are done, and h's encodings or copies
      with them. */
  ghost predicate TakenBefore(taken: seq<bool>, alts: seq<File>, hosts: seq<File>, h: nat, encs: bool, copies: bool)
    requires |taken| == |alts| && h <= |hosts|
  {
    forall i :: 0 <= i < |alts| ==>
      (taken[i] <==> Owner(hosts, alts[i]) < h
                     || (h < |hosts| && Owner(hosts, alts[i]) == h
                         && (if alts[i].essence != hosts[h].essence then encs else copies)))
  }

  /** Appends host h's untaken encodings or copies and marks them. */
  method Take(alts: seq<File>, taken: array<bool>, out0: seq<KindFile>, p: File, encodings: bool,
              ghost hosts: seq<File>, ghost h: nat, ghost encs: bool, ghost copies: bool)
    returns (out: seq<KindFile>)
    requires taken.Length == |alts| && h < |hosts| && hosts[h] == p
    requires TakenBefore(taken[..], alts, hosts, h, encs, copies) && !(if encodings then encs else copies)
    modifies taken
    ensures out == out0 + Owned(alts, hosts, h, encodings)
    ensures TakenBefore(taken[..], alts, hosts, h, encs || encodings, copies || !encodings)
  {
    hide Owner, Owned, TakenBefore;
    out := out0;
    ghost var was := taken[..];
    OwnedNone(hosts, h, encodings);
    TakenRead(was, alts, hosts, h, encs, copies);
    for i := 0 to |alts|
      invariant out == out0 + Owned(alts[..i], hosts, h, encodings)
      invariant forall k :: i <= k < |alts| ==> taken[k] == was[k]
      invariant forall k :: 0 <= k < i ==>
                  (taken[k] <==> was[k] || (Owner(hosts, alts[k]) == h && (alts[k].essence != p.essence) == encodings))
    {
      var a := alts[i];
      assert alts[..i + 1][..i] == alts[..i];
      OwnerAt(hosts, h, a);
      OwnedAppends(alts[..i], a, hosts, h, encodings);
      assert alts[..i + 1] == alts[..i] + [a];
      if !taken[i] && a.position == p.position && (a.essence != p.essence) == encodings {
        out, taken[i] := out + [KindFile(a, p.pid)], true;
      }
    }
    assert alts[..|alts|] == alts;
    TakenNext(was, taken[..], alts, hosts, h, encs, copies, encodings);
  }

  lemma OwnedNone(hosts: seq<File>, h: nat, encodings: bool)
    requires h < |hosts|
    ensures Owned([], hosts, h, encodings) == []
  {}

  lemma OwnedAppends(alts: seq<File>, a: File, hosts: seq<File>, h: nat, encodings: bool)
    requires h < |hosts|
    ensures Owned(alts + [a], hosts, h, encodings) == Owned(alts, hosts, h, encodings) +
              if Owner(hosts, a) == h
                && (a.essence != hosts[h].essence) == encodings then [KindFile(a, hosts[h].pid)] else []
  {
    assert (alts + [a])[..|alts|] == alts;
  }

  lemma TakenRead(taken: seq<bool>, alts: seq<File>, hosts: seq<File>, h: nat, encs: bool, copies: bool)
    requires |taken| == |alts| && h < |hosts| && TakenBefore(taken, alts, hosts, h, encs, copies)
    ensures forall i :: 0 <= i < |alts| ==>
              (taken[i] <==> (Owner(hosts, alts[i]) < h
                              || (Owner(hosts, alts[i]) == h
                                  && (if alts[i].essence != hosts[h].essence then encs else copies))))
  {}

  lemma TakenNext(was: seq<bool>, taken: seq<bool>, alts: seq<File>, hosts: seq<File>, h: nat, encs: bool,
                  copies: bool, encodings: bool)
    requires |was| == |taken| == |alts| && h < |hosts| && TakenBefore(was, alts, hosts, h, encs, copies)
    requires forall k :: 0 <= k < |alts| ==>
               (taken[k] <==>
                 was[k] || (Owner(hosts, alts[k]) == h && (alts[k].essence != hosts[h].essence) == encodings))
    ensures TakenBefore(taken, alts, hosts, h, encs || encodings, copies || !encodings)
  {
    hide Owner;
  }

  /** An alternate not taken before h is at h's position exactly when h owns it. */
  lemma OwnerAt(hosts: seq<File>, h: nat, a: File)
    requires h < |hosts|
    ensures Owner(hosts, a) >= h ==> (a.position == hosts[h].position <==> Owner(hosts, a) == h)
  {}

  lemma HostDone(taken: seq<bool>, alts: seq<File>, hosts: seq<File>, h: nat)
    requires |taken| == |alts| && h < |hosts| && TakenBefore(taken, alts, hosts, h, true, true)
    ensures TakenBefore(taken, alts, hosts, h + 1, false, false)
  {
    hide Owner;
  }

  method KindReadOrder(book: bool, files: seq<File>) returns (out: seq<KindFile>)
    ensures out == ReadOrder(book, files)
  {
    hide Owned, Owner;
    var primary: seq<File>, parts: seq<File>, alts: seq<File> := [], [], [];
    for i := 0 to |files|
      invariant primary == OfRole(files[..i], Primary) && parts == OfRole(files[..i], Part)
      invariant alts == OfRole(files[..i], Alternate)
    {
      assert files[..i + 1][..i] == files[..i];
      match RoleOf(files[i])
      case Primary => primary := primary + [files[i]];
      case Alternate => alts := alts + [files[i]];
      case Part => parts := parts + [files[i]];
    }
    assert files[..|files|] == files;
    if !book {
      out := ReadTrack(primary, parts, alts);
      return;
    }
    out := ReadBook(primary, parts, alts);
  }

  method ReadTrack(primary: seq<File>, parts: seq<File>, alts: seq<File>) returns (out: seq<KindFile>)
    ensures out == Anchored(primary + parts, "") + Anchored(alts, FirstPrimary(primary))
  {
    out := [];
    var heads := primary + parts;
    for i := 0 to |heads|
      invariant out == Anchored(heads, "")[..i]
    {
      out := out + [KindFile(heads[i], "")];
    }
    ghost var first := out;
    for i := 0 to |alts|
      invariant out == first + Anchored(alts, FirstPrimary(primary))[..i]
    {
      out := out + [KindFile(alts[i], FirstPrimary(primary))];
    }
  }

  method ReadBook(primary: seq<File>, parts: seq<File>, alts: seq<File>) returns (out: seq<KindFile>)
    ensures out == HostBlocks(alts, parts + primary, |parts|, |parts + primary|) +
                   Unowned(alts, parts + primary, FirstPrimary(primary))
  {
    hide Owned, Owner, TakenBefore, HostBlocks, Unowned;
    ghost var hosts := parts + primary;
    var taken := new bool[|alts|](_ => false);
    NothingTaken(taken[..], alts, hosts);
    out := ReadParts(parts, alts, taken, hosts);
    out := ReadPrimaries(primary, alts, taken, out, hosts, |parts|);
    out := TakeRest(alts, taken, out, FirstPrimary(primary), hosts);
  }

  method ReadParts(parts: seq<File>, alts: seq<File>, taken: array<bool>, ghost hosts: seq<File>)
    returns (out: seq<KindFile>)
    requires parts <= hosts && taken.Length == |alts| && TakenBefore(taken[..], alts, hosts, 0, false, false)
    modifies taken
    ensures out == HostBlocks(alts, hosts, |parts|, |parts|)
    ensures TakenBefore(taken[..], alts, hosts, |parts|, false, false)
  {
    hide Owned, Owner, TakenBefore, HostBlocks;
    out := [];
    NoBlocks(alts, hosts, |parts|);
    for h := 0 to |parts|
      invariant out == HostBlocks(alts, hosts, |parts|, h)
      invariant TakenBefore(taken[..], alts, hosts, h, false, false)
    {
      var p := parts[h];
      BlockJoins(out, alts, hosts, |parts|, h);
      out := Take(alts, taken, out, p, true, hosts, h, false, false);
      out := out + [KindFile(p, "")];
      out := Take(alts, taken, out, p, false, hosts, h, true, false);
      HostDone(taken[..], alts, hosts, h);
    }
  }

  method ReadPrimaries(primary: seq<File>, alts: seq<File>, taken: array<bool>, out0: seq<KindFile>,
                       ghost hosts: seq<File>,
                       ghost parts: nat)
    returns (out: seq<KindFile>)
    requires parts <= |hosts| && hosts[parts..] == primary && taken.Length == |alts|
    requires out0 == HostBlocks(alts, hosts, parts, parts) && TakenBefore(taken[..], alts, hosts, parts, false, false)
    modifies taken
    ensures out == HostBlocks(alts, hosts, parts, |hosts|)
    ensures TakenBefore(taken[..], alts, hosts, |hosts|, false, false)
  {
    hide Owned, Owner, TakenBefore, HostBlocks;
    out := out0;
    for k := 0 to |primary|
      invariant out == HostBlocks(alts, hosts, parts, parts + k)
      invariant TakenBefore(taken[..], alts, hosts, parts + k, false, false)
    {
      var p := primary[k];
      assert hosts[parts + k] == p;
      BlockJoins(out, alts, hosts, parts, parts + k);
      out := out + [KindFile(p, "")];
      out := Take(alts, taken, out, p, true, hosts, parts + k, false, false);
      out := Take(alts, taken, out, p, false, hosts, parts + k, true, false);
      HostDone(taken[..], alts, hosts, parts + k);
    }
  }

  lemma NoBlocks(alts: seq<File>, hosts: seq<File>, parts: nat)
    ensures HostBlocks(alts, hosts, parts, 0) == []
  {}

  lemma NothingTaken(taken: seq<bool>, alts: seq<File>, hosts: seq<File>)
    requires |taken| == |alts| && forall i :: 0 <= i < |taken| ==> !taken[i]
    ensures TakenBefore(taken, alts, hosts, 0, false, false)
  {}

  method TakeRest(alts: seq<File>, taken: array<bool>, out0: seq<KindFile>, anchor: string, ghost hosts: seq<File>)
    returns (out: seq<KindFile>)
    requires taken.Length == |alts| && TakenBefore(taken[..], alts, hosts, |hosts|, false, false)
    ensures out == out0 + Unowned(alts, hosts, anchor)
  {
    out := out0;
    for i := 0 to |alts|
      invariant out == out0 + Unowned(alts[..i], hosts, anchor)
    {
      assert alts[..i + 1][..i] == alts[..i];
      assert taken[..][i] == taken[i];
      if !taken[i] {
        out := out + [KindFile(alts[i], anchor)];
      }
    }
    assert alts[..|alts|] == alts;
  }

  // ---------------------------------------------------------------------------
  // What the order guarantees
  // ---------------------------------------------------------------------------

  /** How often a file is listed, and how often it is read. */
  function Listed(files: seq<File>, f: File): nat {
    if files == [] then 0 else Listed(files[..|files| - 1], f) + if files[|files| - 1] == f then 1 else 0
  }

  function Read(out: seq<KindFile>, f: File): nat {
    if out == [] then 0 else Read(out[..|out| - 1], f) + if out[|out| - 1].file == f then 1 else 0
  }

  lemma {:induction false} ReadConcat(a: seq<KindFile>, b: seq<KindFile>, f: File)
    ensures Read(a + b, f) == Read(a, f) + Read(b, f)
  {
    if b == [] {
      assert a + b == a;
    } else {
      assert (a + b)[..|a + b| - 1] == a + b[..|b| - 1];
      ReadConcat(a, b[..|b| - 1], f);
    }
  }

  lemma ReadOne(k: KindFile, f: File)
    ensures Read([k], f) == (if k.file == f then 1 else 0) && Read([], f) == 0
  {
    assert [k][..0] == [];
  }

  lemma {:induction false} ListedConcat(a: seq<File>, b: seq<File>, f: File)
    ensures Listed(a + b, f) == Listed(a, f) + Listed(b, f)
  {
    if b == [] {
      assert a + b == a;
    } else {
      assert (a + b)[..|a + b| - 1] == a + b[..|b| - 1];
      ListedConcat(a, b[..|b| - 1], f);
    }
  }

  lemma ListedOne(g: File, f: File)
    ensures Listed([g], f) == (if g == f then 1 else 0) && Listed([], f) == 0
  {
    assert [g][..0] == [];
  }

  lemma {:induction false} ReadAnchored(files: seq<File>, anchor: string, f: File)
    ensures Read(Anchored(files, anchor), f) == Listed(files, f)
  {
    if files != [] {
      var init := files[..|files| - 1];
      ReadAnchored(init, anchor, f);
      assert Anchored(files, anchor)[..|files| - 1] == Anchored(init, anchor);
    }
  }

  lemma {:induction false} RolesPartition(files: seq<File>, f: File)
    ensures Listed(files, f)
         == Listed(OfRole(files, Primary), f) + Listed(OfRole(files, Part), f) + Listed(OfRole(files, Alternate), f)
  {
    if files != [] {
      var init, last := files[..|files| - 1], files[|files| - 1];
      RolesPartition(init, f);
      ListedOne(last, f);
      ListedConcat(OfRole(init, Primary), OfRole(files, Primary)[|OfRole(init, Primary)|..], f);
      ListedConcat(OfRole(init, Part), OfRole(files, Part)[|OfRole(init, Part)|..], f);
      ListedConcat(OfRole(init, Alternate), OfRole(files, Alternate)[|OfRole(init, Alternate)|..], f);
      RoleAppends(files, Primary);
      RoleAppends(files, Part);
      RoleAppends(files, Alternate);
      hide OfRole;
      assert Listed(files, f) == Listed(init, f) + if last == f then 1 else 0;
    }
  }

  lemma RoleAppends(files: seq<File>, r: Role)
    requires files != []
    ensures var init, last := OfRole(files[..|files| - 1], r), files[|files| - 1];
            |init| <= |OfRole(files, r)|
            && OfRole(files, r) == init + OfRole(files, r)[|init|..]
            && OfRole(files, r)[|init|..] == if RoleOf(last) == r then [last] else []
  {}

  /** How often f is among the alternates owned by a host before h. */
  ghost function OwnedBelow(alts: seq<File>, hosts: seq<File>, h: nat, f: File): nat {
    if alts == [] then 0
    else
      var a := alts[|alts| - 1];
      OwnedBelow(alts[..|alts| - 1], hosts, h, f) + if Owner(hosts, a) < h && a == f then 1 else 0
  }

  lemma OwnedReads(alts: seq<File>, hosts: seq<File>, h: nat, encodings: bool, f: File)
    requires h < |hosts| && alts != []
    ensures var init, a := alts[..|alts| - 1], alts[|alts| - 1];
            Read(Owned(alts, hosts, h, encodings), f) == Read(Owned(init, hosts, h, encodings), f) +
              if Owner(hosts, a) == h && (a.essence != hosts[h].essence) == encodings && a == f then 1 else 0
  {
    var init, a := alts[..|alts| - 1], alts[|alts| - 1];
    var more := Owned(alts, hosts, h, encodings)[|Owned(init, hosts, h, encodings)|..];
    assert Owned(alts, hosts, h, encodings) == Owned(init, hosts, h, encodings) + more;
    ReadConcat(Owned(init, hosts, h, encodings), more, f);
    ReadOne(KindFile(a, hosts[h].pid), f);
  }

  lemma {:induction false} OwnedBelowStep(alts: seq<File>, hosts: seq<File>, h: nat, f: File)
    requires h < |hosts|
    ensures OwnedBelow(alts, hosts, h + 1, f)
         == OwnedBelow(alts, hosts, h, f) + Read(Owned(alts, hosts, h, true), f) + Read(Owned(alts, hosts, h, false), f)
  {
    if alts != [] {
      OwnedReads(alts, hosts, h, true, f);
      OwnedReads(alts, hosts, h, false, f);
      OwnedBelowStep(alts[..|alts| - 1], hosts, h, f);
      hide Owner, Owned, Read;
    }
  }

  lemma {:induction false} OwnedOrNot(alts: seq<File>, hosts: seq<File>, anchor: string, f: File)
    ensures OwnedBelow(alts, hosts, |hosts|, f) + Read(Unowned(alts, hosts, anchor), f) == Listed(alts, f)
    ensures OwnedBelow(alts, hosts, 0, f) == 0
  {
    if alts != [] {
      var init, a := alts[..|alts| - 1], alts[|alts| - 1];
      OwnedOrNot(init, hosts, anchor, f);
      ReadConcat(Unowned(init, hosts, anchor), [KindFile(a, anchor)], f);
      ReadOne(KindFile(a, anchor), f);
      hide Read;
      assert Unowned(init, hosts, anchor) + [] == Unowned(init, hosts, anchor);
    }
  }

  lemma BlockHolds(alts: seq<File>, hosts: seq<File>, parts: nat, h: nat, f: File)
    requires h < |hosts|
    ensures Read(HostBlock(alts, hosts, parts, h), f)
         == (if hosts[h] == f then 1 else 0) + Read(Owned(alts, hosts, h, true), f) +
           Read(Owned(alts, hosts, h, false), f)
  {
    hide Read, Owned;
    var e, p, c := Owned(alts, hosts, h, true), [Plain(hosts[h])], Owned(alts, hosts, h, false);
    ReadOne(Plain(hosts[h]), f);
    ReadConcat(e + p, c, f);
    ReadConcat(e, p, f);
    ReadConcat(p + e, c, f);
    ReadConcat(p, e, f);
  }

  lemma PrefixGrows<T>(s: seq<T>, h: nat)
    requires h < |s|
    ensures s[..h + 1] == s[..h] + [s[h]]
  {}

  lemma {:induction false} BlocksHold(alts: seq<File>, hosts: seq<File>, parts: nat, h: nat, f: File)
    requires h <= |hosts|
    ensures Read(HostBlocks(alts, hosts, parts, h), f) == Listed(hosts[..h], f) + OwnedBelow(alts, hosts, h, f)
  {
    hide Read, Owned, OwnedBelow, HostBlock, HostBlocks, Listed;
    NoBlocks(alts, hosts, parts);
    OwnedOrNot(alts, hosts, "", f);
    ReadOne(KindFile(f, ""), f);
    ListedOne(f, f);
    if h > 0 {
      HostBlocksStep(alts, hosts, parts, h - 1);
      BlocksHold(alts, hosts, parts, h - 1, f);
      ReadConcat(HostBlocks(alts, hosts, parts, h - 1), HostBlock(alts, hosts, parts, h - 1), f);
      BlockHolds(alts, hosts, parts, h - 1, f);
      OwnedBelowStep(alts, hosts, h - 1, f);
      ListedOne(hosts[h - 1], f);
      ListedConcat(hosts[..h - 1], [hosts[h - 1]], f);
      PrefixGrows(hosts, h - 1);
    }
  }

  /** Every file is read as often as the target lists it. */
  lemma EveryFileOnce(book: bool, files: seq<File>, f: File)
    ensures Read(ReadOrder(book, files), f) == Listed(files, f)
  {
    hide Read, Listed, HostBlocks, Unowned, OfRole, OwnedBelow, Anchored;
    var primary, parts, alts := OfRole(files, Primary), OfRole(files, Part), OfRole(files, Alternate);
    var hosts := parts + primary;
    RolesPartition(files, f);
    ListedConcat(parts, primary, f);
    ListedConcat(primary, parts, f);
    if book {
      ReadConcat(HostBlocks(alts, hosts, |parts|, |hosts|), Unowned(alts, hosts, FirstPrimary(primary)), f);
      BlocksHold(alts, hosts, |parts|, |hosts|, f);
      assert hosts[..|hosts|] == hosts;
      OwnedOrNot(alts, hosts, FirstPrimary(primary), f);
    } else {
      ReadConcat(Anchored(primary + parts, ""), Anchored(alts, FirstPrimary(primary)), f);
      ReadAnchored(primary + parts, "", f);
      ReadAnchored(alts, FirstPrimary(primary), f);
    }
  }

  // Placement

  lemma {:induction false} RoleOnly(files: seq<File>, r: Role)
    ensures forall f :: f in OfRole(files, r) ==> RoleOf(f) == r
  {
    if files != [] {
      RoleOnly(files[..|files| - 1], r);
    }
  }

  /** Whether an alternate goes in host h's block, among its encodings or its copies: h is the first
      host at its position, and it differs from h in essence or not. */
  predicate Belongs(hosts: seq<File>, h: nat, encodings: bool, f: File)
    requires h < |hosts|
  {
    Owner(hosts, f) == h && (f.essence != hosts[h].essence) == encodings
  }

  /** A host's encodings, or its copies, are exactly the alternates that belong there, anchored at
      the host. */
  lemma {:induction false} OwnedAre(alts: seq<File>, hosts: seq<File>, h: nat, encodings: bool)
    requires h < |hosts|
    ensures forall k :: k in Owned(alts, hosts, h, encodings) <==>
              k.file in alts && k.anchor == hosts[h].pid && Belongs(hosts, h, encodings, k.file)
    ensures forall k :: k in Owned(alts, hosts, h, encodings) ==> k.file.position == hosts[h].position
  {
    hide Owner;
    if alts != [] {
      var init, a := alts[..|alts| - 1], alts[|alts| - 1];
      OwnedAre(init, hosts, h, encodings);
      OwnerFits(hosts, a);
      assert forall x :: x in alts <==> x in init || x == a;
    }
  }

  lemma OwnerFits(hosts: seq<File>, a: File)
    ensures Owner(hosts, a) < |hosts| ==> hosts[Owner(hosts, a)].position == a.position
  {}

  /** And each is there as often as the target lists it. */
  lemma {:induction false} OwnedCounts(alts: seq<File>, hosts: seq<File>, h: nat, encodings: bool, f: File)
    requires h < |hosts|
    ensures Read(Owned(alts, hosts, h, encodings), f) == if Belongs(hosts, h, encodings, f) then Listed(alts, f) else 0
  {
    hide Owner, Owned;
    OwnedNone(hosts, h, encodings);
    if alts != [] {
      OwnedCounts(alts[..|alts| - 1], hosts, h, encodings, f);
      OwnedReads(alts, hosts, h, encodings, f);
    }
  }

  lemma {:induction false} UnownedAre(alts: seq<File>, hosts: seq<File>, anchor: string)
    ensures forall k :: k in Unowned(alts, hosts, anchor) ==>
              k.file in alts && k.anchor == anchor && forall h :: h in hosts ==> h.position != k.file.position
  {
    if alts != [] {
      UnownedAre(alts[..|alts| - 1], hosts, anchor);
      var a := alts[|alts| - 1];
      if Owner(hosts, a) == |hosts| {
        forall h | h in hosts ensures h.position != a.position {
          var i :| 0 <= i < |hosts| && hosts[i] == h;
        }
      }
    }
  }

  lemma {:induction false} BlockPlaced(alts: seq<File>, hosts: seq<File>, parts: nat, h: nat, upTo: nat)
    requires h < upTo <= |hosts|
    ensures var all, before := HostBlocks(alts, hosts, parts, upTo), HostBlocks(alts, hosts, parts, h);
            before + HostBlock(alts, hosts, parts, h) <= all
  {
    hide HostBlock, HostBlocks;
    HostBlocksStep(alts, hosts, parts, upTo - 1);
    if upTo > h + 1 {
      BlockPlaced(alts, hosts, parts, h, upTo - 1);
    }
  }

  /** k is read at i, right after before and right before after. */
  ghost predicate StandsAt(out: seq<KindFile>, i: nat, k: KindFile, before: seq<KindFile>, after: seq<KindFile>) {
    && |before| <= i && i + 1 + |after| <= |out|
    && out[i - |before|..i] == before && out[i] == k && out[i + 1..i + 1 + |after|] == after
  }

  ghost predicate Stands(out: seq<KindFile>, k: KindFile, before: seq<KindFile>, after: seq<KindFile>) {
    exists i :: StandsAt(out, i, k, before, after)
  }

  /** In a book's order a part stands right after all of its other encodings and right before all of
      its copies, a primary right before both. */
  lemma HostInBlock(files: seq<File>, h: nat)
    requires h < |OfRole(files, Part)| + |OfRole(files, Primary)|
    ensures var parts, alts := OfRole(files, Part), OfRole(files, Alternate);
            var hosts := parts + OfRole(files, Primary);
            var encodings, copies := Owned(alts, hosts, h, true), Owned(alts, hosts, h, false);
            if h < |parts| then Stands(ReadOrder(true, files), Plain(hosts[h]), encodings, copies)
            else Stands(ReadOrder(true, files), Plain(hosts[h]), [], encodings + copies)
  {
    hide HostBlocks, Owned, Unowned, OfRole;
    var primary, parts, alts := OfRole(files, Primary), OfRole(files, Part), OfRole(files, Alternate);
    var hosts := parts + primary;
    BlockPlaced(alts, hosts, |parts|, h, |hosts|);
    var e, c := Owned(alts, hosts, h, true), Owned(alts, hosts, h, false);
    var first := HostBlocks(alts, hosts, |parts|, h);
    var out := ReadOrder(true, files);
    assert first + HostBlock(alts, hosts, |parts|, h) <= out;
    if h < |parts| {
      PrefixPlaces(out, first, e, Plain(hosts[h]), c);
    } else {
      assert [Plain(hosts[h])] + e + c == [] + [Plain(hosts[h])] + (e + c);
      PrefixPlaces(out, first, [], Plain(hosts[h]), e + c);
    }
  }

  lemma PrefixPlaces(out: seq<KindFile>, first: seq<KindFile>, before: seq<KindFile>, k: KindFile, after: seq<KindFile>)
    requires first + (before + [k] + after) <= out
    ensures Stands(out, k, before, after)
  {
    var all := first + (before + [k] + after);
    assert out[..|all|] == all;
    var i := |first| + |before|;
    assert out[i - |before|..i] == all[i - |before|..i] == before;
    assert out[i + 1..i + 1 + |after|] == all[i + 1..i + 1 + |after|] == after;
    assert StandsAt(out, i, k, before, after);
  }

  /** In a book's order every part comes before every primary. */
  lemma PartsFirst(files: seq<File>, i: nat, j: nat)
    requires i < |ReadOrder(true, files)| && j < |ReadOrder(true, files)|
    requires RoleOf(ReadOrder(true, files)[i].file) == Part && RoleOf(ReadOrder(true, files)[j].file) == Primary
    ensures i < j
  {
    hide HostBlocks, OfRole, Unowned;
    var primary, parts, alts := OfRole(files, Primary), OfRole(files, Part), OfRole(files, Alternate);
    var hosts, out := parts + primary, ReadOrder(true, files);
    var first, all := HostBlocks(alts, hosts, |parts|, |parts|), HostBlocks(alts, hosts, |parts|, |hosts|);
    RoleOnly(files, Part);
    RoleOnly(files, Primary);
    RoleOnly(files, Alternate);
    BlocksPrefix(alts, hosts, |parts|, |parts|, |hosts|);
    BlockMembers(alts, hosts, |parts|, |parts|);
    NoPartLater(alts, hosts, |parts|, |hosts|);
    UnownedAre(alts, hosts, FirstPrimary(primary));
    forall x | 0 <= x < |first| ensures RoleOf(out[x].file) != Primary {
      assert first[x] in first;
    }
    forall x | |first| <= x < |out| ensures RoleOf(out[x].file) != Part {
      if x >= |all| {
        assert out[x] in Unowned(alts, hosts, FirstPrimary(primary));
      }
    }
  }

  /** Past the parts' blocks there is no part. */
  lemma {:induction false} NoPartLater(alts: seq<File>, hosts: seq<File>, parts: nat, h: nat)
    requires parts <= h <= |hosts|
    requires forall k :: parts <= k < |hosts| ==> RoleOf(hosts[k]) == Primary
    requires forall a :: a in alts ==> RoleOf(a) == Alternate
    ensures forall i :: |HostBlocks(alts, hosts, parts, parts)| <= i < |HostBlocks(alts, hosts, parts, h)| ==>
              RoleOf(HostBlocks(alts, hosts, parts, h)[i].file) != Part
  {
    hide HostBlock, HostBlocks;
    if h > parts {
      NoPartLater(alts, hosts, parts, h - 1);
      BlockHas(alts, hosts, parts, h - 1);
      HostBlocksStep(alts, hosts, parts, h - 1);
      var before, block := HostBlocks(alts, hosts, parts, h - 1), HostBlock(alts, hosts, parts, h - 1);
      var all: seq<KindFile> := before + block;
      forall i | |before| <= i < |all| ensures RoleOf(all[i].file) != Part {
        assert all[i] in block;
      }
    }
  }

  lemma {:induction false} BlocksPrefix(alts: seq<File>, hosts: seq<File>, parts: nat, h: nat, upTo: nat)
    requires h <= upTo <= |hosts|
    ensures HostBlocks(alts, hosts, parts, h) <= HostBlocks(alts, hosts, parts, upTo)
  {
    hide HostBlock, HostBlocks;
    if upTo > h {
      HostBlocksStep(alts, hosts, parts, upTo - 1);
      BlocksPrefix(alts, hosts, parts, h, upTo - 1);
    }
  }

  lemma BlockHas(alts: seq<File>, hosts: seq<File>, parts: nat, h: nat)
    requires h < |hosts|
    ensures Plain(hosts[h]) in HostBlock(alts, hosts, parts, h)
    ensures forall k :: k in HostBlock(alts, hosts, parts, h) ==>
              k == Plain(hosts[h])
                || (k.file in alts && k.anchor == hosts[h].pid && k.file.position == hosts[h].position)
  {
    OwnedAre(alts, hosts, h, true);
    OwnedAre(alts, hosts, h, false);
    hide Owned, Owner;
  }

  lemma {:induction false} BlockMembers(alts: seq<File>, hosts: seq<File>, parts: nat, h: nat)
    requires h <= |hosts|
    ensures forall k :: k in HostBlocks(alts, hosts, parts, h) ==>
              k.file in alts || exists i :: 0 <= i < h && k.file == hosts[i]
    ensures forall i :: 0 <= i < h ==> Plain(hosts[i]) in HostBlocks(alts, hosts, parts, h)
  {
    hide HostBlock, HostBlocks;
    NoBlocks(alts, hosts, parts);
    if h > 0 {
      BlockMembers(alts, hosts, parts, h - 1);
      BlockHas(alts, hosts, parts, h - 1);
      HostBlocksStep(alts, hosts, parts, h - 1);
    }
  }

  /** An alternate is anchored at a file at its own position, or else at the first primary. */
  lemma AnchorsFit(files: seq<File>, k: KindFile)
    requires k in ReadOrder(true, files) && RoleOf(k.file) == Alternate
    ensures var primary, parts := OfRole(files, Primary), OfRole(files, Part);
            if exists h :: h in parts + primary && h.position == k.file.position
            then exists h :: h in parts + primary && h.position == k.file.position && h.pid == k.anchor
            else k.anchor == FirstPrimary(primary)
  {
    var primary, parts, alts := OfRole(files, Primary), OfRole(files, Part), OfRole(files, Alternate);
    var hosts := parts + primary;
    RoleOnly(files, Part);
    RoleOnly(files, Primary);
    UnownedAre(alts, hosts, FirstPrimary(primary));
    BlockAnchors(alts, hosts, |parts|, |hosts|);
  }

  lemma {:induction false} BlockAnchors(alts: seq<File>, hosts: seq<File>, parts: nat, h: nat)
    requires h <= |hosts|
    ensures forall k :: k in HostBlocks(alts, hosts, parts, h) ==>
              k.file in hosts || exists g :: g in hosts && g.position == k.file.position && g.pid == k.anchor
  {
    hide HostBlock, HostBlocks;
    NoBlocks(alts, hosts, parts);
    if h > 0 {
      BlockAnchors(alts, hosts, parts, h - 1);
      BlockHas(alts, hosts, parts, h - 1);
      HostBlocksStep(alts, hosts, parts, h - 1);
      assert hosts[h - 1] in hosts;
    }
  }

  /** The roles are told by their names, anything else a part, and picking one keeps the list's order. */
  lemma RolesAre(f: File, a: seq<File>, b: seq<File>, r: Role)
    ensures RoleOf(f) == Primary <==> f.role == "primary"
    ensures RoleOf(f) == Alternate <==> f.role == "alternate"
    ensures OfRole([f], r) == (if RoleOf(f) == r then [f] else []) && OfRole([], r) == []
    ensures OfRole(a + b, r) == OfRole(a, r) + OfRole(b, r)
  {
    assert [f][..0] == [];
    OfRoleConcat(a, b, r);
  }

  lemma {:induction false} OfRoleConcat(a: seq<File>, b: seq<File>, r: Role)
    ensures OfRole(a + b, r) == OfRole(a, r) + OfRole(b, r)
  {
    if b == [] {
      assert a + b == a;
    } else {
      var k := |b| - 1;
      OfRoleConcat(a, b[..k], r);
      assert (a + b)[..|a| + k] == a + b[..k];
    }
  }

  /** A track's order: its primaries, its parts, and then its alternates, anchored at the first primary,
      each in the order listed. */
  lemma TrackOrder(files: seq<File>, i: nat)
    requires i < |ReadOrder(false, files)|
    ensures var primary, parts, alts := OfRole(files, Primary), OfRole(files, Part), OfRole(files, Alternate);
            var out, p, q := ReadOrder(false, files), |OfRole(files, Primary)|, |OfRole(files, Part)|;
            && |out| == p + q + |alts|
            && (i < p ==> out[i] == KindFile(primary[i], ""))
            && (p <= i < p + q ==> out[i] == KindFile(parts[i - p], ""))
            && (p + q <= i ==> out[i] == KindFile(alts[i - p - q], if p == 0 then "" else primary[0].pid))
  {}

  /** A book's parts and primaries are read in the order listed, the parts first. */
  lemma HostsInOrder(files: seq<File>, h: nat, k: nat)
    requires h < k < |OfRole(files, Part) + OfRole(files, Primary)|
    ensures var hosts, out := OfRole(files, Part) + OfRole(files, Primary), ReadOrder(true, files);
            exists i, j :: 0 <= i < j < |out| && out[i] == Plain(hosts[h]) && out[j] == Plain(hosts[k])
  {
    hide HostBlocks, HostBlock, Owned, Unowned, OfRole;
    var parts, alts := OfRole(files, Part), OfRole(files, Alternate);
    var hosts, out := parts + OfRole(files, Primary), ReadOrder(true, files);
    BlockPlaced(alts, hosts, |parts|, h, k);
    BlockPlaced(alts, hosts, |parts|, k, |hosts|);
    BlockHas(alts, hosts, |parts|, h);
    BlockHas(alts, hosts, |parts|, k);
    var a, b := HostBlock(alts, hosts, |parts|, h), HostBlock(alts, hosts, |parts|, k);
    var x :| 0 <= x < |a| && a[x] == Plain(hosts[h]);
    var y :| 0 <= y < |b| && b[y] == Plain(hosts[k]);
    var first, second := HostBlocks(alts, hosts, |parts|, h), HostBlocks(alts, hosts, |parts|, k);
    assert first + a <= second && second + b <= out;
    assert (first + a)[|first| + x] == a[x] && second[|first| + x] == a[x];
    assert (second + b)[|second| + y] == b[y] && out[|second| + y] == b[y] && out[|first| + x] == a[x];
  }
}
