/** The batch resolver and the digest that keys its memo (share.go). */
module RefDigest {
  import opened Common

  type Bytes = s: seq<Byte> | |s| < 0x8000_0000_0000_0000

  type Int64 = v: int | -0x8000_0000_0000_0000 <= v < 0x8000_0000_0000_0000

  datatype PortableRef = PortableRef(
    kind: Bytes, essence: Bytes, fingerprint: Bytes, fingerprintAlgo: Int64, fingerprintBucket: Int64,
    mbid: Bytes, asin: Bytes, isbn: Bytes, artist: Bytes, title: Bytes, album: Bytes, durationMS: Int64)

  // ---------------------------------------------------------------------------
  // The encoding
  // ---------------------------------------------------------------------------

  /** The low k bytes of u, the highest first. */
  function BigEndian(u: nat, k: nat): (r: seq<Byte>)
    ensures |r| == k
  {
    if k == 0 then [] else BigEndian(u / 256, k - 1) + [(u % 256) as Byte]
  }

  /** An int64 as uint64, then as eight bytes. */
  function Num(v: Int64): (r: seq<Byte>)
    ensures |r| == 8
  {
    BigEndian(if v < 0 then v + 0x1_0000_0000_0000_0000 else v, 8)
  }

  function Text(s: Bytes): seq<Byte> {
    Num(|s|) + s
  }

  /** What the digest is taken over: every field, each of the variable ones length-prefixed. */
  function Encode(r: PortableRef): seq<Byte> {
    Text(r.kind) + (Text(r.essence) + (Text(r.fingerprint) + (Num(r.fingerprintAlgo) + (Num(r.fingerprintBucket) +
    (Text(r.mbid) + (Text(r.asin) + (Text(r.isbn) + (Text(r.artist) + (Text(r.title) + (Text(r.album) +
    Num(r.durationMS)))))))))))
  }

  function Value(s: seq<Byte>): nat {
    if s == [] then 0 else Value(s[..|s| - 1]) * 256 + s[|s| - 1] as nat
  }

  function Pow256(k: nat): nat {
    if k == 0 then 1 else 256 * Pow256(k - 1)
  }

  lemma {:induction false} BigEndianReadsBack(u: nat, k: nat)
    requires u < Pow256(k)
    ensures Value(BigEndian(u, k)) == u
  {
    if k > 0 {
      BigEndianReadsBack(u / 256, k - 1);
      var r := BigEndian(u, k);
      assert r[..k - 1] == BigEndian(u / 256, k - 1);
    }
  }

  lemma NumInjective(a: Int64, b: Int64)
    requires Num(a) == Num(b)
    ensures a == b
  {
    assert Pow256(8) == 0x1_0000_0000_0000_0000 by {
      assert Pow256(4) == 0x1_0000_0000;
      assert Pow256(8) == 256 * (256 * (256 * (256 * Pow256(4))));
    }
    BigEndianReadsBack(if a < 0 then a + 0x1_0000_0000_0000_0000 else a, 8);
    BigEndianReadsBack(if b < 0 then b + 0x1_0000_0000_0000_0000 else b, 8);
  }

  lemma NumSplits(a: Int64, b: Int64, x: seq<Byte>, y: seq<Byte>)
    requires Num(a) + x == Num(b) + y
    ensures a == b && x == y
  {
    hide Num;
    assert (Num(a) + x)[..8] == Num(a) && (Num(b) + y)[..8] == Num(b);
    assert (Num(a) + x)[8..] == x && (Num(b) + y)[8..] == y;
    NumInjective(a, b);
  }

  /** A length-prefixed field ends where its prefix says, so neighbours cannot trade bytes. */
  lemma TextSplits(s: Bytes, t: Bytes, x: seq<Byte>, y: seq<Byte>)
    requires Text(s) + x == Text(t) + y
    ensures s == t && x == y
  {
    hide Num;
    assert Text(s) + x == Num(|s|) + (s + x);
    assert Text(t) + y == Num(|t|) + (t + y);
    NumSplits(|s|, |t|, s + x, t + y);
    assert (s + x)[..|s|] == s && (t + y)[..|t|] == t;
    assert (s + x)[|s|..] == x && (t + y)[|t|..] == y;
  }

  /** Two refs encode alike only when they are the same ref. */
  lemma EncodeInjective(a: PortableRef, b: PortableRef)
    requires Encode(a) == Encode(b)
    ensures a == b
  {
    hide Text, Num;
    var a11, b11 := Num(a.durationMS), Num(b.durationMS);
    var a10, b10 := Text(a.album) + a11, Text(b.album) + b11;
    var a9, b9 := Text(a.title) + a10, Text(b.title) + b10;
    var a8, b8 := Text(a.artist) + a9, Text(b.artist) + b9;
    var a7, b7 := Text(a.isbn) + a8, Text(b.isbn) + b8;
    var a6, b6 := Text(a.asin) + a7, Text(b.asin) + b7;
    var a5, b5 := Text(a.mbid) + a6, Text(b.mbid) + b6;
    var a4, b4 := Num(a.fingerprintBucket) + a5, Num(b.fingerprintBucket) + b5;
    var a3, b3 := Num(a.fingerprintAlgo) + a4, Num(b.fingerprintAlgo) + b4;
    var a2, b2 := Text(a.fingerprint) + a3, Text(b.fingerprint) + b3;
    var a1, b1 := Text(a.essence) + a2, Text(b.essence) + b2;
    TextSplits(a.kind, b.kind, a1, b1);
    TextSplits(a.essence, b.essence, a2, b2);
    TextSplits(a.fingerprint, b.fingerprint, a3, b3);
    NumSplits(a.fingerprintAlgo, b.fingerprintAlgo, a4, b4);
    NumSplits(a.fingerprintBucket, b.fingerprintBucket, a5, b5);
    TextSplits(a.mbid, b.mbid, a6, b6);
    TextSplits(a.asin, b.asin, a7, b7);
    TextSplits(a.isbn, b.isbn, a8, b8);
    TextSplits(a.artist, b.artist, a9, b9);
    TextSplits(a.title, b.title, a10, b10);
    TextSplits(a.album, b.album, a11, b11);
    NumInjective(a.durationMS, b.durationMS);
  }

  // ---------------------------------------------------------------------------
  // The batch
  // ---------------------------------------------------------------------------

  datatype Result<T> = Ok(value: T) | Err(error: string)

  /** What one ref resolves to: the item, empty on a miss, its rung, and the tied items. */
  datatype Answer = Answer(pid: string, rung: string, tied: seq<string>)
  datatype Resolution = Resolution(ref: PortableRef, answer: Answer)

  /** SHA-256, taken to have no collisions. */
  ghost predicate CollisionFree(digest: seq<Byte> -> nat) {
    forall x, y :: digest(x) == digest(y) ==> x == y
  }

  /** The memo holds each ref resolved so far under its digest, and nothing else. */
  ghost predicate Memoized(digest: seq<Byte> -> nat, resolve: PortableRef -> Result<Answer>,
                           seen: map<nat, Resolution>, resolved: seq<PortableRef>)
  {
    && (forall r :: r in resolved ==>
          resolve(r).Ok? && digest(Encode(r)) in seen && seen[digest(Encode(r))] == Resolution(r, resolve(r).value))
    && (forall k :: k in seen ==> seen[k].ref in resolved && k == digest(Encode(seen[k].ref)))
  }

  /** A digest in the memo is the ref's own. */
  lemma MemoHits(digest: seq<Byte> -> nat, resolve: PortableRef -> Result<Answer>,
                 seen: map<nat, Resolution>, resolved: seq<PortableRef>, r: PortableRef)
    requires CollisionFree(digest) && Memoized(digest, resolve, seen, resolved)
    ensures digest(Encode(r)) in seen <==> r in resolved
    ensures r in resolved ==> resolve(r).Ok? && seen[digest(Encode(r))] == Resolution(r, resolve(r).value)
  {
    hide Encode;
    var k := digest(Encode(r));
    if k in seen {
      assert Encode(seen[k].ref) == Encode(r);
      EncodeInjective(seen[k].ref, r);
    }
  }

  lemma MemoGrows(digest: seq<Byte> -> nat, resolve: PortableRef -> Result<Answer>,
                  seen: map<nat, Resolution>, resolved: seq<PortableRef>, r: PortableRef)
    requires CollisionFree(digest) && Memoized(digest, resolve, seen, resolved) && r !in resolved && resolve(r).Ok?
    ensures Memoized(digest, resolve, seen[digest(Encode(r)) := Resolution(r, resolve(r).value)], resolved + [r])
  {
    MemoHits(digest, resolve, seen, resolved, r);
    hide Encode;
  }

  /** Every entry, in order, is what its ref resolves to alone, and each distinct ref is resolved
      once; the first ref that fails fails the batch. */
  method ResolvePlaylistRefs(refs: seq<PortableRef>, resolve: PortableRef -> Result<Answer>, digest: seq<Byte> -> nat)
    returns (r: Result<seq<Resolution>>, resolved: seq<PortableRef>)
    requires CollisionFree(digest)
    ensures NoRepeats(resolved) && forall x :: x in resolved ==> x in refs
    ensures r.Ok? ==> |r.value| == |refs|
    ensures r.Ok? ==> forall i :: 0 <= i < |refs| ==>
              resolve(refs[i]).Ok? && r.value[i] == Resolution(refs[i], resolve(refs[i]).value)
    ensures r.Ok? ==> forall x :: x in refs ==> x in resolved
    ensures r.Err? ==> exists i :: 0 <= i < |refs| && resolve(refs[i]) == Err(r.error)
                                   && forall j :: 0 <= j < i ==> resolve(refs[j]).Ok?
  {
    hide Encode, Memoized, CollisionFree;
    var out: seq<Resolution> := [];
    var seen: map<nat, Resolution> := map[];
    resolved := [];
    MemoBegins(digest, resolve);
    for i := 0 to |refs|
      invariant |out| == i && Memoized(digest, resolve, seen, resolved) && NoRepeats(resolved)
      invariant forall k :: 0 <= k < i ==> resolve(refs[k]).Ok? && out[k] == Resolution(refs[k], resolve(refs[k]).value)
      invariant forall x :: x in resolved <==> x in refs[..i]
    {
      var ref := refs[i];
      var key := digest(Encode(ref));
      MemoHits(digest, resolve, seen, resolved, ref);
      assert refs[..i + 1] == refs[..i] + [ref];
      if key in seen {
        out := out + [seen[key]];
      } else {
        var m := resolve(ref);
        if m.Err? {
          return Err(m.error), resolved;
        }
        MemoGrows(digest, resolve, seen, resolved, ref);
        var res := Resolution(ref, m.value);
        seen, out, resolved := seen[key := res], out + [res], resolved + [ref];
      }
    }
    assert refs[..|refs|] == refs;
    return Ok(out), resolved;
  }

  lemma MemoBegins(digest: seq<Byte> -> nat, resolve: PortableRef -> Result<Answer>)
    ensures Memoized(digest, resolve, map[], [])
  {}
}
