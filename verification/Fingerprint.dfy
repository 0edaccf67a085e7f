/** What `archive_fingerprint` feeds to SHA-256. */
module Fingerprint {
  const HEX_LENGTH := 64

  /** Code-point order on strings. */
  predicate Leq(a: string, b: string) {
    a == [] || (b != [] && (a[0] < b[0] || (a[0] == b[0] && Leq(a[1..], b[1..]))))
  }

  lemma {:induction false} LeqTotal(a: string, b: string)
    ensures Leq(a, b) || Leq(b, a)
  {
    if a != [] && b != [] && a[0] == b[0] {
      LeqTotal(a[1..], b[1..]);
    }
  }

  lemma {:induction false} LeqAntisymmetric(a: string, b: string)
    requires Leq(a, b) && Leq(b, a)
    ensures a == b
  {
    if a != [] && b != [] {
      LeqAntisymmetric(a[1..], b[1..]);
      assert a == [a[0]] + a[1..] && b == [b[0]] + b[1..];
    }
  }

  lemma {:induction false} LeqTransitive(a: string, b: string, c: string)
    requires Leq(a, b) && Leq(b, c)
    ensures Leq(a, c)
  {
    if a != [] && a[0] == b[0] == c[0] {
      LeqTransitive(a[1..], b[1..], c[1..]);
    }
  }

  ghost predicate Sorted(l: seq<string>) {
    forall i, j | 0 <= i < j < |l| :: Leq(l[i], l[j])
  }

  function Insert(x: string, l: seq<string>): seq<string> {
    if l == [] || Leq(x, l[0]) then [x] + l else [l[0]] + Insert(x, l[1..])
  }

  function Sort(l: seq<string>): seq<string> {
    if l == [] then [] else Insert(l[0], Sort(l[1..]))
  }

  lemma {:induction false} InsertSorts(x: string, l: seq<string>)
    requires Sorted(l)
    ensures Sorted(Insert(x, l)) && multiset(Insert(x, l)) == multiset(l) + multiset{x}
  {
    if l == [] {
    } else if Leq(x, l[0]) {
      forall j | 0 <= j < |l| ensures Leq(x, l[j]) {
        if j > 0 { LeqTransitive(x, l[0], l[j]); }
      }
    } else {
      LeqTotal(x, l[0]);
      InsertSorts(x, l[1..]);
      var rest := Insert(x, l[1..]);
      assert l == [l[0]] + l[1..];
      forall j | 0 <= j < |rest| ensures Leq(l[0], rest[j]) {
        assert rest[j] in multiset(rest);
        if rest[j] != x {
          assert rest[j] in l[1..];
        }
      }
    }
  }

  lemma {:induction false} SortSorts(l: seq<string>)
    ensures Sorted(Sort(l)) && multiset(Sort(l)) == multiset(l)
  {
    if l != [] {
      SortSorts(l[1..]);
      InsertSorts(l[0], Sort(l[1..]));
      assert l == [l[0]] + l[1..];
    }
  }

  lemma TailMultiset(l: seq<string>)
    requires l != []
    ensures l == [l[0]] + l[1..]
    ensures multiset(l[1..]) == multiset(l) - multiset{l[0]}
  {
  }

  lemma HeadIsLeast(a: seq<string>, x: string)
    requires Sorted(a) && x in multiset(a)
    ensures a != [] && Leq(a[0], x)
  {
    assert x in a;
    LeqTotal(x, x);
  }

  /** There is only one way to sort: `sorted` forgets the order of the attachments. */
  lemma {:induction false} SortedUnique(a: seq<string>, b: seq<string>)
    requires Sorted(a) && Sorted(b) && multiset(a) == multiset(b)
    ensures a == b
  {
    assert |a| == |multiset(a)| == |multiset(b)| == |b|;
    if a != [] {
      assert a[0] in multiset(a) && b[0] in multiset(b);
      HeadIsLeast(a, b[0]);
      HeadIsLeast(b, a[0]);
      LeqAntisymmetric(a[0], b[0]);
      TailMultiset(a);
      TailMultiset(b);
      SortedUnique(a[1..], b[1..]);
    }
  }

  function Concat(l: seq<string>): string {
    if l == [] then [] else Concat(l[..|l| - 1]) + l[|l| - 1]
  }

  function Preimage(headers: string, bodyHash: string, attHashes: seq<string>): string {
    headers + bodyHash + Concat(Sort(attHashes))
  }

  /** The hash object's updates, in order. */
  method FeedHash(headers: string, bodyHash: string, attHashes: seq<string>) returns (fed: string)
    ensures fed == Preimage(headers, bodyHash, attHashes)
  {
    fed := headers;
    fed := fed + bodyHash;
    var order := Sort(attHashes);
    for i := 0 to |order|
      invariant fed == headers + bodyHash + Concat(order[..i])
    {
      fed := fed + order[i];
      assert order[..i + 1][..i] == order[..i] && order[..i + 1][i] == order[i];
    }
    assert order[..|order|] == order;
  }

  predicate Hex(s: string) { |s| == HEX_LENGTH }

  predicate AllHex(l: seq<string>) { forall s | s in l :: Hex(s) }

  lemma {:induction false} ConcatLength(l: seq<string>)
    requires AllHex(l)
    ensures |Concat(l)| == HEX_LENGTH * |l|
  {
    if l != [] {
      assert l[|l| - 1] in l;
      ConcatLength(l[..|l| - 1]);
    }
  }

  /** Fixed-width fields can be read back from their concatenation. */
  lemma {:induction false} ConcatInjective(a: seq<string>, b: seq<string>)
    requires AllHex(a) && AllHex(b) && Concat(a) == Concat(b)
    ensures a == b
    decreases |a|
  {
    ConcatLength(a);
    ConcatLength(b);
    if a != [] {
      var n := |a| - 1;
      assert a[n] in a && b[n] in b;
      ConcatLength(a[..n]);
      ConcatLength(b[..n]);
      var k := HEX_LENGTH * n;
      assert Concat(a)[..k] == Concat(a[..n]) && Concat(b)[..k] == Concat(b[..n]);
      assert Concat(a)[k..] == a[n] && Concat(b)[k..] == b[n];
      ConcatInjective(a[..n], b[..n]);
      assert a == a[..n] + [a[n]] && b == b[..n] + [b[n]];
    }
  }

  lemma SortKeepsHex(l: seq<string>)
    requires AllHex(l)
    ensures AllHex(Sort(l))
  {
    SortSorts(l);
    forall s | s in Sort(l) ensures Hex(s) {
      assert s in multiset(Sort(l));
      assert s in multiset(l);
    }
  }

  lemma {:induction false} ConcatAppend(a: seq<string>, b: seq<string>)
    ensures Concat(a + b) == Concat(a) + Concat(b)
  {
    if b == [] {
      assert a + b == a;
    } else {
      var n := |b| - 1;
      ConcatAppend(a, b[..n]);
      assert (a + b)[..|a + b| - 1] == a + b[..n];
    }
  }

  /** The digests of an archive in the order they are fed. */
  function Digests(bodyHash: string, attHashes: seq<string>): seq<string> {
    [bodyHash] + Sort(attHashes)
  }

  lemma PreimageParts(headers: string, bodyHash: string, attHashes: seq<string>)
    requires Hex(bodyHash) && AllHex(attHashes)
    ensures AllHex(Digests(bodyHash, attHashes))
    ensures Preimage(headers, bodyHash, attHashes) == headers + Concat(Digests(bodyHash, attHashes))
  {
    SortKeepsHex(attHashes);
    ConcatAppend([bodyHash], Sort(attHashes));
    assert Concat([bodyHash]) == Concat([]) + bodyHash;
  }

  /** Fields that follow a leading piece: the piece is made of whole fields. */
  lemma FieldsSplit(d1: seq<string>, piece: string, d2: seq<string>) returns (k: nat)
    requires AllHex(d1) && AllHex(d2) && Concat(d1) == piece + Concat(d2)
    ensures k <= |d1| && piece == Concat(d1[..k]) && d2 == d1[k..]
  {
    ConcatLength(d1);
    ConcatLength(d2);
    assert HEX_LENGTH * |d1| >= HEX_LENGTH * |d2|;
    k := |d1| - |d2|;
    ConcatAppend(d1[..k], d1[k..]);
    assert d1[..k] + d1[k..] == d1;
    ConcatLength(d1[..k]);
    assert Concat(d1)[..|piece|] == piece && Concat(d1)[|piece|..] == Concat(d2);
    assert Concat(d1)[..|piece|] == Concat(d1[..k]) && Concat(d1)[|piece|..] == Concat(d1[k..]);
    ConcatInjective(d1[k..], d2);
  }

  lemma CommonStart(a: string, x: string, b: string, y: string)
    requires |a| <= |b| && a + x == b + y
    ensures b == a + b[|a|..] && x == b[|a|..] + y
  {
    assert (a + x)[..|a|] == a && (b + y)[..|a|] == b[..|a|];
    assert (a + x)[|a|..] == x && (b + y)[|a|..] == b[|a|..] + y;
  }

  /** The headers `h2` are `h1` followed by the first `k` fields of `d1`; the other fields
      are `d2`. */
  predicate Shifted(h1: string, d1: seq<string>, h2: string, d2: seq<string>, k: nat) {
    k <= |d1| && h2 == h1 + Concat(d1[..k]) && d2 == d1[k..]
  }

  lemma ShiftedAgree(h1: string, d1: seq<string>, h2: string, d2: seq<string>, k: nat)
    requires Shifted(h1, d1, h2, d2, k)
    ensures h1 + Concat(d1) == h2 + Concat(d2)
  {
    assert d1[..k] + d1[k..] == d1;
    ConcatAppend(d1[..k], d1[k..]);
    AppendAssociative(h1, Concat(d1[..k]), Concat(d2));
  }

  lemma AppendAssociative(a: string, b: string, c: string)
    ensures a + (b + c) == a + b + c
  {
  }

  /** Exactly when two archives are hashed alike: the longer headers are the shorter ones
      followed by the first digests of the other archive, and the remaining digests are
      the same. */
  lemma SameArchiveExactly(h1: string, b1: string, a1: seq<string>, h2: string, b2: string, a2: seq<string>)
    requires |h1| <= |h2| && Hex(b1) && Hex(b2) && AllHex(a1) && AllHex(a2)
    ensures Preimage(h1, b1, a1) == Preimage(h2, b2, a2) <==>
            exists k: nat :: Shifted(h1, Digests(b1, a1), h2, Digests(b2, a2), k)
  {
    PreimageParts(h1, b1, a1);
    PreimageParts(h2, b2, a2);
    var d1, d2 := Digests(b1, a1), Digests(b2, a2);
    if Preimage(h1, b1, a1) == Preimage(h2, b2, a2) {
      CommonStart(h1, Concat(d1), h2, Concat(d2));
      var k := FieldsSplit(d1, h2[|h1|..], d2);
      assert Shifted(h1, d1, h2, d2, k);
    }
    if k: nat :| Shifted(h1, d1, h2, d2, k) {
      ShiftedAgree(h1, d1, h2, d2, k);
    }
  }

  /** So for headers of one length, two archives are hashed alike exactly when headers and
      body agree and the attachments agree as a multiset. */
  lemma PreimageCanonical(h1: string, b1: string, a1: seq<string>, h2: string, b2: string, a2: seq<string>)
    requires |h1| == |h2| && Hex(b1) && Hex(b2) && AllHex(a1) && AllHex(a2)
    ensures Preimage(h1, b1, a1) == Preimage(h2, b2, a2) <==>
            h1 == h2 && b1 == b2 && multiset(a1) == multiset(a2)
  {
    SameArchiveExactly(h1, b1, a1, h2, b2, a2);
    SortSorts(a1);
    SortSorts(a2);
    var d1, d2 := Digests(b1, a1), Digests(b2, a2);
    if Preimage(h1, b1, a1) == Preimage(h2, b2, a2) {
      var k: nat :| Shifted(h1, d1, h2, d2, k);
      PreimageParts(h1, b1, a1);
      ConcatLength(d1[..k]);
      assert k == 0 && d2 == d1;
      assert b1 == d1[0] && b2 == d2[0] && Sort(a1) == d1[1..] && Sort(a2) == d2[1..];
    }
    if h1 == h2 && b1 == b2 && multiset(a1) == multiset(a2) {
      SortedUnique(Sort(a1), Sort(a2));
    }
  }

  /** Such archives exist: nothing separates the headers from the digest that follows, and
      they end with the sender's own Subject, so a digest can pass for its last characters. */
  lemma LongerHeadersCollide(h: string, b: string, a: string)
    requires Hex(b) && Hex(a)
    ensures h + b != h
    ensures Preimage(h, b, [a]) == Preimage(h + b, a, [])
  {
    assert Sort([a]) == [a];
    assert Concat([a]) == Concat([]) + a;
    assert h + b + a == (h + b) + a + [];
    assert |h + b| > |h|;
  }
}
