/** `SearchService._search` over the documents that match a query. Documents are known
    by their sort key: date, then the message id as tie-breaker. */
module Search {
  import opened Wrappers

  datatype Key = Key(date: int, id: nat)

  datatype Answer = Answer(total: nat, estimated: bool, results: seq<Key>, next: Option<Key>)

  const TRACKED_HITS := 10000

  /** `a` comes strictly before `b` under the sort date desc, doc_id desc. */
  predicate Newer(a: Key, b: Key) {
    a.date > b.date || (a.date == b.date && a.id > b.id)
  }

  ghost predicate Ranked(l: seq<Key>) {
    forall i, j | 0 <= i < j < |l| :: Newer(l[i], l[j])
  }

  predicate Newest(k: Key, hits: set<Key>) {
    k in hits && forall j | j in hits :: j == k || Newer(k, j)
  }

  lemma {:induction false} NewestExists(hits: set<Key>)
    requires hits != {}
    ensures exists k :: Newest(k, hits)
    decreases |hits|
  {
    var x :| x in hits;
    if hits != {x} {
      var rest := hits - {x};
      NewestExists(rest);
      var k :| Newest(k, rest);
      var best := if Newer(x, k) then x else k;
      forall j | j in hits ensures j == best || Newer(best, j) {
        assert j == x || j in rest;
      }
      assert Newest(best, hits);
    } else {
      assert Newest(x, hits);
    }
  }

  /** The sorted answer to a query that matches `hits`. */
  function Rank(hits: set<Key>): (l: seq<Key>)
    ensures |l| == |hits|
    decreases |hits|
  {
    if hits == {} then []
    else
      NewestExists(hits);
      var k :| Newest(k, hits);
      [k] + Rank(hits - {k})
  }

  lemma {:induction false} RankSorts(hits: set<Key>)
    ensures Ranked(Rank(hits))
    ensures forall k :: k in Rank(hits) <==> k in hits
    decreases |hits|
  {
    if hits != {} {
      NewestExists(hits);
      var k :| Newest(k, hits) && Rank(hits) == [k] + Rank(hits - {k});
      var rest := Rank(hits - {k});
      RankSorts(hits - {k});
      HeadFirst(k, rest, hits);
    }
  }

  lemma HeadFirst(k: Key, rest: seq<Key>, hits: set<Key>)
    requires Newest(k, hits) && Ranked(rest) && forall j :: j in rest <==> j in hits - {k}
    ensures Ranked([k] + rest) && forall j :: j in [k] + rest <==> j in hits
  {
    forall n | 0 <= n < |rest| ensures Newer(k, rest[n]) {
      assert rest[n] in rest;
    }
  }

  lemma HasMember(l: seq<Key>)
    ensures l != [] ==> exists k :: k in l
  {
    if l != [] { assert l[0] in l; }
  }

  lemma InPrefix(l: seq<Key>, size: nat, n: nat)
    requires size <= |l| && n < |l|
    ensures n < size ==> l[n] in l[..size]
  {
  }

  lemma {:induction false} RankedUnique(a: seq<Key>, b: seq<Key>)
    requires Ranked(a) && Ranked(b) && forall k :: k in a <==> k in b
    ensures a == b
    decreases |a|
  {
    if a == [] {
      HasMember(b);
    } else {
      assert a[0] in b && b[0] in a;
      assert a[0] == b[0];
      forall k ensures k in a[1..] <==> k in b[1..] {
        assert k in a[1..] ==> k in a && k != a[0];
        assert k in b[1..] ==> k in b && k != b[0];
        assert k in a ==> k == a[0] || k in a[1..];
        assert k in b ==> k == b[0] || k in b[1..];
      }
      RankedUnique(a[1..], b[1..]);
      assert a == [a[0]] + a[1..] && b == [b[0]] + b[1..];
    }
  }

  /** Documents that sort strictly after the cursor. */
  function Below(hits: set<Key>, after: Option<Key>): set<Key> {
    set k | k in hits && (after.Some? ==> Newer(after.value, k))
  }

  function Find(hits: set<Key>, size: nat, after: Option<Key>): (r: Answer)
    ensures |r.results| == Min(size, |Below(hits, after)|)
    ensures r.next.None? <==> r.results == []
  {
    var rows := Rank(Below(hits, after));
    var page := rows[..Min(size, |rows|)];
    Answer(Min(|hits|, TRACKED_HITS), |hits| > TRACKED_HITS, page,
           if page == [] then None else Some(page[|page| - 1]))
  }

  /** A page in plain terms: latest date first, higher id first within a date; all of it
      strictly after the cursor in that order; what is left out comes later still, and only
      for want of room. */
  ghost predicate PlainPage(hits: set<Key>, size: nat, after: Option<Key>, r: Answer) {
    && r.total == Min(|hits|, 10000) && r.estimated == (|hits| > 10000)
    && |r.results| <= size
    && (forall i, j | 0 <= i < j < |r.results| ::
          r.results[i].date > r.results[j].date
          || (r.results[i].date == r.results[j].date && r.results[i].id > r.results[j].id))
    && (forall k | k in r.results :: k in hits && (after.Some? ==> ComesAfter(after.value, k)))
    && (forall k | k in hits && (after.Some? ==> ComesAfter(after.value, k)) && k !in r.results ::
          |r.results| == size && forall j | j in r.results :: ComesAfter(j, k))
    && (r.results == [] ==> r.next == None)
    && (r.results != [] ==> r.next == Some(r.results[|r.results| - 1]))
  }

  predicate ComesAfter(a: Key, b: Key) { b.date < a.date || (b.date == a.date && b.id < a.id) }

  /** What a page leaves out comes after all it shows. */
  lemma PageIsPrefix(hits: set<Key>, size: nat, after: Option<Key>)
    ensures var r := Find(hits, size, after);
            && Ranked(r.results)
            && (forall k | k in r.results :: k in Below(hits, after))
            && (forall k | k in Below(hits, after) && k !in r.results ::
                  |r.results| == size && forall j | j in r.results :: Newer(j, k))
  {
    var rows, r := Rank(Below(hits, after)), Find(hits, size, after);
    RankSorts(Below(hits, after));
    forall k | k in Below(hits, after) && k !in r.results
      ensures |r.results| == size && forall j | j in r.results :: Newer(j, k)
    {
      assert k in rows;
      var n :| 0 <= n < |rows| && rows[n] == k;
      InPrefix(rows, |r.results|, n);
    }
  }

  lemma PageInPlainTerms(hits: set<Key>, size: nat, after: Option<Key>)
    ensures PlainPage(hits, size, after, Find(hits, size, after))
  {
    PageIsPrefix(hits, size, after);
    forall a, b ensures ComesAfter(a, b) <==> Newer(a, b) {}
    var r := Find(hits, size, after);
    forall k ensures k in Below(hits, after) <==> k in hits && (after.Some? ==> ComesAfter(after.value, k)) {}
    assert forall i, j | 0 <= i < j < |r.results| :: Newer(r.results[i], r.results[j]);
  }

  lemma BelowIsTail(l: seq<Key>, i: nat, k: Key)
    requires Ranked(l) && 0 < i <= |l|
    ensures k in l[i..] <==> k in l && Newer(l[i - 1], k)
  {
  }

  lemma RankOfBelow(hits: set<Key>, i: nat)
    requires 0 < i <= |hits|
    ensures Rank(Below(hits, Some(Rank(hits)[i - 1]))) == Rank(hits)[i..]
  {
    var l := Rank(hits);
    RankSorts(hits);
    RankSorts(Below(hits, Some(l[i - 1])));
    forall k ensures k in l[i..] <==> k in Below(hits, Some(l[i - 1])) {
      BelowIsTail(l, i, k);
    }
    RankedUnique(l[i..], Rank(Below(hits, Some(l[i - 1]))));
  }

  /** Rows `start` to `start + size` of a listing, as offset paging cuts them. */
  function Window(l: seq<Key>, start: nat, size: nat): seq<Key> {
    if start <= |l| then l[start..Min(start + size, |l|)] else []
  }

  lemma WindowOfTail(l: seq<Key>, i: nat, size: nat)
    requires i <= |l|
    ensures l[i..][..Min(size, |l| - i)] == Window(l, i, size)
  {
  }

  /** On a static index, searching after row i - 1 continues at row i. */
  lemma FindAtRow(hits: set<Key>, size: nat, i: nat)
    requires 0 < i <= |hits|
    ensures Find(hits, size, Some(Rank(hits)[i - 1])).results == Window(Rank(hits), i, size)
  {
    RankOfBelow(hits, i);
    WindowOfTail(Rank(hits), i, size);
  }

  lemma FindFromTop(hits: set<Key>, size: nat)
    ensures Find(hits, size, None).results == Window(Rank(hits), 0, size)
  {
    assert Below(hits, None) == hits;
  }

  /** Concatenating two listings where everything in the second is older. */
  lemma RankedConcat(a: seq<Key>, b: seq<Key>)
    requires Ranked(a) && Ranked(b)
    requires a != [] ==> forall k | k in b :: Newer(a[|a| - 1], k)
    ensures Ranked(a + b)
  {
    forall i, j | 0 <= i < j < |a + b| ensures Newer((a + b)[i], (a + b)[j]) {
      if i < |a| <= j {
        assert b[j - |a|] in b;
        if i < |a| - 1 { assert Newer(a[i], a[|a| - 1]); }
      }
    }
  }
}
