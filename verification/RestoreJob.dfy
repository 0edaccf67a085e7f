/** The background job that restores a whole perimeter, page by page. */
module RestoreJob {
  import opened Wrappers
  import opened Search

  datatype Status = Running | Done | Error

  /** `k` was in the index at each of the first `n` page requests. */
  ghost predicate Throughout(history: nat -> set<Key>, n: nat, k: Key) {
    forall i: nat | i < n :: k in history(i)
  }

  ghost predicate EverSeen(history: nat -> set<Key>, n: nat, k: Key) {
    exists i: nat | i < n :: k in history(i)
  }

  /** Every document that was there all along has been delivered. */
  ghost predicate Complete(history: nat -> set<Key>, n: nat, delivered: seq<Key>) {
    forall k | Throughout(history, n, k) :: k in delivered
  }

  ghost predicate AllSeen(history: nat -> set<Key>, n: nat, delivered: seq<Key>) {
    forall k | k in delivered :: EverSeen(history, n, k)
  }

  /** After `n` full pages: everything down to the cursor, newest first. */
  ghost predicate Sofar(history: nat -> set<Key>, n: nat, cursor: Option<Key>, delivered: seq<Key>) {
    && Ranked(delivered) && AllSeen(history, n, delivered)
    && (cursor.None? ==> delivered == [])
    && (cursor.Some? ==>
          && delivered != [] && delivered[|delivered| - 1] == cursor.value
          && forall k | Throughout(history, n, k) && !Newer(cursor.value, k) :: k in delivered)
  }

  lemma PartOfPage(history: nat -> set<Key>, i: nat, page: nat, cursor: Option<Key>, delivered: seq<Key>, n: nat)
    requires Sofar(history, i, cursor, delivered)
    requires n <= |Find(history(i), page, cursor).results|
    ensures Ranked(delivered + Find(history(i), page, cursor).results[..n])
    ensures AllSeen(history, i + 1, delivered + Find(history(i), page, cursor).results[..n])
  {
    PageIsPrefix(history(i), page, cursor);
    var part := Find(history(i), page, cursor).results[..n];
    assert forall k | k in part :: k in Find(history(i), page, cursor).results;
    RankedConcat(delivered, part);
    forall k | k in delivered + part ensures EverSeen(history, i + 1, k) {
      if k in delivered {
        var m: nat :| m < i && k in history(m);
      } else {
        assert k in history(i);
      }
    }
  }

  lemma WholePage(history: nat -> set<Key>, i: nat, page: nat, cursor: Option<Key>, delivered: seq<Key>)
    requires Sofar(history, i, cursor, delivered)
    ensures var data := Find(history(i), page, cursor);
            && (data.results != [] ==> Sofar(history, i + 1, data.next, delivered + data.results))
            && (|data.results| < page ==> Complete(history, i + 1, delivered + data.results))
  {
    var data := Find(history(i), page, cursor);
    var n := |data.results|;
    assert data.results[..n] == data.results;
    PartOfPage(history, i, page, cursor, delivered, n);
    PageIsPrefix(history(i), page, cursor);
    forall k | Throughout(history, i + 1, k) && k !in delivered + data.results
      ensures n == page && (n > 0 ==> Newer(data.results[n - 1], k))
    {
      assert Throughout(history, i, k) && k in history(i);
      assert k in Below(history(i), cursor);
    }
  }

  lemma CursorShrinks(history: nat -> set<Key>, i: nat, page: nat, cursor: Option<Key>, universe: set<Key>)
    requires history(i) <= universe && Find(history(i), page, cursor).results != []
    ensures Below(universe, Find(history(i), page, cursor).next) < Below(universe, cursor)
  {
    PageIsPrefix(history(i), page, cursor);
    var c := Find(history(i), page, cursor).next.value;
    assert c in Find(history(i), page, cursor).results;
    assert c in Below(universe, cursor) && c !in Below(universe, Some(c));
  }

  /** On a static index a complete, duplicate-free restore is the perimeter itself. */
  lemma StaticRestore(history: nat -> set<Key>, n: nat, delivered: seq<Key>)
    requires n > 0 && forall i: nat :: history(i) == history(0)
    requires Ranked(delivered) && AllSeen(history, n, delivered) && Complete(history, n, delivered)
    ensures delivered == Rank(history(0)) && |delivered| == |history(0)|
  {
    RankSorts(history(0));
    forall k ensures k in delivered <==> k in Rank(history(0)) {
      if k in history(0) {
        assert Throughout(history, n, k);
      }
    }
    RankedUnique(delivered, Rank(history(0)));
  }

  /** A row of `transfer_jobs` and what its destination has received. */
  class TransferJob {
    const total: nat
    var sent: nat
    var status: Status
    var delivered: seq<Key>

    constructor (perimeter: set<Key>)
      ensures total == Min(|perimeter|, 10000)
      ensures sent == 0 && status == Running && delivered == []
    {
      total := Find(perimeter, 0, None).total;
      sent, status, delivered := 0, Running, [];
    }

    method SetProgress(n: nat)
      modifies this`sent
      ensures sent == n
    {
      sent := n;
    }

    method Finish(s: Status)
      modifies this`status
      ensures status == s
    {
      status := s;
    }

    /** One execution. `history(i)` is the perimeter when page i is requested;
        `fault(i) == Some(j)` raises while page i is handled, once j of its mails have
        reached the destination. `universe` holds every document that exists during
        the run. */
    method Transfer(history: nat -> set<Key>, fault: nat -> Option<nat>, page: nat, ghost universe: set<Key>)
      returns (ghost requests: nat)
      requires page >= 1 && delivered == [] && sent == 0
      requires forall i: nat :: history(i) <= universe
      modifies this
      ensures Ranked(delivered) && AllSeen(history, requests, delivered)
      ensures forall i, j | 0 <= i < j < |delivered| ::
                delivered[i].date > delivered[j].date
                || (delivered[i].date == delivered[j].date && delivered[i].id > delivered[j].id)
      ensures forall i, j | 0 <= i < j < |delivered| :: delivered[i] != delivered[j]
      ensures sent <= |delivered| <= sent + page
      ensures status == Done || (status == Error && exists i: nat :: fault(i).Some?)
      ensures status == Done ==> sent == |delivered| && Complete(history, requests, delivered)
      ensures status == Done && (forall i: nat :: history(i) == history(0)) ==>
                delivered == Rank(history(0)) && sent == |history(0)|
    {
      var cursor: Option<Key> := None;
      var i := 0;
      while true
        invariant Sofar(history, i, cursor, delivered) && sent == |delivered|
        decreases Below(universe, cursor)
      {
        var data := Find(history(i), page, cursor);
        if fault(i).Some? {
          var n := Min(fault(i).value, |data.results|);
          PartOfPage(history, i, page, cursor, delivered, n);
          delivered := delivered + data.results[..n];
          Finish(Error);
          return i + 1;
        }
        WholePage(history, i, page, cursor, delivered);
        if data.results == [] {
          assert delivered + data.results == delivered;
          Finish(Done);
          Settle(history, i + 1, delivered);
          return i + 1;
        }
        CursorShrinks(history, i, page, cursor, universe);
        delivered := delivered + data.results;
        SetProgress(sent + |data.results|);
        cursor := data.next;
        if |data.results| < page {
          Finish(Done);
          Settle(history, i + 1, delivered);
          return i + 1;
        }
        i := i + 1;
      }
    }
  }

  lemma Settle(history: nat -> set<Key>, n: nat, delivered: seq<Key>)
    requires n > 0 && Ranked(delivered) && AllSeen(history, n, delivered) && Complete(history, n, delivered)
    ensures (forall i: nat :: history(i) == history(0)) ==>
              delivered == Rank(history(0)) && |delivered| == |history(0)|
  {
    if forall i: nat :: history(i) == history(0) {
      StaticRestore(history, n, delivered);
    }
  }
}
