/** The result pages of the web search: a stack of cursors instead of offsets. */
module SearchView {
  import opened Wrappers
  import opened Search

  const PAGE_SIZE := 50

  /** The component's refs. */
  datatype View = View(cursors: seq<Option<Key>>, pageIndex: nat, results: seq<Key>, total: nat, estimated: bool)

  predicate HasNext(v: View) { v.pageIndex + 1 < |v.cursors| }

  datatype Action = RunSearch(ok: bool) | Prev(ok: bool) | Next(ok: bool)

  /** `load`; the request fails when `ok` is false. */
  function Load(v: View, hits: set<Key>, ok: bool): View
    requires v.pageIndex < |v.cursors|
  {
    if !ok then v.(results := [])
    else
      var data := Find(hits, PAGE_SIZE, v.cursors[v.pageIndex]);
      v.(results := data.results, total := data.total, estimated := data.estimated,
         cursors := if v.pageIndex == |v.cursors| - 1 && data.next.Some? && |data.results| == PAGE_SIZE
                    then v.cursors + [data.next] else v.cursors)
  }

  function Act(v: View, hits: set<Key>, a: Action): View
    requires v.pageIndex < |v.cursors|
  {
    match a
    case RunSearch(ok) => Load(v.(cursors := [None], pageIndex := 0), hits, ok)
    case Prev(ok) => if v.pageIndex > 0 then Load(v.(pageIndex := v.pageIndex - 1), hits, ok) else v
    case Next(ok) => if HasNext(v) then Load(v.(pageIndex := v.pageIndex + 1), hits, ok) else v
  }

  // ----- the stack against offsets ---------------------------------------------

  /** The i-th page of the sorted listing `l` under offset paging. */
  function Slice(l: seq<Key>, i: nat): seq<Key> {
    Window(l, PAGE_SIZE * i, PAGE_SIZE)
  }

  ghost predicate CursorOk(l: seq<Key>, i: nat, c: Option<Key>) {
    if i == 0 then c.None?
    else PAGE_SIZE * i <= |l| && c == Some(l[PAGE_SIZE * i - 1])
  }

  /** Every cursor opens the page of its own number. */
  ghost predicate StackOk(v: View, l: seq<Key>) {
    && v.pageIndex < |v.cursors|
    && forall i | 0 <= i < |v.cursors| :: CursorOk(l, i, v.cursors[i])
  }

  /** The page on screen is the offset page, and "next" is offered when it is full. */
  ghost predicate ShownOk(v: View, l: seq<Key>) {
    && v.results == Slice(l, v.pageIndex)
    && v.total == Min(|l|, TRACKED_HITS) && v.estimated == (|l| > TRACKED_HITS)
    && (HasNext(v) <==> |v.results| == PAGE_SIZE)
  }

  lemma CursorOpensSlice(hits: set<Key>, i: nat, c: Option<Key>)
    requires CursorOk(Rank(hits), i, c)
    ensures Find(hits, PAGE_SIZE, c).results == Slice(Rank(hits), i)
  {
    if i == 0 {
      FindFromTop(hits, PAGE_SIZE);
    } else {
      FindAtRow(hits, PAGE_SIZE, PAGE_SIZE * i);
    }
  }

  lemma FullSlice(l: seq<Key>, i: nat)
    requires PAGE_SIZE * i <= |l|
    ensures |Slice(l, i)| == PAGE_SIZE <==> PAGE_SIZE * (i + 1) <= |l|
    ensures |Slice(l, i)| == PAGE_SIZE ==> CursorOk(l, i + 1, Some(Slice(l, i)[PAGE_SIZE - 1]))
    ensures Slice(l, i) == [] <==> |l| == PAGE_SIZE * i
    ensures |Slice(l, i)| <= PAGE_SIZE
  {
  }

  /** Load in terms of the listing. */
  function LoadFrom(v: View, l: seq<Key>): View {
    var page := Slice(l, v.pageIndex);
    v.(results := page, total := Min(|l|, TRACKED_HITS), estimated := |l| > TRACKED_HITS,
       cursors := if v.pageIndex == |v.cursors| - 1 && |page| == PAGE_SIZE
                  then v.cursors + [Some(page[PAGE_SIZE - 1])] else v.cursors)
  }

  lemma LoadIsLoadFrom(v: View, hits: set<Key>)
    requires StackOk(v, Rank(hits))
    ensures Load(v, hits, true) == LoadFrom(v, Rank(hits))
  {
    CursorOpensSlice(hits, v.pageIndex, v.cursors[v.pageIndex]);
  }

  lemma PageStarts(v: View, l: seq<Key>, i: nat)
    requires StackOk(v, l) && i < |v.cursors|
    ensures PAGE_SIZE * i <= |l|
  {
    assert CursorOk(l, i, v.cursors[i]);
  }

  lemma LoadKeepsStack(v: View, l: seq<Key>)
    requires StackOk(v, l)
    ensures StackOk(LoadFrom(v, l), l)
  {
    PageStarts(v, l, v.pageIndex);
    FullSlice(l, v.pageIndex);
  }

  lemma LoadShowsPage(v: View, l: seq<Key>)
    requires StackOk(v, l)
    ensures ShownOk(LoadFrom(v, l), l)
  {
    PageStarts(v, l, v.pageIndex);
    FullSlice(l, v.pageIndex);
    if v.pageIndex + 1 < |v.cursors| {
      PageStarts(v, l, v.pageIndex + 1);
    }
  }

  lemma LoadFromIsRight(v: View, l: seq<Key>)
    requires StackOk(v, l)
    ensures StackOk(LoadFrom(v, l), l) && ShownOk(LoadFrom(v, l), l)
  {
    LoadKeepsStack(v, l);
    LoadShowsPage(v, l);
  }

  lemma LoadIsRight(v: View, hits: set<Key>, ok: bool)
    requires StackOk(v, Rank(hits))
    ensures StackOk(Load(v, hits, ok), Rank(hits))
    ensures ok ==> ShownOk(Load(v, hits, ok), Rank(hits))
    ensures Load(v, hits, ok).pageIndex == v.pageIndex
  {
    LoadIsLoadFrom(v, hits);
    LoadFromIsRight(v, Rank(hits));
  }

  lemma ActKeepsStack(v: View, hits: set<Key>, a: Action)
    requires StackOk(v, Rank(hits))
    ensures StackOk(Act(v, hits, a), Rank(hits))
    ensures a.ok && ShownOk(v, Rank(hits)) ==> ShownOk(Act(v, hits, a), Rank(hits))
    ensures a.ok && a.RunSearch? ==> ShownOk(Act(v, hits, a), Rank(hits))
  {
    match a
    case RunSearch(ok) => LoadIsRight(v.(cursors := [None], pageIndex := 0), hits, ok);
    case Prev(ok) => if v.pageIndex > 0 { LoadIsRight(v.(pageIndex := v.pageIndex - 1), hits, ok); }
    case Next(ok) => if HasNext(v) { LoadIsRight(v.(pageIndex := v.pageIndex + 1), hits, ok); }
  }

  lemma PrevEffect(v: View, hits: set<Key>, ok: bool)
    requires StackOk(v, Rank(hits))
    ensures var w := Act(v, hits, Prev(ok));
            && StackOk(w, Rank(hits))
            && (v.pageIndex == 0 ==> w == v)
            && (v.pageIndex > 0 ==> w.pageIndex == v.pageIndex - 1 && (!ok ==> w.results == []))
            && (v.pageIndex > 0 && ok ==> w.results == Slice(Rank(hits), v.pageIndex - 1))
  {
    if v.pageIndex > 0 {
      LoadIsRight(v.(pageIndex := v.pageIndex - 1), hits, ok);
    }
  }

  lemma NextEffect(v: View, hits: set<Key>, ok: bool)
    requires StackOk(v, Rank(hits))
    ensures var w := Act(v, hits, Next(ok));
            && StackOk(w, Rank(hits))
            && (!HasNext(v) ==> w == v)
            && (HasNext(v) ==> w.pageIndex == v.pageIndex + 1 && (!ok ==> w.results == []))
            && (HasNext(v) && ok ==> w.results == Slice(Rank(hits), v.pageIndex + 1))
  {
    if HasNext(v) {
      LoadIsRight(v.(pageIndex := v.pageIndex + 1), hits, ok);
    }
  }

  function ActAll(v: View, hits: set<Key>, actions: seq<Action>): View
    requires v.pageIndex < |v.cursors|
    decreases |actions|
  {
    if actions == [] then v
    else
      var w := Act(v, hits, actions[0]);
      if w.pageIndex < |w.cursors| then ActAll(w, hits, actions[1..]) else w
  }

  /** Whatever the user clicks after a search, on a static index and while requests
      succeed, page i shows rows 50i to 50i + 49 of the sorted hits. A failing request
      shows nothing but never spoils the stack. */
  lemma {:induction false} PagingIsOffsets(v: View, hits: set<Key>, actions: seq<Action>)
    requires StackOk(v, Rank(hits))
    ensures StackOk(ActAll(v, hits, actions), Rank(hits))
    ensures ShownOk(v, Rank(hits)) && (forall a | a in actions :: a.ok) ==>
              ShownOk(ActAll(v, hits, actions), Rank(hits))
    decreases |actions|
  {
    if actions != [] {
      assert actions[0] in actions;
      ActKeepsStack(v, hits, actions[0]);
      PagingIsOffsets(Act(v, hits, actions[0]), hits, actions[1..]);
    }
  }

  lemma {:induction false} ClicksMove(v: View, hits: set<Key>, n: nat)
    requires StackOk(v, Rank(hits)) && ShownOk(v, Rank(hits))
    requires PAGE_SIZE * (v.pageIndex + n) <= |hits|
    ensures var w := ActAll(v, hits, Clicks(n));
            w.pageIndex == v.pageIndex + n && StackOk(w, Rank(hits)) && ShownOk(w, Rank(hits))
    decreases n
  {
    if n > 0 {
      FullSlice(Rank(hits), v.pageIndex);
      NextMoves(v, hits);
      var w := Act(v, hits, Next(true));
      ClicksMove(w, hits, n - 1);
      FirstClick(v, hits, n);
    }
  }

  lemma FirstClick(v: View, hits: set<Key>, n: nat)
    requires n > 0 && v.pageIndex < |v.cursors|
    requires Act(v, hits, Next(true)).pageIndex < |Act(v, hits, Next(true)).cursors|
    ensures ActAll(v, hits, Clicks(n)) == ActAll(Act(v, hits, Next(true)), hits, Clicks(n - 1))
  {
    assert Clicks(n)[0] == Next(true) && Clicks(n)[1..] == Clicks(n - 1);
  }

  /** From a search just shown, n clicks on "next" reach page n whenever it starts within
      or right at the end of the hits: an empty extra page appears exactly when the total
      is a multiple of the page size. */
  lemma NextReaches(v: View, hits: set<Key>, n: nat)
    requires StackOk(v, Rank(hits)) && ShownOk(v, Rank(hits)) && v.pageIndex == 0
    requires PAGE_SIZE * n <= |hits|
    ensures var w := ActAll(v, hits, Clicks(n));
            && w.pageIndex == n
            && w.results == Slice(Rank(hits), n)
            && w.results == Rank(hits)[50 * n..Min(50 * n + 50, |hits|)]
            && (w.results == [] <==> |hits| == PAGE_SIZE * n)
            && (HasNext(w) <==> PAGE_SIZE * (n + 1) <= |hits|)
  {
    ClicksMove(v, hits, n);
    FullSlice(Rank(hits), n);
  }

  function Clicks(n: nat): seq<Action> {
    if n == 0 then [] else [Next(true)] + Clicks(n - 1)
  }

  lemma NextMoves(v: View, hits: set<Key>)
    requires StackOk(v, Rank(hits)) && HasNext(v)
    ensures var w := Act(v, hits, Next(true));
            w.pageIndex == v.pageIndex + 1 && StackOk(w, Rank(hits)) && ShownOk(w, Rank(hits))
  {
    LoadIsRight(v.(pageIndex := v.pageIndex + 1), hits, true);
  }

  // ----- the component ------------------------------------------------------------

  class SearchPanel {
    var cursors: seq<Option<Key>>
    var pageIndex: nat
    var results: seq<Key>
    var total: nat
    var estimated: bool

    function Refs(): View
      reads this
    {
      View(cursors, pageIndex, results, total, estimated)
    }

    constructor ()
      ensures Refs() == View([None], 0, [], 0, false)
    {
      cursors, pageIndex, results, total, estimated := [None], 0, [], 0, false;
    }

    method DoLoad(hits: set<Key>, ok: bool)
      requires pageIndex < |cursors|
      modifies this
      ensures Refs() == Load(old(Refs()), hits, ok)
      ensures !ok ==> Refs() == old(Refs()).(results := [])
    {
      results := [];
      if ok {
        var data := Find(hits, PAGE_SIZE, cursors[pageIndex]);
        results := data.results;
        total := data.total;
        estimated := data.estimated;
        if pageIndex == |cursors| - 1 && data.next.Some? && |data.results| == PAGE_SIZE {
          cursors := cursors + [data.next];
        }
      }
    }

    method DoRun(hits: set<Key>, ok: bool)
      modifies this
      ensures Refs() == Act(View([None], 0, old(results), old(total), old(estimated)), hits, RunSearch(ok))
      ensures StackOk(Refs(), Rank(hits)) && (ok ==> ShownOk(Refs(), Rank(hits))) && pageIndex == 0
      ensures ok ==> results == Rank(hits)[..Min(50, |hits|)]
    {
      cursors := [None];
      pageIndex := 0;
      LoadIsRight(Refs(), hits, ok);
      DoLoad(hits, ok);
    }

    method PrevPage(hits: set<Key>, ok: bool)
      requires StackOk(Refs(), Rank(hits))
      modifies this
      ensures Refs() == Act(old(Refs()), hits, Prev(ok)) && StackOk(Refs(), Rank(hits))
      ensures ok && old(pageIndex) > 0 ==> results == Slice(Rank(hits), old(pageIndex) - 1)
      ensures old(pageIndex) > 0 ==> pageIndex == old(pageIndex) - 1 && (!ok ==> results == [])
      ensures old(pageIndex) == 0 ==> Refs() == old(Refs())
    {
      PrevEffect(Refs(), hits, ok);
      if pageIndex > 0 {
        pageIndex := pageIndex - 1;
        DoLoad(hits, ok);
      }
    }

    method NextPage(hits: set<Key>, ok: bool)
      requires StackOk(Refs(), Rank(hits))
      modifies this
      ensures Refs() == Act(old(Refs()), hits, Next(ok)) && StackOk(Refs(), Rank(hits))
      ensures ok && HasNext(old(Refs())) ==> results == Slice(Rank(hits), old(pageIndex) + 1)
      ensures old(pageIndex) + 1 < old(|cursors|) ==> pageIndex == old(pageIndex) + 1 && (!ok ==> results == [])
      ensures old(pageIndex) + 1 >= old(|cursors|) ==> Refs() == old(Refs())
    {
      NextEffect(Refs(), hits, ok);
      if pageIndex < |cursors| - 1 {
        pageIndex := pageIndex + 1;
        DoLoad(hits, ok);
      }
    }
  }
}
