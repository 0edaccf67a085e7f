/** The attachment aggregates of `/stats`: what the dedup counters add up to. */
module Stats {
  import opened Catalog
  import opened Protocol
  import opened Conservation
  import opened BlobSafety
  import opened Delivery
  import opened Provenance

  /** SUM over a set of rows. */
  ghost function Total<T(!new)>(rows: set<T>, f: T -> int): int {
    if rows == {} then 0
    else
      var x :| x in rows;
      f(x) + Total(rows - {x}, f)
  }

  lemma {:induction false} TotalRemove<T(!new)>(rows: set<T>, f: T -> int, x: T)
    requires x in rows
    ensures Total(rows, f) == f(x) + Total(rows - {x}, f)
    decreases |rows|
  {
    var y :| y in rows && Total(rows, f) == f(y) + Total(rows - {y}, f);
    if y != x {
      TotalRemove(rows - {y}, f, x);
      TotalRemove(rows - {x}, f, y);
      assert rows - {y} - {x} == rows - {x} - {y};
    }
  }

  lemma {:induction false} TotalSame<T(!new)>(rows: set<T>, f: T -> int, g: T -> int)
    requires forall x | x in rows :: f(x) == g(x)
    ensures Total(rows, f) == Total(rows, g)
    decreases |rows|
  {
    if rows != {} {
      var x :| x in rows;
      TotalRemove(rows, f, x);
      TotalRemove(rows, g, x);
      TotalSame(rows - {x}, f, g);
    }
  }

  lemma TotalBump<T(!new)>(rows: set<T>, f: T -> int, g: T -> int, k: T)
    requires k in rows && forall x | x in rows && x != k :: f(x) == g(x)
    ensures Total(rows, f) - Total(rows, g) == f(k) - g(k)
  {
    TotalRemove(rows, f, k);
    TotalRemove(rows, g, k);
    TotalSame(rows - {k}, f, g);
  }

  lemma {:induction false} TotalPlus<T(!new)>(rows: set<T>, f: T -> int, g: T -> int, sum: T -> int)
    requires forall x | x in rows :: sum(x) == f(x) + g(x)
    ensures Total(rows, sum) == Total(rows, f) + Total(rows, g)
    decreases |rows|
  {
    if rows != {} {
      var x :| x in rows;
      TotalRemove(rows, f, x);
      TotalRemove(rows, g, x);
      TotalRemove(rows, sum, x);
      TotalPlus(rows - {x}, f, g, sum);
    }
  }

  ghost function Weighted(links: set<Link>, w: Hash -> int): Hash -> int {
    h => w(h) * |Refs(links, h)|
  }

  ghost function AtLink(w: Hash -> int): Link -> int {
    (l: Link) => w(l.att)
  }

  lemma RefsWithout(links: set<Link>, l: Link, h: Hash)
    requires l in links
    ensures |Refs(links, h)| == |Refs(links - {l}, h)| + (if h == l.att then 1 else 0)
  {
    if h == l.att {
      assert Refs(links, h) == Refs(links - {l}, h) + {l};
    } else {
      assert Refs(links, h) == Refs(links - {l}, h);
    }
  }

  lemma OneLinkMore(links: set<Link>, keys: set<Hash>, w: Hash -> int, l: Link)
    requires l in links && l.att in keys
    ensures Total(keys, Weighted(links, w)) == Total(keys, Weighted(links - {l}, w)) + w(l.att)
  {
    forall h ensures Weighted(links, w)(h) == Weighted(links - {l}, w)(h) + (if h == l.att then w(h) else 0) {
      RefsWithout(links, l, h);
      var n := |Refs(links - {l}, h)|;
      assert w(h) * (n + 1) == w(h) * n + w(h);
    }
    TotalBump(keys, Weighted(links, w), Weighted(links - {l}, w), l.att);
  }

  /** Counting by content and counting by link agree. */
  lemma {:induction false} DoubleCount(links: set<Link>, keys: set<Hash>, w: Hash -> int)
    requires forall l | l in links :: l.att in keys
    ensures Total(keys, Weighted(links, w)) == Total(links, AtLink(w))
    decreases |links|
  {
    if links == {} {
      forall h ensures Refs(links, h) == {} {}
      AllZero(keys, Weighted(links, w));
    } else {
      var l :| l in links;
      DoubleCount(links - {l}, keys, w);
      OneLinkMore(links, keys, w, l);
      TotalRemove(links, AtLink(w), l);
    }
  }

  lemma {:induction false} AllZero<T(!new)>(rows: set<T>, f: T -> int)
    requires forall x | x in rows :: f(x) == 0
    ensures Total(rows, f) == 0
    decreases |rows|
  {
    if rows != {} {
      var x :| x in rows;
      TotalRemove(rows, f, x);
      AllZero(rows - {x}, f);
    }
  }

  // ----- the four figures ----------------------------------------------------

  ghost function RefOf(t: AttTable): Hash -> int { h => if h in t then t[h].refCount else 0 }

  ghost function SizeOf(t: AttTable): Hash -> int { h => if h in t then t[h].size else 0 }

  ghost function SavedOf(t: AttTable): Hash -> int {
    h => if h in t then t[h].size * (t[h].refCount - 1) else 0
  }

  ghost function References(db: Db): int { Total(db.attachments.Keys, RefOf(db.attachments)) }

  ghost function StoredBytes(db: Db): int { Total(db.attachments.Keys, SizeOf(db.attachments)) }

  ghost function SavedBytes(db: Db): int { Total(db.attachments.Keys, SavedOf(db.attachments)) }

  /** The volume if every message kept its own copy of each attachment. */
  ghost function UndedupedBytes(db: Db): int { Total(db.links, AtLink(SizeOf(db.attachments))) }

  lemma {:induction false} TotalOnes<T(!new)>(rows: set<T>, f: T -> int)
    requires forall x | x in rows :: f(x) == 1
    ensures Total(rows, f) == |rows|
    decreases |rows|
  {
    if rows != {} {
      var x :| x in rows;
      TotalRemove(rows, f, x);
      TotalOnes(rows - {x}, f);
    }
  }

  lemma ReferencesAreLinks(db: Db)
    requires Counted(db)
    ensures References(db) == |db.links|
  {
    var one: Hash -> int := h => 1;
    TotalSame(db.attachments.Keys, RefOf(db.attachments), Weighted(db.links, one));
    DoubleCount(db.links, db.attachments.Keys, one);
    TotalOnes(db.links, AtLink(one));
  }

  lemma SizesAddUp(db: Db)
    requires Counted(db)
    ensures StoredBytes(db) + SavedBytes(db) == UndedupedBytes(db)
  {
    var t, keys := db.attachments, db.attachments.Keys;
    var full := Weighted(db.links, SizeOf(t));
    forall h | h in keys ensures full(h) == SizeOf(t)(h) + SavedOf(t)(h) {
      assert t[h].refCount == |Refs(db.links, h)|;
      Distribute(t[h].size, t[h].refCount);
    }
    TotalPlus(keys, SizeOf(t), SavedOf(t), full);
    DoubleCount(db.links, keys, SizeOf(t));
  }

  lemma Distribute(size: int, n: int)
    ensures size * n == size + size * (n - 1)
  {
  }

  lemma RunKeepsDb(steps: seq<Step>)
    requires CanRun(INIT, steps)
    ensures DbInv(Run(INIT, steps).db)
  {
    InitInv();
    RunKeepsInv(INIT, steps);
  }

  /** Every run: each counter is the number of links, none at zero or below survives, the
      dedup table and the message rows name each other, no hash has two rows, and the
      statistics add up. */
  lemma EveryRunAddsUp(steps: seq<Step>)
    requires CanRun(INIT, steps)
    ensures var db := Run(INIT, steps).db;
            && Counted(db) && Bijection(db)
            && (forall i, j | i in db.messages && j in db.messages && i != j ::
                  db.messages[i].archiveHash != db.messages[j].archiveHash)
            && References(db) == |db.links|
            && StoredBytes(db) + SavedBytes(db) == UndedupedBytes(db)
  {
    RunKeepsDb(steps);
    ReferencesAreLinks(Run(INIT, steps).db);
    SizesAddUp(Run(INIT, steps).db);
  }

  // ----- the figures against the mails themselves ---------------------------------------

  /** The attachment bytes of one mail. */
  function AttBytes(atts: seq<Att>): nat {
    if atts == [] then 0 else AttBytes(atts[..|atts| - 1]) + atts[|atts| - 1].size
  }

  ghost function BytesOf(log: map<nat, Commit>): nat -> int {
    id => if id in log then AttBytes(log[id].mail.atts) else 0
  }

  /** `w` is the size that the committed mails give for each content. */
  ghost predicate SizesAre(s: State, w: Hash -> int) {
    forall id, a | id in s.log && a in s.log[id].mail.atts :: w(a.sha) == a.size
  }

  ghost function LinksOf(links: set<Link>, id: nat): set<Link> {
    set l | l in links && l.msg == id
  }

  ghost function PerMessage(links: set<Link>, f: Link -> int): nat -> int {
    (id: nat) => Total(LinksOf(links, id), f)
  }

  lemma {:induction false} TotalSplit<T(!new)>(a: set<T>, b: set<T>, f: T -> int)
    requires a !! b
    ensures Total(a + b, f) == Total(a, f) + Total(b, f)
    decreases |a|
  {
    if a == {} {
      assert a + b == b;
    } else {
      var x :| x in a;
      TotalRemove(a, f, x);
      TotalRemove(a + b, f, x);
      TotalSplit(a - {x}, b, f);
      assert (a - {x}) + b == a + b - {x};
    }
  }

  /** Summing over links is summing over messages. */
  lemma {:induction false} TotalByMessage(links: set<Link>, ids: set<nat>, f: Link -> int)
    requires forall l | l in links :: l.msg in ids
    ensures Total(links, f) == Total(ids, PerMessage(links, f))
    decreases |ids|
  {
    if ids != {} {
      var id :| id in ids;
      var mine, rest := LinksOf(links, id), links - LinksOf(links, id);
      TotalSplit(mine, rest, f);
      assert mine + rest == links;
      TotalByMessage(rest, ids - {id}, f);
      forall r | r in ids - {id} ensures PerMessage(rest, f)(r) == PerMessage(links, f)(r) {
        assert LinksOf(rest, r) == LinksOf(links, r);
      }
      TotalSame(ids - {id}, PerMessage(rest, f), PerMessage(links, f));
      TotalRemove(ids, PerMessage(links, f), id);
    }
  }

  lemma {:induction false} TotalOfMail(id: nat, atts: seq<Att>, f: Link -> int)
    requires Distinct(atts) && forall a | a in atts :: f(Link(id, a.sha)) == a.size
    ensures Total(NewLinks(id, atts), f) == AttBytes(atts)
  {
    if atts != [] {
      var n := |atts| - 1;
      var l := Link(id, atts[n].sha);
      assert atts == atts[..n] + [atts[n]];
      TotalOfMail(id, atts[..n], f);
      assert l !in NewLinks(id, atts[..n]);
      assert NewLinks(id, atts) - {l} == NewLinks(id, atts[..n]);
      TotalRemove(NewLinks(id, atts), f, l);
    } else {
      assert NewLinks(id, atts) == {};
    }
  }

  /** The contents of the committed mails that are still there. */
  ghost function Contents(s: State): set<Hash> {
    set id: nat, a: Att | id in s.db.messages && id in s.log && a in s.log[id].mail.atts :: a.sha
  }

  lemma SizeIs(s: State, h: Hash, w: Hash -> int)
    requires SizesGenuine(s) && SizesAre(s, w) && h in s.db.attachments
    ensures s.db.attachments[h].size == w(h)
  {
    assert SizeStated(s, h, s.db.attachments[h].size);
  }

  lemma TableIsContents(s: State)
    requires Counted(s.db) && LinksComplete(s)
    ensures s.db.attachments.Keys == Contents(s)
  {
    forall h | h in s.db.attachments ensures h in Contents(s) {
      assert Refs(s.db.links, h) != {};
      var l :| l in Refs(s.db.links, h);
      assert Complete(s, l.msg) && h in ContentsOf(s.db.links, l.msg);
    }
    forall h | h in Contents(s) ensures h in s.db.attachments {
      var id, a :| id in s.db.messages && id in s.log && a in s.log[id].mail.atts && a.sha == h;
      assert Complete(s, id) && h in ContentsOf(s.db.links, id);
    }
  }

  lemma LinksAreMails(s: State, w: Hash -> int)
    requires Counted(s.db) && LinksComplete(s) && OnlyDistinct(s) && SizesAre(s, w)
    ensures Total(s.db.links, AtLink(w)) == Total(s.db.messages.Keys, BytesOf(s.log))
  {
    TotalByMessage(s.db.links, s.db.messages.Keys, AtLink(w));
    forall id | id in s.db.messages ensures PerMessage(s.db.links, AtLink(w))(id) == BytesOf(s.log)(id) {
      assert Complete(s, id);
      assert LinksOf(s.db.links, id) == NewLinks(id, s.log[id].mail.atts) by {
        forall l ensures l in LinksOf(s.db.links, id) <==> l in NewLinks(id, s.log[id].mail.atts) {
          assert l.msg == id ==> (l in s.db.links <==> l.att in ContentsOf(s.db.links, id));
        }
      }
      TotalOfMail(id, s.log[id].mail.atts, AtLink(w));
    }
    TotalSame(s.db.messages.Keys, PerMessage(s.db.links, AtLink(w)), BytesOf(s.log));
  }

  lemma FiguresAre(s: State, w: Hash -> int)
    requires Counted(s.db) && LinksComplete(s) && OnlyDistinct(s) && SizesGenuine(s) && SizesAre(s, w)
    ensures StoredBytes(s.db) == Total(Contents(s), w)
    ensures StoredBytes(s.db) + SavedBytes(s.db) == Total(s.db.messages.Keys, BytesOf(s.log))
  {
    forall h | h in s.db.attachments ensures SizeOf(s.db.attachments)(h) == w(h) { SizeIs(s, h, w); }
    TableIsContents(s);
    TotalSame(s.db.attachments.Keys, SizeOf(s.db.attachments), w);
    SizesAddUp(s.db);
    TotalSame(s.db.links, AtLink(SizeOf(s.db.attachments)), AtLink(w));
    LinksAreMails(s, w);
  }

  ghost function RowSize(db: Db): nat -> int { id => if id in db.messages then db.messages[id].size else 0 }

  ghost function MailSize(log: map<nat, Commit>): nat -> int { id => if id in log then log[id].mail.size else 0 }

  /** Every run: the total size of the messages is that of the mails they came from. */
  lemma TotalSizeIsOfMails(steps: seq<Step>)
    requires CanRun(INIT, steps)
    ensures var s := Run(INIT, steps);
            Total(s.db.messages.Keys, RowSize(s.db)) == Total(s.db.messages.Keys, MailSize(s.log))
  {
    EveryRunIsGenuine(steps);
    var s := Run(INIT, steps);
    TotalSame(s.db.messages.Keys, RowSize(s.db), MailSize(s.log));
  }

  /** Every run in which no purge finds a late link, whenever the mails agree on the size of
      each content: the stored bytes are those of the distinct contents of the messages
      that are there, and stored plus saved bytes are those of all their attachments. */
  lemma FiguresAreOfMails(steps: seq<Step>, w: Hash -> int)
    requires CanRun(INIT, steps) && NeverLate(INIT, steps) && SizesAre(Run(INIT, steps), w)
    ensures var s := Run(INIT, steps);
            && StoredBytes(s.db) == Total(Contents(s), w)
            && StoredBytes(s.db) + SavedBytes(s.db) == Total(s.db.messages.Keys, BytesOf(s.log))
  {
    RunKeepsDb(steps);
    EveryRunIsGenuine(steps);
    OnlyDistinctCommitted(INIT, steps);
    InitInv();
    RunKeepsLinks(INIT, steps);
    FiguresAre(Run(INIT, steps), w);
  }
}
