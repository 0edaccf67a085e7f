/** The four archive tables as values, and the effect of the two transactions that
    change them: archiving one mail, and purging a batch of messages.
    Attachment rows are identified by their unique `sha256` column. */
module Catalog {
  import opened Wrappers

  type Hash = string

  datatype Att = Att(sha: Hash, size: nat)
  datatype Mail = Mail(hash: Hash, raw: string, size: nat, atts: seq<Att>)

  datatype Row = Row(bodySha: Hash, archiveHash: Hash, signedAt: int, legalHold: bool, size: nat)
  datatype Entry = Entry(id: nat, signedAt: int)
  datatype AttRow = AttRow(size: nat, refCount: int)
  datatype Link = Link(msg: nat, att: Hash)

  type AttTable = map<Hash, AttRow>

  datatype Db = Db(
    messages: map<nat, Row>,
    dedup: map<Hash, Entry>,
    attachments: AttTable,
    links: set<Link>)

  const EMPTY_DB := Db(map[], map[], map[], {})

  // ----- invariant ---------------------------------------------------------

  ghost function Refs(links: set<Link>, h: Hash): set<Link> {
    set l | l in links && l.att == h
  }

  /** `messages` and `message_dedup` are in bijection. */
  ghost predicate Bijection(db: Db) {
    && (forall id | id in db.messages ::
          var r := db.messages[id];
          r.archiveHash in db.dedup && db.dedup[r.archiveHash] == Entry(id, r.signedAt))
    && (forall h | h in db.dedup ::
          var e := db.dedup[h];
          && e.id in db.messages
          && db.messages[e.id].archiveHash == h
          && db.messages[e.id].signedAt == e.signedAt)
  }

  /** Every counter is the number of link rows, and rows without links are gone. */
  ghost predicate Counted(db: Db) {
    && (forall l | l in db.links :: l.msg in db.messages && l.att in db.attachments)
    && (forall h | h in db.attachments ::
          db.attachments[h].refCount == |Refs(db.links, h)| && db.attachments[h].refCount > 0)
  }

  ghost predicate DbInv(db: Db) {
    && Bijection(db)
    && Counted(db)
    && (forall id | id in db.messages :: db.messages[id].bodySha == db.messages[id].archiveHash)
  }

  // ----- archiving one mail ------------------------------------------------

  /** INSERT ... ON CONFLICT (sha256) DO UPDATE SET ref_count = ref_count + 1 */
  function Upsert(table: AttTable, a: Att): AttTable {
    if a.sha in table
    then table[a.sha := table[a.sha].(refCount := table[a.sha].refCount + 1)]
    else table[a.sha := AttRow(a.size, 1)]
  }

  function UpsertAll(table: AttTable, atts: seq<Att>): AttTable {
    if atts == [] then table
    else Upsert(UpsertAll(table, atts[..|atts| - 1]), atts[|atts| - 1])
  }

  function Shas(atts: seq<Att>): set<Hash> {
    set a | a in atts :: a.sha
  }

  function NewLinks(id: nat, atts: seq<Att>): set<Link> {
    set a | a in atts :: Link(id, a.sha)
  }

  predicate Distinct(atts: seq<Att>) {
    forall i, j | 0 <= i < j < |atts| :: atts[i].sha != atts[j].sha
  }

  datatype TxOutcome =
    | Committed      // message, links, dedup row and counters are visible
    | Duplicate      // unique violation on message_dedup: everything rolled back
    | LinkClash      // primary key violation on message_attachments at flush: rolled back

  function Insert(db: Db, mail: Mail, id: nat, signedAt: int): Db {
    Db(
      db.messages[id := Row(mail.hash, mail.hash, signedAt, false, mail.size)],
      db.dedup[mail.hash := Entry(id, signedAt)],
      UpsertAll(db.attachments, mail.atts),
      db.links + NewLinks(id, mail.atts))
  }

  /** The whole database part of `process`. */
  function Transact(db: Db, mail: Mail, id: nat, signedAt: int): (Db, TxOutcome) {
    if !Distinct(mail.atts) then (db, LinkClash)
    else if mail.hash in db.dedup then (db, Duplicate)
    else (Insert(db, mail, id, signedAt), Committed)
  }

  function Mult(atts: seq<Att>, h: Hash): nat {
    if atts == [] then 0
    else Mult(atts[..|atts| - 1], h) + if atts[|atts| - 1].sha == h then 1 else 0
  }

  function CountIn(table: AttTable, h: Hash): int {
    if h in table then table[h].refCount else 0
  }

  lemma {:induction false} UpsertAllKeys(table: AttTable, atts: seq<Att>)
    ensures UpsertAll(table, atts).Keys == table.Keys + Shas(atts)
  {
    if atts != [] {
      var n := |atts| - 1;
      assert atts == atts[..n] + [atts[n]];
      assert Shas(atts) == Shas(atts[..n]) + {atts[n].sha};
      UpsertAllKeys(table, atts[..n]);
    }
  }

  /** The first attachment of the mail with this content is number `n`. */
  predicate FirstWith(atts: seq<Att>, h: Hash, n: nat) {
    n < |atts| && atts[n].sha == h && forall k | 0 <= k < n :: atts[k].sha != h
  }

  lemma {:induction false} NewSize(table: AttTable, atts: seq<Att>, h: Hash, n: nat)
    requires h !in table && FirstWith(atts, h, n)
    ensures h in UpsertAll(table, atts) && UpsertAll(table, atts)[h].size == atts[n].size
  {
    var m := |atts| - 1;
    UpsertAllKeys(table, atts[..m]);
    if n < m {
      NewSize(table, atts[..m], h, n);
    } else {
      assert forall a | a in atts[..m] :: a.sha != h;
    }
  }

  lemma {:induction false} FirstExists(atts: seq<Att>, h: Hash) returns (n: nat)
    requires h in Shas(atts)
    ensures FirstWith(atts, h, n)
  {
    var m := |atts| - 1;
    assert atts == atts[..m] + [atts[m]];
    if h in Shas(atts[..m]) {
      n := FirstExists(atts[..m], h);
    } else {
      n := m;
      assert forall k | 0 <= k < m :: atts[k] in atts[..m];
    }
  }

  /** Each counter moves by the number of times the mail carries the content. A known
      content keeps its size, a new one gets that of its first attachment. */
  lemma {:induction false} UpsertAllAt(table: AttTable, atts: seq<Att>, h: Hash)
    ensures UpsertAll(table, atts).Keys == table.Keys + Shas(atts)
    ensures CountIn(UpsertAll(table, atts), h) == CountIn(table, h) + Mult(atts, h)
    ensures h in table ==> UpsertAll(table, atts)[h].size == table[h].size
    ensures h !in table && h in Shas(atts) ==>
              exists n: nat :: FirstWith(atts, h, n) && UpsertAll(table, atts)[h].size == atts[n].size
  {
    UpsertAllKeys(table, atts);
    if atts != [] {
      var n := |atts| - 1;
      UpsertAllAt(table, atts[..n], h);
    }
    if h !in table && h in Shas(atts) {
      var n := FirstExists(atts, h);
      NewSize(table, atts, h, n);
    }
  }

  lemma {:induction false} MultAbsent(atts: seq<Att>, h: Hash)
    ensures Mult(atts, h) > 0 <==> h in Shas(atts)
  {
    if atts != [] {
      var n := |atts| - 1;
      MultAbsent(atts[..n], h);
      assert atts == atts[..n] + [atts[n]];
      assert Shas(atts) == Shas(atts[..n]) + {atts[n].sha};
    }
  }

  lemma {:induction false} MultDistinct(atts: seq<Att>, h: Hash)
    requires Distinct(atts)
    ensures Mult(atts, h) <= 1
  {
    if atts != [] {
      var n := |atts| - 1;
      MultDistinct(atts[..n], h);
      if atts[n].sha == h {
        MultAbsent(atts[..n], h);
        assert h !in Shas(atts[..n]);
      }
    }
  }

  lemma {:induction false} MultRepeated(atts: seq<Att>) returns (h: Hash)
    requires !Distinct(atts)
    ensures Mult(atts, h) >= 2
  {
    var n := |atts| - 1;
    if Distinct(atts[..n]) {
      h := atts[n].sha;
      var i :| 0 <= i < n && atts[i].sha == h;
      assert atts[..n][i] in atts[..n];
      MultAbsent(atts[..n], h);
    } else {
      h := MultRepeated(atts[..n]);
    }
  }

  lemma NewLinksRefs(id: nat, atts: seq<Att>, h: Hash)
    ensures Refs(NewLinks(id, atts), h) == (if h in Shas(atts) then {Link(id, h)} else {})
  {
  }

  lemma RefsUnion(a: set<Link>, b: set<Link>, h: Hash)
    requires a !! b
    ensures |Refs(a + b, h)| == |Refs(a, h)| + |Refs(b, h)|
  {
    assert Refs(a + b, h) == Refs(a, h) + Refs(b, h);
    assert Refs(a, h) !! Refs(b, h);
  }

  lemma InsertAt(db: Db, mail: Mail, id: nat, signedAt: int, h: Hash)
    requires DbInv(db) && id !in db.messages
    ensures var db' := Insert(db, mail, id, signedAt);
            && (h in db'.attachments <==> h in db.attachments || Mult(mail.atts, h) > 0)
            && CountIn(db'.attachments, h) == |Refs(db.links, h)| + Mult(mail.atts, h)
            && |Refs(db'.links, h)| == |Refs(db.links, h)| + (if Mult(mail.atts, h) > 0 then 1 else 0)
  {
    var added := NewLinks(id, mail.atts);
    assert db.links !! added;
    UpsertAllAt(db.attachments, mail.atts, h);
    NewLinksRefs(id, mail.atts, h);
    RefsUnion(db.links, added, h);
    MultAbsent(mail.atts, h);
    if h !in db.attachments {
      assert Refs(db.links, h) == {};
    }
  }

  /** Counting stays right exactly when no content is attached twice: `ref_count` would
      move by two while the link table can hold one row. The primary key of the link
      table turns that case into a failure of the whole transaction. */
  lemma InsertCountsExactly(db: Db, mail: Mail, id: nat, signedAt: int)
    requires DbInv(db) && id !in db.messages
    ensures Counted(Insert(db, mail, id, signedAt)) <==> Distinct(mail.atts)
  {
    var db' := Insert(db, mail, id, signedAt);
    if Distinct(mail.atts) {
      forall l | l in db'.links ensures l.msg in db'.messages && l.att in db'.attachments {
        UpsertAllAt(db.attachments, mail.atts, l.att);
        if l !in db.links {
          var a :| a in mail.atts && l == Link(id, a.sha);
          assert a.sha in Shas(mail.atts);
        }
      }
      forall h | h in db'.attachments
        ensures db'.attachments[h].refCount == |Refs(db'.links, h)| && db'.attachments[h].refCount > 0
      {
        InsertAt(db, mail, id, signedAt, h);
        MultDistinct(mail.atts, h);
      }
    } else {
      var h := MultRepeated(mail.atts);
      InsertAt(db, mail, id, signedAt, h);
      assert db'.attachments[h].refCount != |Refs(db'.links, h)|;
    }
  }

  /** A commit keeps the invariant; a loser of the unique-key race, and a mail that
      carries one content twice, leave every table as it was. */
  lemma TransactKeepsInv(db: Db, mail: Mail, id: nat, signedAt: int)
    requires DbInv(db) && id !in db.messages
    ensures DbInv(Transact(db, mail, id, signedAt).0)
    ensures Transact(db, mail, id, signedAt).1.Committed? <==> Distinct(mail.atts) && mail.hash !in db.dedup
    ensures Transact(db, mail, id, signedAt).1.LinkClash? <==> !Distinct(mail.atts)
    ensures !Transact(db, mail, id, signedAt).1.Committed? ==> Transact(db, mail, id, signedAt).0 == db
  {
    if Distinct(mail.atts) && mail.hash !in db.dedup {
      InsertCountsExactly(db, mail, id, signedAt);
    }
  }

  /** What the tables `db` gain when a mail with distinct contents is archived: one row, not
      on hold, one dedup entry, one link for each content, and for each content one more
      reference, or a new row with its size. */
  ghost predicate ArchivedAs(db: Db, r: Db, mail: Mail, id: nat, signedAt: int) {
    && r.messages == db.messages[id := Row(mail.hash, mail.hash, signedAt, false, mail.size)]
    && r.dedup == db.dedup[mail.hash := Entry(id, signedAt)]
    && (forall l :: l in r.links <==> l in db.links || (l.msg == id && exists a | a in mail.atts :: a.sha == l.att))
    && (forall h :: h in r.attachments <==> h in db.attachments || exists a | a in mail.atts :: a.sha == h)
    && (forall h | h in db.attachments && (forall a | a in mail.atts :: a.sha != h) ::
          r.attachments[h] == db.attachments[h])
    && (forall a | a in mail.atts :: r.attachments[a.sha] == CountedOnce(db.attachments, a))
  }

  function CountedOnce(table: AttTable, a: Att): AttRow {
    if a.sha in table then AttRow(table[a.sha].size, table[a.sha].refCount + 1) else AttRow(a.size, 1)
  }

  lemma UpsertCounts(table: AttTable, atts: seq<Att>, a: Att)
    requires Distinct(atts) && a in atts
    ensures a.sha in UpsertAll(table, atts) && UpsertAll(table, atts)[a.sha] == CountedOnce(table, a)
  {
    var n :| 0 <= n < |atts| && atts[n] == a;
    assert FirstWith(atts, a.sha, n);
    assert a.sha in Shas(atts);
    UpsertAllAt(table, atts, a.sha);
    MultDistinct(atts, a.sha);
    MultAbsent(atts, a.sha);
    if a.sha !in table {
      NewSize(table, atts, a.sha, n);
    }
  }

  lemma InsertArchives(db: Db, mail: Mail, id: nat, signedAt: int)
    requires Distinct(mail.atts)
    ensures ArchivedAs(db, Insert(db, mail, id, signedAt), mail, id, signedAt)
  {
    var r := Insert(db, mail, id, signedAt);
    UpsertAllKeys(db.attachments, mail.atts);
    forall h | h in db.attachments && forall a | a in mail.atts :: a.sha != h
      ensures r.attachments[h] == db.attachments[h]
    {
      UpsertAllAt(db.attachments, mail.atts, h);
      MultAbsent(mail.atts, h);
    }
    forall a | a in mail.atts ensures a.sha in r.attachments && r.attachments[a.sha] == CountedOnce(db.attachments, a) {
      UpsertCounts(db.attachments, mail.atts, a);
    }
  }

  // ----- purging -----------------------------------------------------------

  function SetHold(db: Db, id: nat, hold: bool): Db {
    if id in db.messages
    then db.(messages := db.messages[id := db.messages[id].(legalHold := hold)])
    else db
  }

  lemma SetHoldKeepsInv(db: Db, id: nat, hold: bool)
    requires DbInv(db)
    ensures DbInv(SetHold(db, id, hold))
  {
  }

  /** UPDATE attachments SET ref_count = ref_count - 1, then delete at <= 0. */
  function Release(table: AttTable, links: set<Link>, id: nat): AttTable {
    map h | h in table && (Link(id, h) in links ==> table[h].refCount - 1 > 0) ::
      if Link(id, h) in links then table[h].(refCount := table[h].refCount - 1) else table[h]
  }

  function Orphaned(table: AttTable, links: set<Link>, id: nat): set<Hash> {
    set h | h in table && Link(id, h) in links && table[h].refCount - 1 <= 0
  }

  function PurgeOne(db: Db, id: nat): Db {
    if id !in db.messages then db
    else Db(
      db.messages - {id},
      db.dedup - {db.messages[id].archiveHash},
      Release(db.attachments, db.links, id),
      set l | l in db.links && l.msg != id)
  }

  /** Blob keys deleted while purging `id`. */
  function FreedOne(db: Db, id: nat): set<Hash> {
    if id !in db.messages then {}
    else {db.messages[id].bodySha} + Orphaned(db.attachments, db.links, id)
  }

  function PurgeAll(db: Db, batch: seq<nat>): Db {
    if batch == [] then db
    else PurgeOne(PurgeAll(db, batch[..|batch| - 1]), batch[|batch| - 1])
  }

  function FreedAll(db: Db, batch: seq<nat>): set<Hash> {
    if batch == [] then {}
    else FreedAll(db, batch[..|batch| - 1]) + FreedOne(PurgeAll(db, batch[..|batch| - 1]), batch[|batch| - 1])
  }

  lemma ReleaseCounts(db: Db, id: nat, h: Hash)
    requires DbInv(db) && id in db.messages && h in db.attachments
    ensures |Refs(PurgeOne(db, id).links, h)| ==
            |Refs(db.links, h)| - (if Link(id, h) in db.links then 1 else 0)
  {
    var before, after := Refs(db.links, h), Refs(PurgeOne(db, id).links, h);
    if Link(id, h) in db.links {
      assert after == before - {Link(id, h)};
    } else {
      assert after == before;
    }
  }

  lemma PurgeOneKeepsInv(db: Db, id: nat)
    requires DbInv(db)
    ensures DbInv(PurgeOne(db, id))
  {
    if id in db.messages {
      var db' := PurgeOne(db, id);
      forall l | l in db'.links ensures l.msg in db'.messages && l.att in db'.attachments {
        if Link(id, l.att) in db.links {
          assert {l, Link(id, l.att)} <= Refs(db.links, l.att);
          assert |{l, Link(id, l.att)}| == 2;
          SubsetCard({l, Link(id, l.att)}, Refs(db.links, l.att));
        }
      }
      forall h | h in db'.attachments
        ensures db'.attachments[h].refCount == |Refs(db'.links, h)| && db'.attachments[h].refCount > 0
      {
        ReleaseCounts(db, id, h);
      }
    }
  }

  lemma SubsetCard<T>(a: set<T>, b: set<T>)
    requires a <= b
    ensures |a| <= |b|
  {
    assert b == a + (b - a);
  }

  /** Some message outside `gone` still uses the content. */
  ghost predicate StillLinked(links: set<Link>, gone: set<nat>, h: Hash) {
    exists l | l in links :: l.att == h && l.msg !in gone
  }

  ghost predicate RowsPurged(db: Db, gone: set<nat>, r: Db) {
    && r.messages == db.messages - gone
    && (forall h :: h in r.dedup <==> h in db.dedup && db.dedup[h].id !in gone)
    && (forall h | h in r.dedup :: r.dedup[h] == db.dedup[h])
    && (forall l :: l in r.links <==> l in db.links && l.msg !in gone)
  }

  ghost predicate ContentsPurged(db: Db, gone: set<nat>, r: Db) {
    && (forall h :: h in r.attachments <==> h in db.attachments && StillLinked(db.links, gone, h))
    && (forall h | h in r.attachments :: r.attachments[h].size == db.attachments[h].size)
  }

  ghost predicate KeysFreed(db: Db, gone: set<nat>, freed: set<Hash>) {
    forall k :: k in freed <==>
                  || (exists id | id in gone && id in db.messages :: db.messages[id].bodySha == k)
                  || (k in db.attachments && !StillLinked(db.links, gone, k))
  }

  /** What an observer who only sees the initial tables expects after purging the
      set `gone`: nothing else changes. With `DbInv` of the result this also fixes
      every counter. */
  ghost predicate ExactlyPurged(db: Db, gone: set<nat>, r: Db, freed: set<Hash>) {
    RowsPurged(db, gone, r) && ContentsPurged(db, gone, r) && KeysFreed(db, gone, freed)
  }

  function Ids(batch: seq<nat>): set<nat> {
    set id | id in batch
  }

  lemma {:induction false} PurgeAllExact(db: Db, batch: seq<nat>)
    requires DbInv(db)
    ensures DbInv(PurgeAll(db, batch))
    ensures ExactlyPurged(db, Ids(batch), PurgeAll(db, batch), FreedAll(db, batch))
  {
    if batch == [] {
      forall h | h in db.attachments ensures StillLinked(db.links, {}, h) {
        LinkOf(db, h);
      }
    } else {
      var n := |batch| - 1;
      var init, last := batch[..n], batch[n];
      assert batch == init + [last];
      assert Ids(batch) == Ids(init) + {last};
      PurgeAllExact(db, init);
      var mid := PurgeAll(db, init);
      PurgeOneKeepsInv(mid, last);
      PurgeOneRows(mid, last);
      PurgeOneContents(mid, last);
      PurgeOneKeys(mid, last);
      RowsCompose(db, Ids(init), mid, last, PurgeOne(mid, last));
      ContentsCompose(db, Ids(init), mid, last, PurgeOne(mid, last));
      KeysCompose(db, Ids(init), mid, FreedAll(db, init), last, FreedOne(mid, last));
    }
  }

  lemma LinkOf(db: Db, h: Hash)
    requires DbInv(db) && h in db.attachments
    ensures exists l | l in db.links :: l.att == h
  {
  }

  lemma PurgeOneRows(db: Db, id: nat)
    requires DbInv(db)
    ensures RowsPurged(db, {id}, PurgeOne(db, id))
  {
  }

  lemma PurgeOneContents(db: Db, id: nat)
    requires DbInv(db)
    ensures ContentsPurged(db, {id}, PurgeOne(db, id))
  {
    var r := PurgeOne(db, id);
    PurgeOneKeepsInv(db, id);
    forall h | h in db.attachments ensures h in r.attachments <==> StillLinked(db.links, {id}, h) {
      LinkOf(db, h);
      if h in r.attachments {
        LinkOf(r, h);
      }
    }
  }

  lemma PurgeOneKeys(db: Db, id: nat)
    requires DbInv(db)
    ensures KeysFreed(db, {id}, FreedOne(db, id))
  {
    PurgeOneContents(db, id);
    if id in db.messages {
      forall h ensures h in Orphaned(db.attachments, db.links, id) <==>
                         h in db.attachments && h !in PurgeOne(db, id).attachments {
      }
    }
  }

  lemma RowsCompose(db: Db, gone: set<nat>, mid: Db, id: nat, r: Db)
    requires RowsPurged(db, gone, mid) && RowsPurged(mid, {id}, r)
    ensures RowsPurged(db, gone + {id}, r)
  {
  }

  lemma ContentsCompose(db: Db, gone: set<nat>, mid: Db, id: nat, r: Db)
    requires RowsPurged(db, gone, mid) && ContentsPurged(db, gone, mid) && ContentsPurged(mid, {id}, r)
    ensures ContentsPurged(db, gone + {id}, r)
  {
  }

  lemma KeysCompose(db: Db, gone: set<nat>, mid: Db, freed: set<Hash>, id: nat, freed1: set<Hash>)
    requires RowsPurged(db, gone, mid) && ContentsPurged(db, gone, mid)
    requires KeysFreed(db, gone, freed) && KeysFreed(mid, {id}, freed1)
    ensures KeysFreed(db, gone + {id}, freed + freed1)
  {
  }

  // ----- purging by what the session has read ------------------------------

  // Retention reads the batch with its attachment rows first and purges later. It
  // decrements the counters in the table, but decides by its own copies of them, which
  // only its own decrements change: they go on as if the batch were purged from the
  // tables `seen` at the selection. Deleting a content takes all its link rows.

  function ContentsOf(links: set<Link>, id: nat): set<Hash> {
    set l | l in links && l.msg == id :: l.att
  }

  /** One reference to each of `mine` given back, the rows of `drop` deleted. */
  function Take(table: AttTable, mine: set<Hash>, drop: set<Hash>): AttTable {
    map h | h in table && h !in drop ::
      if h in mine then table[h].(refCount := table[h].refCount - 1) else table[h]
  }

  function PurgeRow(db: Db, id: nat, drop: set<Hash>): Db {
    if id !in db.messages then db
    else Db(
      db.messages - {id},
      db.dedup - {db.messages[id].archiveHash},
      Take(db.attachments, ContentsOf(db.links, id), drop),
      set l | l in db.links && l.msg != id && l.att !in drop)
  }

  /** Contents that the copies bring to zero while purging `id`. */
  function DropOne(seen: Db, id: nat): set<Hash> {
    if id !in seen.messages then {} else Orphaned(seen.attachments, seen.links, id)
  }

  function PurgeSeen(db: Db, seen: Db, batch: seq<nat>): Db {
    if batch == [] then db
    else
      var init, last := batch[..|batch| - 1], batch[|batch| - 1];
      PurgeRow(PurgeSeen(db, seen, init), last, DropOne(PurgeAll(seen, init), last))
  }

  /** The contents that the whole batch deletes. */
  function Dropped(seen: Db, batch: seq<nat>): set<Hash> {
    seen.attachments.Keys - PurgeAll(seen, batch).attachments.Keys
  }

  /** What the tables have in common with `seen`: other messages may have come since. */
  ghost predicate Follows(seen: Db, db: Db, batch: set<nat>) {
    && DbInv(seen) && DbInv(db) && seen.links <= db.links
    && (forall id | id in batch :: id in seen.messages <==> id in db.messages)
    && (forall id | id in batch && id in seen.messages ::
          && seen.messages[id].bodySha == db.messages[id].bodySha
          && seen.messages[id].archiveHash == db.messages[id].archiveHash)
    && (forall l | l in db.links && l.msg in batch :: l in seen.links)
  }

  lemma DropIsOrphan(seen: Db, id: nat, h: Hash)
    requires DbInv(seen) && id in seen.messages && h in ContentsOf(seen.links, id)
    ensures h in DropOne(seen, id) <==> forall l | l in seen.links && l.att == h :: l.msg == id
  {
    var refs := Refs(seen.links, h);
    assert Link(id, h) in refs;
    if forall l | l in seen.links && l.att == h :: l.msg == id {
      assert refs == {Link(id, h)};
    }
    if l :| l in seen.links && l.att == h && l.msg != id {
      SubsetCard({l, Link(id, h)}, refs);
    }
  }

  lemma RowStep(seen: Db, db: Db, batch: set<nat>, id: nat)
    requires Follows(seen, db, batch) && id in batch
    ensures Follows(PurgeOne(seen, id), PurgeRow(db, id, DropOne(seen, id)), batch)
  {
    PurgeOneKeepsInv(seen, id);
    if id in db.messages {
      forall h | h in ContentsOf(seen.links, id) { DropIsOrphan(seen, id, h); }
      RowCounted(seen, db, batch, id);
      var db' := PurgeRow(db, id, DropOne(seen, id));
      assert Bijection(db');
    }
  }

  lemma RowCounted(seen: Db, db: Db, batch: set<nat>, id: nat)
    requires Follows(seen, db, batch) && id in batch && id in db.messages
    ensures Counted(PurgeRow(db, id, DropOne(seen, id)))
  {
    var db' := PurgeRow(db, id, DropOne(seen, id));
    forall h | h in db'.attachments
      ensures db'.attachments[h].refCount == |Refs(db'.links, h)| && db'.attachments[h].refCount > 0
    {
      var before, after := Refs(db.links, h), Refs(db'.links, h);
      if h in ContentsOf(db.links, id) {
        assert after == before - {Link(id, h)} && Link(id, h) in before;
        DropIsOrphan(seen, id, h);
        var l :| l in seen.links && l.att == h && l.msg != id;
        assert l in after;
      } else {
        assert after == before;
      }
    }
  }

  lemma {:induction false} SeenFollows(db: Db, seen: Db, batch: seq<nat>, all: set<nat>)
    requires Follows(seen, db, all) && Ids(batch) <= all
    ensures Follows(PurgeAll(seen, batch), PurgeSeen(db, seen, batch), all)
  {
    if batch != [] {
      var n := |batch| - 1;
      assert batch[n] in Ids(batch) && Ids(batch[..n]) <= Ids(batch);
      SeenFollows(db, seen, batch[..n], all);
      RowStep(PurgeAll(seen, batch[..n]), PurgeSeen(db, seen, batch[..n]), all, batch[n]);
    }
  }

  /** What is left of the tables: the batch is gone, and so is every link, whoever holds
      it, to a content that only the batch linked to when it was selected. */
  ghost predicate SeenPurged(db: Db, gone: set<nat>, drop: set<Hash>, r: Db) {
    && r.messages == db.messages - gone
    && (forall h :: h in r.dedup <==> h in db.dedup && db.dedup[h].id !in gone)
    && (forall h | h in r.dedup :: r.dedup[h] == db.dedup[h])
    && (forall l :: l in r.links <==> l in db.links && l.msg !in gone && l.att !in drop)
    && r.attachments.Keys == db.attachments.Keys - drop
    && (forall h | h in r.attachments :: r.attachments[h].size == db.attachments[h].size)
  }

  lemma DroppedExactly(seen: Db, batch: seq<nat>)
    requires DbInv(seen)
    ensures forall h :: h in Dropped(seen, batch) <==>
              h in seen.attachments && !StillLinked(seen.links, Ids(batch), h)
  {
    PurgeAllExact(seen, batch);
  }

  lemma DroppedNext(seen: Db, batch: seq<nat>)
    requires DbInv(seen) && batch != []
    ensures var n := |batch| - 1;
            Dropped(seen, batch) == Dropped(seen, batch[..n]) + DropOne(PurgeAll(seen, batch[..n]), batch[n])
  {
    var n := |batch| - 1;
    PurgeAllExact(seen, batch[..n]);
    assert PurgeAll(seen, batch) == PurgeOne(PurgeAll(seen, batch[..n]), batch[n]);
  }

  lemma RowCompose(db: Db, gone: set<nat>, drop: set<Hash>, mid: Db, id: nat, more: set<Hash>)
    requires SeenPurged(db, gone, drop, mid) && DbInv(mid) && (id in mid.messages || more == {})
    requires id in mid.messages || id !in db.messages || id in gone
    requires Bijection(db) && forall l | l in db.links :: l.msg in db.messages
    ensures SeenPurged(db, gone + {id}, drop + more, PurgeRow(mid, id, more))
  {
  }

  /** The purge by the session's copies, in terms of the initial tables. It keeps the
      invariant whatever was committed in between. */
  lemma PurgeSeenExact(db: Db, seen: Db, batch: seq<nat>)
    requires Follows(seen, db, Ids(batch))
    ensures DbInv(PurgeSeen(db, seen, batch))
    ensures SeenPurged(db, Ids(batch), Dropped(seen, batch), PurgeSeen(db, seen, batch))
  {
    SeenFollows(db, seen, batch, Ids(batch));
    SeenPurgedAll(db, seen, batch, Ids(batch));
  }

  lemma {:induction false} SeenPurgedAll(db: Db, seen: Db, batch: seq<nat>, all: set<nat>)
    requires Follows(seen, db, all) && Ids(batch) <= all
    ensures SeenPurged(db, Ids(batch), Dropped(seen, batch), PurgeSeen(db, seen, batch))
  {
    if batch != [] {
      var n := |batch| - 1;
      var init, last := batch[..n], batch[n];
      assert batch == init + [last];
      assert Ids(batch) == Ids(init) + {last};
      SeenPurgedAll(db, seen, init, all);
      SeenFollows(db, seen, init, all);
      DroppedNext(seen, batch);
      var mid := PurgeSeen(db, seen, init);
      RowCompose(db, Ids(init), Dropped(seen, init), mid, last, DropOne(PurgeAll(seen, init), last));
    }
  }

  /** Keys deleted from the bucket. */
  lemma SeenFreed(seen: Db, batch: seq<nat>)
    requires DbInv(seen)
    ensures forall k :: k in FreedAll(seen, batch) <==>
              || (exists id | id in batch && id in seen.messages :: seen.messages[id].bodySha == k)
              || k in Dropped(seen, batch)
  {
    PurgeAllExact(seen, batch);
  }

  /** When nothing happens in between, the copies and the table say the same. */
  lemma {:induction false} SeenUndisturbed(db: Db, batch: seq<nat>)
    requires DbInv(db)
    ensures PurgeSeen(db, db, batch) == PurgeAll(db, batch)
  {
    if batch != [] {
      var n := |batch| - 1;
      SeenUndisturbed(db, batch[..n]);
      PurgeAllExact(db, batch[..n]);
      RowAlone(PurgeAll(db, batch[..n]), batch[n]);
    }
  }

  lemma RowAlone(db: Db, id: nat)
    requires DbInv(db)
    ensures PurgeRow(db, id, DropOne(db, id)) == PurgeOne(db, id)
  {
    if id in db.messages {
      forall h | h in ContentsOf(db.links, id) { DropIsOrphan(db, id, h); }
      forall h ensures h in ContentsOf(db.links, id) <==> Link(id, h) in db.links {}
    }
  }

  /** A message outside the batch that links, since the selection, to a content that only
      the batch linked to when it was selected. */
  ghost predicate LateLink(seen: Db, db: Db, batch: seq<nat>, l: Link) {
    && l in db.links && l !in seen.links && l.msg !in batch
    && l.att in seen.attachments && !StillLinked(seen.links, Ids(batch), l.att)
  }

  /** Survivors keep their links, and with them their contents, exactly when none of them
      came late. */
  lemma SurvivorsKeepLinksExactly(db: Db, seen: Db, batch: seq<nat>)
    requires Follows(seen, db, Ids(batch))
    ensures (forall l | l in db.links && l.msg !in batch :: l in PurgeSeen(db, seen, batch).links)
            <==> !exists l :: LateLink(seen, db, batch, l)
  {
    PurgeSeenExact(db, seen, batch);
    DroppedExactly(seen, batch);
    forall l | l in db.links && l.msg !in batch
      ensures LateLink(seen, db, batch, l) <==> l !in PurgeSeen(db, seen, batch).links
    {
      assert l.msg !in Ids(batch);
    }
    if exists l :: LateLink(seen, db, batch, l) {
      var l :| LateLink(seen, db, batch, l);
      assert l !in PurgeSeen(db, seen, batch).links;
    }
  }

  // ----- the daily run -----------------------------------------------------

  function Eligible(db: Db, cutoff: int): set<nat> {
    set id | id in db.messages && db.messages[id].signedAt < cutoff && !db.messages[id].legalHold
  }

  predicate NoRepeats(batch: seq<nat>) {
    forall i, j | 0 <= i < j < |batch| :: batch[i] != batch[j]
  }

  /** A possible answer of SELECT ... WHERE signed_at < cutoff AND NOT legal_hold LIMIT n. */
  predicate IsBatch(db: Db, cutoff: int, limit: nat, batch: seq<nat>) {
    && NoRepeats(batch)
    && Ids(batch) <= Eligible(db, cutoff)
    && |batch| == Min(limit, |Eligible(db, cutoff)|)
  }

  lemma {:induction false} IdsCard(batch: seq<nat>)
    requires NoRepeats(batch)
    ensures |Ids(batch)| == |batch|
  {
    if batch != [] {
      var n := |batch| - 1;
      IdsCard(batch[..n]);
      assert batch == batch[..n] + [batch[n]];
      assert Ids(batch) == Ids(batch[..n]) + {batch[n]};
      assert batch[n] !in Ids(batch[..n]);
    }
  }

  lemma PurgeShrinksEligible(db: Db, cutoff: int, limit: nat, batch: seq<nat>)
    requires DbInv(db) && IsBatch(db, cutoff, limit, batch)
    ensures Eligible(PurgeAll(db, batch), cutoff) == Eligible(db, cutoff) - Ids(batch)
    ensures |Eligible(PurgeAll(db, batch), cutoff)| == |Eligible(db, cutoff)| - |batch|
  {
    PurgeAllExact(db, batch);
    IdsCard(batch);
  }

  /** Successive runs at one cutoff, each with its own choice of rows. */
  ghost predicate AreBatches(db: Db, cutoff: int, limit: nat, runs: seq<seq<nat>>)
    decreases |runs|
  {
    runs == [] || (IsBatch(db, cutoff, limit, runs[0]) && AreBatches(PurgeAll(db, runs[0]), cutoff, limit, runs[1..]))
  }

  function TotalPurged(runs: seq<seq<nat>>): nat {
    if runs == [] then 0 else |runs[0]| + TotalPurged(runs[1..])
  }

  function AfterRuns(db: Db, runs: seq<seq<nat>>): Db
    decreases |runs|
  {
    if runs == [] then db else AfterRuns(PurgeAll(db, runs[0]), runs[1..])
  }

  lemma MinSplit(limit: nat, k: nat, n: nat)
    ensures Min(limit, n) + Min(limit * k, n - Min(limit, n)) == Min(limit * (k + 1), n)
  {
  }

  /** k runs purge min(limit * k, N) of the N eligible messages, whatever the
      database chose. */
  lemma {:induction false} RunsPurgeExactly(db: Db, cutoff: int, limit: nat, runs: seq<seq<nat>>)
    requires DbInv(db) && AreBatches(db, cutoff, limit, runs)
    ensures TotalPurged(runs) == Min(limit * |runs|, |Eligible(db, cutoff)|)
    ensures |Eligible(AfterRuns(db, runs), cutoff)| == |Eligible(db, cutoff)| - TotalPurged(runs)
    decreases |runs|
  {
    if runs != [] {
      PurgeShrinksEligible(db, cutoff, limit, runs[0]);
      PurgeAllExact(db, runs[0]);
      RunsPurgeExactly(PurgeAll(db, runs[0]), cutoff, limit, runs[1..]);
      MinSplit(limit, |runs[1..]|, |Eligible(db, cutoff)|);
    }
  }

  lemma {:induction false} RunsSpare(db: Db, cutoff: int, limit: nat, runs: seq<seq<nat>>, id: nat)
    requires DbInv(db) && AreBatches(db, cutoff, limit, runs)
    requires id in db.messages && (db.messages[id].legalHold || db.messages[id].signedAt >= cutoff)
    ensures id in AfterRuns(db, runs).messages && AfterRuns(db, runs).messages[id] == db.messages[id]
    decreases |runs|
  {
    if runs != [] {
      PurgeAllExact(db, runs[0]);
      RunsSpare(PurgeAll(db, runs[0]), cutoff, limit, runs[1..], id);
    }
  }

  /** Only messages older than `cutoff` and not on hold are gone, and fewer than `limit`
      only if no other such message is left. */
  ghost predicate ExpiredGone(db: Db, r: Db, cutoff: int, gone: nat, limit: nat) {
    && (forall id | id in db.messages && id !in r.messages ::
          db.messages[id].signedAt < cutoff && !db.messages[id].legalHold)
    && (forall id | id in r.messages :: id in db.messages && r.messages[id] == db.messages[id])
    && (gone < limit ==>
          forall id | id in r.messages :: r.messages[id].signedAt >= cutoff || r.messages[id].legalHold)
  }

  lemma PurgedWereExpired(db: Db, cutoff: int, limit: nat, batch: seq<nat>, r: Db)
    requires IsBatch(db, cutoff, limit, batch) && r.messages == db.messages - Ids(batch)
    ensures ExpiredGone(db, r, cutoff, |batch|, limit)
  {
    if |batch| < limit {
      IdsCard(batch);
      EqualSets(Ids(batch), Eligible(db, cutoff));
    }
  }

  lemma EqualSets(a: set<nat>, b: set<nat>)
    requires a <= b && |a| == |b|
    ensures a == b
  {
    assert |b - a| == |b| - |a|;
  }

  /** The database always has a batch to return. */
  lemma BatchExists(db: Db, cutoff: int, limit: nat)
    ensures exists batch :: IsBatch(db, cutoff, limit, batch)
  {
    var batch := Pick(Eligible(db, cutoff), Min(limit, |Eligible(db, cutoff)|));
    assert IsBatch(db, cutoff, limit, batch);
  }

  lemma {:induction false} Pick(from: set<nat>, n: nat) returns (batch: seq<nat>)
    requires n <= |from|
    ensures NoRepeats(batch) && |batch| == n && Ids(batch) <= from
    decreases n
  {
    if n == 0 {
      batch := [];
    } else {
      var id :| id in from;
      var rest := Pick(from - {id}, n - 1);
      batch := rest + [id];
      assert Ids(batch) == Ids(rest) + {id};
    }
  }

  /** A purged mail can be archived again. */
  lemma PurgedCanReturn(db: Db, batch: seq<nat>, mail: Mail, id: nat, signedAt: int)
    requires DbInv(db) && mail.hash in db.dedup && db.dedup[mail.hash].id in batch
    requires id !in db.messages && Distinct(mail.atts)
    ensures Transact(PurgeAll(db, batch), mail, id, signedAt).1 == Committed
    ensures Transact(PurgeAll(db, batch), mail, id, signedAt).0.dedup[mail.hash] == Entry(id, signedAt)
  {
    PurgeAllExact(db, batch);
  }
}
