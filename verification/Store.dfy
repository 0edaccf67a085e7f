/** The stores as objects that the archiver worker and the retention worker update in
    place: the four tables, the blob bucket, the daily indices and the purge audit trail.
    One call is one worker's view between two points where it waits on another service;
    each method is proved to have the effect that `Catalog` gives as a function. */
module Store {
  import opened Wrappers
  import opened Catalog

  /** What a sealed object decrypts to. */
  datatype Blob = EmlBlob(mail: Mail) | AttBlob(sha: Hash)
  type Blobs = map<Hash, Blob>

  const SECONDS_PER_DAY := 86400
  const BATCH_LIMIT := 5000

  function Day(t: int): int { t / SECONDS_PER_DAY }

  /** A document id inside one daily index. */
  datatype DocKey = DocKey(day: int, id: nat)
  datatype Doc = Doc(docId: nat, archivedAt: int, mail: Mail)
  type Index = map<DocKey, Doc>

  function KeyOf(e: Entry): DocKey { DocKey(Day(e.signedAt), e.id) }

  function PutBody(blobs: Blobs, mail: Mail): Blobs { blobs[mail.hash := EmlBlob(mail)] }

  function PutAtt(blobs: Blobs, a: Att): Blobs { blobs[a.sha := AttBlob(a.sha)] }

  function PutAll(blobs: Blobs, atts: seq<Att>): Blobs {
    if atts == [] then blobs else PutAtt(PutAll(blobs, atts[..|atts| - 1]), atts[|atts| - 1])
  }

  lemma {:induction false} PutAllKeys(blobs: Blobs, atts: seq<Att>)
    ensures PutAll(blobs, atts).Keys == blobs.Keys + Shas(atts)
  {
    if atts != [] {
      var n := |atts| - 1;
      PutAllKeys(blobs, atts[..n]);
      assert atts == atts[..n] + [atts[n]];
      assert Shas(atts) == Shas(atts[..n]) + {atts[n].sha};
    }
  }

  /** What the bucket gains with one mail: its own bytes under the fingerprint, unless an
      attachment has that digest, and each content under its digest. */
  ghost predicate StoredAs(blobs: Blobs, r: Blobs, mail: Mail) {
    && (forall h :: h in r <==> h in blobs || h == mail.hash || exists a | a in mail.atts :: a.sha == h)
    && (forall a | a in mail.atts :: r[a.sha] == AttBlob(a.sha))
    && ((forall a | a in mail.atts :: a.sha != mail.hash) ==> r[mail.hash] == EmlBlob(mail))
    && (forall h | h in blobs && h != mail.hash && (forall a | a in mail.atts :: a.sha != h) :: r[h] == blobs[h])
  }

  lemma {:induction false} PutAllAt(blobs: Blobs, atts: seq<Att>, h: Hash)
    ensures h in PutAll(blobs, atts) <==> h in blobs || h in Shas(atts)
    ensures h in Shas(atts) ==> PutAll(blobs, atts)[h] == AttBlob(h)
    ensures h in blobs && h !in Shas(atts) ==> PutAll(blobs, atts)[h] == blobs[h]
  {
    if atts != [] {
      var n := |atts| - 1;
      PutAllAt(blobs, atts[..n], h);
      assert atts == atts[..n] + [atts[n]];
      assert Shas(atts) == Shas(atts[..n]) + {atts[n].sha};
    }
  }

  lemma PutsStore(blobs: Blobs, mail: Mail)
    ensures StoredAs(blobs, PutAll(PutBody(blobs, mail), mail.atts), mail)
  {
    var r := PutAll(PutBody(blobs, mail), mail.atts);
    forall h
      ensures h in r <==> h in blobs || h == mail.hash || h in Shas(mail.atts)
      ensures h in Shas(mail.atts) ==> r[h] == AttBlob(h)
      ensures h == mail.hash && h !in Shas(mail.atts) ==> r[h] == EmlBlob(mail)
      ensures h in blobs && h != mail.hash && h !in Shas(mail.atts) ==> r[h] == blobs[h]
    {
      PutAllAt(PutBody(blobs, mail), mail.atts, h);
    }
    forall a | a in mail.atts ensures a.sha in Shas(mail.atts) {}
  }

  function PutDoc(index: Index, e: Entry, mail: Mail): Index {
    index[KeyOf(e) := Doc(e.id, e.signedAt, mail)]
  }

  /** The index of `d` is deleted by a run that fails to delete the days `kept`. */
  predicate Drops(day: int, kept: set<int>, d: int) { d < day && d !in kept }

  function DropBefore(index: Index, day: int, kept: set<int>): Index {
    map k | k in index && !Drops(day, kept, k.day) :: index[k]
  }

  function DroppedDays(index: Index, day: int, kept: set<int>): set<int> {
    set k | k in index && Drops(day, kept, k.day) :: k.day
  }

  /** `table` with one reference to each content in `hs` given back. */
  function ReleaseSet(table: AttTable, hs: set<Hash>): AttTable {
    map h | h in table && (h in hs ==> table[h].refCount - 1 > 0) ::
      if h in hs then table[h].(refCount := table[h].refCount - 1) else table[h]
  }

  function Exhausted(table: AttTable, hs: set<Hash>): set<Hash> {
    set h | h in hs && h in table && table[h].refCount - 1 <= 0
  }

  function Unlink(links: set<Link>, drop: set<Hash>): set<Link> {
    set l | l in links && l.att !in drop
  }

  lemma TakeStep(table: AttTable, copies: AttTable, links: set<Link>, done: set<Hash>, h: Hash)
    requires h !in done
    ensures var was, now, more := Exhausted(copies, done), Exhausted(copies, done + {h}), Exhausted(copies, {h});
            && Take(Take(table, done, was), {h}, more) == Take(table, done + {h}, now)
            && Unlink(Unlink(links, was), more) == Unlink(links, now)
  {
  }

  lemma TakeOne(table: AttTable, copies: AttTable, links: set<Link>, h: Hash)
    ensures var less := if h in table then table[h := table[h].(refCount := table[h].refCount - 1)] else table;
            var last := h in copies && copies[h].refCount - 1 <= 0;
            && Exhausted(copies, {h}) == (if last then {h} else {})
            && Take(table, {h}, {h}) == less - {h} && Take(table, {h}, {}) == less
            && Unlink(links, {h}) == (set l | l in links && l.att != h) && Unlink(links, {}) == links
  {
  }

  function ReleaseOne(table: AttTable, h: Hash): AttTable {
    if h !in table then table
    else if table[h].refCount - 1 <= 0 then table - {h}
    else table[h := table[h].(refCount := table[h].refCount - 1)]
  }

  lemma ReleaseStep(table: AttTable, done: set<Hash>, h: Hash)
    requires h !in done
    ensures ReleaseOne(ReleaseSet(table, done), h) == ReleaseSet(table, done + {h})
    ensures Exhausted(ReleaseSet(table, done), {h}) == Exhausted(table, {h})
    ensures Exhausted(table, done + {h}) == Exhausted(table, done) + Exhausted(table, {h})
  {
  }

  /** The copies of a session that has read `seen` and purges `id`. */
  lemma ReleasedAll(seen: Db, id: nat, hs: set<Hash>)
    requires id in seen.messages && hs == ContentsOf(seen.links, id)
    ensures ReleaseSet(seen.attachments, hs) == PurgeOne(seen, id).attachments
    ensures Exhausted(seen.attachments, hs) == DropOne(seen, id)
  {
    forall h ensures h in hs <==> Link(id, h) in seen.links {}
  }

  lemma StillThere(db: Db, seen: Db, batch: seq<nat>, i: nat)
    requires Follows(seen, db, Ids(batch)) && NoRepeats(batch) && Ids(batch) <= db.messages.Keys && i < |batch|
    ensures batch[i] in PurgeSeen(db, seen, batch[..i]).messages && batch[i] in PurgeAll(seen, batch[..i]).messages
    ensures ContentsOf(PurgeSeen(db, seen, batch[..i]).links, batch[i]) ==
            ContentsOf(PurgeAll(seen, batch[..i]).links, batch[i])
    ensures PurgeSeen(db, seen, batch[..i]).messages[batch[i]].bodySha ==
            PurgeAll(seen, batch[..i]).messages[batch[i]].bodySha
  {
    assert batch[i] in Ids(batch) && batch[i] !in Ids(batch[..i]) && Ids(batch[..i]) <= Ids(batch);
    SeenFollows(db, seen, batch[..i], Ids(batch));
    SeenPurgedAll(db, seen, batch[..i], Ids(batch));
  }

  lemma PrefixNext(batch: seq<nat>, i: nat)
    requires i < |batch|
    ensures var b := batch[..i + 1];
            b == batch[..i] + [batch[i]] && |b| == i + 1 && b[..|b| - 1] == batch[..i] && b[|b| - 1] == batch[i]
  {
  }

  lemma FreedNext(seen: Db, b: seq<nat>)
    requires b != []
    ensures var init, last := b[..|b| - 1], b[|b| - 1];
            && PurgeAll(seen, b) == PurgeOne(PurgeAll(seen, init), last)
            && FreedAll(seen, b) == FreedAll(seen, init) + FreedOne(PurgeAll(seen, init), last)
  {
  }

  lemma SeenNext(db: Db, seen: Db, b: seq<nat>)
    requires b != []
    ensures var init, last := b[..|b| - 1], b[|b| - 1];
            PurgeSeen(db, seen, b) == PurgeRow(PurgeSeen(db, seen, init), last, DropOne(PurgeAll(seen, init), last))
  {
  }

  lemma PurgeNext(db: Db, seen: Db, blobs: Blobs, batch: seq<nat>, i: nat)
    requires i < |batch|
    ensures PurgeSeen(db, seen, batch[..i + 1]) ==
            PurgeRow(PurgeSeen(db, seen, batch[..i]), batch[i], DropOne(PurgeAll(seen, batch[..i]), batch[i]))
    ensures PurgeAll(seen, batch[..i + 1]) == PurgeOne(PurgeAll(seen, batch[..i]), batch[i])
    ensures blobs - FreedAll(seen, batch[..i + 1]) ==
            (blobs - FreedAll(seen, batch[..i])) - FreedOne(PurgeAll(seen, batch[..i]), batch[i])
    ensures batch[..i + 1] == batch[..i] + [batch[i]]
  {
    PrefixNext(batch, i);
    FreedNext(seen, batch[..i + 1]);
    SeenNext(db, seen, batch[..i + 1]);
    MinusTwice(blobs, FreedAll(seen, batch[..i]), FreedOne(PurgeAll(seen, batch[..i]), batch[i]));
  }

  lemma MinusTwice(blobs: Blobs, a: set<Hash>, b: set<Hash>)
    ensures blobs - (a + b) == blobs - a - b
  {
  }

  lemma InsertIfDistinct(db: Db, mail: Mail, id: nat, signedAt: int)
    ensures Distinct(mail.atts) ==> ArchivedAs(db, Insert(db, mail, id, signedAt), mail, id, signedAt)
  {
    if Distinct(mail.atts) {
      InsertArchives(db, mail, id, signedAt);
    }
  }

  /** Of the documents of `batch`, those stay whose index is not deleted. */
  ghost predicate DocumentsLeft(db: Db, index: Index, r: Index, cutoff: int, listing: Option<seq<int>>,
                                broken: set<int>, batch: seq<nat>) {
    forall id | id in batch && id in db.messages ::
      var key := DocKey(db.messages[id].signedAt / 86400, id);
      key in r <==> key in index && (listing.None? || key.day == cutoff / 86400 || key.day in broken)
  }

  /** The whole effect of purging a batch on tables that stand still. */
  ghost predicate BatchPurged(db: Db, blobs: Blobs, r: Db, rest: Blobs, batch: seq<nat>) {
    && RowsPurged(db, Ids(batch), r) && ContentsPurged(db, Ids(batch), r)
    && exists freed :: KeysFreed(db, Ids(batch), freed) && rest == blobs - freed
  }

  lemma BatchEffect(db: Db, blobs: Blobs, cutoff: int, batch: seq<nat>)
    requires DbInv(db) && IsBatch(db, cutoff, BATCH_LIMIT, batch)
    ensures DbInv(PurgeAll(db, batch)) && PurgeSeen(db, db, batch) == PurgeAll(db, batch)
    ensures BatchPurged(db, blobs, PurgeAll(db, batch), blobs - FreedAll(db, batch), batch)
    ensures ExpiredGone(db, PurgeAll(db, batch), cutoff, |batch|, BATCH_LIMIT)
    ensures Follows(db, db, Ids(batch)) && Ids(batch) <= db.messages.Keys
  {
    SeenUndisturbed(db, batch);
    PurgeAllExact(db, batch);
    assert KeysFreed(db, Ids(batch), FreedAll(db, batch));
    PurgedWereExpired(db, cutoff, BATCH_LIMIT, batch, PurgeAll(db, batch));
  }

  lemma DropEffect(db: Db, index: Index, cutoff: int, listing: Option<seq<int>>, broken: set<int>, batch: seq<nat>)
    requires IsBatch(db, cutoff, BATCH_LIMIT, batch)
    ensures DocumentsLeft(db, index, if listing.None? then index else DropBefore(index, Day(cutoff), broken),
                          cutoff, listing, broken, batch)
  {
    forall id | id in batch ensures id in db.messages && db.messages[id].signedAt < cutoff {
      assert id in Ids(batch);
    }
  }

  class ArchiveStore {
    var messages: map<nat, Row>
    var dedup: map<Hash, Entry>
    var attachments: AttTable
    var links: set<Link>
    var blobs: Blobs
    var index: Index
    var audit: seq<nat>
    var session: AttTable      // the retention session's copies of the attachment rows

    function Tables(): Db
      reads this
    {
      Db(messages, dedup, attachments, links)
    }

    constructor ()
      ensures Tables() == EMPTY_DB && blobs == map[] && index == map[] && audit == [] && session == map[]
    {
      messages, dedup, attachments, links := map[], map[], map[], {};
      blobs, index, audit, session := map[], map[], [], map[];
    }

    // ----- archiver worker -------------------------------------------------

    method StoreAttachments(atts: seq<Att>)
      modifies this`attachments, this`blobs
      ensures attachments == UpsertAll(old(attachments), atts)
      ensures blobs == PutAll(old(blobs), atts)
    {
      var i := 0;
      while i < |atts|
        invariant 0 <= i <= |atts|
        invariant attachments == UpsertAll(old(attachments), atts[..i])
        invariant blobs == PutAll(old(blobs), atts[..i])
      {
        var a := atts[i];
        blobs := blobs[a.sha := AttBlob(a.sha)];
        if a.sha in attachments {
          var row := attachments[a.sha];
          attachments := attachments[a.sha := row.(refCount := row.refCount + 1)];
        } else {
          attachments := attachments[a.sha := AttRow(a.size, 1)];
        }
        assert atts[..i + 1][..i] == atts[..i] && atts[..i + 1][i] == a;
        i := i + 1;
      }
      assert atts[..i] == atts;
    }

    /** The link rows of one flush; the primary key (message_id, attachment_id)
        refuses the second row for one content. */
    method LinkAll(id: nat, atts: seq<Att>) returns (ok: bool)
      requires forall l | l in links :: l.msg != id
      modifies this`links
      ensures ok <==> Distinct(atts)
      ensures ok ==> links == old(links) + NewLinks(id, atts)
    {
      var i := 0;
      while i < |atts|
        invariant 0 <= i <= |atts|
        invariant links == old(links) + NewLinks(id, atts[..i])
        invariant Distinct(atts[..i])
      {
        var l := Link(id, atts[i].sha);
        if l in links {
          assert l in NewLinks(id, atts[..i]);
          assert !Distinct(atts) by {
            var a :| a in atts[..i] && Link(id, a.sha) == l;
            var k :| 0 <= k < i && atts[k] == a;
            assert atts[k].sha == atts[i].sha;
          }
          return false;
        }
        forall k | 0 <= k < i ensures atts[k].sha != atts[i].sha {
          assert atts[k] in atts[..i];
          assert Link(id, atts[k].sha) in NewLinks(id, atts[..i]);
        }
        links := links + {l};
        assert atts[..i + 1] == atts[..i] + [atts[i]];
        assert NewLinks(id, atts[..i + 1]) == NewLinks(id, atts[..i]) + {l};
        i := i + 1;
      }
      assert atts[..i] == atts;
      return true;
    }

    /** From the first upsert to commit or rollback. */
    method Transaction(mail: Mail, id: nat, signedAt: int) returns (outcome: TxOutcome)
      requires DbInv(Tables()) && id !in messages
      modifies this`messages, this`dedup, this`attachments, this`links, this`blobs
      ensures (Tables(), outcome) == Transact(old(Tables()), mail, id, signedAt)
      ensures blobs == PutAll(old(blobs), mail.atts)
      ensures DbInv(Tables())
      ensures outcome.Committed? ==> ArchivedAs(old(Tables()), Tables(), mail, id, signedAt)
      ensures !outcome.Committed? ==> Tables() == old(Tables())
    {
      var messages0, attachments0, links0 := messages, attachments, links;
      StoreAttachments(mail.atts);
      messages := messages[id := Row(mail.hash, mail.hash, signedAt, false, mail.size)];
      var ok := LinkAll(id, mail.atts);
      if !ok {
        messages, attachments, links := messages0, attachments0, links0;
        outcome := LinkClash;
      } else if mail.hash in dedup {
        messages, attachments, links := messages0, attachments0, links0;
        outcome := Duplicate;
      } else {
        dedup := dedup[mail.hash := Entry(id, signedAt)];
        outcome := Committed;
      }
      TransactKeepsInv(old(Tables()), mail, id, signedAt);
      InsertIfDistinct(old(Tables()), mail, id, signedAt);
    }

    /** `process` after its dedup lookup answered `seen`. The answer may be stale:
        another worker may have committed the same mail since. */
    method Process(mail: Mail, id: nat, signedAt: int, seen: Option<Entry>) returns (done: Option<Entry>)
      requires DbInv(Tables()) && id !in messages
      modifies this`messages, this`dedup, this`attachments, this`links, this`blobs, this`index
      ensures DbInv(Tables())
      ensures seen.Some? ==> done == seen && Tables() == old(Tables()) && blobs == old(blobs)
      ensures seen.None? ==>
                && Tables() == Transact(old(Tables()), mail, id, signedAt).0
                && blobs == PutAll(PutBody(old(blobs), mail), mail.atts)
                && (done.None? <==> !Distinct(mail.atts))
                && (done.Some? ==> mail.hash in dedup && done.value == dedup[mail.hash])
      ensures seen.None? && Distinct(mail.atts) && mail.hash !in old(dedup) ==>
                && done == Some(Entry(id, signedAt))
                && ArchivedAs(old(Tables()), Tables(), mail, id, signedAt)
      ensures seen.None? && (!Distinct(mail.atts) || mail.hash in old(dedup)) ==> Tables() == old(Tables())
      ensures seen.None? ==> StoredAs(old(blobs), blobs, mail)
      ensures seen.None? && mail.hash !in Shas(mail.atts) ==> mail.hash in blobs && blobs[mail.hash] == EmlBlob(mail)
      ensures done.Some? ==>
                var key := DocKey(done.value.signedAt / 86400, done.value.id);
                index == old(index)[key := Doc(done.value.id, done.value.signedAt, mail)]
      ensures done.None? ==> index == old(index)
    {
      PutsStore(blobs, mail);
      forall a | a in mail.atts ensures a.sha in Shas(mail.atts) {}
      if seen.Some? {
        index := PutDoc(index, seen.value, mail);
        return seen;
      }
      blobs := PutBody(blobs, mail);
      var outcome := Transaction(mail, id, signedAt);
      match outcome {
        case LinkClash =>
          return None;
        case Duplicate =>
          var dup := dedup[mail.hash];
          index := PutDoc(index, dup, mail);
          return Some(dup);
        case Committed =>
          index := PutDoc(index, Entry(id, signedAt), mail);
          return Some(Entry(id, signedAt));
      }
    }

    /** `set_legal_hold`; false is the answer 404. */
    method SetLegalHold(id: nat, hold: bool) returns (found: bool)
      modifies this`messages
      ensures found <==> id in old(messages)
      ensures !found ==> messages == old(messages)
      ensures found ==>
                && messages.Keys == old(messages).Keys
                && messages[id] == old(messages)[id].(legalHold := hold)
                && (forall r | r in messages && r != id :: messages[r] == old(messages)[r])
      ensures Tables() == SetHold(old(Tables()), id, hold)
    {
      found := id in messages;
      if found {
        messages := messages[id := messages[id].(legalHold := hold)];
      }
    }

    // ----- retention worker ------------------------------------------------

    /** One reference is given back in the table and in the session's copy; the copy
        decides. */
    method ReleaseContent(h: Hash)
      modifies this`attachments, this`links, this`blobs, this`session
      ensures session == ReleaseOne(old(session), h)
      ensures attachments == Take(old(attachments), {h}, Exhausted(old(session), {h}))
      ensures links == Unlink(old(links), Exhausted(old(session), {h}))
      ensures blobs == old(blobs) - Exhausted(old(session), {h})
    {
      TakeOne(attachments, session, links, h);
      if h in attachments {
        attachments := attachments[h := attachments[h].(refCount := attachments[h].refCount - 1)];
      }
      if h in session {
        session := session[h := session[h].(refCount := session[h].refCount - 1)];
        if session[h].refCount <= 0 {
          blobs := blobs - {h};
          links := set l | l in links && l.att != h;
          attachments := attachments - {h};
          session := session - {h};
        }
      }
    }

    /** The inner loop over `msg.attachments`. */
    method ReleaseContents(atts: set<Hash>)
      modifies this`attachments, this`links, this`blobs, this`session
      ensures session == ReleaseSet(old(session), atts)
      ensures attachments == Take(old(attachments), atts, Exhausted(old(session), atts))
      ensures links == Unlink(old(links), Exhausted(old(session), atts))
      ensures blobs == old(blobs) - Exhausted(old(session), atts)
    {
      ghost var table0, links0, blobs0, session0 := attachments, links, blobs, session;
      var todo := atts;
      ghost var done := {};
      while todo != {}
        invariant todo <= atts && done == atts - todo
        invariant session == ReleaseSet(session0, done)
        invariant attachments == Take(table0, done, Exhausted(session0, done))
        invariant links == Unlink(links0, Exhausted(session0, done))
        invariant blobs == blobs0 - Exhausted(session0, done)
        decreases |todo|
      {
        var h :| h in todo;
        ReleaseStep(session0, done, h);
        TakeStep(table0, session0, links0, done, h);
        ReleaseContent(h);
        todo, done := todo - {h}, done + {h};
      }
    }

    /** One turn of the outer loop: counters, contents, body, rows. */
    method PurgeMessage(id: nat, ghost seen: Db)
      requires id in messages && id in seen.messages && session == seen.attachments
      requires ContentsOf(links, id) == ContentsOf(seen.links, id)
      requires messages[id].bodySha == seen.messages[id].bodySha
      modifies this`messages, this`dedup, this`attachments, this`links, this`blobs, this`session
      ensures Tables() == PurgeRow(old(Tables()), id, DropOne(seen, id))
      ensures session == PurgeOne(seen, id).attachments
      ensures blobs == old(blobs) - FreedOne(seen, id)
    {
      var row := messages[id];
      ReleasedAll(seen, id, ContentsOf(links, id));
      ReleaseContents(ContentsOf(links, id));
      blobs := blobs - {row.bodySha};
      dedup := dedup - {row.archiveHash};
      links := set l | l in links && l.msg != id;
      messages := messages - {id};
    }

    /** The outer loop, in a session that read `seen`; others may have committed since. */
    method PurgeBatch(batch: seq<nat>, ghost seen: Db) returns (purged: nat)
      requires Follows(seen, Tables(), Ids(batch)) && NoRepeats(batch) && Ids(batch) <= messages.Keys
      requires session == seen.attachments
      modifies this`messages, this`dedup, this`attachments, this`links, this`blobs, this`session, this`audit
      ensures Tables() == PurgeSeen(old(Tables()), seen, batch)
      ensures blobs == old(blobs) - FreedAll(seen, batch)
      ensures purged == |batch| && audit == old(audit) + batch
    {
      ghost var db0, blobs0, audit0 := Tables(), blobs, audit;
      purged := 0;
      for i := 0 to |batch|
        invariant purged == i
        invariant Tables() == PurgeSeen(db0, seen, batch[..i])
        invariant session == PurgeAll(seen, batch[..i]).attachments
        invariant blobs == blobs0 - FreedAll(seen, batch[..i])
        invariant audit == audit0 + batch[..i]
      {
        StillThere(db0, seen, batch, i);
        PurgeMessage(batch[i], PurgeAll(seen, batch[..i]));
        audit := audit + [batch[i]];
        purged := purged + 1;
        PurgeNext(db0, seen, blobs0, batch, i);
      }
      assert batch[..|batch|] == batch;
    }

    /** `listing` holds the existing daily indices in the order the cluster gives them, or
        None when asking for them failed; deleting the days in `broken` fails. Both
        failures are only logged. */
    method DropOldIndices(listing: Option<seq<int>>, broken: set<int>, cutoffDay: int)
      requires listing.Some? ==> forall k | k in index :: k.day in listing.value
      modifies this`index
      ensures listing.None? ==> index == old(index)
      ensures listing.Some? ==> index == DropBefore(old(index), cutoffDay, broken)
      ensures listing.Some? ==>
                && (forall k :: k in index <==> k in old(index) && (k.day >= cutoffDay || k.day in broken))
                && (forall k | k in index :: index[k] == old(index)[k])
    {
      if listing.None? {
        return;
      }
      var days := listing.value;
      for i := 0 to |days|
        invariant index == map k | k in old(index) && (k.day in days[..i] ==> !Drops(cutoffDay, broken, k.day))
                             :: old(index)[k]
      {
        assert days[..i + 1] == days[..i] + [days[i]];
        if days[i] < cutoffDay && days[i] !in broken {
          index := map k | k in index && k.day != days[i] :: index[k];
        }
      }
      assert days[..|days|] == days;
    }

    /** `run_retention`; `batch` is what the selection of expired rows returned. The purge
        goes on whatever became of the indices. */
    method RunRetention(now: int, retentionDays: int, listing: Option<seq<int>>, broken: set<int>, batch: seq<nat>)
      returns (purged: nat)
      requires DbInv(Tables()) && (listing.Some? ==> forall k | k in index :: k.day in listing.value)
      requires retentionDays > 0 ==>
                 IsBatch(Tables(), now - retentionDays * SECONDS_PER_DAY, BATCH_LIMIT, batch)
      modifies this
      ensures DbInv(Tables())
      ensures retentionDays <= 0 ==>
                && purged == 0 && Tables() == old(Tables()) && blobs == old(blobs)
                && index == old(index) && audit == old(audit)
      ensures retentionDays > 0 ==>
                var cutoff := now - retentionDays * 86400;
                && purged == Min(5000, |Eligible(old(Tables()), cutoff)|) && audit == old(audit) + batch
                && BatchPurged(old(Tables()), old(blobs), Tables(), blobs, batch)
                && ExpiredGone(old(Tables()), Tables(), cutoff, purged, 5000)
                && index == (if listing.None? then old(index) else DropBefore(old(index), Day(cutoff), broken))
                && DocumentsLeft(old(Tables()), old(index), index, cutoff, listing, broken, batch)
    {
      if retentionDays <= 0 {
        return 0;
      }
      var cutoff := now - retentionDays * SECONDS_PER_DAY;
      BatchEffect(Tables(), blobs, cutoff, batch);
      DropEffect(Tables(), index, cutoff, listing, broken, batch);
      DropOldIndices(listing, broken, Day(cutoff));
      session := attachments;
      purged := PurgeBatch(batch, Tables());
    }
  }
}
