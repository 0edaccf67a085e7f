/** No accepted mail is lost: the inductive invariant of the step system and what it
    says about every run. */
module Conservation {
  import opened Wrappers
  import opened Catalog
  import opened Store
  import opened Protocol

  ghost predicate Indexed(s: State, id: nat)
    requires id in s.log
  {
    DocKey(Day(s.log[id].signedAt), id) in s.index
  }

  /** Retention has dropped the daily index the row belongs to. */
  ghost predicate IndexDropped(s: State, id: nat)
    requires id in s.log
  {
    Day(s.log[id].signedAt) in s.dropped
  }

  /** Nothing is left to do for the row. */
  ghost predicate Settled(s: State, id: nat)
    requires id in s.log
  {
    id in s.purged || Indexed(s, id) || IndexDropped(s, id)
  }

  ghost predicate Concerns(s: State, id: nat, mail: Mail) {
    id in s.log && s.log[id].mail.hash == mail.hash
  }

  ghost predicate PcOk(s: State, mail: Mail, pc: Pc) {
    match pc
    case Started(_) => true
    case Prechecked(_) => true
    case Storing(_, put, rows) => rows <= put <= |mail.atts| && put <= rows + 1
    case Violated(rival) => Concerns(s, rival, mail)
    case Indexing(e) => Concerns(s, e.id, mail) && s.log[e.id].signedAt == e.signedAt
    case Finished(row) => Concerns(s, row, mail) && Settled(s, row)
  }

  ghost predicate Successor(s: State, i: nat, j: nat) {
    i < j < |s.copies| && s.copies[j].mail == s.copies[i].mail
  }

  ghost predicate CopyOk(s: State, i: nat)
    requires i < |s.copies|
  {
    match s.copies[i].loc
    case Queued => true
    case InFlight(pc) => PcOk(s, s.copies[i].mail, pc)
    case Dead(replay) => replay.Some? ==> Successor(s, i, replay.value)
    case Acked(row) => Concerns(s, row, s.copies[i].mail) && Settled(s, row)
    case Moved(to) => Successor(s, i, to)
  }

  ghost predicate CopiesOk(s: State) {
    forall i | 0 <= i < |s.copies| :: CopyOk(s, i)
  }

  ghost predicate RowLogged(s: State, id: nat)
    requires id in s.db.messages
  {
    && id in s.log && id !in s.purged
    && s.log[id].mail.hash == s.db.messages[id].archiveHash
    && s.log[id].signedAt == s.db.messages[id].signedAt
  }

  ghost predicate LogOk(s: State) {
    && (forall id | id in s.db.messages :: RowLogged(s, id))
    && (forall id | id in s.log :: id in s.db.messages || id in s.purged)
    && (forall id | id in s.purged :: id in s.log)
  }

  /** A copy that will end by writing the document of row `id`. */
  ghost predicate Heals(s: State, loc: Loc, id: nat)
    requires id in s.log
  {
    || loc.Queued?
    || loc == Dead(None)
    || (loc.InFlight? && loc.pc.Started?)
    || loc == InFlight(Indexing(Entry(id, s.log[id].signedAt)))
  }

  ghost predicate OwnerOk(s: State, id: nat)
    requires id in s.log
  {
    var i := s.log[id].owner;
    && i < |s.copies|
    && s.copies[i].mail == s.log[id].mail
    && (Settled(s, id) || Heals(s, s.copies[i].loc, id))
  }

  ghost predicate OwnersOk(s: State) {
    forall id | id in s.log :: OwnerOk(s, id)
  }

  ghost predicate DocOk(s: State, k: DocKey)
    requires k in s.index
  {
    && k.id in s.log
    && k.day == Day(s.log[k.id].signedAt)
    && s.index[k].docId == k.id
    && s.index[k].archivedAt == s.log[k.id].signedAt
    && s.index[k].mail.hash == s.log[k.id].mail.hash
  }

  ghost predicate IndexOk(s: State) {
    forall k | k in s.index :: DocOk(s, k)
  }

  ghost predicate AcceptedOk(s: State) {
    forall m | m in s.accepted :: exists i :: 0 <= i < |s.copies| && s.copies[i].mail == m
  }

  /** What retention has selected is still there, and nothing it has read is gone. */
  ghost predicate SelectionOk(s: State) {
    Ids(s.selected) <= s.db.messages.Keys && Follows(s.seen, s.db, Ids(s.selected))
  }

  ghost predicate Inv(s: State) {
    && DbInv(s.db) && LogOk(s) && CopiesOk(s) && OwnersOk(s) && IndexOk(s) && AcceptedOk(s)
    && SelectionOk(s)
  }

  // ----- what every step does to the history -------------------------------

  /** What later states keep, whatever happened in between. */
  ghost predicate Grows(s: State, t: State) {
    && |s.copies| <= |t.copies|
    && (forall i | 0 <= i < |s.copies| :: t.copies[i].mail == s.copies[i].mail)
    && (forall id | id in s.log ::
          id in t.log && t.log[id].mail == s.log[id].mail && t.log[id].signedAt == s.log[id].signedAt)
    && (forall id | id in s.log && Settled(s, id) :: Settled(t, id))
  }

  lemma CopyStays(s: State, t: State, i: nat)
    requires i < |s.copies| && Grows(s, t) && CopyOk(s, i) && t.copies[i].loc == s.copies[i].loc
    ensures CopyOk(t, i)
  {
  }

  /** One copy moved, everything else only grew. */
  lemma CopiesStay(s: State, t: State, i: nat)
    requires CopiesOk(s) && Grows(s, t) && |t.copies| == |s.copies| && i < |s.copies|
    requires forall j | 0 <= j < |s.copies| && j != i :: t.copies[j] == s.copies[j]
    requires CopyOk(t, i)
    ensures CopiesOk(t)
  {
    forall j | 0 <= j < |t.copies| ensures CopyOk(t, j) {
      if j != i {
        CopyStays(s, t, j);
      }
    }
  }

  lemma OwnersStay(s: State, t: State, i: nat)
    requires OwnersOk(s) && Grows(s, t) && t.log == s.log && i < |s.copies|
    requires forall j | 0 <= j < |s.copies| && j != i :: t.copies[j] == s.copies[j]
    requires forall id | id in s.log && s.log[id].owner == i && !Settled(t, id) ::
               Heals(s, s.copies[i].loc, id) ==> Heals(t, t.copies[i].loc, id)
    ensures OwnersOk(t)
  {
  }

  /** A row that is neither settled nor gone is the one the dedup table names. */
  lemma CurrentRow(s: State, id: nat)
    requires DbInv(s.db) && LogOk(s) && id in s.log && id !in s.purged
    ensures s.log[id].mail.hash in s.db.dedup
    ensures s.db.dedup[s.log[id].mail.hash] == Entry(id, s.log[id].signedAt)
  {
  }

  lemma NamedRow(s: State, h: Hash)
    requires DbInv(s.db) && LogOk(s) && h in s.db.dedup
    ensures var e := s.db.dedup[h];
            e.id in s.log && e.id !in s.purged && s.log[e.id].mail.hash == h && s.log[e.id].signedAt == e.signedAt
  {
  }

  lemma RowsStay(s: State, t: State)
    requires LogOk(s) && t.db == s.db && t.purged == s.purged && t.log.Keys == s.log.Keys && Grows(s, t)
    ensures LogOk(t)
  {
  }

  lemma DocsStay(s: State, t: State)
    requires IndexOk(s) && t.index == s.index && Grows(s, t)
    ensures IndexOk(t)
  {
  }

  // ----- steps that only move one copy --------------------------------------

  ghost predicate OnlyMoves(s: State, t: State, i: nat) {
    && i < |s.copies| && |t.copies| == |s.copies|
    && t == s.(copies := t.copies, blobs := t.blobs, deliveries := t.deliveries, requeues := t.requeues)
    && t.copies[i].mail == s.copies[i].mail
    && (forall j | 0 <= j < |s.copies| && j != i :: t.copies[j] == s.copies[j])
  }

  lemma MoveKeepsInv(s: State, t: State, i: nat)
    requires Inv(s) && OnlyMoves(s, t, i) && CopyOk(t, i)
    requires forall id | id in s.log && s.log[id].owner == i && !Settled(s, id) ::
               Heals(s, s.copies[i].loc, id) ==> Heals(t, t.copies[i].loc, id)
    ensures Inv(t)
  {
    assert Grows(s, t);
    CopiesStay(s, t, i);
    OwnersStay(s, t, i);
    forall k | k in t.index ensures DocOk(t, k) { assert DocOk(s, k); }
    forall id | id in t.db.messages ensures RowLogged(t, id) { assert RowLogged(s, id); }
    AcceptedStays(s, t);
  }

  lemma AcceptedStays(s: State, t: State)
    requires AcceptedOk(s) && Grows(s, t) && t.accepted == s.accepted
    ensures AcceptedOk(t)
  {
  }

  lemma QueueMove(s: State, st: Step)
    requires st.Deliver? || st.Ack? || st.Requeue? || st.Fail? || st.ReplayAck? || st.ReplayAbort?
    requires Enabled(s, st) && CopyOk(s, st.i)
    ensures OnlyMoves(s, Apply(s, st), st.i) && CopyOk(Apply(s, st), st.i)
    ensures forall id | id in s.log && Heals(s, s.copies[st.i].loc, id) && !Settled(s, id) ::
              Heals(Apply(s, st), Apply(s, st).copies[st.i].loc, id)
  {
  }

  lemma QueueStep(s: State, st: Step)
    requires Inv(s) && Enabled(s, st)
    requires st.Deliver? || st.Ack? || st.Requeue? || st.Fail? || st.ReplayAck? || st.ReplayAbort?
    ensures Inv(Apply(s, st))
  {
    assert CopyOk(s, st.i);
    var t := Apply(s, st);
    QueueMove(s, st);
    MoveKeepsInv(s, t, st.i);
  }

  lemma WorkStep(s: State, st: Step)
    requires Inv(s) && Enabled(s, st)
    requires st.Precheck? || st.StoreBody? || st.StoreAtt? || st.Upsert? || st.Lookup?
    ensures Inv(Apply(s, st))
  {
    var t, i := Apply(s, st), st.i;
    assert CopyOk(s, i);
    assert OnlyMoves(s, t, i);
    var h := s.copies[i].mail.hash;
    if h in s.db.dedup {
      NamedRow(s, h);
    }
    forall id | id in s.log && s.log[id].owner == i && !Settled(s, id)
      ensures h in s.db.dedup && s.db.dedup[h] == Entry(id, s.log[id].signedAt)
    {
      assert OwnerOk(s, id);
      CurrentRow(s, id);
    }
    if st.Lookup? && h !in s.db.dedup {
      var r := s.copies[i].loc.pc.rival;
      if r !in s.purged {
        CurrentRow(s, r);
      }
    }
    assert CopyOk(t, i);
    MoveKeepsInv(s, t, i);
  }

  lemma FailedCommitStep(s: State, i: nat, id: nat)
    requires Inv(s) && Enabled(s, TryCommit(i, id))
    requires !Transact(s.db, s.copies[i].mail, id, s.copies[i].loc.pc.signedAt).1.Committed?
    ensures Inv(Apply(s, TryCommit(i, id)))
  {
    var t := Apply(s, TryCommit(i, id));
    FailedCommitMoves(s, i, id);
    MoveKeepsInv(s, t, i);
  }

  lemma FailedCommitMoves(s: State, i: nat, id: nat)
    requires Inv(s) && Enabled(s, TryCommit(i, id))
    requires !Transact(s.db, s.copies[i].mail, id, s.copies[i].loc.pc.signedAt).1.Committed?
    ensures OnlyMoves(s, Apply(s, TryCommit(i, id)), i) && CopyOk(Apply(s, TryCommit(i, id)), i)
    ensures forall r | r in s.log :: !Heals(s, s.copies[i].loc, r)
  {
    if Distinct(s.copies[i].mail.atts) {
      NamedRow(s, s.copies[i].mail.hash);
      DuplicateMoves(s, i, id);
    } else {
      ClashMoves(s, i, id);
    }
  }

  lemma DuplicateMoves(s: State, i: nat, id: nat)
    requires Enabled(s, TryCommit(i, id)) && Distinct(s.copies[i].mail.atts) && s.copies[i].mail.hash in s.db.dedup
    requires Concerns(s, s.db.dedup[s.copies[i].mail.hash].id, s.copies[i].mail)
    ensures OnlyMoves(s, Apply(s, TryCommit(i, id)), i) && CopyOk(Apply(s, TryCommit(i, id)), i)
  {
    var r := s.db.dedup[s.copies[i].mail.hash].id;
    assert Apply(s, TryCommit(i, id)) == Move(s, i, InFlight(Violated(r)));
  }

  lemma ClashMoves(s: State, i: nat, id: nat)
    requires Enabled(s, TryCommit(i, id)) && !Distinct(s.copies[i].mail.atts)
    ensures OnlyMoves(s, Apply(s, TryCommit(i, id)), i) && CopyOk(Apply(s, TryCommit(i, id)), i)
  {
    assert Apply(s, TryCommit(i, id)) == Reject(s, i);
  }

  // ----- the other steps -----------------------------------------------------

  ghost predicate Commits(s: State, i: nat, id: nat) {
    && Enabled(s, TryCommit(i, id))
    && Transact(s.db, s.copies[i].mail, id, s.copies[i].loc.pc.signedAt).1.Committed?
  }

  lemma CommitGrows(s: State, i: nat, id: nat)
    requires Commits(s, i, id)
    ensures Grows(s, Apply(s, TryCommit(i, id)))
  {
  }

  lemma CommitLogged(s: State, i: nat, id: nat)
    requires LogOk(s) && Commits(s, i, id)
    ensures LogOk(Apply(s, TryCommit(i, id)))
  {
  }

  lemma CommitOwned(s: State, i: nat, id: nat)
    requires OwnersOk(s) && Commits(s, i, id)
    ensures OwnersOk(Apply(s, TryCommit(i, id)))
  {
  }

  lemma CommitCopies(s: State, i: nat, id: nat)
    requires CopiesOk(s) && Commits(s, i, id)
    ensures CopiesOk(Apply(s, TryCommit(i, id)))
  {
    CommitGrows(s, i, id);
    CopiesStay(s, Apply(s, TryCommit(i, id)), i);
  }

  lemma CommitFollows(seen: Db, db: Db, batch: set<nat>, mail: Mail, id: nat, signedAt: int)
    requires Follows(seen, db, batch) && batch <= db.messages.Keys && id !in db.messages
    requires Distinct(mail.atts) && mail.hash !in db.dedup
    ensures DbInv(Insert(db, mail, id, signedAt)) && Follows(seen, Insert(db, mail, id, signedAt), batch)
  {
    TransactKeepsInv(db, mail, id, signedAt);
  }

  lemma CommitDb(s: State, i: nat, id: nat)
    requires Commits(s, i, id)
    ensures var t := Apply(s, TryCommit(i, id));
            && t.db == Insert(s.db, s.copies[i].mail, id, s.copies[i].loc.pc.signedAt)
            && t.index == s.index && t.accepted == s.accepted && t.selected == s.selected && t.seen == s.seen
  {
  }

  lemma CommitStep(s: State, i: nat, id: nat)
    requires Inv(s) && Commits(s, i, id)
    ensures Inv(Apply(s, TryCommit(i, id)))
  {
    var t := Apply(s, TryCommit(i, id));
    CommitDb(s, i, id);
    CommitFollows(s.seen, s.db, Ids(s.selected), s.copies[i].mail, id, s.copies[i].loc.pc.signedAt);
    CommitLogged(s, i, id);
    CommitOwned(s, i, id);
    CommitCopies(s, i, id);
    CommitGrows(s, i, id);
    DocsStay(s, t);
    AcceptedStays(s, t);
  }

  lemma DocWritten(s: State, t: State, e: Entry, mail: Mail)
    requires Inv(s) && Concerns(s, e.id, mail) && s.log[e.id].signedAt == e.signedAt
    requires t == s.(copies := t.copies, index := PutDoc(s.index, e, mail))
    ensures IndexOk(t)
    ensures forall id | id in s.log && Settled(s, id) :: Settled(t, id)
    ensures Settled(t, e.id)
  {
  }

  lemma WriteDocStep(s: State, i: nat)
    requires Inv(s) && Enabled(s, WriteDoc(i))
    ensures Inv(Apply(s, WriteDoc(i)))
  {
    var t := Apply(s, WriteDoc(i));
    var e := s.copies[i].loc.pc.entry;
    assert CopyOk(s, i);
    DocWritten(s, t, e, s.copies[i].mail);
    assert Grows(s, t);
    CopiesStay(s, t, i);
    OwnersStay(s, t, i);
    RowsStay(s, t);
    AcceptedStays(s, t);
  }

  lemma SmtpCopies(s: State, mail: Mail, limit: nat, broker: PublishOutcome)
    requires CopiesOk(s) && OwnersOk(s)
    ensures CopiesOk(Apply(s, Smtp(mail, limit, broker))) && OwnersOk(Apply(s, Smtp(mail, limit, broker)))
  {
    var t := Apply(s, Smtp(mail, limit, broker));
    assert Grows(s, t);
    forall j | 0 <= j < |t.copies| ensures CopyOk(t, j) {
      if j < |s.copies| { CopyStays(s, t, j); }
    }
    forall r | r in t.log ensures OwnerOk(t, r) { assert OwnerOk(s, r); }
  }

  lemma SmtpAccepted(s: State, mail: Mail, limit: nat, broker: PublishOutcome)
    requires AcceptedOk(s)
    ensures AcceptedOk(Apply(s, Smtp(mail, limit, broker)))
  {
    var t := Apply(s, Smtp(mail, limit, broker));
    forall m | m in t.accepted ensures exists i :: 0 <= i < |t.copies| && t.copies[i].mail == m {
      if m in s.accepted {
        var i :| 0 <= i < |s.copies| && s.copies[i].mail == m;
        assert t.copies[i].mail == m;
      } else {
        assert t.copies[|s.copies|].mail == m;
      }
    }
  }

  lemma SmtpStep(s: State, mail: Mail, limit: nat, broker: PublishOutcome)
    requires Inv(s)
    ensures Inv(Apply(s, Smtp(mail, limit, broker)))
  {
    var t := Apply(s, Smtp(mail, limit, broker));
    assert Grows(s, t);
    SmtpCopies(s, mail, limit, broker);
    SmtpAccepted(s, mail, limit, broker);
    RowsStay(s, t);
    DocsStay(s, t);
  }

  lemma ReplayGrows(s: State, i: nat)
    requires Enabled(s, ReplayPublish(i))
    ensures Grows(s, Apply(s, ReplayPublish(i)))
  {
  }

  lemma ReplayOwners(s: State, i: nat)
    requires OwnersOk(s) && Enabled(s, ReplayPublish(i))
    ensures OwnersOk(Apply(s, ReplayPublish(i)))
  {
  }

  lemma ReplayCopies(s: State, i: nat)
    requires Inv(s) && Enabled(s, ReplayPublish(i))
    ensures CopiesOk(Apply(s, ReplayPublish(i)))
  {
    var t, n := Apply(s, ReplayPublish(i)), |s.copies|;
    ReplayGrows(s, i);
    forall j | 0 <= j < |t.copies| ensures CopyOk(t, j) {
      if j == i {
        assert Successor(t, i, n);
      } else if j < n {
        CopyStays(s, t, j);
      }
    }
  }

  lemma ReplayStep(s: State, i: nat)
    requires Inv(s) && Enabled(s, ReplayPublish(i))
    ensures Inv(Apply(s, ReplayPublish(i)))
  {
    var t := Apply(s, ReplayPublish(i));
    ReplayGrows(s, i);
    ReplayOwners(s, i);
    ReplayCopies(s, i);
    RowsStay(s, t);
    DocsStay(s, t);
    AcceptedStays(s, t);
  }

  lemma StillCopies(s: State, t: State)
    requires CopiesOk(s) && OwnersOk(s) && AcceptedOk(s)
    requires Grows(s, t) && t.copies == s.copies && t.log == s.log && t.accepted == s.accepted
    ensures CopiesOk(t) && OwnersOk(t) && AcceptedOk(t)
  {
    forall j | 0 <= j < |t.copies| ensures CopyOk(t, j) { CopyStays(s, t, j); }
    forall r | r in t.log ensures OwnerOk(t, r) { assert OwnerOk(s, r); }
    AcceptedStays(s, t);
  }

  lemma HoldFollows(seen: Db, db: Db, batch: set<nat>, id: nat, hold: bool)
    requires Follows(seen, db, batch)
    ensures DbInv(SetHold(db, id, hold)) && Follows(seen, SetHold(db, id, hold), batch)
  {
    SetHoldKeepsInv(db, id, hold);
  }

  lemma HoldStep(s: State, id: nat, hold: bool)
    requires Inv(s)
    ensures Inv(Apply(s, Hold(id, hold)))
  {
    var t := Apply(s, Hold(id, hold));
    StillCopies(s, t);
    HoldFollows(s.seen, s.db, Ids(s.selected), id, hold);
    forall k | k in t.index ensures DocOk(t, k) { assert DocOk(s, k); }
    forall r | r in t.db.messages ensures RowLogged(t, r) { assert RowLogged(s, r); }
  }

  /** Dropping an index settles the rows filed in it and unsettles no other. */
  lemma DropGrows(s: State, cutoff: int, kept: set<int>)
    ensures Grows(s, Apply(s, DropIndices(cutoff, kept)))
  {
    var t := Apply(s, DropIndices(cutoff, kept));
    forall id | id in s.log && Settled(s, id) ensures Settled(t, id) {
      if Indexed(s, id) && !Indexed(t, id) {
        assert Day(s.log[id].signedAt) in DroppedDays(s.index, Day(cutoff), kept);
      }
    }
  }

  lemma DropStep(s: State, cutoff: int, kept: set<int>)
    requires Inv(s)
    ensures Inv(Apply(s, DropIndices(cutoff, kept)))
  {
    var t := Apply(s, DropIndices(cutoff, kept));
    DropGrows(s, cutoff, kept);
    StillCopies(s, t);
    forall k | k in t.index ensures DocOk(t, k) { assert DocOk(s, k); }
    forall r | r in t.db.messages ensures RowLogged(t, r) { assert RowLogged(s, r); }
  }

  ghost predicate OnlyPurges(s: State, t: State, gone: set<nat>) {
    t == s.(db := t.db, blobs := t.blobs, purged := s.purged + gone, selected := [], seen := EMPTY_DB)
  }

  lemma PurgedLog(s: State, t: State, gone: set<nat>)
    requires LogOk(s) && OnlyPurges(s, t, gone)
    requires t.db.messages == s.db.messages - gone && gone <= s.db.messages.Keys
    ensures LogOk(t)
  {
  }

  lemma NothingSelected(s: State)
    requires DbInv(s.db) && s.selected == [] && s.seen == EMPTY_DB
    ensures SelectionOk(s)
  {
    assert DbInv(EMPTY_DB);
  }

  lemma PurgedInv(s: State, t: State, gone: set<nat>)
    requires Inv(s) && OnlyPurges(s, t, gone)
    requires DbInv(t.db) && t.db.messages == s.db.messages - gone && gone <= s.db.messages.Keys
    ensures Inv(t)
  {
    PurgedLog(s, t, gone);
    NothingSelected(t);
    StillCopies(s, t);
    DocsStay(s, t);
  }

  lemma PurgeStep(s: State)
    requires Inv(s) && Enabled(s, Purge)
    ensures Inv(Apply(s, Purge))
  {
    PurgeSeenExact(s.db, s.seen, s.selected);
    PurgedInv(s, Apply(s, Purge), Ids(s.selected));
  }

  lemma JustSelected(db: Db, cutoff: int, batch: seq<nat>)
    requires DbInv(db) && IsBatch(db, cutoff, BATCH_LIMIT, batch)
    ensures Follows(db, db, Ids(batch)) && Ids(batch) <= db.messages.Keys
  {
  }

  lemma SelectStep(s: State, cutoff: int, batch: seq<nat>)
    requires Inv(s) && Enabled(s, Select(cutoff, batch))
    ensures Inv(Apply(s, Select(cutoff, batch)))
  {
    var t := Apply(s, Select(cutoff, batch));
    assert t == s.(selected := batch, seen := s.db);
    JustSelected(s.db, cutoff, batch);
    SelectionOnly(s, t);
  }

  lemma SelectionOnly(s: State, t: State)
    requires Inv(s) && t == s.(selected := t.selected, seen := t.seen) && SelectionOk(t)
    ensures Inv(t)
  {
    assert Grows(s, t);
    StillCopies(s, t);
    RowsStay(s, t);
    DocsStay(s, t);
  }

  lemma StepKeepsInv(s: State, st: Step)
    requires Inv(s) && Enabled(s, st)
    ensures Inv(Apply(s, st))
  {
    match st
    case Smtp(mail, limit, broker) => SmtpStep(s, mail, limit, broker);
    case Precheck(_) => WorkStep(s, st);
    case StoreBody(_) => WorkStep(s, st);
    case StoreAtt(_) => WorkStep(s, st);
    case Upsert(_) => WorkStep(s, st);
    case Lookup(_) => WorkStep(s, st);
    case TryCommit(i, id) =>
      if Transact(s.db, s.copies[i].mail, id, s.copies[i].loc.pc.signedAt).1.Committed? {
        CommitStep(s, i, id);
      } else {
        FailedCommitStep(s, i, id);
      }
    case WriteDoc(i) => WriteDocStep(s, i);
    case ReplayPublish(i) => ReplayStep(s, i);
    case Hold(id, hold) => HoldStep(s, id, hold);
    case DropIndices(cutoff, kept) => DropStep(s, cutoff, kept);
    case Select(cutoff, batch) => SelectStep(s, cutoff, batch);
    case Purge => PurgeStep(s);
    case _ => QueueStep(s, st);
  }

  lemma {:induction false} RunKeepsInv(s: State, steps: seq<Step>)
    requires Inv(s) && CanRun(s, steps)
    ensures Inv(Run(s, steps))
    decreases |steps|
  {
    if steps != [] {
      StepKeepsInv(s, steps[0]);
      RunKeepsInv(Apply(s, steps[0]), steps[1..]);
    }
  }

  lemma InitInv()
    ensures Inv(INIT)
  {
  }

  // ----- what it means --------------------------------------------------------

  /** In the main queue, with a worker, or in the dead-letter queue. */
  predicate Live(loc: Loc) { loc.Queued? || loc.InFlight? || loc.Dead? }

  ghost predicate HasLiveCopy(s: State, h: Hash) {
    exists i :: 0 <= i < |s.copies| && s.copies[i].mail.hash == h && Live(s.copies[i].loc)
  }

  ghost predicate Archived(s: State, h: Hash) {
    exists id | id in s.log :: s.log[id].mail.hash == h && Settled(s, id)
  }

  lemma {:induction false} CopyTraced(s: State, i: nat)
    requires Inv(s) && i < |s.copies|
    ensures HasLiveCopy(s, s.copies[i].mail.hash) || Archived(s, s.copies[i].mail.hash)
    decreases |s.copies| - i
  {
    assert CopyOk(s, i);
    match s.copies[i].loc
    case Acked(row) => assert Concerns(s, row, s.copies[i].mail);
    case Moved(to) => CopyTraced(s, to);
    case _ => assert Live(s.copies[i].loc);
  }

  /** Every run: a mail answered 250 still has a live copy, or a row was committed for
      it that is indexed, or whose index or whose row retention has since removed. */
  lemma AcceptedNeverLost(steps: seq<Step>, m: Mail)
    requires CanRun(INIT, steps) && m in Run(INIT, steps).accepted
    ensures HasLiveCopy(Run(INIT, steps), m.hash) || Archived(Run(INIT, steps), m.hash)
  {
    InitInv();
    RunKeepsInv(INIT, steps);
    var s := Run(INIT, steps);
    var i :| 0 <= i < |s.copies| && s.copies[i].mail == m;
    CopyTraced(s, i);
  }

  // ----- every accepted mail, copy by copy --------------------------------------

  /** The copy that a replayed copy lives on as. */
  function Final(s: State, i: nat): (j: nat)
    requires i < |s.copies|
    ensures i <= j < |s.copies|
    decreases |s.copies| - i
  {
    match s.copies[i].loc
    case Moved(to) => if i < to < |s.copies| then Final(s, to) else i
    case _ => i
  }

  lemma {:induction false} CopyEnds(s: State, i: nat)
    requires Inv(s) && i < |s.copies|
    ensures var j := Final(s, i);
            && s.copies[j].mail == s.copies[i].mail
            && (Live(s.copies[j].loc) || s.copies[j].loc.Acked?)
            && (s.copies[j].loc.Acked? ==>
                  Concerns(s, s.copies[j].loc.row, s.copies[j].mail) && Settled(s, s.copies[j].loc.row))
    decreases |s.copies| - i
  {
    assert CopyOk(s, i);
    if s.copies[i].loc.Moved? {
      CopyEnds(s, s.copies[i].loc.to);
    }
  }

  /** The row that a delivery has come to be about. */
  function AboutRow(loc: Loc): Option<nat> {
    match loc
    case InFlight(Violated(r)) => Some(r)
    case InFlight(Indexing(e)) => Some(e.id)
    case InFlight(Finished(r)) => Some(r)
    case Acked(r) => Some(r)
    case _ => None
  }

  ghost predicate NotAbout(s: State, i: nat, past: set<nat>)
    requires i < |s.copies|
  {
    AboutRow(s.copies[i].loc).Some? ==> AboutRow(s.copies[i].loc).value !in past
  }

  /** Copies from number `n` on have nothing to do with the rows `past`, purged before. */
  ghost predicate LaterCopies(s: State, n: nat, past: set<nat>) {
    past <= s.purged && forall i | n <= i < |s.copies| :: NotAbout(s, i, past)
  }

  lemma LaterOne(s: State, t: State, n: nat, past: set<nat>, i: nat)
    requires LaterCopies(s, n, past) && s.purged <= t.purged && i < |s.copies| == |t.copies|
    requires forall j | 0 <= j < |s.copies| && j != i :: t.copies[j] == s.copies[j]
    requires n <= i ==> NotAbout(t, i, past)
    ensures LaterCopies(t, n, past)
  {
    forall j | n <= j < |t.copies| ensures NotAbout(t, j, past) {
      assert NotAbout(s, j, past);
    }
  }

  lemma NamedIsNew(s: State, past: set<nat>, h: Hash)
    requires DbInv(s.db) && LogOk(s) && past <= s.purged
    ensures h in s.db.dedup ==> s.db.dedup[h].id !in past
  {
    if h in s.db.dedup {
      NamedRow(s, h);
    }
  }

  lemma LaterCommit(s: State, n: nat, past: set<nat>, i: nat, id: nat)
    requires DbInv(s.db) && LogOk(s) && LaterCopies(s, n, past) && Enabled(s, TryCommit(i, id))
    ensures LaterCopies(Apply(s, TryCommit(i, id)), n, past)
  {
    var t := Apply(s, TryCommit(i, id));
    NamedIsNew(s, past, s.copies[i].mail.hash);
    assert id !in past;
    LaterOne(s, t, n, past, i);
  }

  /** Steps after which a delivery is about the row it was about, if any. */
  lemma LaterMove(s: State, n: nat, past: set<nat>, st: Step)
    requires LaterCopies(s, n, past) && Enabled(s, st)
    requires st.Deliver? || st.StoreBody? || st.StoreAtt? || st.Upsert? || st.WriteDoc? || st.Ack? || st.Requeue?
             || st.Fail? || st.ReplayAck? || st.ReplayAbort?
    ensures LaterCopies(Apply(s, st), n, past)
  {
    if n <= st.i { assert NotAbout(s, st.i, past); }
    LaterOne(s, Apply(s, st), n, past, st.i);
  }

  lemma LaterLookup(s: State, n: nat, past: set<nat>, st: Step)
    requires DbInv(s.db) && LogOk(s) && LaterCopies(s, n, past) && Enabled(s, st) && (st.Precheck? || st.Lookup?)
    ensures LaterCopies(Apply(s, st), n, past)
  {
    NamedIsNew(s, past, s.copies[st.i].mail.hash);
    if n <= st.i { assert NotAbout(s, st.i, past); }
    LaterOne(s, Apply(s, st), n, past, st.i);
  }

  lemma LaterPublish(s: State, n: nat, past: set<nat>, st: Step)
    requires LaterCopies(s, n, past) && Enabled(s, st) && (st.Smtp? || st.ReplayPublish?)
    ensures LaterCopies(Apply(s, st), n, past)
  {
    var t := Apply(s, st);
    forall j | n <= j < |t.copies| ensures NotAbout(t, j, past) {
      if j < |s.copies| { assert NotAbout(s, j, past); }
    }
  }

  lemma LaterOther(s: State, n: nat, past: set<nat>, st: Step)
    requires LaterCopies(s, n, past) && Enabled(s, st)
    requires st.Hold? || st.DropIndices? || st.Select? || st.Purge?
    ensures LaterCopies(Apply(s, st), n, past)
  {
    var t := Apply(s, st);
    assert t.copies == s.copies && s.purged <= t.purged;
    forall j | n <= j < |t.copies| ensures NotAbout(t, j, past) { assert NotAbout(s, j, past); }
  }

  lemma LaterStep(s: State, n: nat, past: set<nat>, st: Step)
    requires DbInv(s.db) && LogOk(s) && LaterCopies(s, n, past) && Enabled(s, st)
    ensures LaterCopies(Apply(s, st), n, past)
  {
    match st
    case TryCommit(i, id) => LaterCommit(s, n, past, i, id);
    case Precheck(_) => LaterLookup(s, n, past, st);
    case Lookup(_) => LaterLookup(s, n, past, st);
    case Smtp(_, _, _) => LaterPublish(s, n, past, st);
    case ReplayPublish(_) => LaterPublish(s, n, past, st);
    case Hold(_, _) => LaterOther(s, n, past, st);
    case DropIndices(_, _) => LaterOther(s, n, past, st);
    case Select(_, _) => LaterOther(s, n, past, st);
    case Purge => LaterOther(s, n, past, st);
    case _ => LaterMove(s, n, past, st);
  }

  lemma {:induction false} LaterRun(s: State, n: nat, past: set<nat>, steps: seq<Step>)
    requires Inv(s) && LaterCopies(s, n, past) && CanRun(s, steps)
    ensures LaterCopies(Run(s, steps), n, past)
    decreases |steps|
  {
    if steps != [] {
      StepKeepsInv(s, steps[0]);
      LaterStep(s, n, past, steps[0]);
      LaterRun(Apply(s, steps[0]), n, past, steps[1..]);
    }
  }

  lemma PublishedAt(s: State, mail: Mail, limit: nat, broker: PublishOutcome)
    requires Answer(mail, limit, broker) == R250
    ensures Apply(s, Smtp(mail, limit, broker)).copies == s.copies + [Copy(mail, false, Queued)]
    ensures Apply(s, Smtp(mail, limit, broker)).purged == s.purged
    ensures Apply(s, Smtp(mail, limit, broker)).accepted == s.accepted + {mail}
  {
  }

  /** A mail answered 250 at any point of any run, and anything that follows: its copy
      leads, through its replays, to a live copy or to one acknowledged for a row of this
      mail whose document is written or whose index or row retention has removed. That
      row was not purged before the mail was accepted. */
  lemma AcceptedCopyNeverLost(before: seq<Step>, mail: Mail, limit: nat, broker: PublishOutcome, after: seq<Step>)
    requires CanRun(INIT, before) && Answer(mail, limit, broker) == R250
    requires CanRun(Apply(Run(INIT, before), Smtp(mail, limit, broker)), after)
    ensures var s, t := Run(INIT, before), Run(Apply(Run(INIT, before), Smtp(mail, limit, broker)), after);
            && mail in t.accepted && |s.copies| < |t.copies|
            && var c := t.copies[Final(t, |s.copies|)];
            && c.mail == mail && (Live(c.loc) || c.loc.Acked?)
            && (c.loc.Acked? ==> Concerns(t, c.loc.row, mail) && Settled(t, c.loc.row) && c.loc.row !in s.purged)
  {
    InitInv();
    RunKeepsInv(INIT, before);
    var s := Run(INIT, before);
    var u := Apply(s, Smtp(mail, limit, broker));
    StepKeepsInv(s, Smtp(mail, limit, broker));
    PublishedAt(s, mail, limit, broker);
    AcceptedOnlyGrow(u, after);
    CopyLeadsOn(u, |s.copies|, s.purged, after);
  }

  lemma AcceptedStep(s: State, st: Step)
    requires Enabled(s, st)
    ensures s.accepted <= Apply(s, st).accepted
  {
  }

  lemma {:induction false} AcceptedOnlyGrow(s: State, steps: seq<Step>)
    requires CanRun(s, steps)
    ensures s.accepted <= Run(s, steps).accepted
    decreases |steps|
  {
    if steps != [] {
      AcceptedStep(s, steps[0]);
      AcceptedOnlyGrow(Apply(s, steps[0]), steps[1..]);
    }
  }

  lemma CopyLeadsOn(s: State, i: nat, past: set<nat>, steps: seq<Step>)
    requires Inv(s) && i < |s.copies| && LaterCopies(s, i, past) && CanRun(s, steps)
    ensures var t := Run(s, steps);
            && i < |t.copies|
            && var c := t.copies[Final(t, i)];
            && c.mail == s.copies[i].mail && (Live(c.loc) || c.loc.Acked?)
            && (c.loc.Acked? ==> Concerns(t, c.loc.row, c.mail) && Settled(t, c.loc.row) && c.loc.row !in past)
  {
    RunKeepsInv(s, steps);
    LaterRun(s, i, past, steps);
    CopiesOnlyGrow(s, steps);
    var t := Run(s, steps);
    CopyEnds(t, i);
    assert NotAbout(t, Final(t, i), past);
  }

  ghost predicate MailsKept(s: State, t: State) {
    |s.copies| <= |t.copies| && forall i | 0 <= i < |s.copies| :: t.copies[i].mail == s.copies[i].mail
  }

  lemma WorkKeepsMails(s: State, st: Step)
    requires Enabled(s, st)
    requires st.Precheck? || st.StoreBody? || st.StoreAtt? || st.Upsert? || st.TryCommit? || st.Lookup? || st.WriteDoc?
    ensures MailsKept(s, Apply(s, st))
  {
  }

  lemma QueueKeepsMails(s: State, st: Step)
    requires Enabled(s, st)
    requires st.Smtp? || st.Deliver? || st.Ack? || st.Requeue? || st.Fail? || st.ReplayPublish? || st.ReplayAck?
             || st.ReplayAbort?
    ensures MailsKept(s, Apply(s, st))
  {
  }

  lemma MailsStay(s: State, st: Step)
    requires Enabled(s, st)
    ensures MailsKept(s, Apply(s, st))
  {
    match st
    case Hold(_, _) =>
    case DropIndices(_, _) =>
    case Select(_, _) =>
    case Purge =>
    case Precheck(_) => WorkKeepsMails(s, st);
    case StoreBody(_) => WorkKeepsMails(s, st);
    case StoreAtt(_) => WorkKeepsMails(s, st);
    case Upsert(_) => WorkKeepsMails(s, st);
    case TryCommit(_, _) => WorkKeepsMails(s, st);
    case Lookup(_) => WorkKeepsMails(s, st);
    case WriteDoc(_) => WorkKeepsMails(s, st);
    case _ => QueueKeepsMails(s, st);
  }

  lemma {:induction false} CopiesOnlyGrow(s: State, steps: seq<Step>)
    requires CanRun(s, steps)
    ensures |s.copies| <= |Run(s, steps).copies|
    ensures forall i | 0 <= i < |s.copies| :: Run(s, steps).copies[i].mail == s.copies[i].mail
    decreases |steps|
  {
    if steps != [] {
      MailsStay(s, steps[0]);
      CopiesOnlyGrow(Apply(s, steps[0]), steps[1..]);
    }
  }

  /** Every run: an archived message that the index misses has a live copy of the same
      mail that is bound to write its document, unless retention dropped that index. */
  lemma MissingDocumentHeals(steps: seq<Step>, id: nat)
    requires CanRun(INIT, steps) && id in Run(INIT, steps).db.messages
    ensures var s := Run(INIT, steps);
            && id in s.log
            && (Indexed(s, id) || IndexDropped(s, id)
                || exists i :: 0 <= i < |s.copies| && s.copies[i].mail == s.log[id].mail
                               && Live(s.copies[i].loc) && Heals(s, s.copies[i].loc, id))
  {
    InitInv();
    RunKeepsInv(INIT, steps);
    var s := Run(INIT, steps);
    assert RowLogged(s, id);
    assert OwnerOk(s, id);
    var i := s.log[id].owner;
    if Heals(s, s.copies[i].loc, id) {
      assert Live(s.copies[i].loc);
    }
  }

  /** Every run: one search document at most for a message, filed under the day the
      message was signed; re-indexing a duplicate overwrites the original document. */
  lemma OneDocumentPerMessage(steps: seq<Step>, k1: DocKey, k2: DocKey)
    requires CanRun(INIT, steps)
    requires k1 in Run(INIT, steps).index && k2 in Run(INIT, steps).index && k1.id == k2.id
    ensures k1 == k2
    ensures k1.id in Run(INIT, steps).db.messages ==>
              k1.day == Day(Run(INIT, steps).db.messages[k1.id].signedAt)
  {
    InitInv();
    RunKeepsInv(INIT, steps);
    var s := Run(INIT, steps);
    assert DocOk(s, k1) && DocOk(s, k2);
    if k1.id in s.db.messages {
      assert RowLogged(s, k1.id);
    }
  }

  // ----- without retention ------------------------------------------------------

  predicate NoRetention(steps: seq<Step>) {
    forall st | st in steps :: !st.Purge? && !st.DropIndices?
  }

  lemma {:induction false} RetentionFree(s: State, steps: seq<Step>)
    requires CanRun(s, steps) && NoRetention(steps)
    ensures Run(s, steps).purged == s.purged && Run(s, steps).dropped == s.dropped
    decreases |steps|
  {
    if steps != [] {
      assert steps[0] in steps;
      RetentionFree(Apply(s, steps[0]), steps[1..]);
    }
  }

  /** With retention idle: committed and in the index, or a live copy is left. */
  lemma AcceptedIsFoundOrLive(steps: seq<Step>, m: Mail)
    requires CanRun(INIT, steps) && NoRetention(steps) && m in Run(INIT, steps).accepted
    ensures var s := Run(INIT, steps);
            || HasLiveCopy(s, m.hash)
            || (m.hash in s.db.dedup && KeyOf(s.db.dedup[m.hash]) in s.index)
  {
    AcceptedNeverLost(steps, m);
    RetentionFree(INIT, steps);
    InitInv();
    RunKeepsInv(INIT, steps);
    var s := Run(INIT, steps);
    if Archived(s, m.hash) {
      var id :| id in s.log && s.log[id].mail.hash == m.hash && Settled(s, id);
      CurrentRow(s, id);
    }
  }

  /** Every run: the lookup after a unique violation finds the row that won the race,
      exactly unless retention has purged that row in between. */
  lemma LookupFindsWinner(steps: seq<Step>, i: nat)
    requires CanRun(INIT, steps) && Enabled(Run(INIT, steps), Lookup(i))
    ensures var s := Run(INIT, steps);
            var h, rival := s.copies[i].mail.hash, s.copies[i].loc.pc.rival;
            (h in s.db.dedup && s.db.dedup[h].id == rival) <==> rival !in s.purged
  {
    InitInv();
    RunKeepsInv(INIT, steps);
    var s := Run(INIT, steps);
    assert CopyOk(s, i);
    if s.copies[i].loc.pc.rival !in s.purged {
      CurrentRow(s, s.copies[i].loc.pc.rival);
    }
  }
}
