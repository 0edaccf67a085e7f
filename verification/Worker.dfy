/** `Store.ArchiveStore.Process` and `RunRetention` are what the protocol's steps do when
    nothing comes in between. */
module Worker {
  import opened Wrappers
  import opened Catalog
  import opened Store
  import opened Protocol

  /** The state after one undisturbed call of `process` for the delivery `i`. */
  ghost predicate Processed(s: State, i: nat, t: State, db: Db, blobs: Blobs, e: Entry)
    requires i < |s.copies|
  {
    && t.db == db && t.blobs == blobs
    && t.index == PutDoc(s.index, e, s.copies[i].mail)
    && t.copies == s.copies[i := s.copies[i].(loc := InFlight(Finished(e.id)))]
  }

  lemma DuplicateAlone(s: State, i: nat)
    requires Enabled(s, Precheck(i)) && s.copies[i].mail.hash in s.db.dedup
    ensures CanRun(s, [Precheck(i), WriteDoc(i)])
    ensures Processed(s, i, Run(s, [Precheck(i), WriteDoc(i)]), s.db, s.blobs, s.db.dedup[s.copies[i].mail.hash])
  {
    var t := Apply(s, Precheck(i));
    RunCons(t, WriteDoc(i), []);
    RunCons(s, Precheck(i), [WriteDoc(i)]);
    assert [WriteDoc(i)] + [] == [WriteDoc(i)];
    assert [Precheck(i)] + [WriteDoc(i)] == [Precheck(i), WriteDoc(i)];
  }

  /** The loser of the unique-key race changes no table and ends by writing the document
      of the winner's row. */
  lemma RaceLostAlone(s: State, i: nat, id: nat)
    requires Enabled(s, TryCommit(i, id)) && Distinct(s.copies[i].mail.atts) && s.copies[i].mail.hash in s.db.dedup
    ensures var steps := [TryCommit(i, id), Lookup(i), WriteDoc(i)];
            && CanRun(s, steps)
            && Processed(s, i, Run(s, steps), s.db, s.blobs, s.db.dedup[s.copies[i].mail.hash])
  {
    ThreeSteps(s, TryCommit(i, id), Lookup(i), WriteDoc(i));
  }

  /** An upload under way: at most the last content stored is not upserted yet. */
  predicate Uploading(s: State, i: nat) {
    && Flying(s, i) && s.copies[i].loc.pc.Storing?
    && s.copies[i].loc.pc.rows <= s.copies[i].loc.pc.put <= s.copies[i].loc.pc.rows + 1
    && s.copies[i].loc.pc.put <= |s.copies[i].mail.atts|
  }

  /** The same upload with `n` contents stored and upserted. */
  function UploadedTo(s: State, i: nat, n: nat): State
    requires Uploading(s, i) && s.copies[i].loc.pc.put <= n <= |s.copies[i].mail.atts|
  {
    var c := s.copies[i];
    Move(s, i, InFlight(Storing(c.loc.pc.signedAt, n, n))).(blobs := PutAll(s.blobs, c.mail.atts[c.loc.pc.put..n]))
  }

  lemma UploadOneMore(s: State, i: nat, n: nat)
    requires Uploading(s, i) && s.copies[i].loc.pc.put < n <= |s.copies[i].mail.atts|
    ensures Enabled(UploadedTo(s, i, n - 1), StoreAtt(i))
    ensures Enabled(Apply(UploadedTo(s, i, n - 1), StoreAtt(i)), Upsert(i))
    ensures Apply(Apply(UploadedTo(s, i, n - 1), StoreAtt(i)), Upsert(i)) == UploadedTo(s, i, n)
  {
    var c := s.copies[i];
    var part := c.mail.atts[c.loc.pc.put..n];
    assert part[..|part| - 1] == c.mail.atts[c.loc.pc.put..n - 1] && part[|part| - 1] == c.mail.atts[n - 1];
  }

  lemma UploadLastRow(s: State, i: nat) returns (steps: seq<Step>)
    requires Uploading(s, i)
    ensures CanRun(s, steps) && Purge !in steps && Run(s, steps) == UploadedTo(s, i, s.copies[i].loc.pc.put)
  {
    var pc := s.copies[i].loc.pc;
    assert s.copies[i].mail.atts[pc.put..pc.put] == [];
    if pc.rows == pc.put {
      steps := [];
      assert s.copies == s.copies[i := s.copies[i]];
    } else {
      RunSnoc(s, [], Upsert(i));
      steps := [] + [Upsert(i)];
    }
  }

  lemma RunSnocTwo(s: State, before: seq<Step>, a: Step, b: Step) returns (steps: seq<Step>)
    requires CanRun(s, before) && Enabled(Run(s, before), a) && Enabled(Apply(Run(s, before), a), b)
    ensures steps == before + [a] + [b]
    ensures CanRun(s, steps) && Run(s, steps) == Apply(Apply(Run(s, before), a), b)
  {
    RunSnoc(s, before, a);
    RunSnoc(s, before + [a], b);
    steps := before + [a] + [b];
  }

  /** An upload under way can always be carried on, up to attachment `n`. */
  lemma {:induction false} UploadTo(s: State, i: nat, n: nat) returns (steps: seq<Step>)
    requires Uploading(s, i) && s.copies[i].loc.pc.put <= n <= |s.copies[i].mail.atts|
    ensures CanRun(s, steps) && Purge !in steps
    ensures Run(s, steps) == UploadedTo(s, i, n)
  {
    if n == s.copies[i].loc.pc.put {
      steps := UploadLastRow(s, i);
    } else {
      var before := UploadTo(s, i, n - 1);
      steps := UploadNext(s, i, n, before);
    }
  }

  lemma UploadNext(s: State, i: nat, n: nat, before: seq<Step>) returns (steps: seq<Step>)
    requires Uploading(s, i) && s.copies[i].loc.pc.put < n <= |s.copies[i].mail.atts|
    requires CanRun(s, before) && Purge !in before && Run(s, before) == UploadedTo(s, i, n - 1)
    ensures CanRun(s, steps) && Purge !in steps && Run(s, steps) == UploadedTo(s, i, n)
  {
    UploadOneMore(s, i, n);
    steps := RunSnocTwo(s, before, StoreAtt(i), Upsert(i));
  }

  lemma FinishUpload(s: State, i: nat) returns (steps: seq<Step>)
    requires Uploading(s, i)
    ensures CanRun(s, steps) && Purge !in steps
    ensures var c := s.copies[i];
            Run(s, steps) == Move(s, i, InFlight(Storing(c.loc.pc.signedAt, |c.mail.atts|, |c.mail.atts|)))
                             .(blobs := PutAll(s.blobs, c.mail.atts[c.loc.pc.put..]))
  {
    var c := s.copies[i];
    steps := UploadTo(s, i, |c.mail.atts|);
    assert c.mail.atts[c.loc.pc.put..|c.mail.atts|] == c.mail.atts[c.loc.pc.put..];
  }

  /** From the lookup to the last attachment. */
  lemma StoreAlone(s: State, i: nat) returns (steps: seq<Step>)
    requires Enabled(s, Precheck(i)) && s.copies[i].mail.hash !in s.db.dedup
    ensures CanRun(s, steps)
    ensures var c := s.copies[i];
            Run(s, steps) == Move(s, i, InFlight(Storing(c.loc.pc.signedAt, |c.mail.atts|, |c.mail.atts|)))
                             .(blobs := PutAll(PutBody(s.blobs, c.mail), c.mail.atts))
  {
    RunSnoc(s, [], Precheck(i));
    RunSnoc(s, [] + [Precheck(i)], StoreBody(i));
    var begun := [] + [Precheck(i)] + [StoreBody(i)];
    var t := Run(s, begun);
    var rest := FinishUpload(t, i);
    assert t.copies[i].mail.atts[0..] == s.copies[i].mail.atts;
    RunConcat(s, begun, rest);
    steps := begun + rest;
  }

  /** A new mail: the steps end where `Process` ends when its lookup found nothing. */
  lemma NewMailAlone(s: State, i: nat, id: nat) returns (steps: seq<Step>)
    requires Enabled(s, Precheck(i)) && id !in s.log
    requires s.copies[i].mail.hash !in s.db.dedup && Distinct(s.copies[i].mail.atts)
    ensures CanRun(s, steps)
    ensures var c := s.copies[i];
            Processed(s, i, Run(s, steps),
                      Transact(s.db, c.mail, id, c.loc.pc.signedAt).0,
                      PutAll(PutBody(s.blobs, c.mail), c.mail.atts),
                      Entry(id, c.loc.pc.signedAt))
  {
    var before := StoreAlone(s, i);
    RunSnoc(s, before, TryCommit(i, id));
    RunSnoc(s, before + [TryCommit(i, id)], WriteDoc(i));
    steps := before + [TryCommit(i, id)] + [WriteDoc(i)];
  }

  /** From queue to acknowledgement, in plain terms: what the tables, the bucket and the
      index gain, and where the copy ends. */
  lemma DeliveredMailIsArchived(s: State, i: nat, now: int, id: nat) returns (steps: seq<Step>)
    requires i < |s.copies| && s.copies[i].loc.Queued? && id !in s.log
    requires s.copies[i].mail.hash !in s.db.dedup && Distinct(s.copies[i].mail.atts)
    ensures CanRun(s, steps)
    ensures var t, m := Run(s, steps), s.copies[i].mail;
            && ArchivedAs(s.db, t.db, m, id, now) && StoredAs(s.blobs, t.blobs, m)
            && t.index == s.index[DocKey(now / 86400, id) := Doc(id, now, m)]
            && t.copies == s.copies[i := s.copies[i].(loc := Acked(id))]
  {
    InsertArchives(s.db, s.copies[i].mail, id, now);
    PutsStore(s.blobs, s.copies[i].mail);
    steps := DeliveredAlone(s, i, now, id);
  }

  lemma DeliveredAlone(s: State, i: nat, now: int, id: nat) returns (steps: seq<Step>)
    requires i < |s.copies| && s.copies[i].loc.Queued? && id !in s.log
    requires s.copies[i].mail.hash !in s.db.dedup && Distinct(s.copies[i].mail.atts)
    ensures CanRun(s, steps)
    ensures var t, m := Run(s, steps), s.copies[i].mail;
            && t.db == Insert(s.db, m, id, now) && t.blobs == PutAll(PutBody(s.blobs, m), m.atts)
            && t.index == PutDoc(s.index, Entry(id, now), m)
            && t.copies == s.copies[i := s.copies[i].(loc := Acked(id))]
  {
    var t := Apply(s, Deliver(i, now));
    var rest := NewMailAlone(t, i, id);
    RunCons(s, Deliver(i, now), rest);
    RunSnoc(s, [Deliver(i, now)] + rest, Ack(i));
    steps := [Deliver(i, now)] + rest + [Ack(i)];
  }

  /** The same for a mail that is archived already: only its document is written again,
      under the id and day of the row there is. */
  lemma DeliveredDuplicateIsIndexed(s: State, i: nat, now: int)
    requires i < |s.copies| && s.copies[i].loc.Queued? && s.copies[i].mail.hash in s.db.dedup
    ensures var steps := [Deliver(i, now), Precheck(i), WriteDoc(i)] + [Ack(i)];
            && CanRun(s, steps)
            && var t, m := Run(s, steps), s.copies[i].mail;
            var e := s.db.dedup[m.hash];
            && t.db == s.db && t.blobs == s.blobs
            && t.index == s.index[DocKey(e.signedAt / 86400, e.id) := Doc(e.id, e.signedAt, m)]
            && t.copies == s.copies[i := s.copies[i].(loc := Acked(e.id))]
  {
    ThreeSteps(s, Deliver(i, now), Precheck(i), WriteDoc(i));
    RunSnoc(s, [Deliver(i, now), Precheck(i), WriteDoc(i)], Ack(i));
  }

  /** A first failure brings the copy back, marked; a second one makes it a dead letter. */
  lemma FailureIsRetriedOnce(s: State, i: nat, now: int)
    requires i < |s.copies| && s.copies[i].loc.Queued?
    ensures var steps := [] + [Deliver(i, now)] + [Fail(i)];
            && CanRun(s, steps)
            && var t := Run(s, steps);
            && t.db == s.db && t.blobs == s.blobs && t.index == s.index
            && t.copies == s.copies[i := if s.copies[i].redelivered then s.copies[i].(loc := Dead(None))
                                         else s.copies[i].(redelivered := true)]
  {
    RunSnoc(s, [], Deliver(i, now));
    RunSnoc(s, [] + [Deliver(i, now)], Fail(i));
  }

  function RetentionSteps(cutoff: int, kept: set<int>, batch: seq<nat>): seq<Step> {
    [DropIndices(cutoff, kept), Select(cutoff, batch), Purge]
  }

  lemma RetentionRuns(s: State, cutoff: int, kept: set<int>, batch: seq<nat>)
    requires DbInv(s.db) && IsBatch(s.db, cutoff, BATCH_LIMIT, batch) && Unlocked(s, batch)
    ensures CanRun(s, RetentionSteps(cutoff, kept, batch))
    ensures var t := Run(s, RetentionSteps(cutoff, kept, batch));
            && t.db == PurgeAll(s.db, batch) && t.blobs == s.blobs - FreedAll(s.db, batch)
            && t.index == DropBefore(s.index, Day(cutoff), kept) && t.copies == s.copies
  {
    var t := Apply(s, DropIndices(cutoff, kept));
    var u := Apply(t, Select(cutoff, batch));
    SeenUndisturbed(s.db, batch);
    assert u.db == s.db && u.seen == s.db && u.selected == batch && u.copies == s.copies;
    ThreeSteps(s, DropIndices(cutoff, kept), Select(cutoff, batch), Purge);
  }

  /** An undisturbed retention run: the three protocol steps do what `RunRetention` does.
      The document of a purged message survives exactly when it is filed under the cutoff
      day or under a day whose index could not be deleted. */
  lemma RetentionAlone(s: State, cutoff: int, kept: set<int>, batch: seq<nat>)
    requires DbInv(s.db) && IsBatch(s.db, cutoff, BATCH_LIMIT, batch) && Unlocked(s, batch)
    ensures CanRun(s, RetentionSteps(cutoff, kept, batch))
    ensures var t := Run(s, RetentionSteps(cutoff, kept, batch));
            && RowsPurged(s.db, Ids(batch), t.db) && ContentsPurged(s.db, Ids(batch), t.db)
            && (exists freed :: KeysFreed(s.db, Ids(batch), freed) && t.blobs == s.blobs - freed)
            && (forall k :: k in t.index <==> k in s.index && (k.day >= Day(cutoff) || k.day in kept))
            && (forall k | k in t.index :: t.index[k] == s.index[k])
            && (forall id | id in batch && id in s.db.messages ::
                  var k := DocKey(Day(s.db.messages[id].signedAt), id);
                  k in t.index <==> k in s.index && (k.day == Day(cutoff) || k.day in kept))
            && t.copies == s.copies
  {
    RetentionRuns(s, cutoff, kept, batch);
    PurgeAllExact(s.db, batch);
    assert KeysFreed(s.db, Ids(batch), FreedAll(s.db, batch));
    forall id | id in batch ensures id in s.db.messages && s.db.messages[id].signedAt < cutoff {
      assert id in Ids(batch);
    }
  }

  // ----- waiting for the locks -------------------------------------------------------

  predicate Open(c: Copy) { c.loc.InFlight? && c.loc.pc.Storing? }

  /** The transactions among the first `n` deliveries can roll back: their copies come back
      to the queue, nothing else changes. */
  lemma {:induction false} RollBack(s: State, n: nat) returns (steps: seq<Step>)
    requires n <= |s.copies|
    ensures CanRun(s, steps) && forall st | st in steps :: st.Requeue?
    ensures var t := Run(s, steps);
            && t == s.(copies := t.copies, requeues := t.requeues) && |t.copies| == |s.copies|
            && (forall i | 0 <= i < |s.copies| && Open(s.copies[i]) && i < n :: t.copies[i].loc.Queued?)
            && (forall i | 0 <= i < |s.copies| && !(Open(s.copies[i]) && i < n) :: t.copies[i] == s.copies[i])
  {
    if n == 0 {
      steps := [];
    } else {
      steps := RollBack(s, n - 1);
      if Open(s.copies[n - 1]) {
        RunSnoc(s, steps, Requeue(n - 1));
        steps := steps + [Requeue(n - 1)];
      }
    }
  }

  /** So a purge that waits for row locks can always come to its turn, with the tables as
      they are and every delivery without an open transaction where it is. */
  lemma PurgeComes(s: State) returns (steps: seq<Step>)
    ensures CanRun(s, steps) && forall st | st in steps :: st.Requeue? || st.Purge?
    ensures var t := Run(s, steps);
            && t.db == PurgeSeen(s.db, s.seen, s.selected) && t.index == s.index && |t.copies| == |s.copies|
            && (forall i | 0 <= i < |s.copies| && !Open(s.copies[i]) :: t.copies[i] == s.copies[i])
  {
    var before := RollBack(s, |s.copies|);
    RunSnoc(s, before, Purge);
    steps := before + [Purge];
  }
}
