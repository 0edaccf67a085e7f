/** What retention and the workers leave behind when they interleave: search documents of
    purged messages, and mails acknowledged without a row. */
module Documents {
  import opened Catalog
  import opened Store
  import opened Protocol
  import opened Conservation
  import opened Frames
  import opened Worker

  // ----- documents of purged messages ------------------------------------------------

  /** Some step of the run writes the document `k`. */
  ghost predicate Writes(s: State, steps: seq<Step>, k: DocKey)
    requires CanRun(s, steps)
    decreases |steps|
  {
    steps != [] &&
    ((steps[0].WriteDoc? && KeyOf(s.copies[steps[0].i].loc.pc.entry) == k)
     || Writes(Apply(s, steps[0]), steps[1..], k))
  }

  predicate KeepsIndices(steps: seq<Step>) {
    forall st | st in steps :: !st.DropIndices?
  }

  lemma {:induction false} DocumentStays(s: State, steps: seq<Step>, k: DocKey)
    requires CanRun(s, steps) && KeepsIndices(steps)
    ensures k in Run(s, steps).index <==> k in s.index || Writes(s, steps, k)
    decreases |steps|
  {
    if steps != [] {
      assert steps[0] in steps;
      OtherStepsKeepIndex(s, steps[0]);
      DocumentStays(Apply(s, steps[0]), steps[1..], k);
    }
  }

  /** A message past the cutoff, and any run up to and beyond its purge after the indices
      were dropped: its document is in the search index exactly when it was there before
      and is filed under the cutoff day or under a day whose index could not be deleted,
      or when a worker has written it since. */
  lemma DocumentSurvivesExactly(s: State, cutoff: int, kept: set<int>, steps: seq<Step>, id: nat)
    requires id in s.log && s.log[id].signedAt < cutoff
    requires CanRun(Apply(s, DropIndices(cutoff, kept)), steps) && KeepsIndices(steps)
    ensures var t, k := Apply(s, DropIndices(cutoff, kept)), KeyOf(Entry(id, s.log[id].signedAt));
            k in Run(t, steps).index <==>
            (Indexed(s, id) && (k.day == Day(cutoff) || k.day in kept)) || Writes(t, steps, k)
  {
    DocumentStays(Apply(s, DropIndices(cutoff, kept)), steps, KeyOf(Entry(id, s.log[id].signedAt)));
  }

  /** A duplicate that is about to be indexed again when retention drops the indices puts
      the document back, of whatever day, just before its row is purged. */
  lemma LateWriteRemains(s: State, i: nat, cutoff: int, batch: seq<nat>) returns (steps: seq<Step>)
    requires Inv(s) && Enabled(s, WriteDoc(i)) && IsBatch(s.db, cutoff, BATCH_LIMIT, batch)
    requires s.copies[i].loc.pc.entry.id in batch
    ensures var t := Apply(s, DropIndices(cutoff, {}));
            && CanRun(t, steps)
            && KeyOf(s.copies[i].loc.pc.entry) in Run(t, steps).index
            && s.copies[i].loc.pc.entry.id !in Run(t, steps).db.messages
  {
    var t := Apply(s, DropIndices(cutoff, {}));
    var u := Apply(t, WriteDoc(i));
    assert u.db == s.db && KeyOf(s.copies[i].loc.pc.entry) in u.index;
    var v := Apply(u, Select(cutoff, batch));
    BatchGoes(s.db, batch, s.copies[i].loc.pc.entry.id);
    var more := PurgeComes(v);
    RunCons(u, Select(cutoff, batch), more);
    RunCons(t, WriteDoc(i), [Select(cutoff, batch)] + more);
    steps := [WriteDoc(i)] + ([Select(cutoff, batch)] + more);
  }

  lemma BatchGoes(db: Db, batch: seq<nat>, id: nat)
    requires DbInv(db) && id in batch
    ensures id !in PurgeSeen(db, db, batch).messages
  {
    SeenUndisturbed(db, batch);
    PurgeAllExact(db, batch);
    assert id in Ids(batch);
  }

  // ----- a lookup that misses ----------------------------------------------------------

  lemma MissAcks(s: State, i: nat)
    requires Enabled(s, Lookup(i)) && s.copies[i].mail.hash !in s.db.dedup
    ensures Enabled(Apply(s, Lookup(i)), Ack(i))
    ensures Apply(Apply(s, Lookup(i)), Ack(i)) == Move(s, i, Acked(s.copies[i].loc.pc.rival))
  {
  }

  lemma RivalIsNamed(s: State, i: nat)
    requires Inv(s) && Enabled(s, Lookup(i)) && s.copies[i].loc.pc.rival in s.selected
    ensures s.copies[i].mail.hash in s.db.dedup && s.db.dedup[s.copies[i].mail.hash].id in s.selected
  {
    var r := s.copies[i].loc.pc.rival;
    assert CopyOk(s, i) && r in Ids(s.selected);
    assert RowLogged(s, r);
    CurrentRow(s, r);
  }

  /** When the winner of the race is in a selected batch, the loser can find nothing and
      is acknowledged: the mail then has neither row nor document from this delivery. */
  lemma MissedLookup(s: State, i: nat) returns (steps: seq<Step>)
    requires Inv(s) && Enabled(s, Lookup(i)) && s.copies[i].loc.pc.rival in s.selected
    ensures CanRun(s, steps)
    ensures var t := Run(s, steps);
            && |t.copies| == |s.copies| && t.copies[i] == s.copies[i].(loc := Acked(s.copies[i].loc.pc.rival))
            && s.copies[i].mail.hash !in t.db.dedup && t.index == s.index
  {
    RivalIsNamed(s, i);
    WinnerPurged(s, s.copies[i].mail.hash);
    var before := PurgeComes(s);
    var u := Run(s, before);
    MissAcks(u, i);
    RunSnoc(s, before, Lookup(i));
    RunSnoc(s, before + [Lookup(i)], Ack(i));
    steps := before + [Lookup(i)] + [Ack(i)];
  }

  lemma WinnerPurged(s: State, h: Hash)
    requires SelectionOk(s) && h in s.db.dedup && s.db.dedup[h].id in s.selected
    ensures h !in PurgeSeen(s.db, s.seen, s.selected).dedup
  {
    PurgeSeenExact(s.db, s.seen, s.selected);
    assert s.db.dedup[h].id in Ids(s.selected);
  }

  const TWICE := Mail("a", "mail", 1, [])

  /** A copy of a mail without attachments, up to the moment before its commit. */
  lemma UploadPlain(s0: State, before: seq<Step>) returns (steps: seq<Step>)
    requires CanRun(s0, before) && TWICE.hash !in Run(s0, before).db.dedup
    ensures CanRun(s0, steps)
    ensures var s, t := Run(s0, before), Run(s0, steps);
            && t.copies == s.copies + [Copy(TWICE, false, InFlight(Storing(0, 0, 0)))]
            && t.db == s.db && t.log == s.log
  {
    var i := |Run(s0, before).copies|;
    RunSnoc(s0, before, Smtp(TWICE, 10, Confirmed));
    steps := before + [Smtp(TWICE, 10, Confirmed)];
    RunSnoc(s0, steps, Deliver(i, 0));
    steps := steps + [Deliver(i, 0)];
    RunSnoc(s0, steps, Precheck(i));
    steps := steps + [Precheck(i)];
    RunSnoc(s0, steps, StoreBody(i));
    steps := steps + [StoreBody(i)];
  }

  lemma RaceLost() returns (steps: seq<Step>)
    ensures CanRun(INIT, steps)
    ensures var s := Run(INIT, steps);
            && |s.copies| == 2 && s.copies[1] == Copy(TWICE, false, InFlight(Violated(0)))
            && s.db == Insert(EMPTY_DB, TWICE, 0, 0)
  {
    steps := UploadPlain(INIT, []);
    steps := UploadPlain(INIT, steps);
    RunSnoc(INIT, steps, TryCommit(0, 0));
    steps := steps + [TryCommit(0, 0)];
    RunSnoc(INIT, steps, TryCommit(1, 1));
    steps := steps + [TryCommit(1, 1)];
  }

  lemma WinnerSelected() returns (steps: seq<Step>)
    ensures CanRun(INIT, steps)
    ensures var s := Run(INIT, steps);
            && |s.copies| == 2 && s.copies[1] == Copy(TWICE, false, InFlight(Violated(0))) && s.selected == [0]
  {
    var before := RaceLost();
    var s := Run(INIT, before);
    assert Eligible(s.db, 50) == {0};
    assert IsBatch(s.db, 50, BATCH_LIMIT, [0]);
    RunSnoc(INIT, before, Select(50, [0]));
    steps := before + [Select(50, [0])];
  }

  /** A run in which the lookup misses. */
  lemma LookupCanMiss() returns (steps: seq<Step>)
    ensures CanRun(INIT, steps)
    ensures var s := Run(INIT, steps);
            |s.copies| == 2 && s.copies[1].loc == Acked(0) && s.copies[1].mail.hash !in s.db.dedup
  {
    var before := WinnerSelected();
    InitInv();
    RunKeepsInv(INIT, before);
    var more := MissedLookup(Run(INIT, before), 1);
    RunConcat(INIT, before, more);
    steps := before + more;
  }
}
