/** What a legal hold protects, and from when on. The retention worker reads its batch and
    its counters first and purges later: a hold set in between comes too late for the
    batch, and for the contents that only the batch linked to. */
module LegalHold {
  import opened Catalog
  import opened Store
  import opened Protocol
  import opened Conservation
  import opened Worker
  import opened Frames
  import opened Provenance
  import opened BlobSafety

  /** The row and its links are as before. */
  ghost predicate RowKept(s: State, t: State, id: nat) {
    && id in s.db.messages && id in t.db.messages
    && t.db.messages[id] == s.db.messages[id]
    && (forall l: Link | l.msg == id :: l in t.db.links <==> l in s.db.links)
  }

  /** On hold, and not in a batch that retention has selected before the hold. */
  ghost predicate HeldRow(s: State, id: nat) {
    id in s.db.messages && s.db.messages[id].legalHold && id !in s.selected
  }

  /** The content is not one that only the selected batch linked to at its selection. */
  ghost predicate SafeLink(s: State, l: Link) {
    l in s.db.links && l.att !in Dropped(s.seen, s.selected)
  }

  lemma SafeOrLate(s: State, l: Link)
    requires SelectionOk(s) && l in s.db.links && l.msg !in s.selected
    ensures SafeLink(s, l) <==> !LateLink(s.seen, s.db, s.selected, l)
  {
    DroppedExactly(s.seen, s.selected);
    assert l.msg !in Ids(s.selected);
  }

  // ----- setting and releasing ---------------------------------------------------------

  /** From any point of any run: the flag of the message is what was asked for, and nothing
      else changes. */
  lemma HoldSetsFlag(before: seq<Step>, id: nat, hold: bool)
    requires CanRun(INIT, before) && id in Run(INIT, before).db.messages
    ensures var s, t := Run(INIT, before), Apply(Run(INIT, before), Hold(id, hold));
            && t.db.messages.Keys == s.db.messages.Keys
            && t.db.messages[id].legalHold == hold
            && t.db.messages[id] == s.db.messages[id].(legalHold := hold)
            && (forall r | r in s.db.messages && r != id :: t.db.messages[r] == s.db.messages[r])
            && t == s.(db := s.db.(messages := t.db.messages))
  {
  }

  /** From any point of any run: a released message that is old enough can be selected
      again, is in every batch when the limit leaves room, and is then purged. */
  lemma ReleasedIsPurged(before: seq<Step>, id: nat, cutoff: int, batch: seq<nat>) returns (steps: seq<Step>)
    requires CanRun(INIT, before) && id in Run(INIT, before).db.messages
    requires Run(INIT, before).db.messages[id].signedAt < cutoff
    requires IsBatch(Apply(Run(INIT, before), Hold(id, false)).db, cutoff, BATCH_LIMIT, batch)
    ensures id in Eligible(Apply(Run(INIT, before), Hold(id, false)).db, cutoff)
    ensures |Eligible(Apply(Run(INIT, before), Hold(id, false)).db, cutoff)| <= 5000 ==>
              && id in batch
              && CanRun(Apply(Run(INIT, before), Hold(id, false)), [Select(cutoff, batch)] + steps)
              && id !in Run(Apply(Run(INIT, before), Hold(id, false)), [Select(cutoff, batch)] + steps).db.messages
              && forall st | st in steps :: st.Requeue? || st.Purge?
  {
    InitInv();
    RunKeepsInv(INIT, before);
    var s := Run(INIT, before);
    HoldSetsFlag(before, id, false);
    StepKeepsInv(s, Hold(id, false));
    steps := EligibleGoes(Apply(s, Hold(id, false)), id, cutoff, batch);
  }

  lemma EligibleGoes(s: State, id: nat, cutoff: int, batch: seq<nat>) returns (steps: seq<Step>)
    requires DbInv(s.db) && id in Eligible(s.db, cutoff) && IsBatch(s.db, cutoff, BATCH_LIMIT, batch)
    ensures forall st | st in steps :: st.Requeue? || st.Purge?
    ensures |Eligible(s.db, cutoff)| <= BATCH_LIMIT ==>
              && id in batch && CanRun(s, [Select(cutoff, batch)] + steps)
              && id !in Run(s, [Select(cutoff, batch)] + steps).db.messages
  {
    var t := Apply(s, Select(cutoff, batch));
    steps := PurgeComes(t);
    RunCons(s, Select(cutoff, batch), steps);
    if |Eligible(s.db, cutoff)| <= BATCH_LIMIT {
      IdsCard(batch);
      EqualSets(Ids(batch), Eligible(s.db, cutoff));
      SeenUndisturbed(s.db, batch);
      PurgeAllExact(s.db, batch);
    }
  }

  // ----- the row and its links ---------------------------------------------------------

  /** What one step leaves of a held message: the row, the links it had that are safe, and
      no other links. */
  ghost predicate Spared(s: State, t: State, id: nat) {
    && id in s.db.messages && id in t.db.messages
    && t.db.messages[id] == s.db.messages[id]
    && (forall l: Link | l.msg == id && l in t.db.links :: l in s.db.links)
    && (forall l: Link | l.msg == id && SafeLink(s, l) :: SafeLink(t, l))
  }

  lemma StillSpared(s: State, t: State, id: nat)
    requires TablesStill(s, t) && HeldRow(s, id)
    ensures Spared(s, t, id) && HeldRow(t, id)
  {
  }

  lemma HoldRow(s: State, n: nat, hold: bool, id: nat)
    requires HeldRow(s, id) && (n != id || hold)
    ensures Spared(s, Apply(s, Hold(n, hold)), id) && HeldRow(Apply(s, Hold(n, hold)), id)
  {
  }

  lemma CommitRow(s: State, i: nat, n: nat, id: nat)
    requires LogOk(s) && HeldRow(s, id) && Commits(s, i, n)
    ensures Spared(s, Apply(s, TryCommit(i, n)), id) && HeldRow(Apply(s, TryCommit(i, n)), id)
  {
    assert RowLogged(s, id);
  }

  lemma NothingDropped(db: Db, batch: seq<nat>, l: Link)
    requires DbInv(db) && l in db.links && l.msg !in batch
    ensures l.att !in Dropped(db, batch)
  {
    DroppedExactly(db, batch);
    assert l.msg !in Ids(batch);
  }

  lemma SelectRow(s: State, cutoff: int, batch: seq<nat>, id: nat)
    requires DbInv(s.db) && HeldRow(s, id) && Enabled(s, Select(cutoff, batch))
    ensures Spared(s, Apply(s, Select(cutoff, batch)), id) && HeldRow(Apply(s, Select(cutoff, batch)), id)
  {
    assert id !in Ids(batch);
    forall l: Link | l.msg == id && l in s.db.links ensures l.att !in Dropped(s.db, batch) {
      NothingDropped(s.db, batch, l);
    }
  }

  lemma PurgeRow(s: State, id: nat)
    requires SelectionOk(s) && HeldRow(s, id) && Enabled(s, Purge)
    ensures Spared(s, Apply(s, Purge), id) && HeldRow(Apply(s, Purge), id)
  {
    PurgeSeenExact(s.db, s.seen, s.selected);
    assert id !in Ids(s.selected);
  }

  lemma HeldRowStep(s: State, st: Step, id: nat)
    requires Inv(s) && HeldRow(s, id) && Enabled(s, st) && st != Hold(id, false)
    ensures Spared(s, Apply(s, st), id) && HeldRow(Apply(s, st), id)
  {
    if st.Purge? {
      PurgeRow(s, id);
    } else if st.Select? {
      SelectRow(s, st.cutoff, st.batch, id);
    } else if st.TryCommit? && Commits(s, st.i, st.id) {
      CommitRow(s, st.i, st.id, id);
    } else if st.Hold? {
      HoldRow(s, st.id, st.hold, id);
    } else {
      StepsStill(s, st);
      StillSpared(s, Apply(s, st), id);
    }
  }

  lemma {:induction false} HeldRowRun(s: State, steps: seq<Step>, id: nat)
    requires Inv(s) && HeldRow(s, id) && CanRun(s, steps) && Hold(id, false) !in steps
    ensures Spared(s, Run(s, steps), id)
    decreases |steps|
  {
    if steps != [] {
      HeldRowStep(s, steps[0], id);
      StepKeepsInv(s, steps[0]);
      HeldRowRun(Apply(s, steps[0]), steps[1..], id);
    }
  }

  lemma SelectedGoes(s: State, id: nat)
    requires SelectionOk(s) && id in s.selected
    ensures id !in PurgeSeen(s.db, s.seen, s.selected).messages
  {
    PurgeSeenExact(s.db, s.seen, s.selected);
    assert id in Ids(s.selected);
  }

  lemma LateGoes(s: State, l: Link)
    requires SelectionOk(s) && LateLink(s.seen, s.db, s.selected, l)
    ensures l !in PurgeSeen(s.db, s.seen, s.selected).links
  {
    SurvivorsKeepLinksExactly(s.db, s.seen, s.selected);
    PurgeSeenExact(s.db, s.seen, s.selected);
    DroppedExactly(s.seen, s.selected);
  }

  /** A batch that was selected is purged, whatever hold has been set since. */
  lemma LateHoldIsLost(s: State, id: nat) returns (steps: seq<Step>)
    requires SelectionOk(s) && id in s.selected
    ensures CanRun(Apply(s, Hold(id, true)), steps) && Hold(id, false) !in steps
    ensures id !in Run(Apply(s, Hold(id, true)), steps).db.messages
  {
    HoldMoves(s, id);
    HoldStaysSelected(s, id);
    SelectedGoes(Apply(s, Hold(id, true)), id);
    steps := PurgeComes(Apply(s, Hold(id, true)));
  }

  /** A late link is taken, whatever hold its message has. */
  lemma LateLinkIsLost(s: State, l: Link) returns (steps: seq<Step>)
    requires SelectionOk(s) && LateLink(s.seen, s.db, s.selected, l)
    ensures CanRun(Apply(s, Hold(l.msg, true)), steps) && Hold(l.msg, false) !in steps
    ensures l !in Run(Apply(s, Hold(l.msg, true)), steps).db.links
  {
    HoldMoves(s, l.msg);
    HoldStaysSelected(s, l.msg);
    LateGoes(Apply(s, Hold(l.msg, true)), l);
    steps := PurgeComes(Apply(s, Hold(l.msg, true)));
  }

  lemma HeldFrom(s: State, id: nat)
    requires Inv(s) && id in s.db.messages && id !in s.selected
    ensures Inv(Apply(s, Hold(id, true))) && HeldRow(Apply(s, Hold(id, true)), id)
  {
    StepKeepsInv(s, Hold(id, true));
    HoldMoves(s, id);
  }

  /** The row stays through everything that follows until the release. */
  ghost predicate RowUntilRelease(s: State, id: nat) {
    id in s.db.messages &&
    forall after: seq<Step> | CanRun(s, after) && Hold(id, false) !in after ::
      id in Run(s, after).db.messages && Run(s, after).db.messages[id] == s.db.messages[id]
  }

  /** The row and all its links stay. */
  ghost predicate KeptUntilRelease(s: State, id: nat) {
    forall after: seq<Step> | CanRun(s, after) && Hold(id, false) !in after :: RowKept(s, Run(s, after), id)
  }

  ghost predicate SparedUntilRelease(s: State, id: nat) {
    forall after: seq<Step> | CanRun(s, after) && Hold(id, false) !in after :: Spared(s, Run(s, after), id)
  }

  lemma HeldIsSpared(s: State, id: nat)
    requires Inv(s) && HeldRow(s, id)
    ensures SparedUntilRelease(s, id)
  {
    forall after: seq<Step> | CanRun(s, after) && Hold(id, false) !in after ensures Spared(s, Run(s, after), id) {
      HeldRowRun(s, after, id);
    }
  }

  lemma SparedKeepsRow(s: State, id: nat)
    requires SparedUntilRelease(s, id) && id in s.db.messages
    ensures RowUntilRelease(s, id)
  {
  }

  lemma SparedKeepsLinks(s: State, id: nat)
    requires SparedUntilRelease(s, id) && forall l | l in s.db.links && l.msg == id :: SafeLink(s, l)
    ensures KeptUntilRelease(s, id)
  {
    forall after: seq<Step> | CanRun(s, after) && Hold(id, false) !in after ensures RowKept(s, Run(s, after), id) {
      assert Spared(s, Run(s, after), id);
    }
  }

  /** From any point of any run: a hold keeps the row through everything that follows until
      it is released, if and only if the message is not in a batch already selected and
      not yet purged. */
  lemma HoldKeepsRowExactly(before: seq<Step>, id: nat)
    requires CanRun(INIT, before) && id in Run(INIT, before).db.messages
    ensures RowUntilRelease(Apply(Run(INIT, before), Hold(id, true)), id) <==> id !in Run(INIT, before).selected
  {
    InitInv();
    RunKeepsInv(INIT, before);
    var s := Run(INIT, before);
    if id in s.selected {
      var steps := LateHoldIsLost(s, id);
    } else {
      HeldFrom(s, id);
      HeldIsSpared(Apply(s, Hold(id, true)), id);
      SparedKeepsRow(Apply(s, Hold(id, true)), id);
    }
  }

  /** It keeps the links as well if and only if, besides, none of them is late: naming a
      content that only that batch linked to when it was selected. */
  lemma HoldProtectsExactly(before: seq<Step>, id: nat)
    requires CanRun(INIT, before) && id in Run(INIT, before).db.messages
    ensures var s := Run(INIT, before);
            KeptUntilRelease(Apply(s, Hold(id, true)), id) <==>
            id !in s.selected && !exists l: Link :: l.msg == id && LateLink(s.seen, s.db, s.selected, l)
  {
    InitInv();
    RunKeepsInv(INIT, before);
    var s := Run(INIT, before);
    if id in s.selected {
      var steps := LateHoldIsLost(s, id);
    } else if l: Link :| l.msg == id && LateLink(s.seen, s.db, s.selected, l) {
      var steps := LateLinkIsLost(s, l);
      HoldMoves(s, id);
    } else {
      HeldFrom(s, id);
      HoldMoves(s, id);
      forall l | l in s.db.links && l.msg == id ensures SafeLink(s, l) { SafeOrLate(s, l); }
      HeldIsSpared(Apply(s, Hold(id, true)), id);
      SparedKeepsLinks(Apply(s, Hold(id, true)), id);
    }
  }

  // ----- its blobs, one by one ----------------------------------------------------------

  /** The step uses the body key `h` as the digest of an attachment: it uploads one, or
      purges the content. */
  ghost predicate TakesBody(s: State, st: Step, h: Hash)
    requires Enabled(s, st)
  {
    || (st.StoreAtt? && NextAtt(s, st.i).sha == h)
    || (st.Purge? && h in Dropped(s.seen, s.selected))
  }

  /** The step uses the attachment key `h` as a body key. */
  ghost predicate TakesAtt(s: State, st: Step, h: Hash)
    requires Enabled(s, st)
  {
    || (st.StoreBody? && s.copies[st.i].mail.hash == h)
    || (st.Purge? && exists id | id in s.selected && id in s.db.messages :: s.db.messages[id].bodySha == h)
  }

  lemma HeldBodyFreed(s: State, id: nat)
    requires SelectionOk(s) && HeldRow(s, id)
    ensures s.db.messages[id].bodySha in FreedAll(s.seen, s.selected) <==>
            s.db.messages[id].bodySha in Dropped(s.seen, s.selected)
  {
    SeenFreedExactly(s);
    OtherBodies(s.db, id);
  }

  lemma OtherBodies(db: Db, id: nat)
    requires DbInv(db) && id in db.messages
    ensures forall r | r in db.messages && r != id :: db.messages[r].bodySha != db.messages[id].bodySha
  {
  }

  lemma BodyInBucket(s: State, st: Step, h: Hash)
    requires Enabled(s, st) && HasBody(s.blobs, h)
    requires h in FreedAll(s.seen, s.selected) <==> h in Dropped(s.seen, s.selected)
    ensures HasBody(Bucket(s, st), h) <==> !TakesBody(s, st, h)
  {
  }

  lemma AttInBucket(s: State, st: Step, l: Link)
    requires SelectionOk(s) && SafeLink(s, l) && Enabled(s, st) && HasAtt(s.blobs, l.att)
    ensures HasAtt(Bucket(s, st), l.att) <==> !TakesAtt(s, st, l.att)
  {
    if st.Purge? {
      SeenFreedExactly(s);
    }
  }

  /** No worker and no purge takes the body of a held message, except by using its key for
      an attachment; no condition on uploads in progress. */
  lemma HeldBodyExactly(s: State, st: Step, id: nat)
    requires SelectionOk(s) && HeldRow(s, id) && Enabled(s, st) && HasBody(s.blobs, s.db.messages[id].bodySha)
    ensures HasBody(Apply(s, st).blobs, s.db.messages[id].bodySha) <==> !TakesBody(s, st, s.db.messages[id].bodySha)
  {
    BucketIs(s, st);
    HeldBodyFreed(s, id);
    BodyInBucket(s, st, s.db.messages[id].bodySha);
  }

  /** The same for each content it links to: a step takes it exactly when the link is late
      and the step is the purge, or when the step uses its key for a body. */
  lemma HeldAttExactly(s: State, st: Step, l: Link)
    requires SelectionOk(s) && HeldRow(s, l.msg) && l in s.db.links && Enabled(s, st) && HasAtt(s.blobs, l.att)
    ensures HasAtt(Apply(s, st).blobs, l.att) <==>
            !TakesAtt(s, st, l.att) && !(st.Purge? && LateLink(s.seen, s.db, s.selected, l))
  {
    BucketIs(s, st);
    SafeOrLate(s, l);
    if SafeLink(s, l) {
      AttInBucket(s, st, l);
    } else if st.Purge? {
      SeenFreedExactly(s);
    } else {
      AttUntouched(s, st, l.att);
    }
  }

  lemma AttUntouched(s: State, st: Step, h: Hash)
    requires Enabled(s, st) && !st.Purge? && HasAtt(s.blobs, h)
    ensures HasAtt(Bucket(s, st), h) <==> !TakesAtt(s, st, h)
  {
  }

  // ----- whole runs ------------------------------------------------------------------------

  ghost predicate LinkKnown(s: State, l: Link) {
    l.msg in s.log && l.att in Shas(s.log[l.msg].mail.atts)
  }

  ghost predicate LinksKnown(s: State) {
    forall l | l in s.db.links :: LinkKnown(s, l)
  }

  lemma CommitLinks(s: State, i: nat, n: nat)
    requires LinksKnown(s) && Commits(s, i, n)
    ensures LinksKnown(Apply(s, TryCommit(i, n)))
  {
  }

  lemma SameLinks(s: State, t: State)
    requires LinksKnown(s) && t.db.links <= s.db.links
    requires MailsLogged(s, t)
    ensures LinksKnown(t)
  {
    forall l | l in t.db.links ensures LinkKnown(t, l) { assert LinkKnown(s, l); }
  }

  lemma LinksKnownStep(s: State, st: Step)
    requires Inv(s) && LinksKnown(s) && Enabled(s, st)
    ensures LinksKnown(Apply(s, st))
  {
    if st.Purge? {
      PurgeSeenExact(s.db, s.seen, s.selected);
      SameLinks(s, Apply(s, st));
    } else if st.TryCommit? && Commits(s, st.i, st.id) {
      CommitLinks(s, st.i, st.id);
    } else {
      if !st.Select? && !st.Hold? {
        StepsStill(s, st);
      }
      SameLinks(s, Apply(s, st));
    }
  }

  lemma {:induction false} LinksKnownRun(s: State, steps: seq<Step>)
    requires Inv(s) && LinksKnown(s) && CanRun(s, steps)
    ensures LinksKnown(Run(s, steps))
    decreases |steps|
  {
    if steps != [] {
      StepKeepsInv(s, steps[0]);
      LinksKnownStep(s, steps[0]);
      LinksKnownRun(Apply(s, steps[0]), steps[1..]);
    }
  }

  /** No mail the system has seen carries the content `h`. */
  ghost predicate NoContent(s: State, h: Hash) {
    forall i | 0 <= i < |s.copies| :: h !in Shas(s.copies[i].mail.atts)
  }

  /** No mail the system has seen has the fingerprint `h`. */
  ghost predicate NoFingerprint(s: State, h: Hash) {
    forall i | 0 <= i < |s.copies| :: s.copies[i].mail.hash != h
  }

  lemma NoContentSpares(s: State, st: Step, h: Hash)
    requires Inv(s) && LinksKnown(s) && Enabled(s, st) && NoContent(s, h)
    ensures !TakesBody(s, st, h)
  {
    forall l | l in s.db.links ensures l.att != h {
      assert LinkKnown(s, l) && OwnerOk(s, l.msg);
    }
    SeenFreedExactly(s);
    if st.StoreAtt? {
      assert NextAtt(s, st.i) in s.copies[st.i].mail.atts;
    }
  }

  lemma NoFingerprintSpares(s: State, st: Step, h: Hash)
    requires Inv(s) && Enabled(s, st) && NoFingerprint(s, h)
    ensures !TakesAtt(s, st, h)
  {
    forall id | id in s.db.messages ensures s.db.messages[id].bodySha != h {
      assert RowLogged(s, id) && OwnerOk(s, id);
    }
  }

  lemma {:induction false} HeldBodyRun(s: State, steps: seq<Step>, id: nat)
    requires Inv(s) && LinksKnown(s) && HeldRow(s, id) && CanRun(s, steps) && Hold(id, false) !in steps
    requires HasBody(s.blobs, s.db.messages[id].bodySha) && NoContent(Run(s, steps), s.db.messages[id].bodySha)
    ensures HasBody(Run(s, steps).blobs, s.db.messages[id].bodySha)
    decreases |steps|
  {
    if steps != [] {
      var h := s.db.messages[id].bodySha;
      CopiesOnlyGrow(s, steps);
      assert NoContent(s, h);
      NoContentSpares(s, steps[0], h);
      HeldBodyExactly(s, steps[0], id);
      HeldRowStep(s, steps[0], id);
      StepKeepsInv(s, steps[0]);
      LinksKnownStep(s, steps[0]);
      HeldBodyRun(Apply(s, steps[0]), steps[1..], id);
    }
  }

  lemma {:induction false} HeldAttRun(s: State, steps: seq<Step>, l: Link)
    requires Inv(s) && HeldRow(s, l.msg) && SafeLink(s, l) && CanRun(s, steps) && Hold(l.msg, false) !in steps
    requires HasAtt(s.blobs, l.att) && NoFingerprint(Run(s, steps), l.att)
    ensures HasAtt(Run(s, steps).blobs, l.att)
    decreases |steps|
  {
    if steps != [] {
      CopiesOnlyGrow(s, steps);
      assert NoFingerprint(s, l.att);
      NoFingerprintSpares(s, steps[0], l.att);
      SafeOrLate(s, l);
      HeldAttExactly(s, steps[0], l);
      HeldRowStep(s, steps[0], l.msg);
      StepKeepsInv(s, steps[0]);
      HeldAttRun(Apply(s, steps[0]), steps[1..], l);
    }
  }

  lemma HoldThenRun(before: seq<Step>, id: nat, after: seq<Step>)
    requires CanRun(INIT, before) && CanRun(Apply(Run(INIT, before), Hold(id, true)), after)
    ensures CanRun(INIT, before + ([Hold(id, true)] + after))
    ensures Run(INIT, before + ([Hold(id, true)] + after)) == Run(Apply(Run(INIT, before), Hold(id, true)), after)
  {
    RunCons(Run(INIT, before), Hold(id, true), after);
    RunConcat(INIT, before, [Hold(id, true)] + after);
  }

  /** From any point of any run, a hold that is not too late keeps each blob the message
      still has, on its own, through all purges and all interleavings with workers until
      the hold is released: the body unless its key is the digest of an attachment that
      some mail carries; a content unless its link is late or its digest is the fingerprint
      of some mail. */
  lemma HoldKeepsBlobs(before: seq<Step>, id: nat, after: seq<Step>)
    requires CanRun(INIT, before) && id in Run(INIT, before).db.messages && id !in Run(INIT, before).selected
    requires CanRun(Apply(Run(INIT, before), Hold(id, true)), after) && Hold(id, false) !in after
    ensures var s, t := Run(INIT, before), Run(Apply(Run(INIT, before), Hold(id, true)), after);
            var h := s.db.messages[id].archiveHash;
            && (HasBody(s.blobs, h) && NoContent(t, h) ==> HasBody(t.blobs, h) && OpensAsDelivered(t, h))
            && (forall l | l in s.db.links && l.msg == id && HasAtt(s.blobs, l.att) && NoFingerprint(t, l.att)
                           && !LateLink(s.seen, s.db, s.selected, l) :: HasAtt(t.blobs, l.att))
  {
    InitInv();
    RunKeepsInv(INIT, before);
    LinksKnownRun(INIT, before);
    var s := Run(INIT, before);
    var u := Apply(s, Hold(id, true));
    HeldFrom(s, id);
    HoldMoves(s, id);
    LinksKnownStep(s, Hold(id, true));
    var t := Run(u, after);
    if HasBody(s.blobs, s.db.messages[id].archiveHash) && NoContent(t, s.db.messages[id].archiveHash) {
      HeldBodyRun(u, after, id);
      HoldThenRun(before, id, after);
      BodyIsDeliveredMail(before + ([Hold(id, true)] + after), s.db.messages[id].archiveHash);
    }
    forall l | l in s.db.links && l.msg == id && HasAtt(s.blobs, l.att) && NoFingerprint(t, l.att)
               && !LateLink(s.seen, s.db, s.selected, l)
      ensures HasAtt(t.blobs, l.att)
    {
      SafeOrLate(s, l);
      HeldAttRun(u, after, l);
    }
  }
}
