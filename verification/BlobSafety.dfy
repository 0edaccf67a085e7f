/** Which bodies and contents committed messages keep. Three things can cost a message one
    of them: a purge that decides by counters it read before the message was committed, a
    purge that frees a key an upload counts on, and a digest that is used for a body and
    for an attachment, since both share one bucket. All are characterised exactly. */
module BlobSafety {
  import opened Catalog
  import opened Store
  import opened Protocol
  import opened Conservation
  import opened Frames
  import opened Provenance
  import opened Worker

  /** The stored body is a mail with exactly this fingerprint. */
  ghost predicate HasBody(blobs: Blobs, h: Hash) {
    h in blobs && blobs[h].EmlBlob? && blobs[h].mail.hash == h
  }

  ghost predicate HasAtt(blobs: Blobs, h: Hash) {
    h in blobs && blobs[h] == AttBlob(h)
  }

  ghost predicate RowsStored(s: State) {
    forall id | id in s.db.messages :: HasBody(s.blobs, s.db.messages[id].bodySha)
  }

  ghost predicate LinksStored(s: State) {
    forall l | l in s.db.links :: HasAtt(s.blobs, l.att)
  }

  /** Each message still links to every content of its mail. */
  ghost predicate LinksComplete(s: State) {
    forall id | id in s.db.messages :: Complete(s, id)
  }

  ghost predicate Complete(s: State, id: nat) {
    id in s.log && ContentsOf(s.db.links, id) == Shas(s.log[id].mail.atts)
  }

  /** A delivery in the middle of its upload that can still commit. */
  ghost predicate Candidate(s: State, i: nat) {
    && Flying(s, i) && s.copies[i].loc.pc.Storing?
    && Distinct(s.copies[i].mail.atts) && s.copies[i].mail.hash !in s.db.dedup
  }

  /** The copy has uploaded the content `h`. */
  ghost predicate Uploaded(c: Copy, h: Hash)
    requires c.loc.InFlight? && c.loc.pc.Storing?
  {
    exists n | 0 <= n < c.loc.pc.put && n < |c.mail.atts| :: c.mail.atts[n].sha == h
  }

  ghost predicate CopyStored(blobs: Blobs, c: Copy)
    requires c.loc.InFlight? && c.loc.pc.Storing?
  {
    HasBody(blobs, c.mail.hash) && forall h | Uploaded(c, h) :: HasAtt(blobs, h)
  }

  ghost predicate CandidatesStored(s: State) {
    forall i: nat | Candidate(s, i) :: CopyStored(s.blobs, s.copies[i])
  }

  /** Everything is there that a committed message has or a running upload counts on. */
  ghost predicate BlobInv(s: State) {
    RowsStored(s) && LinksComplete(s) && LinksStored(s) && CandidatesStored(s)
  }

  // ----- uploads: one bucket, two kinds of digest --------------------------------

  ghost predicate NeedsBody(s: State, h: Hash) {
    || (exists id | id in s.db.messages :: s.db.messages[id].bodySha == h)
    || (exists i: nat | Candidate(s, i) :: s.copies[i].mail.hash == h)
  }

  ghost predicate NeedsAtt(s: State, h: Hash) {
    || (exists l | l in s.db.links :: l.att == h)
    || (exists i: nat | Candidate(s, i) :: Uploaded(s.copies[i], h))
  }

  /** Storing an attachment keeps the bodies of all committed messages exactly when its
      digest is the body key of none of them. */
  lemma AttUploadKeepsRowsExactly(s: State, i: nat)
    requires RowsStored(s) && Enabled(s, StoreAtt(i))
    ensures RowsStored(Apply(s, StoreAtt(i))) <==>
            forall id | id in s.db.messages :: s.db.messages[id].bodySha != NextAtt(s, i).sha
  {
  }

  /** Storing a body keeps the contents of all committed messages exactly when its
      fingerprint is the digest of none of them. */
  lemma BodyUploadKeepsLinksExactly(s: State, i: nat)
    requires LinksStored(s) && Enabled(s, StoreBody(i))
    ensures LinksStored(Apply(s, StoreBody(i))) <==> forall l | l in s.db.links :: l.att != s.copies[i].mail.hash
  {
  }

  lemma BodyUploadExactly(s: State, i: nat)
    requires BlobInv(s) && Enabled(s, StoreBody(i))
    ensures BlobInv(Apply(s, StoreBody(i))) <==> !NeedsAtt(s, s.copies[i].mail.hash)
  {
    var t, h := Apply(s, StoreBody(i)), s.copies[i].mail.hash;
    forall j: nat | j != i ensures Candidate(t, j) <==> Candidate(s, j) {}
    assert forall k :: HasAtt(t.blobs, k) <==> HasAtt(s.blobs, k) && k != h;
    assert forall k :: HasBody(s.blobs, k) || k == h ==> HasBody(t.blobs, k);
    if NeedsAtt(s, h) && !(exists l | l in s.db.links :: l.att == h) {
      var j: nat :| Candidate(s, j) && Uploaded(s.copies[j], h);
      assert Candidate(t, j) && t.copies[j] == s.copies[j];
    }
  }

  lemma AttUploadExactly(s: State, i: nat)
    requires BlobInv(s) && Enabled(s, StoreAtt(i))
    ensures BlobInv(Apply(s, StoreAtt(i))) <==> !NeedsBody(s, NextAtt(s, i).sha)
  {
    var t, h := Apply(s, StoreAtt(i)), NextAtt(s, i).sha;
    forall j: nat ensures Candidate(t, j) <==> Candidate(s, j) {}
    assert forall k :: HasBody(t.blobs, k) <==> HasBody(s.blobs, k) && k != h;
    assert forall k :: HasAtt(s.blobs, k) || k == h ==> HasAtt(t.blobs, k);
    if NeedsBody(s, h) && !(exists id | id in s.db.messages :: s.db.messages[id].bodySha == h) {
      var j: nat :| Candidate(s, j) && s.copies[j].mail.hash == h;
      assert Candidate(t, j) && t.copies[j].mail == s.copies[j].mail;
    }
    forall j: nat, k | Candidate(t, j) && Uploaded(t.copies[j], k) ensures HasAtt(t.blobs, k) {
      if k != h { assert Uploaded(s.copies[j], k); }
    }
  }

  // ----- commits and quiet steps ---------------------------------------------------

  lemma CommitKeepsBlobs(s: State, i: nat, id: nat)
    requires Inv(s) && BlobInv(s) && Commits(s, i, id)
    ensures BlobInv(Apply(s, TryCommit(i, id)))
  {
    var t, c := Apply(s, TryCommit(i, id)), s.copies[i];
    assert Candidate(s, i);
    forall l | l in t.db.links ensures HasAtt(t.blobs, l.att) {
      if l !in s.db.links {
        var n :| 0 <= n < |c.mail.atts| && c.mail.atts[n].sha == l.att;
        assert Uploaded(c, l.att);
      }
    }
    forall j: nat | Candidate(t, j) ensures Candidate(s, j) && t.copies[j] == s.copies[j] {}
    CommitCompletes(s, i, id);
  }

  lemma CommitCompletes(s: State, i: nat, id: nat)
    requires LogOk(s) && Counted(s.db) && Commits(s, i, id) && LinksComplete(s)
    ensures LinksComplete(Apply(s, TryCommit(i, id)))
  {
    var t, c := Apply(s, TryCommit(i, id)), s.copies[i];
    forall r | r in t.db.messages ensures Complete(t, r) {
      if r == id {
        assert ContentsOf(t.db.links, id) == Shas(c.mail.atts) by {
          forall a | a in c.mail.atts ensures Link(id, a.sha) in t.db.links {}
        }
      } else {
        assert Complete(s, r) && ContentsOf(t.db.links, r) == ContentsOf(s.db.links, r);
      }
    }
  }

  /** The bucket, the links and the dedup table are as before, and no upload has begun or
      advanced. */
  ghost predicate Quiet(s: State, t: State) {
    && t.blobs == s.blobs && t.db.links == s.db.links && t.db.dedup == s.db.dedup
    && t.db.messages.Keys == s.db.messages.Keys
    && (forall id | id in t.db.messages :: t.db.messages[id].bodySha == s.db.messages[id].bodySha)
    && (forall id | id in s.log :: id in t.log && t.log[id].mail == s.log[id].mail)
    && (forall j | 0 <= j < |t.copies| ::
          || (j < |s.copies| && SameUpload(s.copies[j], t.copies[j]))
          || !(t.copies[j].loc.InFlight? && t.copies[j].loc.pc.Storing?))
  }

  /** Equal, but for rows upserted meanwhile. */
  ghost predicate SameUpload(c: Copy, d: Copy) {
    || c == d
    || (c.loc.InFlight? && c.loc.pc.Storing? && d.loc.InFlight? && d.loc.pc.Storing?
        && d.mail == c.mail && d.loc.pc.put == c.loc.pc.put)
  }

  lemma QuietMove(s: State, st: Step)
    requires Enabled(s, st) && (st.Deliver? || st.Requeue? || st.Fail?)
    ensures Quiet(s, Apply(s, st))
  {
  }

  lemma QuietLookup(s: State, st: Step)
    requires Enabled(s, st) && (st.Precheck? || st.Lookup?)
    ensures Quiet(s, Apply(s, st))
  {
  }

  lemma QuietUpsert(s: State, i: nat)
    requires Enabled(s, Upsert(i))
    ensures Quiet(s, Apply(s, Upsert(i)))
  {
    var t := Apply(s, Upsert(i));
    assert SameUpload(s.copies[i], t.copies[i]);
    forall j | 0 <= j < |t.copies| && j != i ensures t.copies[j] == s.copies[j] {}
  }

  lemma QuietFailure(s: State, i: nat, id: nat)
    requires Enabled(s, TryCommit(i, id)) && !Commits(s, i, id)
    ensures Quiet(s, Apply(s, TryCommit(i, id)))
  {
    if Distinct(s.copies[i].mail.atts) {
      var r := s.db.dedup[s.copies[i].mail.hash].id;
      assert Apply(s, TryCommit(i, id)) == Move(s, i, InFlight(Violated(r)));
    } else {
      assert Apply(s, TryCommit(i, id)) == Reject(s, i);
    }
  }

  lemma QuietStep(s: State, st: Step)
    requires Enabled(s, st) && !st.StoreBody? && !st.StoreAtt? && !st.Purge?
    requires st.TryCommit? ==> !Commits(s, st.i, st.id)
    ensures Quiet(s, Apply(s, st))
  {
    if st.Deliver? || st.Requeue? || st.Fail? {
      QuietMove(s, st);
    } else if st.Precheck? || st.Lookup? {
      QuietLookup(s, st);
    } else if st.Upsert? {
      QuietUpsert(s, st.i);
    } else if st.TryCommit? {
      QuietFailure(s, st.i, st.id);
    }
  }

  lemma QuietKeepsBlobs(s: State, t: State)
    requires BlobInv(s) && Quiet(s, t)
    ensures BlobInv(t)
  {
    QuietCandidates(s, t);
    forall id | id in t.db.messages ensures Complete(t, id) { assert Complete(s, id); }
  }

  lemma QuietCandidates(s: State, t: State)
    requires Quiet(s, t)
    ensures forall j: nat | Candidate(t, j) :: Candidate(s, j) && SameUpload(s.copies[j], t.copies[j])
    ensures forall j: nat, h | Candidate(t, j) && Uploaded(t.copies[j], h) :: Uploaded(s.copies[j], h)
  {
  }

  // ----- retention ---------------------------------------------------------------

  /** Messages outside the batch lose nothing to its purge exactly when no digest is used
      for both kinds across that line: no surviving body is a content that only the batch
      links to, and no body of the batch is a content that a survivor links to. */
  lemma SurvivorsKeepBlobsExactly(db: Db, batch: seq<nat>)
    requires DbInv(db)
    ensures (forall id | id in db.messages && id !in batch :: db.messages[id].bodySha !in FreedAll(db, batch))
            && (forall l | l in db.links && l.msg !in batch :: l.att !in FreedAll(db, batch))
            <==>
            (forall id | id in db.messages && id !in batch ::
               db.messages[id].bodySha in db.attachments ==> StillLinked(db.links, Ids(batch), db.messages[id].bodySha))
            && (forall l, id | l in db.links && l.msg !in batch && id in batch && id in db.messages ::
                  db.messages[id].bodySha != l.att)
  {
    PurgeAllExact(db, batch);
    forall l | l in db.links && l.msg !in batch ensures StillLinked(db.links, Ids(batch), l.att) {
      assert l.msg !in Ids(batch);
    }
    forall id, r | id in db.messages && r in db.messages && id != r
      ensures db.messages[id].bodySha != db.messages[r].bodySha
    {
    }
  }

  /** What a purge of the selected batch takes: the bodies of the batch and the contents
      that only the batch linked to when it was selected. */
  lemma SeenFreedExactly(s: State)
    requires SelectionOk(s)
    ensures forall k :: k in FreedAll(s.seen, s.selected) <==>
              || (exists id | id in s.selected && id in s.db.messages :: s.db.messages[id].bodySha == k)
              || k in Dropped(s.seen, s.selected)
    ensures forall k | k in Dropped(s.seen, s.selected) ::
              exists l | l in s.db.links :: l.att == k && l.msg in s.selected
  {
    SeenFreed(s.seen, s.selected);
    DroppedExactly(s.seen, s.selected);
    forall id | id in s.selected ensures id in Ids(s.selected) {}
    forall k | k in Dropped(s.seen, s.selected)
      ensures exists l | l in s.db.links :: l.att == k && l.msg in s.selected
    {
      LinkOf(s.seen, k);
      var l :| l in s.seen.links && l.att == k;
      assert l in s.db.links && l.msg in s.selected;
    }
  }

  /** No message outside the batch has come to link, since the selection, to a content
      that only the batch linked to then. */
  ghost predicate NoLateLink(s: State) {
    !exists l :: LateLink(s.seen, s.db, s.selected, l)
  }

  /** As long as everything is there, survivors never lose a body to a purge, and a content
      only by a late link; in particular messages that were on hold at the selection. */
  lemma SurvivorsKeepBlobs(s: State)
    requires Inv(s) && RowsStored(s) && LinksStored(s)
    ensures forall id | id in s.db.messages && id !in s.selected ::
              s.db.messages[id].bodySha !in FreedAll(s.seen, s.selected)
    ensures forall l | l in s.db.links && l.msg !in s.selected ::
              l.att in FreedAll(s.seen, s.selected) <==> LateLink(s.seen, s.db, s.selected, l)
  {
    SeenFreedExactly(s);
    DroppedExactly(s.seen, s.selected);
    forall l | l in s.db.links && l.msg !in s.selected
      ensures l.att in Dropped(s.seen, s.selected) <==> LateLink(s.seen, s.db, s.selected, l)
    {
      assert l.msg !in Ids(s.selected);
    }
  }

  /** The message of a late link loses the link and the content, on hold or not. */
  lemma LateLinkIsTaken(s: State, l: Link)
    requires SelectionOk(s) && Enabled(s, Purge) && LateLink(s.seen, s.db, s.selected, l)
    ensures var t := Apply(s, Purge);
            && l.msg in t.db.messages && t.db.messages[l.msg] == s.db.messages[l.msg]
            && l !in t.db.links && l.att !in t.blobs && t.log == s.log
  {
    PurgeSeenExact(s.db, s.seen, s.selected);
    DroppedExactly(s.seen, s.selected);
    SeenFreedExactly(s);
    assert l.msg !in Ids(s.selected) && l.att in Dropped(s.seen, s.selected);
  }

  /** No upload that can still commit counts on a key in `freed`. */
  ghost predicate Unheld(s: State, freed: set<Hash>) {
    forall i: nat | Candidate(s, i) :: CopyUnheld(s.copies[i], freed)
  }

  ghost predicate CopyUnheld(c: Copy, freed: set<Hash>)
    requires c.loc.InFlight? && c.loc.pc.Storing?
  {
    c.mail.hash !in freed && forall h | Uploaded(c, h) :: h !in freed
  }

  /** An upload that a purge makes a candidate again has lost its body to that purge. */
  lemma ExposedIsHeld(s: State, i: nat)
    requires Inv(s) && Enabled(s, Purge) && Candidate(Apply(s, Purge), i) && !Candidate(s, i)
    ensures s.copies[i].mail.hash in FreedAll(s.seen, s.selected)
  {
    PurgeSeenExact(s.db, s.seen, s.selected);
    SeenFreedExactly(s);
    NamedRow(s, s.copies[i].mail.hash);
  }

  lemma RowsSurvive(s: State, t: State, gone: set<nat>, drop: set<Hash>, freed: set<Hash>)
    requires RowsStored(s) && LinksStored(s) && LinksComplete(s) && t.log == s.log
    requires t.blobs == s.blobs - freed && SeenPurged(s.db, gone, drop, t.db)
    requires forall id | id in s.db.messages && id !in gone :: s.db.messages[id].bodySha !in freed
    requires forall l | l in s.db.links && l.msg !in gone :: l.att !in freed && l.att !in drop
    ensures RowsStored(t) && LinksStored(t) && LinksComplete(t)
  {
    forall id | id in t.db.messages ensures Complete(t, id) {
      assert Complete(s, id) && ContentsOf(t.db.links, id) == ContentsOf(s.db.links, id);
    }
  }

  lemma PurgeRows(s: State, t: State)
    requires Inv(s) && BlobInv(s) && NoLateLink(s) && t.log == s.log
    requires t.db == PurgeSeen(s.db, s.seen, s.selected) && t.blobs == s.blobs - FreedAll(s.seen, s.selected)
    ensures RowsStored(t) && LinksStored(t) && LinksComplete(t)
  {
    PurgeSeenExact(s.db, s.seen, s.selected);
    SurvivorsKeepBlobs(s);
    SeenFreedExactly(s);
    RowsSurvive(s, t, Ids(s.selected), Dropped(s.seen, s.selected), FreedAll(s.seen, s.selected));
  }

  lemma PurgeUploads(s: State)
    requires Inv(s) && Enabled(s, Purge) && CandidatesStored(s)
    ensures CandidatesStored(Apply(s, Purge)) <==> Unheld(Apply(s, Purge), FreedAll(s.seen, s.selected))
  {
    var t, freed := Apply(s, Purge), FreedAll(s.seen, s.selected);
    forall i: nat | Candidate(t, i) ensures CopyStored(t.blobs, t.copies[i]) <==> CopyUnheld(t.copies[i], freed) {
      if !Candidate(s, i) {
        ExposedIsHeld(s, i);
      }
    }
  }

  lemma LateLinkBreaks(s: State, l: Link)
    requires Inv(s) && LinksComplete(s) && Enabled(s, Purge) && LateLink(s.seen, s.db, s.selected, l)
    ensures !LinksComplete(Apply(s, Purge)) && !NothingMissing(Apply(s, Purge))
  {
    LateLinkIsTaken(s, l);
    assert Complete(s, l.msg);
    MissingLink(s, Apply(s, Purge), l);
  }

  lemma MissingLink(s: State, t: State, l: Link)
    requires Complete(s, l.msg) && l in s.db.links && l !in t.db.links && t.log == s.log && l.msg in t.db.messages
    ensures !LinksComplete(t) && !NothingMissing(t)
  {
    assert l.att in ContentsOf(s.db.links, l.msg) && l.att !in ContentsOf(t.db.links, l.msg);
    assert !Complete(t, l.msg) && !ContentsThere(t, l.msg);
  }

  lemma PurgeExactly(s: State)
    requires Inv(s) && BlobInv(s) && Enabled(s, Purge)
    ensures BlobInv(Apply(s, Purge)) <==>
            NoLateLink(s) && Unheld(Apply(s, Purge), FreedAll(s.seen, s.selected))
  {
    PurgeUploads(s);
    if l :| LateLink(s.seen, s.db, s.selected, l) {
      LateLinkBreaks(s, l);
    } else {
      PurgeRows(s, Apply(s, Purge));
    }
  }

  // ----- every run -----------------------------------------------------------------

  /** The step takes nothing away from a committed message or a running upload. */
  ghost predicate Safe(s: State, st: Step)
    requires Enabled(s, st)
  {
    match st
    case StoreBody(i) => !NeedsAtt(s, s.copies[i].mail.hash)
    case StoreAtt(i) => !NeedsBody(s, NextAtt(s, i).sha)
    case Purge => NoLateLink(s) && Unheld(Apply(s, Purge), FreedAll(s.seen, s.selected))
    case _ => true
  }

  /** For every step of the system: it keeps all blobs exactly when it is safe. */
  lemma StepKeepsBlobsExactly(s: State, st: Step)
    requires Inv(s) && BlobInv(s) && Enabled(s, st)
    ensures BlobInv(Apply(s, st)) <==> Safe(s, st)
  {
    if st.StoreBody? {
      BodyUploadExactly(s, st.i);
    } else if st.StoreAtt? {
      AttUploadExactly(s, st.i);
    } else if st.Purge? {
      PurgeExactly(s);
    } else if st.TryCommit? && Commits(s, st.i, st.id) {
      CommitKeepsBlobs(s, st.i, st.id);
    } else {
      QuietStep(s, st);
      QuietKeepsBlobs(s, Apply(s, st));
    }
  }

  ghost predicate SafeRun(s: State, steps: seq<Step>)
    requires CanRun(s, steps)
    decreases |steps|
  {
    steps == [] || (Safe(s, steps[0]) && SafeRun(Apply(s, steps[0]), steps[1..]))
  }

  lemma {:induction false} RunKeepsBlobs(s: State, steps: seq<Step>)
    requires CanRun(s, steps) && SafeRun(s, steps) && Inv(s) && BlobInv(s)
    ensures BlobInv(Run(s, steps))
    decreases |steps|
  {
    if steps != [] {
      StepKeepsBlobsExactly(s, steps[0]);
      StepKeepsInv(s, steps[0]);
      RunKeepsBlobs(Apply(s, steps[0]), steps[1..]);
    }
  }

  /** Links go to no message but by a purge with a late link. */
  lemma LinksStep(s: State, st: Step)
    requires Inv(s) && LinksComplete(s) && Enabled(s, st) && (st.Purge? ==> NoLateLink(s))
    ensures LinksComplete(Apply(s, st))
  {
    if st.Purge? {
      PurgeKeepsLinks(s, Apply(s, st));
    } else if st.TryCommit? && Commits(s, st.i, st.id) {
      CommitCompletes(s, st.i, st.id);
    } else {
      if !st.Select? && !st.Hold? {
        StepsStill(s, st);
      }
      StillComplete(s, Apply(s, st));
    }
  }

  lemma StillComplete(s: State, t: State)
    requires LinksComplete(s) && MailsLogged(s, t) && t.db.links == s.db.links
    requires t.db.messages.Keys == s.db.messages.Keys
    ensures LinksComplete(t)
  {
    forall id | id in t.db.messages ensures Complete(t, id) { assert Complete(s, id); }
  }

  lemma PurgeKeepsLinks(s: State, t: State)
    requires SelectionOk(s) && LinksComplete(s) && NoLateLink(s) && t.log == s.log
    requires t.db == PurgeSeen(s.db, s.seen, s.selected)
    ensures LinksComplete(t)
  {
    PurgeSeenExact(s.db, s.seen, s.selected);
    SurvivorsKeepLinksExactly(s.db, s.seen, s.selected);
    forall id | id in t.db.messages ensures Complete(t, id) {
      assert id !in s.selected by { assert id !in Ids(s.selected); }
      assert Complete(s, id) && ContentsOf(t.db.links, id) == ContentsOf(s.db.links, id);
    }
  }

  /** No purge of the run finds a late link. */
  ghost predicate NeverLate(s: State, steps: seq<Step>)
    requires CanRun(s, steps)
    decreases |steps|
  {
    steps == [] ||
    ((steps[0].Purge? ==> NoLateLink(s)) && NeverLate(Apply(s, steps[0]), steps[1..]))
  }

  lemma {:induction false} RunKeepsLinks(s: State, steps: seq<Step>)
    requires Inv(s) && LinksComplete(s) && CanRun(s, steps) && NeverLate(s, steps)
    ensures LinksComplete(Run(s, steps))
    decreases |steps|
  {
    if steps != [] {
      LinksStep(s, steps[0]);
      StepKeepsInv(s, steps[0]);
      RunKeepsLinks(Apply(s, steps[0]), steps[1..]);
    }
  }

  /** Every run of any number of workers, uploads and purges included as long as each is
      safe: each committed message has a body with its own fingerprint, and all contents
      of its mail are linked and there. */
  lemma CommittedMailIsReadable(steps: seq<Step>, id: nat)
    requires CanRun(INIT, steps) && SafeRun(INIT, steps) && id in Run(INIT, steps).db.messages
    ensures var s := Run(INIT, steps);
            && HasBody(s.blobs, s.db.messages[id].archiveHash)
            && id in s.log && s.log[id].mail.hash == s.db.messages[id].archiveHash
            && (forall a | a in s.log[id].mail.atts :: Link(id, a.sha) in s.db.links && HasAtt(s.blobs, a.sha))
    ensures OpensAsDelivered(Run(INIT, steps), Run(INIT, steps).db.messages[id].archiveHash)
  {
    InitInv();
    RunKeepsInv(INIT, steps);
    RunKeepsBlobs(INIT, steps);
    BodyIsDeliveredMail(steps, Run(INIT, steps).db.messages[id].archiveHash);
    var s := Run(INIT, steps);
    assert RowLogged(s, id) && Complete(s, id);
    forall a | a in s.log[id].mail.atts ensures Link(id, a.sha) in s.db.links {
      assert a.sha in ContentsOf(s.db.links, id);
    }
  }

  // ----- a condition on the mails alone ------------------------------------------------

  /** No fingerprint of a mail is the digest of a content of one. */
  ghost predicate DigestsApart(s: State) {
    forall i, j | 0 <= i < |s.copies| && 0 <= j < |s.copies| ::
      s.copies[i].mail.hash !in Shas(s.copies[j].mail.atts)
  }

  lemma ApartBodySafe(s: State, i: nat)
    requires Inv(s) && LinksComplete(s) && DigestsApart(s) && i < |s.copies|
    ensures !NeedsAtt(s, s.copies[i].mail.hash)
  {
    var h := s.copies[i].mail.hash;
    forall l | l in s.db.links ensures l.att != h {
      assert Complete(s, l.msg) && l.att in ContentsOf(s.db.links, l.msg) && OwnerOk(s, l.msg);
      assert s.copies[s.log[l.msg].owner].mail == s.log[l.msg].mail;
    }
    forall j: nat | Candidate(s, j) ensures !Uploaded(s.copies[j], h) {
      assert forall n | 0 <= n < |s.copies[j].mail.atts| :: s.copies[j].mail.atts[n] in s.copies[j].mail.atts;
    }
  }

  lemma ApartAttSafe(s: State, i: nat)
    requires Inv(s) && DigestsApart(s) && Enabled(s, StoreAtt(i))
    ensures !NeedsBody(s, NextAtt(s, i).sha)
  {
    assert NextAtt(s, i) in s.copies[i].mail.atts;
    forall id | id in s.db.messages ensures s.db.messages[id].bodySha != NextAtt(s, i).sha {
      assert RowLogged(s, id) && OwnerOk(s, id);
      assert s.copies[s.log[id].owner].mail == s.log[id].mail;
    }
  }

  lemma ApartStepIsSafe(s: State, st: Step)
    requires Inv(s) && BlobInv(s) && DigestsApart(s) && Enabled(s, st) && !st.Purge?
    ensures Safe(s, st)
  {
    if st.StoreBody? {
      ApartBodySafe(s, st.i);
    } else if st.StoreAtt? {
      ApartAttSafe(s, st.i);
    }
  }

  lemma ApartBefore(s: State, t: State)
    requires DigestsApart(t) && |s.copies| <= |t.copies|
    requires forall i | 0 <= i < |s.copies| :: t.copies[i].mail == s.copies[i].mail
    ensures DigestsApart(s)
  {
  }

  lemma {:induction false} ApartRunIsSafe(s: State, steps: seq<Step>)
    requires Inv(s) && BlobInv(s) && CanRun(s, steps) && Purge !in steps && DigestsApart(Run(s, steps))
    ensures SafeRun(s, steps)
    decreases |steps|
  {
    if steps != [] {
      CopiesOnlyGrow(s, steps);
      ApartBefore(s, Run(s, steps));
      assert steps[0] in steps;
      ApartStepIsSafe(s, steps[0]);
      StepKeepsBlobsExactly(s, steps[0]);
      StepKeepsInv(s, steps[0]);
      ApartRunIsSafe(Apply(s, steps[0]), steps[1..]);
    }
  }

  /** With no purge, any number of workers and any interleaving: committed mail is readable
      whenever no fingerprint among the mails is a digest of a content among them. */
  lemma ReadableWithoutPurge(steps: seq<Step>, id: nat)
    requires CanRun(INIT, steps) && Purge !in steps && DigestsApart(Run(INIT, steps))
    requires id in Run(INIT, steps).db.messages
    ensures var s := Run(INIT, steps);
            && HasBody(s.blobs, s.db.messages[id].archiveHash)
            && id in s.log && s.log[id].mail.hash == s.db.messages[id].archiveHash
            && (forall a | a in s.log[id].mail.atts :: Link(id, a.sha) in s.db.links && HasAtt(s.blobs, a.sha))
    ensures OpensAsDelivered(Run(INIT, steps), Run(INIT, steps).db.messages[id].archiveHash)
  {
    InitInv();
    ApartRunIsSafe(INIT, steps);
    CommittedMailIsReadable(steps, id);
  }

  // ----- what a purge does to the future ---------------------------------------------

  /** No committed message misses a key in the bucket or a link. */
  ghost predicate NothingMissing(s: State) {
    forall id | id in s.db.messages :: s.db.messages[id].bodySha in s.blobs && ContentsThere(s, id)
  }

  ghost predicate ContentsThere(s: State, id: nat) {
    Complete(s, id) && forall h | h in ContentsOf(s.db.links, id) :: h in s.blobs
  }

  ghost predicate CopyPresent(blobs: Blobs, c: Copy)
    requires c.loc.InFlight? && c.loc.pc.Storing?
  {
    c.mail.hash in blobs && forall h | Uploaded(c, h) :: h in blobs
  }

  ghost predicate PresentInv(s: State) {
    NothingMissing(s) && forall i: nat | Candidate(s, i) :: CopyPresent(s.blobs, s.copies[i])
  }

  lemma PresentFromStored(s: State)
    requires BlobInv(s)
    ensures PresentInv(s)
  {
    forall id | id in s.db.messages ensures ContentsThere(s, id) {
      assert Complete(s, id);
      forall h | h in ContentsOf(s.db.links, id) ensures h in s.blobs {
        assert Link(id, h) in s.db.links;
      }
    }
  }

  lemma PresentCommit(s: State, i: nat, id: nat)
    requires Inv(s) && PresentInv(s) && Commits(s, i, id)
    ensures PresentInv(Apply(s, TryCommit(i, id)))
  {
    var t, c := Apply(s, TryCommit(i, id)), s.copies[i];
    assert Candidate(s, i);
    forall r | r in s.db.messages ensures Complete(s, r) { assert ContentsThere(s, r); }
    CommitCompletes(s, i, id);
    forall r | r in t.db.messages ensures ContentsThere(t, r) {
      assert Complete(t, r);
      if r == id {
        forall h | h in Shas(c.mail.atts) ensures h in t.blobs {
          var n :| 0 <= n < |c.mail.atts| && c.mail.atts[n].sha == h;
          assert Uploaded(c, h);
        }
      } else {
        assert ContentsThere(s, r);
      }
    }
    forall j: nat | Candidate(t, j) ensures Candidate(s, j) && t.copies[j] == s.copies[j] {}
  }

  lemma PresentUpload(s: State, st: Step)
    requires PresentInv(s) && Enabled(s, st) && (st.StoreBody? || st.StoreAtt?)
    ensures PresentInv(Apply(s, st))
  {
    var t := Apply(s, st);
    assert t.db == s.db && t.log == s.log && s.blobs.Keys <= t.blobs.Keys;
    forall id | id in t.db.messages ensures ContentsThere(t, id) { assert ContentsThere(s, id) && Complete(s, id); }
    forall j: nat | Candidate(t, j) ensures CopyPresent(t.blobs, t.copies[j]) {
      if st.StoreAtt? || j != st.i {
        assert Candidate(s, j);
        forall h | Uploaded(t.copies[j], h) ensures h in t.blobs {
          assert Uploaded(s.copies[j], h) || (st.StoreAtt? && h == NextAtt(s, st.i).sha);
        }
      }
    }
  }

  lemma PresentQuiet(s: State, t: State)
    requires PresentInv(s) && Quiet(s, t)
    ensures PresentInv(t)
  {
    QuietCandidates(s, t);
    forall id | id in t.db.messages ensures ContentsThere(t, id) { assert ContentsThere(s, id) && Complete(s, id); }
  }

  lemma {:induction false} PresentRun(s: State, steps: seq<Step>)
    requires Inv(s) && PresentInv(s) && CanRun(s, steps) && Purge !in steps
    ensures NothingMissing(Run(s, steps))
    decreases |steps|
  {
    if steps != [] {
      var st := steps[0];
      if st.StoreBody? || st.StoreAtt? {
        PresentUpload(s, st);
      } else if st.TryCommit? && Commits(s, st.i, st.id) {
        PresentCommit(s, st.i, st.id);
      } else {
        assert st in steps;
        QuietStep(s, st);
        PresentQuiet(s, Apply(s, st));
      }
      StepKeepsInv(s, st);
      PresentRun(Apply(s, st), steps[1..]);
    }
  }

  /** A candidate that counts on a missing key can finish its upload and commit, without
      any further purge; the new message then misses that blob. */
  lemma MissingKeyIsCommitted(t: State, i: nat, k: Hash) returns (steps: seq<Step>)
    requires Candidate(t, i) && Uploading(t, i) && k !in t.blobs
    requires k == t.copies[i].mail.hash || Uploaded(t.copies[i], k)
    requires t.copies[i].mail.hash !in Shas(t.copies[i].mail.atts)
    ensures CanRun(t, steps) && Purge !in steps && !NothingMissing(Run(t, steps))
  {
    var c := t.copies[i];
    var before := FinishUpload(t, i);
    var u := Run(t, before);
    var rest := c.mail.atts[c.loc.pc.put..];
    PutAllKeys(t.blobs, rest);
    assert k !in Shas(rest);
    var id := FreshId(u.log.Keys);
    RunSnoc(t, before, TryCommit(i, id));
    steps := before + [TryCommit(i, id)];
    NewRowMisses(u, i, id, k);
  }

  lemma NewRowMisses(u: State, i: nat, id: nat, k: Hash)
    requires Commits(u, i, id) && k !in u.blobs
    requires k == u.copies[i].mail.hash || k in Shas(u.copies[i].mail.atts)
    ensures !NothingMissing(Apply(u, TryCommit(i, id)))
  {
    var v, c := Apply(u, TryCommit(i, id)), u.copies[i];
    assert id in v.db.messages && v.log[id].mail == c.mail && v.blobs == u.blobs;
    if Complete(v, id) && k in Shas(c.mail.atts) {
      assert k in ContentsOf(v.db.links, id) && !ContentsThere(v, id);
    }
  }

  /** Whenever a purge frees a key that an upload counts on which can still commit, some
      continuation without any further purge commits a message with a missing blob. */
  lemma HeldPurgeLosesBlob(s: State, i: nat) returns (steps: seq<Step>)
    requires Inv(s) && Enabled(s, Purge) && Candidate(Apply(s, Purge), i)
    requires !CopyUnheld(s.copies[i], FreedAll(s.seen, s.selected))
    requires s.copies[i].mail.hash !in Shas(s.copies[i].mail.atts)
    ensures CanRun(Apply(s, Purge), steps) && Purge !in steps && !NothingMissing(Run(Apply(s, Purge), steps))
  {
    var t, c, freed := Apply(s, Purge), s.copies[i], FreedAll(s.seen, s.selected);
    var k :| k in freed && (k == c.mail.hash || Uploaded(c, k));
    assert CopyOk(s, i);
    steps := MissingKeyIsCommitted(t, i, k);
  }

  /** Which key that can be: the row lock of an upsert keeps the purge waiting, so of the
      contents only the last one, stored and not yet upserted. The body has no lock. */
  lemma HeldContentIsLast(s: State, i: nat, h: Hash)
    requires Inv(s) && Enabled(s, Purge) && Candidate(s, i)
    requires Uploaded(s.copies[i], h) && h in Dropped(s.seen, s.selected)
    ensures var c := s.copies[i];
            c.loc.pc.put == c.loc.pc.rows + 1 <= |c.mail.atts| && c.mail.atts[c.loc.pc.rows].sha == h
  {
    SeenFreedExactly(s);
    UploadIsOpen(s, i);
    LastIsOpen(s.db.links, s.copies[i], s.selected, h);
  }

  lemma UploadIsOpen(s: State, i: nat)
    requires CopiesOk(s) && Enabled(s, Purge) && Candidate(s, i)
    ensures Uploading(s, i) && CopyUnlocked(s.db.links, s.copies[i].mail.atts, s.copies[i].loc.pc.rows, s.selected)
  {
    assert CopyOk(s, i);
  }

  lemma LastIsOpen(links: set<Link>, c: Copy, batch: seq<nat>, h: Hash)
    requires c.loc.InFlight? && c.loc.pc.Storing?
    requires c.loc.pc.rows <= c.loc.pc.put <= |c.mail.atts| && c.loc.pc.put <= c.loc.pc.rows + 1
    requires CopyUnlocked(links, c.mail.atts, c.loc.pc.rows, batch) && Uploaded(c, h)
    requires exists l | l in links :: l.att == h && l.msg in batch
    ensures c.loc.pc.put == c.loc.pc.rows + 1 && c.mail.atts[c.loc.pc.rows].sha == h
  {
    var l :| l in links && l.att == h && l.msg in batch;
    assert l == Link(l.msg, h);
    forall n | 0 <= n < c.loc.pc.rows ensures c.mail.atts[n].sha != h {}
  }

  /** Whatever the workers do after a purge, with no further purge: no committed message
      ever misses a body, a content or a link, if and only if no message had come to share
      a content with the batch alone since its selection, and the purge freed no key that
      an upload counts on which can still commit. (No mail carries its own fingerprint as
      a content: a digest does not occur in its own pre-image.) */
  lemma PurgeIsHarmlessExactly(s: State)
    requires Inv(s) && BlobInv(s) && Enabled(s, Purge)
    requires forall i: nat | Candidate(Apply(s, Purge), i) :: s.copies[i].mail.hash !in Shas(s.copies[i].mail.atts)
    ensures NeverMisses(Apply(s, Purge)) <==>
            NoLateLink(s) && Unheld(Apply(s, Purge), FreedAll(s.seen, s.selected))
  {
    PurgeExactly(s);
    if l :| LateLink(s.seen, s.db, s.selected, l) {
      LateLinkBreaks(s, l);
      MissesAtOnce(Apply(s, Purge));
    } else if Unheld(Apply(s, Purge), FreedAll(s.seen, s.selected)) {
      StepKeepsInv(s, Purge);
      StoredNeverMisses(Apply(s, Purge));
    } else {
      var t, freed := Apply(s, Purge), FreedAll(s.seen, s.selected);
      var i: nat :| Candidate(t, i) && !CopyUnheld(t.copies[i], freed);
      var steps := HeldPurgeLosesBlob(s, i);
    }
  }

  /** Without a further purge, nothing of a committed message is ever missing. */
  ghost predicate NeverMisses(s: State) {
    forall steps: seq<Step> | CanRun(s, steps) && Purge !in steps :: NothingMissing(Run(s, steps))
  }

  lemma MissesAtOnce(s: State)
    requires !NothingMissing(s)
    ensures !NeverMisses(s)
  {
    assert CanRun(s, []) && Run(s, []) == s && Purge !in [];
  }

  lemma StoredNeverMisses(s: State)
    requires Inv(s) && BlobInv(s)
    ensures NeverMisses(s)
  {
    PresentFromStored(s);
    forall steps: seq<Step> | CanRun(s, steps) && Purge !in steps ensures NothingMissing(Run(s, steps)) {
      PresentRun(s, steps);
    }
  }

  // Two runs that show that both halves are needed: the second mail shares its attachment
  // with the first, which expires. Either the second is still being uploaded, or it has
  // been committed between the selection and the purge.

  /** A new mail with one attachment, up to the moment before its commit. */
  lemma Upload(s0: State, before: seq<Step>, m: Mail, now: int) returns (steps: seq<Step>)
    requires CanRun(s0, before) && |m.atts| == 1 && m.size <= 10
    requires m.hash !in Run(s0, before).db.dedup
    ensures CanRun(s0, steps)
    ensures var s, t := Run(s0, before), Run(s0, steps);
            && t.copies == s.copies + [Copy(m, false, InFlight(Storing(now, 1, 0)))]
            && t.db == s.db && t.log == s.log && t.selected == s.selected && t.seen == s.seen
            && t.blobs == PutAtt(PutBody(s.blobs, m), m.atts[0])
  {
    var i := |Run(s0, before).copies|;
    steps := before + [Smtp(m, 10, Confirmed)];
    RunSnoc(s0, before, Smtp(m, 10, Confirmed));
    RunSnoc(s0, steps, Deliver(i, now));
    steps := steps + [Deliver(i, now)];
    RunSnoc(s0, steps, Precheck(i));
    steps := steps + [Precheck(i)];
    RunSnoc(s0, steps, StoreBody(i));
    steps := steps + [StoreBody(i)];
    RunSnoc(s0, steps, StoreAtt(i));
    steps := steps + [StoreAtt(i)];
  }

  /** From any point of any run: a mail whose attachment has the digest that is some
      message's body key replaces that body, whether the message is on hold or not. */
  lemma BodyIsOverwritten(before: seq<Step>, id: nat, m: Mail) returns (steps: seq<Step>)
    requires CanRun(INIT, before) && id in Run(INIT, before).db.messages
    requires |m.atts| == 1 && m.size <= 10 && m.hash !in Run(INIT, before).db.dedup
    requires m.atts[0].sha == Run(INIT, before).db.messages[id].bodySha
    ensures CanRun(INIT, steps)
    ensures var t := Run(INIT, steps);
            t.db == Run(INIT, before).db && !HasBody(t.blobs, t.db.messages[id].bodySha)
  {
    steps := Upload(INIT, before, m, 0);
  }

  const SHARED := Att("x", 1)
  const FIRST := Mail("a", "first", 1, [SHARED])
  const SECOND := Mail("b", "second", 1, [SHARED])

  lemma UploadAndCommit(s0: State, before: seq<Step>, m: Mail, now: int, id: nat) returns (steps: seq<Step>)
    requires CanRun(s0, before) && |m.atts| == 1 && m.size <= 10
    requires m.hash !in Run(s0, before).db.dedup && id !in Run(s0, before).log
    ensures CanRun(s0, steps)
    ensures var s, t := Run(s0, before), Run(s0, steps);
            && t.copies == s.copies + [Copy(m, false, InFlight(Indexing(Entry(id, now))))]
            && t.db == Insert(s.db, m, id, now) && t.log.Keys == s.log.Keys + {id}
            && t.selected == s.selected && t.seen == s.seen
  {
    var i := |Run(s0, before).copies|;
    steps := Upload(s0, before, m, now);
    RunSnoc(s0, steps, Upsert(i));
    steps := steps + [Upsert(i)];
    RunSnoc(s0, steps, TryCommit(i, id));
    steps := steps + [TryCommit(i, id)];
  }

  lemma FirstArchived() returns (steps: seq<Step>)
    ensures CanRun(INIT, steps)
    ensures var s := Run(INIT, steps);
            && s.copies == [Copy(FIRST, false, InFlight(Indexing(Entry(0, 0))))]
            && s.db == Insert(EMPTY_DB, FIRST, 0, 0) && s.log.Keys == {0}
  {
    steps := UploadAndCommit(INIT, [], FIRST, 0, 0);
  }

  lemma FirstExpires(db: Db)
    requires db == Insert(EMPTY_DB, FIRST, 0, 0) && DbInv(db)
    ensures IsBatch(db, 50, BATCH_LIMIT, [0]) && "x" in Dropped(db, [0])
    ensures forall l :: l in db.links <==> l == Link(0, "x")
    ensures "b" !in db.dedup
  {
    assert Eligible(db, 50) == {0};
    DroppedExactly(db, [0]);
    assert UpsertAll(map[], [SHARED]) == map["x" := AttRow(1, 1)];
  }

  lemma FirstSelected() returns (steps: seq<Step>)
    ensures CanRun(INIT, steps)
    ensures var s := Run(INIT, steps);
            && DbInv(s.db) && s.copies == [Copy(FIRST, false, InFlight(Indexing(Entry(0, 0))))]
            && s.db == Insert(EMPTY_DB, FIRST, 0, 0) && s.log.Keys == {0}
            && s.selected == [0] && s.seen == s.db
  {
    steps := FirstArchived();
    InitInv();
    RunKeepsInv(INIT, steps);
    FirstExpires(Run(INIT, steps).db);
    RunSnoc(INIT, steps, Select(50, [0]));
    steps := steps + [Select(50, [0])];
  }

  /** An upload overtaken by the purge between its put and its upsert. */
  lemma UnheldIsNeeded() returns (steps: seq<Step>)
    ensures CanRun(INIT, steps) && !NothingMissing(Run(INIT, steps))
  {
    var before := FirstSelected();
    FirstExpires(Run(INIT, before).db);
    before := Upload(INIT, before, SECOND, 100);
    InitInv();
    RunKeepsInv(INIT, before);
    var more := SecondIsHeld(Run(INIT, before));
    RunSnoc(INIT, before, Purge);
    RunConcat(INIT, before + [Purge], more);
    steps := before + [Purge] + more;
  }

  lemma NothingUpserted(s: State)
    requires forall i | 0 <= i < |s.copies| && s.copies[i].loc.InFlight? && s.copies[i].loc.pc.Storing? ::
               s.copies[i].loc.pc.rows == 0
    ensures Enabled(s, Purge)
  {
  }

  lemma SecondIsHeld(s: State) returns (steps: seq<Step>)
    requires Inv(s) && s.selected == [0] && s.seen == s.db == Insert(EMPTY_DB, FIRST, 0, 0)
    requires s.copies == [Copy(FIRST, false, InFlight(Indexing(Entry(0, 0))))]
                         + [Copy(SECOND, false, InFlight(Storing(100, 1, 0)))]
    ensures Enabled(s, Purge) && CanRun(Apply(s, Purge), steps) && !NothingMissing(Run(Apply(s, Purge), steps))
  {
    FirstExpires(s.db);
    NothingUpserted(s);
    SeenFreedExactly(s);
    assert Uploaded(s.copies[1], "x") by { assert SECOND.atts[0].sha == "x"; }
    SecondCanCommit(s, Apply(s, Purge));
    steps := HeldPurgeLosesBlob(s, 1);
  }

  lemma SecondCanCommit(s: State, t: State)
    requires Inv(s) && t.copies == s.copies && t.db == PurgeSeen(s.db, s.seen, s.selected) && "b" !in s.db.dedup
    requires |s.copies| == 2 && s.copies[1] == Copy(SECOND, false, InFlight(Storing(100, 1, 0)))
    ensures Candidate(t, 1)
  {
    PurgeSeenExact(s.db, s.seen, s.selected);
  }

  lemma SecondCommitted() returns (steps: seq<Step>)
    ensures CanRun(INIT, steps)
    ensures var s := Run(INIT, steps);
            && SelectionOk(s) && s.selected == [0] && s.seen == Insert(EMPTY_DB, FIRST, 0, 0)
            && s.db == Insert(s.seen, SECOND, 1, 100)
            && forall i | 0 <= i < |s.copies| :: s.copies[i].loc.InFlight? && s.copies[i].loc.pc.Indexing?
  {
    var before := FirstSelected();
    assert Run(INIT, before).db.dedup.Keys == {"a"};
    steps := UploadAndCommit(INIT, before, SECOND, 100, 1);
    SelectionHolds(steps);
  }

  lemma SelectionHolds(steps: seq<Step>)
    requires CanRun(INIT, steps)
    ensures SelectionOk(Run(INIT, steps))
  {
    InitInv();
    RunKeepsInv(INIT, steps);
  }

  lemma SecondHeld() returns (steps: seq<Step>)
    ensures CanRun(INIT, steps)
    ensures var s := Run(INIT, steps);
            && SelectionOk(s) && s.selected == [0] && s.seen == Insert(EMPTY_DB, FIRST, 0, 0)
            && s.db == SetHold(Insert(s.seen, SECOND, 1, 100), 1, true)
            && forall i | 0 <= i < |s.copies| :: s.copies[i].loc.InFlight? && s.copies[i].loc.pc.Indexing?
  {
    var before := SecondCommitted();
    HoldMoves(Run(INIT, before), 1);
    HoldStaysSelected(Run(INIT, before), 1);
    RunSnoc(INIT, before, Hold(1, true));
    steps := before + [Hold(1, true)];
  }

  /** A message committed between selection and purge, and put on hold at once, loses its
      attachment. */
  lemma NoLateLinkIsNeeded() returns (steps: seq<Step>)
    ensures CanRun(INIT, steps)
    ensures var s := Run(INIT, steps);
            && 1 in s.db.messages && s.db.messages[1].legalHold
            && Link(1, "x") !in s.db.links && "x" !in s.blobs
  {
    var before := SecondHeld();
    SecondIsLate(Run(INIT, before));
    RunSnoc(INIT, before, Purge);
    steps := before + [Purge];
  }

  lemma HoldStaysSelected(s: State, id: nat)
    requires SelectionOk(s)
    ensures SelectionOk(Apply(s, Hold(id, true)))
  {
    HoldMoves(s, id);
    HoldFollows(s.seen, s.db, Ids(s.selected), id, true);
  }

  lemma HoldMoves(s: State, id: nat)
    ensures var t := Apply(s, Hold(id, true));
            && t.db == SetHold(s.db, id, true) && t.copies == s.copies
            && t.selected == s.selected && t.seen == s.seen
  {
  }

  lemma SecondIsLate(s: State)
    requires SelectionOk(s) && s.selected == [0] && s.seen == Insert(EMPTY_DB, FIRST, 0, 0)
    requires s.db == SetHold(Insert(s.seen, SECOND, 1, 100), 1, true)
    requires forall i | 0 <= i < |s.copies| :: s.copies[i].loc.InFlight? && s.copies[i].loc.pc.Indexing?
    ensures Enabled(s, Purge)
    ensures var t := Apply(s, Purge);
            && 1 in t.db.messages && t.db.messages[1].legalHold && Link(1, "x") !in t.db.links && "x" !in t.blobs
  {
    FirstExpires(s.seen);
    DroppedExactly(s.seen, [0]);
    NothingUpserted(s);
    assert SHARED in SECOND.atts && Link(1, "x") in s.db.links;
    assert LateLink(s.seen, s.db, s.selected, Link(1, "x"));
    LateLinkIsTaken(s, Link(1, "x"));
  }
}
