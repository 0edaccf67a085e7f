/** Whatever the archive holds came in as it is held: bodies, documents, rows and sizes are
    those of mails that were delivered, and dead letters have had their retry. No purge, no
    clash of digests and no interleaving changes that. */
module Provenance {
  import opened Catalog
  import opened Store
  import opened Protocol
  import opened Conservation
  import opened Frames

  /** Some delivered mail is exactly `m`, raw bytes included. */
  ghost predicate CameIn(s: State, m: Mail) {
    exists i :: 0 <= i < |s.copies| && s.copies[i].mail == m
  }

  /** Every body in the bucket is a delivered mail, under that mail's own fingerprint. */
  ghost predicate BodiesGenuine(s: State) {
    forall h | h in s.blobs && s.blobs[h].EmlBlob? :: BodyGenuine(s, h)
  }

  ghost predicate BodyGenuine(s: State, h: Hash) {
    h in s.blobs && s.blobs[h].EmlBlob? && s.blobs[h].mail.hash == h && CameIn(s, s.blobs[h].mail)
  }

  /** Every document describes a delivered mail. */
  ghost predicate DocsGenuine(s: State) {
    forall k | k in s.index :: CameIn(s, s.index[k].mail)
  }

  /** Some committed mail, purged or not, states this size for the content. */
  ghost predicate SizeStated(s: State, h: Hash, size: nat) {
    exists id, a | id in s.log && a in s.log[id].mail.atts :: a == Att(h, size)
  }

  ghost predicate SizesGenuine(s: State) {
    forall h | h in s.db.attachments :: SizeStated(s, h, s.db.attachments[h].size)
  }

  /** Each row repeats the size of its mail. */
  ghost predicate RowsGenuine(s: State) {
    forall id | id in s.db.messages :: id in s.log && s.db.messages[id].size == s.log[id].mail.size
  }

  /** A dead letter, replayed or not, has been redelivered before. */
  ghost predicate Retried(s: State) {
    forall i | 0 <= i < |s.copies| && (s.copies[i].loc.Dead? || s.copies[i].loc.Moved?) :: s.copies[i].redelivered
  }

  ghost predicate Genuine(s: State) {
    BodiesGenuine(s) && DocsGenuine(s) && SizesGenuine(s) && RowsGenuine(s) && Retried(s)
  }

  // ----- every step ------------------------------------------------------------------

  lemma CameInStays(s: State, t: State, m: Mail)
    requires MailsKept(s, t) && CameIn(s, m)
    ensures CameIn(t, m)
  {
    var i :| 0 <= i < |s.copies| && s.copies[i].mail == m;
    assert t.copies[i].mail == m;
  }

  lemma BodiesStep(s: State, st: Step)
    requires BodiesGenuine(s) && Enabled(s, st)
    ensures BodiesGenuine(Apply(s, st))
  {
    var t := Apply(s, st);
    MailsStay(s, st);
    BucketIs(s, st);
    forall h | h in t.blobs && t.blobs[h].EmlBlob? ensures BodyGenuine(t, h) {
      if h in s.blobs && s.blobs[h] == t.blobs[h] {
        assert BodyGenuine(s, h);
        CameInStays(s, t, t.blobs[h].mail);
      } else {
        assert st.StoreBody? && t.blobs[h] == EmlBlob(s.copies[st.i].mail);
        CameInStays(s, t, s.copies[st.i].mail);
      }
    }
  }

  lemma DocsStep(s: State, st: Step)
    requires DocsGenuine(s) && Enabled(s, st)
    ensures DocsGenuine(Apply(s, st))
  {
    var t := Apply(s, st);
    MailsStay(s, st);
    if !st.DropIndices? {
      OtherStepsKeepIndex(s, st);
    }
    forall k | k in t.index ensures CameIn(t, t.index[k].mail) {
      if k in s.index && s.index[k] == t.index[k] {
        CameInStays(s, t, t.index[k].mail);
      } else {
        assert st.WriteDoc? && t.index[k].mail == s.copies[st.i].mail;
        CameInStays(s, t, s.copies[st.i].mail);
      }
    }
  }

  lemma StatedStays(s: State, t: State, h: Hash, size: nat)
    requires MailsLogged(s, t) && SizeStated(s, h, size)
    ensures SizeStated(t, h, size)
  {
    var id, a :| id in s.log && a in s.log[id].mail.atts && a == Att(h, size);
    assert a in t.log[id].mail.atts;
  }

  lemma CommitSizes(s: State, i: nat, id: nat)
    requires LogOk(s) && SizesGenuine(s) && RowsGenuine(s) && Commits(s, i, id)
    ensures SizesGenuine(Apply(s, TryCommit(i, id))) && RowsGenuine(Apply(s, TryCommit(i, id)))
  {
    var t, c := Apply(s, TryCommit(i, id)), s.copies[i];
    assert t.log[id].mail == c.mail && MailsLogged(s, t);
    forall h | h in t.db.attachments ensures SizeStated(t, h, t.db.attachments[h].size) {
      UpsertAllAt(s.db.attachments, c.mail.atts, h);
      if h in s.db.attachments {
        StatedStays(s, t, h, t.db.attachments[h].size);
      } else {
        var n: nat :| FirstWith(c.mail.atts, h, n) && t.db.attachments[h].size == c.mail.atts[n].size;
        assert c.mail.atts[n] in t.log[id].mail.atts;
      }
    }
  }

  lemma PurgeSizes(s: State, t: State)
    requires SelectionOk(s) && SizesGenuine(s) && RowsGenuine(s) && t.log == s.log
    requires t.db == PurgeSeen(s.db, s.seen, s.selected)
    ensures SizesGenuine(t) && RowsGenuine(t)
  {
    PurgeSeenExact(s.db, s.seen, s.selected);
    forall h | h in t.db.attachments ensures SizeStated(t, h, t.db.attachments[h].size) {
      StatedStays(s, t, h, s.db.attachments[h].size);
    }
  }

  lemma StillSizes(s: State, t: State)
    requires SizesGenuine(s) && RowsGenuine(s) && MailsLogged(s, t)
    requires t.db.attachments == s.db.attachments && t.db.messages.Keys == s.db.messages.Keys
    requires forall id | id in s.db.messages :: t.db.messages[id].size == s.db.messages[id].size
    ensures SizesGenuine(t) && RowsGenuine(t)
  {
    forall h | h in t.db.attachments ensures SizeStated(t, h, t.db.attachments[h].size) {
      StatedStays(s, t, h, t.db.attachments[h].size);
    }
  }

  lemma SizesStep(s: State, st: Step)
    requires LogOk(s) && SelectionOk(s) && SizesGenuine(s) && RowsGenuine(s) && Enabled(s, st)
    ensures SizesGenuine(Apply(s, st)) && RowsGenuine(Apply(s, st))
  {
    if st.Purge? {
      PurgeSizes(s, Apply(s, st));
    } else if st.TryCommit? && Commits(s, st.i, st.id) {
      CommitSizes(s, st.i, st.id);
    } else if st.Hold? {
      HoldSizes(s, st.id, st.hold);
    } else {
      QuietSizes(s, st);
    }
  }

  lemma HoldSizes(s: State, id: nat, hold: bool)
    requires SizesGenuine(s) && RowsGenuine(s)
    ensures SizesGenuine(Apply(s, Hold(id, hold))) && RowsGenuine(Apply(s, Hold(id, hold)))
  {
    StillSizes(s, Apply(s, Hold(id, hold)));
  }

  lemma QuietSizes(s: State, st: Step)
    requires SizesGenuine(s) && RowsGenuine(s) && Enabled(s, st) && !st.Purge? && !st.Hold?
    requires st.TryCommit? ==> !Commits(s, st.i, st.id)
    ensures SizesGenuine(Apply(s, st)) && RowsGenuine(Apply(s, st))
  {
    if !st.Select? {
      StepsStill(s, st);
    }
    StillSizes(s, Apply(s, st));
  }

  lemma RetriedStep(s: State, st: Step)
    requires Retried(s) && Enabled(s, st)
    ensures Retried(Apply(s, st))
  {
    match st
    case Hold(_, _) =>
    case DropIndices(_, _) =>
    case Select(_, _) =>
    case Purge =>
    case TryCommit(i, id) => RetriedCommit(s, i, id);
    case _ => RetriedMove(s, st);
  }

  lemma RetriedCommit(s: State, i: nat, id: nat)
    requires Retried(s) && Enabled(s, TryCommit(i, id))
    ensures Retried(Apply(s, TryCommit(i, id)))
  {
  }

  lemma RetriedMove(s: State, st: Step)
    requires Retried(s) && Enabled(s, st)
    requires !st.Hold? && !st.DropIndices? && !st.Select? && !st.Purge? && !st.TryCommit?
    ensures Retried(Apply(s, st))
  {
  }

  lemma {:induction false} RunKeepsGenuine(s: State, steps: seq<Step>)
    requires Inv(s) && Genuine(s) && CanRun(s, steps)
    ensures Genuine(Run(s, steps))
    decreases |steps|
  {
    if steps != [] {
      var st := steps[0];
      BodiesStep(s, st);
      DocsStep(s, st);
      SizesStep(s, st);
      RetriedStep(s, st);
      StepKeepsInv(s, st);
      RunKeepsGenuine(Apply(s, st), steps[1..]);
    }
  }

  lemma EveryRunIsGenuine(steps: seq<Step>)
    requires CanRun(INIT, steps)
    ensures Genuine(Run(INIT, steps))
  {
    InitInv();
    RunKeepsGenuine(INIT, steps);
  }

  // ----- what it means ------------------------------------------------------------------

  /** The body opens to a delivered mail with this fingerprint, byte for byte. */
  ghost predicate OpensAsDelivered(s: State, h: Hash) {
    h in s.blobs &&
    exists i :: 0 <= i < |s.copies| && s.copies[i].mail.hash == h && s.blobs[h] == EmlBlob(s.copies[i].mail)
  }

  /** Every run: what opens as a body is a delivered mail, filed under its fingerprint. */
  lemma BodyIsDeliveredMail(steps: seq<Step>, h: Hash)
    requires CanRun(INIT, steps) && h in Run(INIT, steps).blobs && Run(INIT, steps).blobs[h].EmlBlob?
    ensures OpensAsDelivered(Run(INIT, steps), h)
  {
    EveryRunIsGenuine(steps);
    var s := Run(INIT, steps);
    assert BodyGenuine(s, h);
    var i :| 0 <= i < |s.copies| && s.copies[i].mail == s.blobs[h].mail;
    assert s.copies[i].mail.hash == h;
  }

  /** Every run: a document carries the id and time of its message and describes a
      delivered mail with that message's fingerprint. */
  lemma DocumentIsDeliveredMail(steps: seq<Step>, k: DocKey)
    requires CanRun(INIT, steps) && k in Run(INIT, steps).index
    ensures var s, d := Run(INIT, steps), Run(INIT, steps).index[k];
            && d.docId == k.id && k.id in s.log && d.archivedAt == s.log[k.id].signedAt
            && d.mail.hash == s.log[k.id].mail.hash
            && exists i :: 0 <= i < |s.copies| && s.copies[i].mail == d.mail
  {
    EveryRunIsGenuine(steps);
    InitInv();
    RunKeepsInv(INIT, steps);
    assert DocOk(Run(INIT, steps), k);
  }

  /** Every run: a row states fingerprint, time and size of a delivered mail, and a content
      the size that a committed mail gives for it. */
  lemma RowIsDeliveredMail(steps: seq<Step>, id: nat)
    requires CanRun(INIT, steps) && id in Run(INIT, steps).db.messages
    ensures var s := Run(INIT, steps);
            var r := s.db.messages[id];
            && id in s.log && r.signedAt == s.log[id].signedAt && r.size == s.log[id].mail.size
            && r.archiveHash == r.bodySha == s.log[id].mail.hash
            && exists i :: 0 <= i < |s.copies| && s.copies[i].mail == s.log[id].mail
  {
    EveryRunIsGenuine(steps);
    InitInv();
    RunKeepsInv(INIT, steps);
    var s := Run(INIT, steps);
    assert RowLogged(s, id) && OwnerOk(s, id);
  }

  lemma SizeIsStated(steps: seq<Step>, h: Hash)
    requires CanRun(INIT, steps) && h in Run(INIT, steps).db.attachments
    ensures var s := Run(INIT, steps);
            exists id, a | id in s.log && a in s.log[id].mail.atts ::
              a.sha == h && a.size == s.db.attachments[h].size
  {
    EveryRunIsGenuine(steps);
    var s := Run(INIT, steps);
    assert SizeStated(s, h, s.db.attachments[h].size);
  }

  /** Every run: what is in the dead-letter queue has been given its second delivery. */
  lemma DeadWasRetried(steps: seq<Step>, i: nat)
    requires CanRun(INIT, steps) && i < |Run(INIT, steps).copies| && Run(INIT, steps).copies[i].loc.Dead?
    ensures Run(INIT, steps).copies[i].redelivered
  {
    EveryRunIsGenuine(steps);
  }
}
