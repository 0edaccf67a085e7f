/** What each kind of protocol step touches, and what it leaves alone. */
module Frames {
  import opened Catalog
  import opened Store
  import opened Protocol
  import opened Conservation

  function NextAtt(s: State, i: nat): Att
    requires Enabled(s, StoreAtt(i))
  {
    s.copies[i].mail.atts[s.copies[i].loc.pc.put]
  }

  /** The tables, and what is selected of them, are as before. */
  ghost predicate TablesStill(s: State, t: State) {
    t.db == s.db && t.selected == s.selected && t.seen == s.seen
  }

  lemma StillWorking(s: State, st: Step)
    requires Enabled(s, st)
    requires st.Deliver? || st.Precheck? || st.StoreBody? || st.StoreAtt? || st.Upsert? || st.Lookup? || st.WriteDoc?
    ensures TablesStill(s, Apply(s, st)) && Apply(s, st).log == s.log
  {
  }

  lemma StillQueueing(s: State, st: Step)
    requires Enabled(s, st)
    requires st.Smtp? || st.Ack? || st.Requeue? || st.Fail? || st.ReplayAck? || st.ReplayAbort? || st.DropIndices?
    ensures TablesStill(s, Apply(s, st)) && Apply(s, st).log == s.log
  {
  }

  ghost predicate MailsLogged(s: State, t: State) {
    forall id | id in s.log :: id in t.log && t.log[id].mail == s.log[id].mail
  }

  lemma StillReplaying(s: State, i: nat)
    requires Enabled(s, ReplayPublish(i))
    ensures TablesStill(s, Apply(s, ReplayPublish(i))) && MailsLogged(s, Apply(s, ReplayPublish(i)))
  {
  }

  lemma StillFailing(s: State, i: nat, n: nat)
    requires Enabled(s, TryCommit(i, n)) && !Commits(s, i, n)
    ensures TablesStill(s, Apply(s, TryCommit(i, n))) && Apply(s, TryCommit(i, n)).log == s.log
  {
  }

  lemma StepsStill(s: State, st: Step)
    requires Enabled(s, st) && !st.Purge? && !st.Select? && !st.Hold?
    requires st.TryCommit? ==> !Commits(s, st.i, st.id)
    ensures TablesStill(s, Apply(s, st)) && MailsLogged(s, Apply(s, st))
  {
    match st
    case ReplayPublish(i) => StillReplaying(s, i);
    case TryCommit(i, n) => StillFailing(s, i, n);
    case Deliver(_, _) => StillWorking(s, st);
    case Precheck(_) => StillWorking(s, st);
    case StoreBody(_) => StillWorking(s, st);
    case StoreAtt(_) => StillWorking(s, st);
    case Upsert(_) => StillWorking(s, st);
    case Lookup(_) => StillWorking(s, st);
    case WriteDoc(_) => StillWorking(s, st);
    case _ => StillQueueing(s, st);
  }

  /** What a step does to the bucket. */
  function Bucket(s: State, st: Step): Blobs
    requires Enabled(s, st)
  {
    match st
    case StoreBody(i) => PutBody(s.blobs, s.copies[i].mail)
    case StoreAtt(i) => PutAtt(s.blobs, NextAtt(s, i))
    case Purge => s.blobs - FreedAll(s.seen, s.selected)
    case _ => s.blobs
  }

  lemma BucketIs(s: State, st: Step)
    requires Enabled(s, st)
    ensures Apply(s, st).blobs == Bucket(s, st)
  {
  }

  lemma OtherStepsKeepIndex(s: State, st: Step)
    requires Enabled(s, st) && !st.DropIndices?
    ensures Apply(s, st).index == if st.WriteDoc? then PutDoc(s.index, s.copies[st.i].loc.pc.entry, s.copies[st.i].mail)
                                  else s.index
  {
  }
}
