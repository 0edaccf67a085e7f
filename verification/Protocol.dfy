/** The archiving protocol as a step system: the SMTP hand-off, the `raw_mail` queue,
    any number of competing workers, the dead-letter queue and its replay, and the
    retention worker. A run is any interleaving of enabled steps.

    Copies are numbered by their position in `copies` and never forgotten. `log`,
    `purged`, `dropped`, `accepted` and the counters only record history: no step
    looks at them, except that a new row id must be new. `selected` is the batch that
    the retention worker has read and not yet purged, `seen` the tables it read it from;
    they may change meanwhile. */
module Protocol {
  import opened Wrappers
  import opened Catalog
  import opened Store

  /** How far a delivery is inside `ArchivePipeline.process`. */
  datatype Pc =
    | Started(signedAt: int)               // parsed, fingerprint and clock taken
    | Prechecked(signedAt: int)            // the dedup lookup found nothing
    | Storing(signedAt: int, put: nat, rows: nat)   // body stored, `put` contents stored, `rows` of them upserted
    | Violated(rival: nat)                 // rolled back: row `rival` holds the hash
    | Indexing(entry: Entry)               // about to write the search document
    | Finished(row: nat)                   // `process` returned; row it concerned

  datatype Loc =
    | Queued
    | InFlight(pc: Pc)
    | Dead(replay: Option<nat>)            // in the DLQ; copy it was republished as
    | Acked(row: nat)
    | Moved(to: nat)                       // left the DLQ after a replay

  datatype Copy = Copy(mail: Mail, redelivered: bool, loc: Loc)

  /** A committed row: what was archived, when, and the copy that must index it. */
  datatype Commit = Commit(mail: Mail, signedAt: int, owner: nat)

  datatype State = State(
    copies: seq<Copy>,
    db: Db,
    blobs: Blobs,
    index: Index,
    log: map<nat, Commit>,
    purged: set<nat>,
    dropped: set<int>,
    selected: seq<nat>,
    seen: Db,
    accepted: set<Mail>,
    deliveries: nat,
    requeues: nat)

  const INIT := State([], EMPTY_DB, map[], map[], map[], {}, {}, [], EMPTY_DB, {}, 0, 0)

  datatype PublishOutcome = Confirmed | Refused | Unconfirmed   // Unconfirmed: stored, but the publish raised
  datatype Reply = R250 | R451 | R552

  datatype Step =
    | Smtp(mail: Mail, limit: nat, broker: PublishOutcome)
    | Deliver(i: nat, now: int)
    | Precheck(i: nat)
    | StoreBody(i: nat)
    | StoreAtt(i: nat)
    | Upsert(i: nat)                       // takes the row lock
    | TryCommit(i: nat, id: nat)
    | Lookup(i: nat)
    | WriteDoc(i: nat)
    | Ack(i: nat)
    | Requeue(i: nat)                      // transient database error, or the worker died
    | Fail(i: nat)                         // any other exception
    | ReplayPublish(i: nat)
    | ReplayAck(i: nat)
    | ReplayAbort(i: nat)
    | Hold(id: nat, hold: bool)
    | DropIndices(cutoff: int, kept: set<int>)   // deleting the indices of the days `kept` failed
    | Select(cutoff: int, batch: seq<nat>)       // a new run forgets the batch of one that died
    | Purge

  function Answer(mail: Mail, limit: nat, broker: PublishOutcome): Reply {
    if mail.size > limit then R552
    else if broker.Confirmed? then R250
    else R451
  }

  predicate Flying(s: State, i: nat) { i < |s.copies| && s.copies[i].loc.InFlight? }

  /** No open transaction has upserted a content that the batch links to: the row lock of
      an upsert keeps the purge waiting until the worker commits or rolls back. */
  predicate Unlocked(s: State, batch: seq<nat>) {
    forall i | 0 <= i < |s.copies| && s.copies[i].loc.InFlight? && s.copies[i].loc.pc.Storing? ::
      CopyUnlocked(s.db.links, s.copies[i].mail.atts, s.copies[i].loc.pc.rows, batch)
  }

  predicate CopyUnlocked(links: set<Link>, atts: seq<Att>, rows: nat, batch: seq<nat>) {
    forall n | 0 <= n < rows && n < |atts| :: forall id | id in batch :: Link(id, atts[n].sha) !in links
  }

  predicate Enabled(s: State, st: Step) {
    match st
    case Smtp(_, _, _) => true
    case Deliver(i, _) => i < |s.copies| && s.copies[i].loc.Queued?
    case Precheck(i) => Flying(s, i) && s.copies[i].loc.pc.Started?
    case StoreBody(i) => Flying(s, i) && s.copies[i].loc.pc.Prechecked?
    case StoreAtt(i) =>
      && Flying(s, i) && s.copies[i].loc.pc.Storing?
      && s.copies[i].loc.pc.rows == s.copies[i].loc.pc.put < |s.copies[i].mail.atts|
    case Upsert(i) => Flying(s, i) && s.copies[i].loc.pc.Storing? && s.copies[i].loc.pc.rows < s.copies[i].loc.pc.put
    case TryCommit(i, id) =>
      && Flying(s, i) && s.copies[i].loc.pc.Storing? && id !in s.log
      && s.copies[i].loc.pc.rows == s.copies[i].loc.pc.put == |s.copies[i].mail.atts|
    case Lookup(i) => Flying(s, i) && s.copies[i].loc.pc.Violated?
    case WriteDoc(i) => Flying(s, i) && s.copies[i].loc.pc.Indexing?
    case Ack(i) => Flying(s, i) && s.copies[i].loc.pc.Finished?
    case Requeue(i) => Flying(s, i)
    case Fail(i) => Flying(s, i)
    case ReplayPublish(i) => i < |s.copies| && s.copies[i].loc == Dead(None)
    case ReplayAck(i) => i < |s.copies| && s.copies[i].loc.Dead? && s.copies[i].loc.replay.Some?
    case ReplayAbort(i) => i < |s.copies| && s.copies[i].loc.Dead? && s.copies[i].loc.replay.Some?
    case Hold(_, _) => true
    case DropIndices(_, _) => true
    case Select(cutoff, batch) => IsBatch(s.db, cutoff, BATCH_LIMIT, batch)
    case Purge => Unlocked(s, s.selected)
  }

  function Move(s: State, i: nat, loc: Loc): State
    requires i < |s.copies|
  {
    s.(copies := s.copies[i := s.copies[i].(loc := loc)])
  }

  /** reject(requeue=True): the broker marks the copy as redelivered. */
  function Return(s: State, i: nat): State
    requires i < |s.copies|
  {
    s.(copies := s.copies[i := s.copies[i].(redelivered := true, loc := Queued)])
  }

  /** The `except Exception` branch of the consumer. */
  function Reject(s: State, i: nat): State
    requires i < |s.copies|
  {
    if s.copies[i].redelivered then Move(s, i, Dead(None)) else Return(s, i)
  }

  function Disown(log: map<nat, Commit>, i: nat, j: nat): map<nat, Commit> {
    map id | id in log :: if log[id].owner == i then log[id].(owner := j) else log[id]
  }

  function Apply(s: State, st: Step): State
    requires Enabled(s, st)
  {
    match st
    case Smtp(mail, limit, broker) =>
      var queued := mail.size <= limit && !broker.Refused?;
      s.(copies := if queued then s.copies + [Copy(mail, false, Queued)] else s.copies,
         accepted := if Answer(mail, limit, broker) == R250 then s.accepted + {mail} else s.accepted)
    case Deliver(i, now) => Move(s, i, InFlight(Started(now))).(deliveries := s.deliveries + 1)
    case Precheck(i) =>
      var mail := s.copies[i].mail;
      Move(s, i, InFlight(if mail.hash in s.db.dedup then Indexing(s.db.dedup[mail.hash])
                          else Prechecked(s.copies[i].loc.pc.signedAt)))
    case StoreBody(i) =>
      Move(s, i, InFlight(Storing(s.copies[i].loc.pc.signedAt, 0, 0))).(blobs := PutBody(s.blobs, s.copies[i].mail))
    case StoreAtt(i) =>
      var pc := s.copies[i].loc.pc;
      Move(s, i, InFlight(pc.(put := pc.put + 1))).(blobs := PutAtt(s.blobs, s.copies[i].mail.atts[pc.put]))
    case Upsert(i) =>
      var pc := s.copies[i].loc.pc;
      Move(s, i, InFlight(pc.(rows := pc.rows + 1)))
    case TryCommit(i, id) =>
      var c := s.copies[i];
      var (db, outcome) := Transact(s.db, c.mail, id, c.loc.pc.signedAt);
      (match outcome
       case Committed =>
         Move(s, i, InFlight(Indexing(Entry(id, c.loc.pc.signedAt))))
         .(db := db, log := s.log[id := Commit(c.mail, c.loc.pc.signedAt, i)])
       case Duplicate => Move(s, i, InFlight(Violated(s.db.dedup[c.mail.hash].id)))
       case LinkClash => Reject(s, i))
    case Lookup(i) =>
      var c := s.copies[i];
      Move(s, i, InFlight(if c.mail.hash in s.db.dedup then Indexing(s.db.dedup[c.mail.hash])
                          else Finished(c.loc.pc.rival)))
    case WriteDoc(i) =>
      var e := s.copies[i].loc.pc.entry;
      Move(s, i, InFlight(Finished(e.id))).(index := PutDoc(s.index, e, s.copies[i].mail))
    case Ack(i) => Move(s, i, Acked(s.copies[i].loc.pc.row))
    case Requeue(i) => Return(s, i).(requeues := s.requeues + 1)
    case Fail(i) => Reject(s, i)
    case ReplayPublish(i) =>
      var j := |s.copies|;
      var m := Move(s, i, Dead(Some(j)));
      m.(copies := m.copies + [Copy(s.copies[i].mail, false, Queued)], log := Disown(s.log, i, j))
    case ReplayAck(i) => Move(s, i, Moved(s.copies[i].loc.replay.value))
    case ReplayAbort(i) => Move(s, i, Dead(None))
    case Hold(id, hold) => s.(db := SetHold(s.db, id, hold))
    case DropIndices(cutoff, kept) =>
      s.(index := DropBefore(s.index, Day(cutoff), kept),
         dropped := s.dropped + DroppedDays(s.index, Day(cutoff), kept))
    case Select(_, batch) => s.(selected := batch, seen := s.db)
    case Purge =>
      s.(db := PurgeSeen(s.db, s.seen, s.selected), blobs := s.blobs - FreedAll(s.seen, s.selected),
         purged := s.purged + Ids(s.selected), selected := [], seen := EMPTY_DB)
  }

  ghost predicate CanRun(s: State, steps: seq<Step>)
    decreases |steps|
  {
    steps == [] || (Enabled(s, steps[0]) && CanRun(Apply(s, steps[0]), steps[1..]))
  }

  ghost function Run(s: State, steps: seq<Step>): State
    requires CanRun(s, steps)
    decreases |steps|
  {
    if steps == [] then s else Run(Apply(s, steps[0]), steps[1..])
  }

  lemma RunCons(s: State, st: Step, rest: seq<Step>)
    requires Enabled(s, st) && CanRun(Apply(s, st), rest)
    ensures CanRun(s, [st] + rest) && Run(s, [st] + rest) == Run(Apply(s, st), rest)
  {
  }

  lemma {:induction false} RunSnoc(s: State, a: seq<Step>, st: Step)
    requires CanRun(s, a) && Enabled(Run(s, a), st)
    ensures CanRun(s, a + [st]) && Run(s, a + [st]) == Apply(Run(s, a), st)
    decreases |a|
  {
    if a == [] {
      RunCons(s, st, []);
      assert a + [st] == [st] + [];
    } else {
      RunSnoc(Apply(s, a[0]), a[1..], st);
      RunCons(s, a[0], a[1..] + [st]);
      assert a + [st] == [a[0]] + (a[1..] + [st]);
    }
  }

  lemma {:induction false} RunConcat(s: State, a: seq<Step>, b: seq<Step>)
    requires CanRun(s, a) && CanRun(Run(s, a), b)
    ensures CanRun(s, a + b) && Run(s, a + b) == Run(Run(s, a), b)
    decreases |b|
  {
    if b == [] {
      assert a + b == a;
    } else {
      RunSnoc(s, a, b[0]);
      RunConcat(s, a + [b[0]], b[1..]);
      HeadMoves(a, b);
    }
  }

  lemma HeadMoves(a: seq<Step>, b: seq<Step>)
    requires b != []
    ensures a + [b[0]] + b[1..] == a + b
  {
  }

  lemma ThreeSteps(s: State, a: Step, b: Step, c: Step)
    requires Enabled(s, a) && Enabled(Apply(s, a), b) && Enabled(Apply(Apply(s, a), b), c)
    ensures CanRun(s, [a, b, c]) && Run(s, [a, b, c]) == Apply(Apply(Apply(s, a), b), c)
  {
    var t := Apply(s, a);
    RunCons(Apply(t, b), c, []);
    RunCons(t, b, [c]);
    RunCons(s, a, [b, c]);
    assert [c] + [] == [c] && [b] + [c] == [b, c] && [a] + [b, c] == [a, b, c];
  }

  /** The sequence of row ids never runs out. */
  lemma {:induction false} FreshId(ids: set<nat>) returns (id: nat)
    ensures forall other | other in ids :: other < id
    decreases |ids|
  {
    if ids == {} {
      id := 0;
    } else {
      var x :| x in ids;
      var above := FreshId(ids - {x});
      id := if above > x then above else x + 1;
      assert ids == (ids - {x}) + {x};
    }
  }
}
