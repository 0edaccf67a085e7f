/** The queue side as running code: the SMTP hand-off, the consumer loop and the replay
    of the dead-letter queue, each proved against the steps of `Protocol`. */
module MailQueue {
  import opened Wrappers
  import opened Catalog
  import opened Protocol
  import opened Delivery

  const REPLAY_LIMIT := 10000

  /** How the handler of one delivery ended. */
  datatype Outcome =
    | Returned(row: nat)
    | Transient        // OperationalError or InterfaceError
    | Raised           // anything else

  /** Where a replay loses its connection: before publishing copy `at`, or after
      publishing it and before acknowledging the dead letter. */
  datatype Fault = Never | AtPublish(at: nat) | AtAck(at: nat)

  /** How a delivery of copy `i` leaves the queues: acknowledged, back in the queue and
      marked, or dead at the second failure. No other copy moves. */
  predicate Ended(was: seq<Copy>, now: seq<Copy>, i: nat, outcome: Outcome) {
    && i < |was| == |now|
    && (forall k | 0 <= k < |was| && k != i :: now[k] == was[k])
    && (outcome.Returned? ==> now[i] == was[i].(loc := Acked(outcome.row)))
    && (outcome.Transient? ==> now[i] == was[i].(redelivered := true, loc := Queued))
    && (outcome.Raised? && !was[i].redelivered ==> now[i] == was[i].(redelivered := true, loc := Queued))
    && (outcome.Raised? && was[i].redelivered ==> now[i] == was[i].(loc := Dead(None)))
  }

  predicate Settled(loc: Loc) { !loc.Queued? && !loc.InFlight? }

  class RawMail {
    var copies: seq<Copy>
    var deliveries: nat
    var requeues: nat

    /** The queues as a protocol state. */
    ghost function Queues(): State
      reads this
    {
      INIT.(copies := copies, deliveries := deliveries, requeues := requeues)
    }

    constructor ()
      ensures Queues() == INIT
    {
      copies, deliveries, requeues := [], 0, 0;
    }

    method PublishRawMail(mail: Mail)
      modifies this`copies
      ensures copies == old(copies) + [Copy(mail, false, Queued)]
    {
      copies := copies + [Copy(mail, false, Queued)];
    }

    /** `handle_DATA` */
    method HandleData(mail: Mail, limit: nat, broker: PublishOutcome) returns (reply: Reply)
      modifies this`copies
      ensures reply == Answer(mail, limit, broker)
      ensures copies == Apply(old(Queues()), Smtp(mail, limit, broker)).copies
      ensures reply == R552 <==> mail.size > limit
      ensures reply == R451 <==> mail.size <= limit && broker != Confirmed
      ensures reply == R250 <==> mail.size <= limit && broker == Confirmed
      ensures copies == if mail.size <= limit && broker != Refused then old(copies) + [Copy(mail, false, Queued)]
                        else old(copies)
    {
      if mail.size > limit {
        return R552;
      }
      if broker.Refused? {
        return R451;
      }
      PublishRawMail(mail);
      return if broker.Unconfirmed? then R451 else R250;
    }

    // ----- consumer ------------------------------------------------------------

    /** ack, reject with requeue, or reject to the dead-letter exchange. */
    method Settle(i: nat, outcome: Outcome)
      requires i < |copies| && copies[i].loc.InFlight?
      modifies this`copies, this`requeues
      ensures outcome.Returned? ==> Queues() == Move(old(Queues()), i, Acked(outcome.row))
      ensures outcome.Transient? ==> Queues() == Apply(old(Queues()), Requeue(i))
      ensures outcome.Raised? ==> Queues() == Apply(old(Queues()), Fail(i))
      ensures Ended(old(copies), copies, i, outcome)
    {
      var c := copies[i];
      match outcome {
        case Returned(row) =>
          copies := copies[i := c.(loc := Acked(row))];
        case Transient =>
          copies := copies[i := c.(redelivered := true, loc := Queued)];
          requeues := requeues + 1;
        case Raised =>
          if c.redelivered {
            copies := copies[i := c.(loc := Dead(None))];
          } else {
            copies := copies[i := c.(redelivered := true, loc := Queued)];
          }
      }
    }

    method NextQueued() returns (i: Option<nat>)
      ensures i.Some? ==> i.value < |copies| && copies[i.value].loc.Queued?
      ensures i.None? ==> forall k | 0 <= k < |copies| :: !copies[k].loc.Queued?
    {
      for k := 0 to |copies|
        invariant forall n | 0 <= n < k :: !copies[n].loc.Queued?
      {
        if copies[k].loc.Queued? {
          return Some(k);
        }
      }
      return None;
    }

    /** One delivery and its end. */
    method Turn(i: nat, outcome: Outcome)
      requires i < |copies| && copies[i].loc.Queued?
      modifies this
      ensures |copies| == |old(copies)| && copies == old(copies)[i := copies[i]]
      ensures copies[i].mail == old(copies)[i].mail && !copies[i].loc.InFlight?
      ensures Ended(old(copies), copies, i, outcome)
      ensures deliveries == old(deliveries) + 1
      ensures requeues == old(requeues) + if outcome.Transient? then 1 else 0
      ensures Work(copies) + 1 <= Work(old(copies)) + requeues - old(requeues)
    {
      ghost var before := copies;
      copies := copies[i := copies[i].(loc := InFlight(Started(0)))];
      deliveries := deliveries + 1;
      Settle(i, outcome);
      assert copies == before[i := copies[i]];
      WorkUpdate(before, i, copies[i]);
    }

    /** The consumer loop on a queue nobody else fills. `outcome(n)` is how delivery n
        ends; after delivery `quiet` the database stays up. The loop empties the queue:
        every copy is acknowledged or dead, after at most two deliveries each plus one
        for every transient error. */
    method ConsumeRawMail(outcome: nat -> Outcome, quiet: nat)
      requires forall n: nat | n >= quiet :: !outcome(n).Transient?
      requires forall k | 0 <= k < |copies| :: !copies[k].loc.InFlight?
      modifies this
      ensures |copies| == |old(copies)|
      ensures forall k | 0 <= k < |copies| :: copies[k].mail == old(copies)[k].mail && Settled(copies[k].loc)
      ensures deliveries - old(deliveries) <= Work(old(copies)) + (requeues - old(requeues))
      ensures requeues - old(requeues) <= quiet
      ensures forall k | 0 <= k < |copies| && !old(copies)[k].loc.Queued? :: copies[k] == old(copies)[k]
      ensures (forall n: nat :: outcome(n).Returned?) ==>
                forall k | 0 <= k < |copies| && old(copies)[k].loc.Queued? :: copies[k].loc.Acked?
      ensures (forall n: nat :: outcome(n).Raised?) ==>
                forall k | 0 <= k < |copies| && old(copies)[k].loc.Queued? :: copies[k].loc == Dead(None)
    {
      var n := 0;
      var next: Option<nat> := NextQueued();
      while next.Some?
        invariant next.Some? ==> next.value < |copies| && copies[next.value].loc.Queued?
        invariant next.None? ==> forall k | 0 <= k < |copies| :: !copies[k].loc.Queued?
        invariant |copies| == |old(copies)|
        invariant forall k | 0 <= k < |copies| :: copies[k].mail == old(copies)[k].mail && !copies[k].loc.InFlight?
        invariant deliveries - old(deliveries) + Work(copies) <= Work(old(copies)) + (requeues - old(requeues))
        invariant old(requeues) <= requeues && requeues - old(requeues) <= Min(n, quiet)
        invariant forall k | 0 <= k < |copies| && !old(copies)[k].loc.Queued? :: copies[k] == old(copies)[k]
        invariant (forall n: nat :: outcome(n).Returned?) ==>
                    forall k | 0 <= k < |copies| && old(copies)[k].loc.Queued? ::
                      copies[k].loc.Queued? || copies[k].loc.Acked?
        invariant (forall n: nat :: outcome(n).Raised?) ==>
                    forall k | 0 <= k < |copies| && old(copies)[k].loc.Queued? ::
                      copies[k].loc.Queued? || copies[k].loc == Dead(None)
        decreases if n < quiet then quiet - n else 0, Work(copies)
      {
        Turn(next.value, outcome(n));
        n := n + 1;
        next := NextQueued();
      }
    }

    // ----- replay ----------------------------------------------------------------

    /** One dead letter: publish, then acknowledge unless the connection is lost. */
    method ReplayDead(i: nat, lost: bool, ghost was: seq<Copy>, ghost q0: State, ghost steps: seq<Step>)
      returns (ghost more: seq<Step>)
      requires Replaying(was, copies, i) && i < |was| && copies[i].loc == Dead(None) && Reaches(q0, steps, Queues())
      modifies this`copies
      ensures copies == ReplayOne(old(copies), i, lost)
      ensures Reaches(q0, more, Queues()) && Replaying(was, copies, if lost then i else i + 1)
    {
      ghost var last := if lost then ReplayAbort(i) else ReplayAck(i);
      ReplayingOn(was, copies, i);
      ReplayIsRun(q0, steps, Queues(), i, last);
      more := steps + [ReplayPublish(i), last];
      var copy := |copies|;
      PublishRawMail(copies[i].mail);
      if !lost {
        copies := copies[i := copies[i].(loc := Moved(copy))];
      }
    }

    /** `dlq_replay`: publish first, acknowledge second. No dead letter disappears
        without a fresh queued copy of the same mail, wherever the connection breaks, and
        the call is a run of the protocol, so all that holds of runs holds of it. */
    method DlqReplay(fault: Fault) returns (moved: nat, ghost steps: seq<Step>)
      modifies this`copies
      ensures Reaches(old(Queues()), steps, Queues())
      ensures moved <= REPLAY_LIMIT
      ensures |old(copies)| + moved <= |copies| <= |old(copies)| + moved + (if fault.AtAck? then 1 else 0)
      ensures forall k | 0 <= k < |old(copies)| :: Replayed(old(copies)[k], copies[k], copies, |old(copies)|)
      ensures InOrder(old(copies), copies)
      ensures forall k | |old(copies)| <= k < |copies| :: copies[k].loc.Queued? && !copies[k].redelivered
      ensures fault.Never? && moved < REPLAY_LIMIT ==>
                forall k | 0 <= k < |old(copies)| :: copies[k].loc != Dead(None)
    {
      ghost var was, q0 := copies, Queues();
      var n, i := |copies|, 0;
      moved, steps := 0, [];
      while i < n && moved < REPLAY_LIMIT
        invariant i <= n && moved <= REPLAY_LIMIT && |copies| == n + moved
        invariant Replaying(was, copies, i)
        invariant Reaches(q0, steps, Queues())
      {
        if copies[i].loc == Dead(None) {
          if fault == AtPublish(moved) {
            return;
          }
          var lost := fault == AtAck(moved);
          steps := ReplayDead(i, lost, was, q0, steps);
          if lost {
            return;
          }
          moved := moved + 1;
        }
        i := i + 1;
      }
    }
  }

  /** A copy after a replay: untouched, or a dead letter that now lives on as a new copy. */
  predicate Replayed(was: Copy, now: Copy, copies: seq<Copy>, n: nat) {
    now == was ||
    (was.loc == Dead(None) && now == was.(loc := now.loc) && now.loc.Moved?
     && n <= now.loc.to < |copies| && copies[now.loc.to].mail == was.mail)
  }

  predicate JustMoved(was: Copy, now: Copy) { was.loc.Dead? && now.loc.Moved? }

  /** Dead letters go to fresh copies of their own, in order. */
  predicate InOrder(was: seq<Copy>, now: seq<Copy>)
    requires |was| <= |now|
  {
    forall j, k | 0 <= j < k < |was| && JustMoved(was[j], now[j]) && JustMoved(was[k], now[k]) ::
      now[j].loc.to < now[k].loc.to
  }

  /** The replay has dealt with the first `i` of the copies `was`. */
  predicate Replaying(was: seq<Copy>, now: seq<Copy>, i: nat) {
    && i <= |was| <= |now|
    && (forall k | 0 <= k < |was| :: Replayed(was[k], now[k], now, |was|))
    && (forall k | i <= k < |was| :: now[k] == was[k])
    && (forall k | 0 <= k < i :: now[k].loc != Dead(None))
    && (forall k | |was| <= k < |now| :: now[k].loc.Queued? && !now[k].redelivered)
    && InOrder(was, now)
  }

  lemma ReplayingOn(was: seq<Copy>, now: seq<Copy>, i: nat)
    requires Replaying(was, now, i) && i < |was| && was[i].loc == Dead(None)
    ensures Replaying(was, ReplayOne(now, i, true), i)
    ensures Replaying(was, ReplayOne(now, i, false), i + 1)
  {
  }

  /** Publishing one dead letter and acknowledging it, or losing the connection in
      between. */
  function ReplayOne(copies: seq<Copy>, i: nat, lost: bool): seq<Copy>
    requires i < |copies|
  {
    var published := copies + [Copy(copies[i].mail, false, Queued)];
    if lost then published else published[i := copies[i].(loc := Moved(|copies|))]
  }

  lemma ReplayOneSteps(s: State, i: nat, last: Step)
    requires Enabled(s, ReplayPublish(i)) && s.log == map[] && last in {ReplayAck(i), ReplayAbort(i)}
    ensures var t := Apply(s, ReplayPublish(i));
            Enabled(t, last) && Apply(t, last) == s.(copies := ReplayOne(s.copies, i, last.ReplayAbort?))
  {
    assert Disown(s.log, i, |s.copies|) == s.log;
    var t := Apply(s, ReplayPublish(i));
    assert Apply(t, last).copies == ReplayOne(s.copies, i, last.ReplayAbort?);
  }

  ghost predicate Reaches(q: State, steps: seq<Step>, s: State) {
    CanRun(q, steps) && Run(q, steps) == s
  }

  lemma ReplayIsRun(q: State, steps: seq<Step>, s: State, i: nat, last: Step)
    requires Reaches(q, steps, s) && Enabled(s, ReplayPublish(i)) && s.log == map[]
    requires last in {ReplayAck(i), ReplayAbort(i)}
    ensures Reaches(q, steps + [ReplayPublish(i), last], s.(copies := ReplayOne(s.copies, i, last.ReplayAbort?)))
  {
    ReplayOneSteps(s, i, last);
    RunSnoc(q, steps, ReplayPublish(i));
    RunSnoc(q, steps + [ReplayPublish(i)], last);
    assert steps + [ReplayPublish(i), last] == steps + [ReplayPublish(i)] + [last];
  }
}
