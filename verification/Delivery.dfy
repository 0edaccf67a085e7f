/** How often the consumer can be handed mail, and the mails that never get through. */
module Delivery {
  import opened Wrappers
  import opened Catalog
  import opened Store
  import opened Protocol
  import opened Conservation
  import opened Worker

  // ----- no poison loop --------------------------------------------------------

  /** Deliveries a copy can still cause unless it is requeued as transient. */
  function Weight(c: Copy): nat {
    match c.loc
    case Queued => if c.redelivered then 1 else 2
    case InFlight(_) => if c.redelivered then 0 else 1
    case _ => 0
  }

  function Work(copies: seq<Copy>): nat {
    if copies == [] then 0 else Work(copies[..|copies| - 1]) + Weight(copies[|copies| - 1])
  }

  lemma {:induction false} WorkUpdate(copies: seq<Copy>, i: nat, c: Copy)
    requires i < |copies|
    ensures Work(copies[i := c]) == Work(copies) - Weight(copies[i]) + Weight(c)
  {
    var n := |copies| - 1;
    if i < n {
      WorkUpdate(copies[..n], i, c);
      assert copies[i := c][..n] == copies[..n][i := c];
    } else {
      assert copies[i := c][..n] == copies[..n];
    }
  }

  lemma WorkAppend(copies: seq<Copy>, c: Copy)
    ensures Work(copies + [c]) == Work(copies) + Weight(c)
  {
  }

  function Potential(s: State): int {
    s.deliveries + Work(s.copies) - 2 * |s.copies| - s.requeues
  }

  /** Steps that move one delivery or one dead letter. */
  predicate OneCopy(st: Step) {
    !st.Smtp? && !st.Hold? && !st.DropIndices? && !st.Select? && !st.Purge? && !st.ReplayPublish?
  }

  lemma OneCopyStep(s: State, st: Step)
    requires Enabled(s, st) && OneCopy(st)
    ensures var t := Apply(s, st);
            && st.i < |s.copies| == |t.copies|
            && t.copies == s.copies[st.i := t.copies[st.i]]
            && t.deliveries + Weight(t.copies[st.i]) - t.requeues <=
                 s.deliveries + Weight(s.copies[st.i]) - s.requeues
  {
    if st.TryCommit? {
      CommitWeight(s, st.i, st.id);
    }
  }

  lemma CommitWeight(s: State, i: nat, id: nat)
    requires Enabled(s, TryCommit(i, id))
    ensures var t := Apply(s, TryCommit(i, id));
            && |t.copies| == |s.copies| && t.copies == s.copies[i := t.copies[i]]
            && t.deliveries == s.deliveries && t.requeues == s.requeues
            && Weight(t.copies[i]) <= Weight(s.copies[i])
  {
  }

  lemma SmtpPotential(s: State, mail: Mail, limit: nat, broker: PublishOutcome)
    ensures Potential(Apply(s, Smtp(mail, limit, broker))) <= Potential(s)
  {
    WorkAppend(s.copies, Copy(mail, false, Queued));
  }

  lemma ReplayPotential(s: State, i: nat)
    requires Enabled(s, ReplayPublish(i))
    ensures Potential(Apply(s, ReplayPublish(i))) <= Potential(s)
  {
    var moved := Move(s, i, Dead(Some(|s.copies|))).copies;
    WorkUpdate(s.copies, i, moved[i]);
    WorkAppend(moved, Copy(s.copies[i].mail, false, Queued));
  }

  lemma OneCopyPotential(s: State, st: Step)
    requires Enabled(s, st) && OneCopy(st)
    ensures Potential(Apply(s, st)) <= Potential(s)
  {
    OneCopyStep(s, st);
    WorkUpdate(s.copies, st.i, Apply(s, st).copies[st.i]);
  }

  lemma StepPotential(s: State, st: Step)
    requires Enabled(s, st)
    ensures Potential(Apply(s, st)) <= Potential(s)
  {
    match st
    case Smtp(mail, limit, broker) => SmtpPotential(s, mail, limit, broker);
    case ReplayPublish(i) => ReplayPotential(s, i);
    case Hold(_, _) =>
    case DropIndices(_, _) =>
    case Select(_, _) =>
    case Purge =>
    case _ => OneCopyPotential(s, st);
  }

  function Delivers(steps: seq<Step>): nat {
    if steps == [] then 0 else (if steps[0].Deliver? then 1 else 0) + Delivers(steps[1..])
  }

  function Requeues(steps: seq<Step>): nat {
    if steps == [] then 0 else (if steps[0].Requeue? then 1 else 0) + Requeues(steps[1..])
  }

  function Publishes(steps: seq<Step>): nat {
    if steps == [] then 0 else (if steps[0].Smtp? || steps[0].ReplayPublish? then 1 else 0) + Publishes(steps[1..])
  }

  lemma StepCounts(s: State, st: Step)
    requires Enabled(s, st)
    ensures var t := Apply(s, st);
            && t.deliveries == s.deliveries + (if st.Deliver? then 1 else 0)
            && t.requeues == s.requeues + (if st.Requeue? then 1 else 0)
            && |t.copies| <= |s.copies| + (if st.Smtp? || st.ReplayPublish? then 1 else 0)
  {
    if OneCopy(st) { OneCopyStep(s, st); }
    if st.TryCommit? { CommitWeight(s, st.i, st.id); }
  }

  /** The counters of the state count the steps. */
  lemma {:induction false} CountersCount(s: State, steps: seq<Step>)
    requires CanRun(s, steps)
    ensures var t := Run(s, steps);
            && t.deliveries == s.deliveries + Delivers(steps) && t.requeues == s.requeues + Requeues(steps)
            && |t.copies| <= |s.copies| + Publishes(steps)
    decreases |steps|
  {
    if steps != [] {
      StepCounts(s, steps[0]);
      CountersCount(Apply(s, steps[0]), steps[1..]);
    }
  }

  /** From any state on: deliveries are bounded by the work left, two for each mail
      published meanwhile, and one for each transient error or crash. */
  lemma DeliveriesBounded(s: State, steps: seq<Step>)
    requires CanRun(s, steps)
    ensures var t := Run(s, steps);
            t.deliveries - s.deliveries <=
              Work(s.copies) + 2 * (|t.copies| - |s.copies|) + (t.requeues - s.requeues)
    ensures Delivers(steps) <= Work(s.copies) + 2 * Publishes(steps) + Requeues(steps)
  {
    RunPotential(s, steps);
    CountersCount(s, steps);
  }

  /** So from the start, counting steps alone: no mail goes round for ever. */
  lemma NoPoisonLoop(steps: seq<Step>)
    requires CanRun(INIT, steps)
    ensures Delivers(steps) <= 2 * Publishes(steps) + Requeues(steps)
  {
    DeliveriesBounded(INIT, steps);
  }

  lemma {:induction false} RunPotential(s: State, steps: seq<Step>)
    requires CanRun(s, steps)
    ensures Potential(Run(s, steps)) <= Potential(s)
    decreases |steps|
  {
    if steps != [] {
      StepPotential(s, steps[0]);
      RunPotential(Apply(s, steps[0]), steps[1..]);
    }
  }

  // ----- a content attached twice -------------------------------------------------

  ghost predicate OnlyDistinct(s: State) {
    forall id | id in s.log :: Distinct(s.log[id].mail.atts)
  }

  lemma {:induction false} OnlyDistinctCommitted(s: State, steps: seq<Step>)
    requires CanRun(s, steps) && OnlyDistinct(s)
    ensures OnlyDistinct(Run(s, steps))
    decreases |steps|
  {
    if steps != [] {
      OnlyDistinctStep(s, steps[0]);
      OnlyDistinctCommitted(Apply(s, steps[0]), steps[1..]);
    }
  }

  lemma OnlyDistinctStep(s: State, st: Step)
    requires Enabled(s, st) && OnlyDistinct(s)
    ensures OnlyDistinct(Apply(s, st))
  {
  }

  /** A mail that carries one content twice is never archived: its link rows clash on
      their primary key, outside the handler of the unique violation, so every attempt
      is an ordinary failure. No copy of it is ever acknowledged, and one is always left. */
  lemma RepeatedContentNeverArchived(steps: seq<Step>, m: Mail)
    requires CanRun(INIT, steps) && m in Run(INIT, steps).accepted
    requires forall i | 0 <= i < |Run(INIT, steps).copies| && Run(INIT, steps).copies[i].mail.hash == m.hash ::
               !Distinct(Run(INIT, steps).copies[i].mail.atts)
    ensures m.hash !in Run(INIT, steps).db.dedup
    ensures forall i | 0 <= i < |Run(INIT, steps).copies| && Run(INIT, steps).copies[i].mail.hash == m.hash ::
              !Run(INIT, steps).copies[i].loc.Acked?
    ensures HasLiveCopy(Run(INIT, steps), m.hash)
  {
    var s := Run(INIT, steps);
    InitInv();
    RunKeepsInv(INIT, steps);
    OnlyDistinctCommitted(INIT, steps);
    forall id | id in s.log ensures s.log[id].mail.hash != m.hash {
      assert OwnerOk(s, id);
      assert s.copies[s.log[id].owner].mail == s.log[id].mail;
    }
    if m.hash in s.db.dedup {
      NamedRow(s, m.hash);
    }
    forall i | 0 <= i < |s.copies| && s.copies[i].mail.hash == m.hash ensures !s.copies[i].loc.Acked? {
      assert CopyOk(s, i);
    }
    AcceptedNeverLost(steps, m);
  }

  /** Any live copy can be brought back to the main queue without touching a table. */
  lemma BackToQueue(s: State, i: nat) returns (steps: seq<Step>, j: nat)
    requires i < |s.copies| && Live(s.copies[i].loc)
    ensures CanRun(s, steps)
    ensures var t := Run(s, steps);
            && j < |t.copies| && t.copies[j].loc.Queued? && t.copies[j].mail == s.copies[i].mail
            && t.db == s.db && t.log.Keys == s.log.Keys
  {
    match s.copies[i].loc
    case Queued => steps, j := [], i;
    case InFlight(_) =>
      RunSnoc(s, [], Requeue(i));
      steps, j := [] + [Requeue(i)], i;
    case Dead(replay) =>
      steps := DeadAgain(s, i);
      j := |s.copies|;
      RunSnoc(s, steps, ReplayPublish(i));
      steps := steps + [ReplayPublish(i)];
  }

  /** A replay that broke off leaves the dead letter to the next one. */
  lemma DeadAgain(s: State, i: nat) returns (steps: seq<Step>)
    requires i < |s.copies| && s.copies[i].loc.Dead?
    ensures CanRun(s, steps) && Run(s, steps) == Move(s, i, Dead(None))
  {
    if s.copies[i].loc.replay.Some? {
      RunSnoc(s, [], ReplayAbort(i));
      steps := [] + [ReplayAbort(i)];
    } else {
      steps := [];
      assert s.copies[i := s.copies[i]] == s.copies;
    }
  }

  ghost predicate ArchivedAndIndexed(s: State, h: Hash) {
    h in s.db.dedup && KeyOf(s.db.dedup[h]) in s.index
  }

  lemma QueuedCanBeArchived(s: State, j: nat) returns (steps: seq<Step>)
    requires j < |s.copies| && s.copies[j].loc.Queued? && Distinct(s.copies[j].mail.atts)
    ensures CanRun(s, steps) && ArchivedAndIndexed(Run(s, steps), s.copies[j].mail.hash)
  {
    var t := Apply(s, Deliver(j, 0));
    if s.copies[j].mail.hash in s.db.dedup {
      DuplicateAlone(t, j);
      steps := [Precheck(j), WriteDoc(j)];
    } else {
      var id := FreshId(t.log.Keys);
      steps := NewMailAlone(t, j, id);
    }
    RunCons(s, Deliver(j, 0), steps);
    steps := [Deliver(j, 0)] + steps;
  }

  /** From any point of any run, a live copy of any other mail can still be archived and
      indexed, wherever that copy is. */
  lemma DistinctCanBeArchived(steps: seq<Step>, i: nat) returns (more: seq<Step>)
    requires CanRun(INIT, steps) && i < |Run(INIT, steps).copies| && Live(Run(INIT, steps).copies[i].loc)
    requires Distinct(Run(INIT, steps).copies[i].mail.atts)
    ensures CanRun(Run(INIT, steps), more)
    ensures ArchivedAndIndexed(Run(Run(INIT, steps), more), Run(INIT, steps).copies[i].mail.hash)
  {
    var s := Run(INIT, steps);
    var back, j := BackToQueue(s, i);
    var on := QueuedCanBeArchived(Run(s, back), j);
    RunConcat(s, back, on);
    more := back + on;
  }
}
