/** A missing search document can always be written: redelivery heals the index. */
module Healing {
  import opened Catalog
  import opened Store
  import opened Protocol
  import opened Conservation

  /** Row `id` gets its document, which says what `mail` says; no table and no blob changes. */
  ghost predicate Healed(s: State, t: State, id: nat, mail: Mail)
    requires id in s.log
  {
    && t.index == PutDoc(s.index, Entry(id, s.log[id].signedAt), mail)
    && t.db == s.db && t.blobs == s.blobs
  }

  function StepsLeft(loc: Loc): nat {
    match loc
    case Dead(_) => 4
    case Queued => 3
    case InFlight(Started(_)) => 2
    case _ => 1
  }

  lemma {:induction false} HealFrom(s: State, i: nat, id: nat) returns (steps: seq<Step>)
    requires i < |s.copies| && id in s.log && Heals(s, s.copies[i].loc, id)
    requires s.copies[i].mail.hash in s.db.dedup
    requires s.db.dedup[s.copies[i].mail.hash] == Entry(id, s.log[id].signedAt)
    ensures |steps| <= StepsLeft(s.copies[i].loc)
    ensures CanRun(s, steps) && Healed(s, Run(s, steps), id, s.copies[i].mail)
    decreases StepsLeft(s.copies[i].loc)
  {
    var rest, st, j := [], WriteDoc(i), i;
    match s.copies[i].loc {
    case Queued => st := Deliver(i, 0);
    case Dead(_) => st, j := ReplayPublish(i), |s.copies|;
    case InFlight(Started(_)) => st := Precheck(i);
    case _ =>
    }
    if !st.WriteDoc? { rest := HealFrom(Apply(s, st), j, id); }
    RunCons(s, st, rest);
    steps := [st] + rest;
  }

  /** From any point of any run, at most four steps of one copy write the document an
      archived message misses, unless retention dropped its index. */
  lemma MissingDocumentCanBeWritten(steps: seq<Step>, id: nat) returns (more: seq<Step>)
    requires CanRun(INIT, steps) && id in Run(INIT, steps).db.messages
    ensures var s := Run(INIT, steps);
            && id in s.log && |more| <= 4 && CanRun(s, more)
            && (Indexed(s, id) || IndexDropped(s, id) || Healed(s, Run(s, more), id, s.log[id].mail))
  {
    InitInv();
    RunKeepsInv(INIT, steps);
    var s := Run(INIT, steps);
    assert RowLogged(s, id) && OwnerOk(s, id);
    CurrentRow(s, id);
    more := [];
    if Heals(s, s.copies[s.log[id].owner].loc, id) {
      more := HealFrom(s, s.log[id].owner, id);
    }
  }
}
