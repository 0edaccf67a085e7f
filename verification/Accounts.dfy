/** Local accounts: an active administrator always remains. Requests that deactivate or
    delete an account first check, then act, and other requests may come in between. */
module Accounts {
  datatype Role = Admin | Auditor | Plain
  datatype User = User(username: string, role: Role, active: bool)
  type Table = map<nat, User>

  datatype NewUser = NewUser(username: string, password: string, role: Role, email: string, audited: seq<string>)

  datatype Change = Deactivate(id: nat) | Erase(id: nat)

  /** `protected` is ADMIN_USERNAME; `pending` are requests whose checks have passed. */
  datatype State = State(protected: string, users: Table, nextId: nat, pending: seq<Change>)

  datatype Step = Create(u: NewUser) | Activate(id: nat) | Ask(c: Change) | Do(n: nat)

  function ActiveAdmins(users: Table): set<nat> {
    set id | id in users && users[id].role.Admin? && users[id].active
  }

  predicate Taken(users: Table, username: string) {
    exists id | id in users :: users[id].username == username
  }

  predicate Acceptable(users: Table, u: NewUser) {
    && u.username != "" && u.password != ""
    && (u.role.Auditor? ==> u.email != "" && u.audited != [])
    && !Taken(users, u.username)
  }

  /** The checks of the two handlers; `Refused` answers 400 or 404. */
  predicate Refused(protected: string, users: Table, c: Change) {
    || c.id !in users
    || users[c.id].username == protected
    || (users[c.id].role.Admin? && |ActiveAdmins(users)| <= 1)
  }

  function Change1(users: Table, c: Change): Table {
    match c
    case Deactivate(id) => if id in users then users[id := users[id].(active := false)] else users
    case Erase(id) => users - {id}
  }

  predicate Enabled(s: State, st: Step) { st.Do? ==> st.n < |s.pending| }

  function Apply(s: State, st: Step): State
    requires Enabled(s, st)
  {
    match st
    case Create(u) =>
      if !Acceptable(s.users, u) then s
      else s.(users := s.users[s.nextId := User(u.username, u.role, true)], nextId := s.nextId + 1)
    case Activate(id) =>
      if id in s.users then s.(users := s.users[id := s.users[id].(active := true)]) else s
    case Ask(c) => if Refused(s.protected, s.users, c) then s else s.(pending := s.pending + [c])
    case Do(n) => s.(users := Change1(s.users, s.pending[n]), pending := s.pending[..n] + s.pending[n + 1..])
  }

  ghost predicate CanRun(s: State, steps: seq<Step>)
    decreases |steps|
  {
    steps == [] || (Enabled(s, steps[0]) && CanRun(Apply(s, steps[0]), steps[1..]))
  }

  ghost function Run(s: State, steps: seq<Step>): State
    requires CanRun(s, steps)
    decreases |steps|
  {
    if steps == [] then s else Run(Apply(s, steps[0]), steps[1..])
  }

  /** `_seed_default_admin` at startup. */
  function Seed(s: State, password: string): State {
    if |s.users| > 0 then s else Apply(s, Create(NewUser(s.protected, password, Admin, "", [])))
  }

  // ----- the table as an object ---------------------------------------------------

  class UserRepo {
    const protected: string
    var users: Table
    var nextId: nat

    function Now(): State
      reads this
    {
      State(protected, users, nextId, [])
    }

    constructor (adminName: string)
      ensures Now() == State(adminName, map[], 0, [])
    {
      protected, users, nextId := adminName, map[], 0;
    }

    method CreateUser(u: NewUser) returns (ok: bool)
      modifies this
      ensures Now() == Apply(old(Now()), Create(u)) && ok == Acceptable(old(users), u)
      ensures ok <==>
                && u.username != "" && u.password != "" && !(u.role.Auditor? && (u.email == "" || u.audited == []))
                && (forall id | id in old(users) :: old(users)[id].username != u.username)
      ensures ok ==> nextId == old(nextId) + 1 && users == old(users)[old(nextId) := User(u.username, u.role, true)]
      ensures !ok ==> nextId == old(nextId) && users == old(users)
    {
      ok := u.username != "" && u.password != "";
      if u.role.Auditor? && (u.email == "" || u.audited == []) {
        ok := false;
      }
      if exists id | id in users :: users[id].username == u.username {
        ok := false;
      }
      if ok {
        users := users[nextId := User(u.username, u.role, true)];
        nextId := nextId + 1;
      }
    }

    /** The first start creates the protected administrator; a table that holds any
        account at all, active or not, is never touched again. */
    method SeedDefaultAdmin(password: string)
      modifies this
      ensures old(users) == map[] && protected != "" && password != "" ==>
                && users == map[old(nextId) := User(protected, Admin, true)]
                && nextId == old(nextId) + 1
                && IsGuard(Now(), old(nextId)) && ActiveAdmins(users) == {old(nextId)}
      ensures old(users) != map[] || protected == "" || password == "" ==> Now() == old(Now())
      ensures Now() == Seed(old(Now()), password)
    {
      if |users| > 0 {
        return;
      }
      var _ := CreateUser(NewUser(protected, password, Admin, "", []));
    }

    method CountAdmins() returns (n: nat)
      ensures n == |ActiveAdmins(users)|
      ensures n == |set id | id in users && users[id].role == Admin && users[id].active|
    {
      assert ActiveAdmins(users) == set id | id in users && users[id].role == Admin && users[id].active;
      n := |ActiveAdmins(users)|;
    }

    /** Check and act of one request with nothing in between. */
    method Serve(c: Change) returns (ok: bool)
      modifies this`users
      ensures ok == !Refused(protected, old(users), c)
      ensures users == if ok then Change1(old(users), c) else old(users)
      ensures ok <==>
                && c.id in old(users) && old(users)[c.id].username != protected
                && (old(users)[c.id].role == Admin ==>
                      |set id | id in old(users) && old(users)[id].role == Admin && old(users)[id].active| >= 2)
      ensures ok && c.Deactivate? ==> users == old(users)[c.id := old(users)[c.id].(active := false)]
      ensures ok && c.Erase? ==> users == old(users) - {c.id}
      ensures !ok ==> users == old(users)
      ensures ActiveAdmins(old(users)) != {} ==> ActiveAdmins(users) != {}
    {
      assert ActiveAdmins(users) == set id | id in users && users[id].role == Admin && users[id].active;
      if c.id !in users || users[c.id].username == protected {
        return false;
      }
      if users[c.id].role.Admin? {
        var n := CountAdmins();
        if n <= 1 {
          return false;
        }
      }
      ServedKeepsAdmin(protected, users, c);
      match c {
        case Deactivate(id) => users := users[id := users[id].(active := false)];
        case Erase(id) => users := users - {id};
      }
      return true;
    }

    /** `set_user_active` with true needs no check. */
    method ActivateUser(id: nat) returns (ok: bool)
      modifies this`users
      ensures ok <==> id in old(users)
      ensures ok ==> users == old(users)[id := old(users)[id].(active := true)]
      ensures !ok ==> users == old(users)
      ensures Now() == Apply(old(Now()), Activate(id))
    {
      ok := id in users;
      if ok {
        users := users[id := users[id].(active := true)];
      }
    }
  }

  /** A served request removes at most one of at least two active administrators. */
  lemma ServedKeepsAdmin(protected: string, users: Table, c: Change)
    requires !Refused(protected, users, c)
    ensures ActiveAdmins(Change1(users, c)) == ActiveAdmins(users) - {c.id}
    ensures ActiveAdmins(users) != {} ==> ActiveAdmins(Change1(users, c)) != {}
  {
    if c.id in ActiveAdmins(users) {
      assert |ActiveAdmins(users) - {c.id}| == |ActiveAdmins(users)| - 1;
    }
  }

  // ----- serialised requests -------------------------------------------------------

  /** Every accepted Ask is carried out before anything else happens. */
  ghost predicate Serialised(s: State, steps: seq<Step>)
    requires CanRun(s, steps)
    decreases |steps|
  {
    steps == [] ||
    (|Apply(s, steps[0]).pending| <= 1
     && (s.pending != [] ==> steps[0].Do?)
     && Serialised(Apply(s, steps[0]), steps[1..]))
  }

  ghost predicate OneAtATime(s: State) {
    && ActiveAdmins(s.users) != {} && |s.pending| <= 1
    && (|s.pending| == 1 ==> !Refused(s.protected, s.users, s.pending[0]))
    && (forall id | id in s.users :: id < s.nextId)
  }

  lemma MoreUsers(s: State, st: Step)
    requires OneAtATime(s) && (st.Create? || st.Activate?)
    ensures ActiveAdmins(s.users) <= ActiveAdmins(Apply(s, st).users)
    ensures forall id | id in Apply(s, st).users :: id < Apply(s, st).nextId
  {
  }

  lemma SerialStep(s: State, st: Step)
    requires OneAtATime(s) && Enabled(s, st) && |Apply(s, st).pending| <= 1 && (s.pending != [] ==> st.Do?)
    ensures OneAtATime(Apply(s, st))
  {
    match st
    case Create(_) => MoreUsers(s, st);
    case Activate(_) => MoreUsers(s, st);
    case Ask(_) =>
    case Do(n) => ServedKeepsAdmin(s.protected, s.users, s.pending[0]);
  }

  /** Without any protected account the count check alone is enough, provided requests
      are served one after the other. */
  lemma {:induction false} SerialKeepsAdmin(s: State, steps: seq<Step>)
    requires OneAtATime(s) && CanRun(s, steps) && Serialised(s, steps)
    ensures ActiveAdmins(Run(s, steps).users) != {}
    decreases |steps|
  {
    if steps != [] {
      SerialStep(s, steps[0]);
      SerialKeepsAdmin(Apply(s, steps[0]), steps[1..]);
    }
  }

  // ----- interleaved requests --------------------------------------------------------

  predicate IsGuard(s: State, id: nat) {
    id in s.users && s.users[id] == User(s.protected, Admin, true)
  }

  ghost predicate Guarded(s: State, id: nat) {
    && IsGuard(s, id)
    && (forall n | 0 <= n < |s.pending| :: s.pending[n].id != id)
    && (forall i | i in s.users :: i < s.nextId)
  }

  lemma {:induction false} GuardStays(s: State, steps: seq<Step>, id: nat)
    requires Guarded(s, id) && CanRun(s, steps)
    ensures Guarded(Run(s, steps), id)
    decreases |steps|
  {
    if steps != [] {
      GuardStep(s, steps[0], id);
      GuardStays(Apply(s, steps[0]), steps[1..], id);
    }
  }

  lemma GuardStep(s: State, st: Step, id: nat)
    requires Guarded(s, id) && Enabled(s, st)
    ensures Guarded(Apply(s, st), id)
  {
  }

  /** From an empty table seeded at startup, every interleaving of requests keeps the
      protected administrator present and active. */
  lemma SeededAdminStays(protected: string, password: string, steps: seq<Step>)
    requires protected != "" && password != ""
    requires CanRun(Seed(State(protected, map[], 0, []), password), steps)
    ensures var t := Run(Seed(State(protected, map[], 0, []), password), steps);
            IsGuard(t, 0) && 0 in ActiveAdmins(t.users)
  {
    GuardStays(Seed(State(protected, map[], 0, []), password), steps, 0);
  }

  // ----- exactly when interleaving is harmless ------------------------------------------

  function Asks(ids: seq<nat>): seq<Step> {
    if ids == [] then [] else [Ask(Deactivate(ids[0]))] + Asks(ids[1..])
  }

  function Changes(ids: seq<nat>): seq<Change> {
    if ids == [] then [] else [Deactivate(ids[0])] + Changes(ids[1..])
  }

  function Members(ids: seq<nat>): set<nat> {
    if ids == [] then {} else {ids[0]} + Members(ids[1..])
  }

  function Dos(n: nat): seq<Step> {
    if n == 0 then [] else [Do(0)] + Dos(n - 1)
  }

  ghost predicate AllPass(protected: string, users: Table, ids: seq<nat>) {
    forall id | id in ids :: !Refused(protected, users, Deactivate(id))
  }

  lemma AskOne(s: State, ids: seq<nat>)
    requires ids != [] && AllPass(s.protected, s.users, ids)
    ensures Apply(s, Ask(Deactivate(ids[0]))) == s.(pending := s.pending + [Deactivate(ids[0])])
    ensures AllPass(s.protected, s.users, ids[1..])
  {
  }

  lemma RunCons(s: State, st: Step, rest: seq<Step>)
    requires Enabled(s, st) && CanRun(Apply(s, st), rest)
    ensures CanRun(s, [st] + rest) && Run(s, [st] + rest) == Run(Apply(s, st), rest)
  {
  }

  lemma {:induction false} AskAll(s: State, ids: seq<nat>)
    requires AllPass(s.protected, s.users, ids)
    ensures CanRun(s, Asks(ids)) && Run(s, Asks(ids)) == s.(pending := s.pending + Changes(ids))
    decreases |ids|
  {
    if ids == [] {
      assert s.pending + Changes(ids) == s.pending;
    } else {
      var first := Deactivate(ids[0]);
      var t := s.(pending := s.pending + [first]);
      AskOne(s, ids);
      AskAll(t, ids[1..]);
      RunCons(s, Ask(first), Asks(ids[1..]));
      assert t.pending + Changes(ids[1..]) == s.pending + Changes(ids);
    }
  }

  lemma DoFirst(s: State, ids: seq<nat>)
    requires ids != [] && s.pending == Changes(ids)
    ensures Apply(s, Do(0)).pending == Changes(ids[1..])
    ensures ActiveAdmins(Apply(s, Do(0)).users) <= ActiveAdmins(s.users) - {ids[0]}
  {
  }

  lemma {:induction false} DoAll(s: State, ids: seq<nat>)
    requires s.pending == Changes(ids)
    ensures CanRun(s, Dos(|ids|))
    ensures ActiveAdmins(Run(s, Dos(|ids|)).users) <= ActiveAdmins(s.users) - Members(ids)
    decreases |ids|
  {
    if ids != [] {
      DoFirst(s, ids);
      DoAll(Apply(s, Do(0)), ids[1..]);
      RunCons(s, Do(0), Dos(|ids| - 1));
    }
  }

  lemma {:induction false} RunConcat(s: State, a: seq<Step>, b: seq<Step>)
    requires CanRun(s, a) && CanRun(Run(s, a), b)
    ensures CanRun(s, a + b) && Run(s, a + b) == Run(Run(s, a), b)
    decreases |a|
  {
    if a == [] {
      assert a + b == b;
    } else {
      RunConcat(Apply(s, a[0]), a[1..], b);
      assert (a + b)[0] == a[0] && (a + b)[1..] == a[1..] + b;
    }
  }

  lemma {:induction false} Listing(ids: set<nat>) returns (l: seq<nat>)
    ensures Members(l) == ids && forall id | id in l :: id in ids
    decreases |ids|
  {
    if ids == {} {
      l := [];
    } else {
      var id :| id in ids;
      var rest := Listing(ids - {id});
      l := [id] + rest;
    }
  }

  /** Two or more unprotected administrators can all be deactivated by requests that
      check before any of them acts. */
  lemma AllCanGo(s: State) returns (steps: seq<Step>)
    requires s.pending == [] && |ActiveAdmins(s.users)| >= 2
    requires forall id | id in ActiveAdmins(s.users) :: s.users[id].username != s.protected
    ensures CanRun(s, steps) && ActiveAdmins(Run(s, steps).users) == {}
  {
    var ids := Listing(ActiveAdmins(s.users));
    AskAll(s, ids);
    var t := Run(s, Asks(ids));
    assert t.pending == Changes(ids);
    DoAll(t, ids);
    RunConcat(s, Asks(ids), Dos(|ids|));
    steps := Asks(ids) + Dos(|ids|);
  }

  ghost predicate NeverLocksOut(s: State) {
    forall steps: seq<Step> | CanRun(s, steps) :: ActiveAdmins(Run(s, steps).users) != {}
  }

  /** There is always an account name left. */
  lemma {:induction false} LongerName(ids: set<nat>, users: Table) returns (n: nat)
    requires ids <= users.Keys
    ensures forall id | id in ids :: |users[id].username| < n
    decreases |ids|
  {
    n := 0;
    if ids != {} {
      var id :| id in ids;
      n := LongerName(ids - {id}, users);
      if |users[id].username| >= n { n := |users[id].username| + 1; }
      assert ids == (ids - {id}) + {id};
    }
  }

  lemma FreshName(s: State) returns (name: string)
    ensures name != "" && name != s.protected && !Taken(s.users, name)
  {
    var n := LongerName(s.users.Keys, s.users);
    var m := if n > |s.protected| then n else |s.protected|;
    name := seq(m + 1, _ => 'a');
  }

  /** A lone unprotected administrator is joined by a second one. */
  lemma SecondAdmin(s: State) returns (st: Step)
    requires forall id | id in s.users :: id < s.nextId
    ensures Enabled(s, st) && Apply(s, st).pending == s.pending && Apply(s, st).protected == s.protected
    ensures ActiveAdmins(Apply(s, st).users) == ActiveAdmins(s.users) + {s.nextId}
    ensures s.nextId !in ActiveAdmins(s.users)
    ensures forall id | id in s.users :: Apply(s, st).users[id] == s.users[id]
    ensures Apply(s, st).users[s.nextId].username != s.protected
  {
    var name := FreshName(s);
    st := Create(NewUser(name, "password", Admin, "", []));
  }

  lemma EveryoneCanGo(s: State) returns (steps: seq<Step>)
    requires s.pending == [] && !exists id :: IsGuard(s, id)
    requires forall id | id in s.users :: id < s.nextId
    ensures CanRun(s, steps) && ActiveAdmins(Run(s, steps).users) == {}
  {
    forall id | id in ActiveAdmins(s.users) ensures s.users[id].username != s.protected {
      assert !IsGuard(s, id);
    }
    if ActiveAdmins(s.users) == {} {
      steps := [];
    } else if |ActiveAdmins(s.users)| >= 2 {
      steps := AllCanGo(s);
    } else {
      var st := SecondAdmin(s);
      var rest := AllCanGo(Apply(s, st));
      RunCons(s, st, rest);
      steps := [st] + rest;
    }
  }

  /** Every protected administrator is the target of a request that has passed its checks. */
  ghost predicate AllTargeted(s: State) {
    && (forall id | id in s.users :: id < s.nextId)
    && (forall id: nat | IsGuard(s, id) :: exists n | 0 <= n < |s.pending| :: s.pending[n].id == id)
  }

  lemma DrainOne(s: State)
    requires AllTargeted(s) && s.pending != []
    ensures AllTargeted(Apply(s, Do(0))) && Apply(s, Do(0)).pending == s.pending[1..]
  {
    var t := Apply(s, Do(0));
    forall id: nat | IsGuard(t, id) ensures exists n | 0 <= n < |t.pending| :: t.pending[n].id == id {
      assert IsGuard(s, id);
      var n :| 0 <= n < |s.pending| && s.pending[n].id == id;
      assert n > 0 && t.pending[n - 1].id == id;
    }
  }

  lemma {:induction false} Drain(s: State) returns (steps: seq<Step>)
    requires AllTargeted(s)
    ensures CanRun(s, steps) && Run(s, steps).pending == [] && AllTargeted(Run(s, steps))
    decreases |s.pending|
  {
    if s.pending == [] {
      steps := [];
    } else {
      DrainOne(s);
      var rest := Drain(Apply(s, Do(0)));
      RunCons(s, Do(0), rest);
      steps := [Do(0)] + rest;
    }
  }

  /** Whatever the table and the requests under way: all interleavings keep an active
      administrator exactly when the protected account is one and no request that has
      passed its checks is about to change it. */
  lemma LockoutFreeExactly(s: State)
    requires forall id | id in s.users :: id < s.nextId
    ensures NeverLocksOut(s) <==> exists id :: Guarded(s, id)
  {
    if exists id :: Guarded(s, id) {
      var id :| Guarded(s, id);
      forall steps: seq<Step> | CanRun(s, steps) ensures ActiveAdmins(Run(s, steps).users) != {} {
        GuardStays(s, steps, id);
        assert id in ActiveAdmins(Run(s, steps).users);
      }
    } else {
      forall id: nat | IsGuard(s, id) ensures exists n | 0 <= n < |s.pending| :: s.pending[n].id == id {
        assert !Guarded(s, id);
      }
      var first := Drain(s);
      var rest := EveryoneCanGo(Run(s, first));
      RunConcat(s, first, rest);
    }
  }
}
