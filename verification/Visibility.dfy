/** Who sees which mail: the live events, the message access check and the search filter
    each decide it on their own. `lower` is Python's `str.lower`; the proofs only use
    that lowering twice is lowering once. */
module Visibility {
  import opened Wrappers

  type Lower = string -> string

  ghost predicate Idempotent(lower: Lower) {
    forall s :: lower(lower(s)) == lower(s)
  }

  datatype Role = Admin | Auditor | Plain
  datatype Account = Account(role: Role, email: string, audited: seq<string>)
  datatype Parties = Parties(from: string, to: seq<string>, cc: seq<string>)

  /** None: everything. An empty list: nothing. */
  type Scope = Option<seq<string>>

  function LowerAll(lower: Lower, addrs: seq<string>): (r: seq<string>)
    ensures |r| == |addrs| && forall i | 0 <= i < |addrs| :: r[i] == lower(addrs[i])
  {
    seq(|addrs|, i requires 0 <= i < |addrs| => lower(addrs[i]))
  }

  function ScopeAddresses(lower: Lower, a: Account): Scope {
    match a.role
    case Admin => None
    case Auditor => Some(LowerAll(lower, a.audited))
    case Plain => Some(if a.email != "" then [lower(a.email)] else [])
  }

  /** Every address of the mail as stored. */
  function Stored(m: Parties): set<string> {
    {m.from} + (set a | a in m.to) + (set a | a in m.cc)
  }

  function Lowered(lower: Lower, m: Parties): set<string> {
    {lower(m.from)} + (set a | a in m.to :: lower(a)) + (set a | a in m.cc :: lower(a))
  }

  predicate EventVisible(lower: Lower, m: Parties, a: Account) {
    var scope := ScopeAddresses(lower, a);
    scope.None? || exists x | x in scope.value :: x in Lowered(lower, m)
  }

  predicate CanAccess(lower: Lower, m: Parties, scope: Scope) {
    scope.None? || exists x | x in scope.value :: lower(x) in Lowered(lower, m)
  }

  /** The `terms` clauses: exact keyword match of lowered scope on stored addresses. */
  predicate SearchHit(lower: Lower, m: Parties, scope: Scope) {
    scope.None? ||
    (scope.value != [] &&
     var low := LowerAll(lower, scope.value);
     m.from in low || (exists x | x in m.to :: x in low) || (exists x | x in m.cc :: x in low))
  }

  lemma LoweredExactly(lower: Lower, m: Parties, s: string)
    ensures s in Lowered(lower, m) <==> exists p | p in Stored(m) :: lower(p) == s
  {
  }

  lemma HitExactly(lower: Lower, m: Parties, addrs: seq<string>)
    ensures SearchHit(lower, m, Some(addrs)) <==> exists x | x in addrs :: lower(x) in Stored(m)
  {
  }

  /** One of the addresses of the mail, in lower case, is `y`. */
  predicate Names(lower: Lower, m: Parties, y: string) {
    || lower(m.from) == y
    || (exists a | a in m.to :: lower(a) == y)
    || (exists a | a in m.cc :: lower(a) == y)
  }

  /** Who sees the live event, in plain terms: an administrator everything, an auditor the
      mails of each audited address, anyone else those of the account's own address. */
  lemma EventSeenExactly(lower: Lower, m: Parties, a: Account)
    ensures EventVisible(lower, m, a) <==>
            match a.role
            case Admin => true
            case Auditor => exists x | x in a.audited :: Names(lower, m, lower(x))
            case Plain => a.email != "" && Names(lower, m, lower(a.email))
  {
    forall y ensures y in Lowered(lower, m) <==> Names(lower, m, y) {}
    if a.role.Auditor? {
      var low := LowerAll(lower, a.audited);
      forall x | x in a.audited ensures lower(x) in low {
        var i :| 0 <= i < |a.audited| && a.audited[i] == x;
        assert low[i] == lower(x);
      }
      forall y | y in low ensures exists x | x in a.audited :: lower(x) == y {
        var i :| 0 <= i < |low| && low[i] == y;
        assert lower(a.audited[i]) == y;
      }
    } else if a.role.Plain? && a.email != "" {
      assert lower(a.email) in [lower(a.email)];
    }
  }

  /** Who may open a mail, and what the search filter finds, under a given scope. */
  lemma AccessAndHitExactly(lower: Lower, m: Parties, scope: Scope)
    ensures CanAccess(lower, m, scope) <==> scope.None? || exists x | x in scope.value :: Names(lower, m, lower(x))
    ensures SearchHit(lower, m, scope) <==>
            scope.None? ||
            exists x | x in scope.value :: lower(x) == m.from || lower(x) in m.to || lower(x) in m.cc
  {
    forall y ensures y in Lowered(lower, m) <==> Names(lower, m, y) {}
    if scope.Some? { HitExactly(lower, m, scope.value); }
  }

  /** Live events and message access agree for every account and mail. */
  lemma EventsMatchAccess(lower: Lower, m: Parties, a: Account)
    requires Idempotent(lower)
    ensures EventVisible(lower, m, a) <==> CanAccess(lower, m, ScopeAddresses(lower, a))
  {
  }

  /** Every search hit can be opened. */
  lemma HitsAreAccessible(lower: Lower, m: Parties, scope: Scope)
    requires Idempotent(lower) && SearchHit(lower, m, scope)
    ensures CanAccess(lower, m, scope)
  {
  }

  /** Search finds all that can be opened, for every scope, exactly when each stored
      address is also stored in lower case. */
  lemma SearchIsCompleteExactly(lower: Lower, m: Parties)
    requires Idempotent(lower)
    ensures (forall scope :: SearchHit(lower, m, scope) <==> CanAccess(lower, m, scope)) <==>
            (forall p | p in Stored(m) :: lower(p) in Stored(m))
  {
    if forall p | p in Stored(m) :: lower(p) in Stored(m) {
      forall scope ensures SearchHit(lower, m, scope) <==> CanAccess(lower, m, scope) {
        if CanAccess(lower, m, scope) && scope.Some? {
          var x :| x in scope.value && lower(x) in Lowered(lower, m);
          LoweredExactly(lower, m, lower(x));
          HitExactly(lower, m, scope.value);
        }
        if SearchHit(lower, m, scope) {
          HitsAreAccessible(lower, m, scope);
        }
      }
    } else {
      var p :| p in Stored(m) && lower(p) !in Stored(m);
      LoweredExactly(lower, m, lower(p));
      HitExactly(lower, m, [p]);
      assert p in [p] && CanAccess(lower, m, Some([p]));
      assert !SearchHit(lower, m, Some([p]));
    }
  }

  /** A sender kept with a capital: the mail opens and is announced, but not found. */
  lemma MixedCaseIsMissed(lower: Lower, p: string)
    requires Idempotent(lower) && p != "" && lower(p) != p
    ensures var m, a := Parties(p, [], []), Account(Plain, p, []);
            && EventVisible(lower, m, a)
            && CanAccess(lower, m, ScopeAddresses(lower, a))
            && !SearchHit(lower, m, ScopeAddresses(lower, a))
  {
    var m, a := Parties(p, [], []), Account(Plain, p, []);
    HitExactly(lower, m, [lower(p)]);
    assert lower(p) in [lower(p)];
    EventsMatchAccess(lower, m, a);
  }

  /** The two ends of the scale, in all three places. */
  lemma NoneAndEmpty(lower: Lower, m: Parties, a: Account)
    ensures a.role.Admin? ==>
              && EventVisible(lower, m, a)
              && CanAccess(lower, m, ScopeAddresses(lower, a))
              && SearchHit(lower, m, ScopeAddresses(lower, a))
    ensures (a.role.Plain? && a.email == "") || (a.role.Auditor? && a.audited == []) ==>
              && !EventVisible(lower, m, a)
              && !CanAccess(lower, m, ScopeAddresses(lower, a))
              && !SearchHit(lower, m, ScopeAddresses(lower, a))
  {
  }
}
