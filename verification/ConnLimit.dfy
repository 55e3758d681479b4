/** agent/app/connlimit.py: capping a user's simultaneous source addresses. */
module ConnLimit {
  import opened Wrappers
  import opened Seqs
  import opened Decimal
  import opened Traffic

  // --- whose limit applies ------------------------------------------------------------------------------

  function UpToUnderscore(s: string): string {
    if s == "" || s[0] == '_' then "" else [s[0]] + UpToUnderscore(s[1..])
  }

  /** The second part of an email split at underscores, if the first is `user`. */
  function UserOf(email: string): Option<nat> {
    match After(USER, email)
    case None => None
    case Some(rest) =>
      var part := UpToUnderscore(rest);
      if part != "" && AllDigits(part) then Some(Value(part)) else None
  }

  lemma {:induction false} UpToDigits(digits: string, rest: string)
    requires AllDigits(digits) && (rest == "" || rest[0] == '_')
    ensures UpToUnderscore(digits + rest) == digits
  {
    if digits == "" {
      assert digits + rest == rest;
    } else {
      assert digits[0] in digits;
      assert (digits + rest)[1..] == digits[1..] + rest;
      UpToDigits(digits[1..], rest);
    }
  }

  /** The user whose limit applies is the one whose traffic is counted. */
  lemma LimitedAsCounted(email: string)
    requires ParseEmail(email).Some?
    ensures UserOf(email) == Some(ParseEmail(email).value.0)
  {
    var rest := After(USER, email).value;
    var n := Span(rest);
    assert rest == rest[..n] + rest[n..];
    assert SUB <= rest[n..] && rest[n..][0] == SUB[0];
    UpToDigits(rest[..n], rest[n..]);
  }

  function LimitFor(overrides: map<nat, nat>, nodeDefault: int, email: string): int {
    var user := UserOf(email);
    if user.Some? && user.value in overrides then overrides[user.value] else nodeDefault
  }

  // --- one user --------------------------------------------------------------------------------------------

  /** A source address and when it was last seen. */
  type Seen = (string, int)

  function NewestFirst(s: Seen): int { -s.1 }

  function Max0(n: int): nat {
    if n < 0 then 0 else n
  }

  /** The addresses beyond what the limit leaves after the Hysteria2 sessions. */
  function Overflow(limit: int, hy2: nat, ips: seq<Seen>): seq<Seen> {
    if limit <= 0 || |ips| + hy2 <= limit || |ips| <= Max0(limit - hy2) then []
    else
      SortLength(ips);
      SortBy(NewestFirst, ips)[Max0(limit - hy2)..]
  }

  predicate Kicked(limit: int, hy2: nat, ips: seq<Seen>) {
    limit > 0 && |ips| + hy2 > limit && hy2 > 0
  }

  lemma SortLength(ips: seq<Seen>)
    ensures |SortBy(NewestFirst, ips)| == |ips|
  {
    SortByIsSort(NewestFirst, ips);
  }

  /** A positive limit leaves exactly min(n, max(0, limit - hy2)) addresses, blocks the rest, and no
      blocked one was seen later than a kept one. */
  lemma CapExact(limit: int, hy2: nat, ips: seq<Seen>) returns (kept: seq<Seen>)
    requires limit > 0
    ensures multiset(kept) + multiset(Overflow(limit, hy2, ips)) == multiset(ips)
    ensures |kept| == if |ips| < Max0(limit - hy2) then |ips| else Max0(limit - hy2)
    ensures forall k, b :: k in kept && b in Overflow(limit, hy2, ips) ==> b.1 <= k.1
    ensures Kicked(limit, hy2, ips) <==> hy2 > 0 && |ips| > limit - hy2
  {
    var ordered := SortBy(NewestFirst, ips);
    SortByIsSort(NewestFirst, ips);
    var n := if |ips| < Max0(limit - hy2) then |ips| else Max0(limit - hy2);
    kept := ordered[..n];
    assert ordered == ordered[..n] + ordered[n..];
    assert Overflow(limit, hy2, ips) == ordered[n..];
    KeptAreNewer(ordered, n);
  }

  lemma KeptAreNewer(ordered: seq<Seen>, n: nat)
    requires n <= |ordered| && SortedBy(NewestFirst, ordered)
    ensures forall k, b :: k in ordered[..n] && b in ordered[n..] ==> b.1 <= k.1
  {
    forall k, b | k in ordered[..n] && b in ordered[n..] ensures b.1 <= k.1 {
      var i :| 0 <= i < n && ordered[i] == k;
      var j :| n <= j < |ordered| && ordered[j] == b;
      SortedPair(NewestFirst, ordered, i, j);
    }
  }

  // --- one cycle --------------------------------------------------------------------------------------------

  datatype StatsQueryError = StatsQueryFailed

  /** What the node reports in one cycle. */
  datatype Sample = Sample(online: set<string>, hy2: map<string, nat>, ips: map<string, seq<Seen>>)
  {
    function Emails(): set<string> {
      online + hy2.Keys
    }

    function Sessions(email: string): nat {
      if email in hy2 then hy2[email] else 0
    }

    function Addresses(email: string): seq<Seen> {
      if email in ips then ips[email] else []
    }
  }

  datatype Limits = Limits(overrides: map<nat, nat>, nodeDefault: int)
  {
    function Of(email: string): int {
      LimitFor(overrides, nodeDefault, email)
    }
  }

  function BlockedFor(l: Limits, s: Sample, email: string): seq<Seen> {
    Overflow(l.Of(email), s.Sessions(email), s.Addresses(email))
  }

  predicate KickedIn(l: Limits, s: Sample, email: string) {
    Kicked(l.Of(email), s.Sessions(email), s.Addresses(email))
  }

  /** Every address over some user's limit. */
  function Excess(l: Limits, s: Sample): set<string> {
    set email, i | email in s.Emails() && 0 <= i < |BlockedFor(l, s, email)| :: BlockedFor(l, s, email)[i].0
  }

  function Names(seen: seq<Seen>): (r: seq<string>)
    ensures |r| == |seen| && forall i :: 0 <= i < |seen| ==> r[i] == seen[i].0
  {
    if seen == [] then [] else [seen[0].0] + Names(seen[1..])
  }

  /** How many addresses those users have over, an address counted once for each of them. */
  ghost function CountOver(l: Limits, s: Sample, emails: set<string>): nat {
    if emails == {} then 0
    else
      var email :| email in emails;
      |BlockedFor(l, s, email)| + CountOver(l, s, emails - {email})
  }

  lemma {:induction false} CountOverPick(l: Limits, s: Sample, emails: set<string>, email: string)
    requires email in emails
    ensures CountOver(l, s, emails) == |BlockedFor(l, s, email)| + CountOver(l, s, emails - {email})
  {
    hide BlockedFor;
    var first :| first in emails && CountOver(l, s, emails) == |BlockedFor(l, s, first)| + CountOver(l, s, emails - {first});
    if first != email {
      CountOverPick(l, s, emails - {first}, email);
      CountOverPick(l, s, emails - {email}, first);
      assert emails - {first} - {email} == emails - {email} - {first};
    }
  }

  /** The agent's state and the block rule in Xray. */
  class ConnLimiter {
    const nodeDefault: int
    var overrides: map<nat, nat>
    var savedOverrides: map<nat, nat>
    var prevHadExcess: bool
    var rule: set<string>

    constructor (nodeDefault: int, saved: map<nat, nat>)
      ensures overrides == savedOverrides == saved && !prevHadExcess && rule == {} && this.nodeDefault == nodeDefault
    {
      this.nodeDefault := nodeDefault;
      overrides, savedOverrides, prevHadExcess, rule := saved, saved, false, {};
    }

    function View(): Rule
      reads this
    {
      Rule(prevHadExcess, rule)
    }

    /** Sets or clears one override; a failed write is only reported. */
    method SetOverride(user: nat, limit: Option<int>, written: bool)
      modifies this`overrides, this`savedOverrides
      ensures overrides == if limit.None? then old(overrides) - {user}
                            else old(overrides)[user := if limit.value < 0 then 0 else limit.value]
      ensures savedOverrides == if written then overrides else old(savedOverrides)
    {
      if limit.None? {
        overrides := overrides - {user};
      } else {
        overrides := overrides[user := Max0(limit.value)];
      }
      if written {
        savedOverrides := overrides;
      }
    }

    /** A pull snapshot replaces the whole set: on disk first, in memory only after that. */
    method ReplaceOverrides(wanted: map<nat, int>, written: bool) returns (ok: bool)
      modifies this`overrides, this`savedOverrides
      ensures ok == written
      ensures ok ==> overrides == savedOverrides
                     && overrides == map user | user in wanted :: if wanted[user] < 0 then 0 else wanted[user]
      ensures !ok ==> overrides == old(overrides) && savedOverrides == old(savedOverrides)
    {
      var normalized := map user | user in wanted :: Max0(wanted[user]);
      ok := written;
      if !written {
        return;
      }
      savedOverrides := normalized;
      overrides := normalized;
    }

    /** Goes through the users in no particular order. */
    method Collect(s: Sample) returns (excess: seq<string>, kicks: set<string>)
      ensures forall ip :: ip in excess <==> ip in Excess(Limits(overrides, nodeDefault), s)
      ensures kicks == set email | email in s.Emails() && KickedIn(Limits(overrides, nodeDefault), s, email)
      ensures |excess| == CountOver(Limits(overrides, nodeDefault), s, s.Emails())
    {
      var l := Limits(overrides, nodeDefault);
      var left := s.Emails();
      excess, kicks := [], {};
      while left != {}
        invariant left <= s.Emails()
        invariant forall ip :: ip in excess <==>
                    exists email, i :: email in s.Emails() - left && 0 <= i < |BlockedFor(l, s, email)| && BlockedFor(l, s, email)[i].0 == ip
        invariant kicks == set email | email in s.Emails() - left && KickedIn(l, s, email)
        invariant |excess| + CountOver(l, s, left) == CountOver(l, s, s.Emails())
        decreases left
      {
        var email :| email in left;
        var blocked, kick := Check(l.Of(email), s.Sessions(email), s.Addresses(email));
        CountOverPick(l, s, left, email);
        assert blocked == Names(BlockedFor(l, s, email));
        excess := excess + blocked;
        if kick {
          kicks := kicks + {email};
        }
        left := left - {email};
      }
    }

    /** One cycle: block what is over, or skip the call when nothing is and nothing was. A query that
        fails or takes too long ends the cycle before it changes anything. */
    method EnforceOnce(sample: Option<Sample>, called: bool) returns (r: Result<nat, StatsQueryError>, kicks: set<string>)
      modifies this`prevHadExcess, this`rule
      ensures sample.None? ==> r == Err(StatsQueryFailed) && kicks == {} && View() == old(View())
      ensures sample.Some? ==>
                var s, l := sample.value, Limits(overrides, nodeDefault);
                && kicks == (set email | email in s.Emails() && KickedIn(l, s, email))
                && View() == Cycle(old(View()), Excess(l, s), called)
                && r == Ok(CountOver(l, s, s.Emails()))
    {
      if sample.None? {
        return Err(StatsQueryFailed), {};
      }
      var excess: seq<string>;
      excess, kicks := Collect(sample.value);
      ghost var all := Excess(Limits(overrides, nodeDefault), sample.value);
      assert excess != [] ==> excess[0] in all;
      if excess == [] && !prevHadExcess {
        return Ok(0), kicks;
      }
      if called {
        rule := set ip | ip in excess;
        assert rule == all;
      }
      prevHadExcess := excess != [];
      r := Ok(|excess|);
    }
  }

  /** What one user's numbers come to. */
  method Check(limit: int, hy2: nat, ips: seq<Seen>) returns (blocked: seq<string>, kick: bool)
    ensures blocked == Names(Overflow(limit, hy2, ips)) && kick == Kicked(limit, hy2, ips)
  {
    blocked, kick := [], false;
    if limit <= 0 || |ips| + hy2 <= limit {
      return;
    }
    var keep := Max0(limit - hy2);
    if |ips| > keep {
      SortLength(ips);
      var ordered := SortBy(NewestFirst, ips);
      blocked := Names(ordered[keep..]);
    }
    kick := hy2 > 0;
  }

  // --- skipping the call ----------------------------------------------------------------------------------------

  datatype Rule = Rule(prevHadExcess: bool, blocked: set<string>)

  /** A cycle with the excess of now; the call replaces the rule, if it succeeds. */
  function Cycle(r: Rule, excess: set<string>, called: bool): Rule {
    if excess == {} && !r.prevHadExcess then r
    else Rule(excess != {}, if called then excess else r.blocked)
  }

  /** The memory says whether the rule blocks anything. */
  predicate InStep(r: Rule) {
    r.prevHadExcess <==> r.blocked != {}
  }

  /** From a rule in step, one cycle leaves the rule at the excess, as rebuilding it every time
      would, exactly when the call it makes succeeds or would have changed nothing. */
  lemma SkipRefinesRebuild(r: Rule, excess: set<string>, called: bool)
    requires InStep(r)
    ensures Cycle(r, excess, called).blocked == excess <==> called || r.blocked == excess
    ensures InStep(Cycle(r, excess, called)) <==> called || (r.blocked == {} <==> excess == {})
  {
  }

  function Cycles(r: Rule, excesses: seq<set<string>>): Rule {
    if excesses == [] then r
    else Cycle(Cycles(r, excesses[..|excesses| - 1]), excesses[|excesses| - 1], true)
  }

  /** Over any number of cycles whose calls succeed, the rule is always the latest excess. */
  lemma {:induction false} RuleIsLatest(excesses: seq<set<string>>)
    ensures var r := Cycles(Rule(false, {}), excesses);
            InStep(r) && r.blocked == if excesses == [] then {} else excesses[|excesses| - 1]
  {
    if excesses != [] {
      RuleIsLatest(excesses[..|excesses| - 1]);
      SkipRefinesRebuild(Cycles(Rule(false, {}), excesses[..|excesses| - 1]), excesses[|excesses| - 1], true);
    }
  }

  function Idle(r: Rule, cycles: nat): Rule {
    if cycles == 0 then r else Cycle(Idle(r, cycles - 1), {}, true)
  }

  /** A failed clearing call is not repeated: the addresses stay blocked, however many cycles
      without excess follow. */
  lemma {:induction false} FailedClearStays(blocked: set<string>, cycles: nat)
    requires blocked != {}
    ensures Idle(Cycle(Rule(true, blocked), {}, false), cycles) == Rule(false, blocked)
  {
    if cycles > 0 {
      FailedClearStays(blocked, cycles - 1);
    }
  }

  // --- which limit, which addresses -----------------------------------------------------------------

  /** The limit of a counter is its user's own if there is one, else the node's; a name of any other
      form gets the node's. */
  lemma LimitExact(overrides: map<nat, nat>, nodeDefault: int, email: string, user: nat)
    ensures ParseEmail(email).Some? && ParseEmail(email).value.0 == user ==>
              LimitFor(overrides, nodeDefault, email) == if user in overrides then overrides[user] else nodeDefault
    ensures !("user_" <= email) ==> LimitFor(overrides, nodeDefault, email) == nodeDefault
  {
    if ParseEmail(email).Some? {
      LimitedAsCounted(email);
    }
  }

  /** This address of this user is beyond what the user's limit leaves to addresses. */
  predicate Over(l: Limits, s: Sample, email: string, seen: Seen) {
    && (email in s.online || email in s.hy2)
    && seen in Overflow(LimitFor(l.overrides, l.nodeDefault, email),
                        if email in s.hy2 then s.hy2[email] else 0,
                        if email in s.ips then s.ips[email] else [])
  }

  /** An address is blocked exactly if it is over the limit of some user seen on either protocol. */
  lemma ExcessExact(l: Limits, s: Sample, ip: string)
    ensures ip in Excess(l, s) <==> exists email: string, seen: Seen :: Over(l, s, email, seen) && seen.0 == ip
  {
    hide Overflow, LimitFor;
    if ip in Excess(l, s) {
      var email, i :| email in s.Emails() && 0 <= i < |BlockedFor(l, s, email)| && BlockedFor(l, s, email)[i].0 == ip;
      assert Over(l, s, email, BlockedFor(l, s, email)[i]);
    }
    if email: string, seen: Seen :| Over(l, s, email, seen) && seen.0 == ip {
      assert email in s.Emails() && seen in BlockedFor(l, s, email);
      var i :| 0 <= i < |BlockedFor(l, s, email)| && BlockedFor(l, s, email)[i] == seen;
      assert BlockedFor(l, s, email)[i].0 in Excess(l, s);
    }
  }
}
