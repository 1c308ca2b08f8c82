/** The login limiter: the sliding window over recorded denials, for attempts that come one after another and for
    attempts that overlap. */
module IamLogin {
  import opened Prelude

  type User = nat
  type Address = nat
  type Instant = int

  const WINDOW: int := 15 * 60

  /** A denied owner.login event: the hash of the name tried and the address it came from. */
  datatype Denial = Denial(at: Instant, user: User, address: Address)

  /** address is None when the request's address is unknown. right: the password and the code are both right.
      recordedAt: when the audit row is written, after the password has been hashed. */
  datatype Attempt = Attempt(user: User, address: Option<Address>, right: bool, at: Instant, recordedAt: Instant,
                             auditFails: bool)

  datatype Answer = RateLimited | Denied | Welcome | Broken

  predicate Matches(d: Denial, user: User, address: Option<Address>) { d.user == user || address == Some(d.address) }

  /** SELECT count(*) ... created_at > since AND (username_hash = user OR remote_ip = address); no row has an unknown
      address. */
  function Failures(log: seq<Denial>, user: User, address: Option<Address>, since: Instant): nat {
    if log == [] then 0
    else
      (if since < log[0].at && Matches(log[0], user, address) then 1 else 0)
      + Failures(log[1..], user, address, since)
  }

  /** The row is written only for a known address: an empty one is no inet, and the error is ignored. */
  predicate Records(a: Attempt) { a.address.Some? && !a.auditFails }

  function AnswerTo(log: seq<Denial>, a: Attempt): Answer {
    if Failures(log, a.user, a.address, a.at - WINDOW) >= 5 then RateLimited
    else if !a.right then Denied
    else if a.address.None? then Broken
    else Welcome
  }

  function LogAfter(log: seq<Denial>, a: Attempt): seq<Denial> {
    if AnswerTo(log, a) == Denied && Records(a) then log + [Denial(a.recordedAt, a.user, a.address.value)] else log
  }

  /** Where the log has a denial of the last 900 seconds, of this name or from this address. */
  ghost function Recent(log: seq<Denial>, a: Attempt): set<nat> {
    set i: nat | i < |log| && a.at - 900 < log[i].at && (log[i].user == a.user || Some(log[i].address) == a.address)
  }

  lemma {:induction false} RecentCount(log: seq<Denial>, a: Attempt)
    ensures Failures(log, a.user, a.address, a.at - WINDOW) == |Recent(log, a)|
  {
    hide Recent, Shifted;
    RecentShift(log, a);
    if log != [] {
      RecentCount(log[1..], a);
      ShiftedCount(Recent(log[1..], a));
    }
  }

  lemma RecentShift(log: seq<Denial>, a: Attempt)
    ensures log == [] ==> Recent(log, a) == {}
    ensures log != [] ==>
              && 0 !in Shifted(Recent(log[1..], a))
              && Recent(log, a)
                 == Shifted(Recent(log[1..], a))
                    + if a.at - WINDOW < log[0].at && Matches(log[0], a.user, a.address) then {0} else {}
  {
    if log != [] {
      var rest := Recent(log[1..], a);
      forall i | 0 < i < |log| ensures i in Recent(log, a) <==> i in Shifted(rest) {
        assert log[i] == log[1..][i - 1];
        assert i - 1 in rest <==> i in Shifted(rest);
      }
    }
  }

  ghost function Shifted(s: set<nat>): set<nat> { set i | i in s :: i + 1 }

  lemma {:induction false} ShiftedCount(s: set<nat>)
    ensures |Shifted(s)| == |s|
  {
    if s != {} {
      var x :| x in s;
      ShiftedCount(s - {x});
      forall i ensures i in Shifted(s) <==> i in Shifted(s - {x}) + {x + 1} {
        if i in Shifted(s) && i != x + 1 { assert i - 1 in s - {x}; }
      }
      assert Shifted(s) == Shifted(s - {x}) + {x + 1};
    } else {
      assert Shifted(s) == {};
    }
  }

  class Limiter {
    var denials: seq<Denial>

    constructor ()
      ensures denials == []
    {
      denials := [];
    }

    method Login(a: Attempt) returns (answer: Answer)
      modifies this
      ensures answer == AnswerTo(old(denials), a) && denials == LogAfter(old(denials), a)
      ensures answer == RateLimited <==> 5 <= |Recent(old(denials), a)|
      ensures |Recent(old(denials), a)| < 5 ==>
                answer == if !a.right then Denied else if a.address.Some? then Welcome else Broken
      ensures denials == old(denials)
                         + if answer == Denied && a.address.Some? && !a.auditFails
                           then [Denial(a.recordedAt, a.user, a.address.value)] else []
    {
      RecentCount(denials, a);
      var failures, i := 0, 0;
      while i < |denials|
        invariant 0 <= i <= |denials|
        invariant failures + Failures(denials[i..], a.user, a.address, a.at - WINDOW)
                  == Failures(denials, a.user, a.address, a.at - WINDOW)
      {
        assert denials[i..][1..] == denials[i + 1..];
        if denials[i].at > a.at - WINDOW && (denials[i].user == a.user || a.address == Some(denials[i].address)) {
          failures := failures + 1;
        }
        i := i + 1;
      }
      if failures >= 5 {
        return RateLimited;
      }
      if !a.right {
        if a.address.Some? && !a.auditFails {
          denials := denials + [Denial(a.recordedAt, a.user, a.address.value)];
        }
        return Denied;
      }
      // The new session's address column refuses an empty address too.
      answer := if a.address.None? then Broken else Welcome;
    }
  }

  // ---------------------------------------------------------------- windows

  /** The denials of a name, and from an address, in the 15 minutes after lo. */
  function ByUser(log: seq<Denial>, user: User, lo: Instant): nat {
    if log == [] then 0
    else (if log[0].user == user && lo < log[0].at <= lo + WINDOW then 1 else 0) + ByUser(log[1..], user, lo)
  }

  function ByAddress(log: seq<Denial>, address: Address, lo: Instant): nat {
    if log == [] then 0
    else
      (if log[0].address == address && lo < log[0].at <= lo + WINDOW then 1 else 0)
      + ByAddress(log[1..], address, lo)
  }

  lemma {:induction false} Snoc(log: seq<Denial>, d: Denial, user: User, address: Address, lo: Instant)
    ensures ByUser(log + [d], user, lo)
         == ByUser(log, user, lo) + (if d.user == user && lo < d.at <= lo + WINDOW then 1 else 0)
    ensures ByAddress(log + [d], address, lo)
         == ByAddress(log, address, lo) + (if d.address == address && lo < d.at <= lo + WINDOW then 1 else 0)
  {
    if log != [] {
      Snoc(log[1..], d, user, address, lo);
      assert (log + [d])[1..] == log[1..] + [d];
    } else {
      assert (log + [d])[1..] == [];
    }
  }

  ghost predicate Limited(log: seq<Denial>) {
    && (forall user, lo :: ByUser(log, user, lo) <= 5)
    && (forall address, lo :: ByAddress(log, address, lo) <= 5)
  }

  /** One attempt after another: each is checked and recorded before the next one is checked. */
  ghost predicate InTurn(now: Instant, attempts: seq<Attempt>)
    decreases |attempts|
  {
    attempts == [] || (now <= attempts[0].at <= attempts[0].recordedAt && InTurn(attempts[0].recordedAt, attempts[1..]))
  }

  function LogOf(log: seq<Denial>, attempts: seq<Attempt>): seq<Denial>
    decreases |attempts|
  {
    if attempts == [] then log else LogOf(LogAfter(log, attempts[0]), attempts[1..])
  }

  /** The attempts of a run that are not rate-limited. */
  function NotLimited(log: seq<Denial>, attempts: seq<Attempt>): seq<Attempt>
    decreases |attempts|
  {
    if attempts == [] then []
    else
      (if AnswerTo(log, attempts[0]) == RateLimited then [] else [attempts[0]])
      + NotLimited(LogAfter(log, attempts[0]), attempts[1..])
  }

  function Answers(log: seq<Denial>, attempts: seq<Attempt>): seq<Answer>
    decreases |attempts|
  {
    if attempts == [] then [] else [AnswerTo(log, attempts[0])] + Answers(LogAfter(log, attempts[0]), attempts[1..])
  }

  function WithoutLimited(answers: seq<Answer>): seq<Answer> {
    if answers == [] then []
    else (if answers[0] == RateLimited then [] else [answers[0]]) + WithoutLimited(answers[1..])
  }

  /** Rate-limited attempts leave no trace: take them out of any run, and every other attempt is answered as before and
      the same denials are recorded. In particular they never extend a lockout. */
  lemma {:induction false} LimitedLeaveNoTrace(log: seq<Denial>, attempts: seq<Attempt>)
    ensures LogOf(log, NotLimited(log, attempts)) == LogOf(log, attempts)
    ensures Answers(log, NotLimited(log, attempts)) == WithoutLimited(Answers(log, attempts))
    decreases |attempts|
  {
    if attempts != [] {
      var a, rest := attempts[0], NotLimited(LogAfter(log, attempts[0]), attempts[1..]);
      LimitedLeaveNoTrace(LogAfter(log, a), attempts[1..]);
      var answers := Answers(log, attempts);
      assert answers[0] == AnswerTo(log, a) && answers[1..] == Answers(LogAfter(log, a), attempts[1..]);
      if AnswerTo(log, a) == RateLimited {
        assert NotLimited(log, attempts) == rest;
      } else {
        assert ([a] + rest)[0] == a && ([a] + rest)[1..] == rest;
      }
    }
  }

  /** The lockout is over 15 minutes after the last recorded denial, however often the owner has tried meanwhile. */
  lemma {:induction false} LockoutEnds(log: seq<Denial>, a: Attempt)
    requires forall d :: d in log && Matches(d, a.user, a.address) ==> d.at <= a.at - WINDOW
    ensures Failures(log, a.user, a.address, a.at - WINDOW) == 0 && AnswerTo(log, a) != RateLimited
  {
    if log != [] {
      assert log[0] in log;
      LockoutEnds(log[1..], a);
    }
  }

  /** The window only moves forward: without new records the count falls. */
  lemma {:induction false} FailuresFade(log: seq<Denial>, user: User, address: Option<Address>, since: Instant,
                                        later: Instant)
    requires since <= later
    ensures Failures(log, user, address, later) <= Failures(log, user, address, since)
  {
    if log != [] {
      FailuresFade(log[1..], user, address, since, later);
    }
  }

  /** The exception: from an unknown address wrong attempts are never recorded, so if the first is not rate-limited
      none of any number of them is; each is denied, and a right one ends in an error instead of a session. */
  lemma {:induction false} UnknownAddressIsNotLimited(log: seq<Denial>, now: Instant, user: User,
                                                      attempts: seq<Attempt>, i: nat)
    requires InTurn(now, attempts) && i < |attempts|
    requires forall j :: 0 <= j < |attempts| ==> attempts[j].user == user && attempts[j].address.None?
    requires Failures(log, user, None, now - WINDOW) < 5
    ensures LogOf(log, attempts[..i]) == log
    ensures AnswerTo(log, attempts[i]) == if attempts[i].right then Broken else Denied
    decreases |attempts|
  {
    FailuresFade(log, user, None, now - WINDOW, attempts[0].at - WINDOW);
    if i > 0 {
      assert attempts[..i][0] == attempts[0] && attempts[..i][1..] == attempts[1..][..i - 1];
      FailuresFade(log, user, None, now - WINDOW, attempts[0].recordedAt - WINDOW);
      UnknownAddressIsNotLimited(log, attempts[0].recordedAt, user, attempts[1..], i - 1);
    }
  }

  // ---------------------------------------------------------------- attempts that overlap

  datatype Caller = Caller(user: User, address: Option<Address>)

  /** The denials, and the attempts that have passed the check and not ended. */
  datatype Traffic = Traffic(log: seq<Denial>, checked: map<nat, Caller>, now: Instant)

  /** An attempt passes its check, or ends: denied or not, and recorded or not. One that is rate-limited changes
      nothing. */
  datatype Step =
    | Check(call: nat, user: User, address: Option<Address>, at: Instant)
    | Finish(call: nat, denied: bool, auditFails: bool, at: Instant)

  predicate CanStep(t: Traffic, step: Step) {
    match step
    case Check(call, user, address, at) =>
      t.now <= at && call !in t.checked && Failures(t.log, user, address, at - WINDOW) < 5
    case Finish(call, _, _, at) => t.now <= at && call in t.checked
  }

  function Do(t: Traffic, step: Step): Traffic
    requires CanStep(t, step)
  {
    match step
    case Check(call, user, address, at) => Traffic(t.log, t.checked[call := Caller(user, address)], at)
    case Finish(call, denied, auditFails, at) =>
      var caller := t.checked[call];
      var recorded := denied && caller.address.Some? && !auditFails;
      Traffic(if recorded then t.log + [Denial(at, caller.user, caller.address.value)] else t.log,
              t.checked - {call}, at)
  }

  /** A run in which never more than most attempts overlap. */
  ghost predicate ValidRun(t: Traffic, most: nat, steps: seq<Step>)
    decreases |steps|
  {
    |t.checked| <= most && (steps == [] || (CanStep(t, steps[0]) && ValidRun(Do(t, steps[0]), most, steps[1..])))
  }

  ghost function Run(t: Traffic, most: nat, steps: seq<Step>): Traffic
    requires ValidRun(t, most, steps)
    decreases |steps|
  {
    if steps == [] then t else Run(Do(t, steps[0]), most, steps[1..])
  }

  ghost function OfUser(checked: map<nat, Caller>, user: User): set<nat> {
    set k | k in checked && checked[k].user == user
  }

  ghost function OfAddress(checked: map<nat, Caller>, address: Address): set<nat> {
    set k | k in checked && checked[k].address == Some(address)
  }

  /** Every window is within the bound, and one that is still open also has room for the attempts under way. */
  ghost predicate Bounded(t: Traffic, most: nat) {
    && (forall user, lo :: ByUser(t.log, user, lo) <= 4 + most
          && (t.now <= lo + WINDOW ==> ByUser(t.log, user, lo) + |OfUser(t.checked, user)| <= 4 + most))
    && (forall address, lo :: ByAddress(t.log, address, lo) <= 4 + most
          && (t.now <= lo + WINDOW ==> ByAddress(t.log, address, lo) + |OfAddress(t.checked, address)| <= 4 + most))
  }

  lemma {:induction false} CountCover(log: seq<Denial>, user: User, address: Option<Address>, since: Instant,
                                      lo: Instant)
    requires since <= lo
    ensures ByUser(log, user, lo) <= Failures(log, user, address, since)
    ensures address.Some? ==> ByAddress(log, address.value, lo) <= Failures(log, user, address, since)
  {
    if log != [] {
      CountCover(log[1..], user, address, since, lo);
    }
  }

  lemma FewerThanAll(s: set<nat>, checked: map<nat, Caller>)
    requires s <= checked.Keys
    ensures |s| <= |checked|
  {
    assert checked.Keys == s + (checked.Keys - s);
    assert |checked.Keys| == |s| + |checked.Keys - s|;
  }

  lemma CheckKeepsBounded(t: Traffic, most: nat, step: Step)
    requires Bounded(t, most) && step.Check? && CanStep(t, step) && |Do(t, step).checked| <= most
    ensures Bounded(Do(t, step), most)
  {
    var u := Do(t, step);
    forall user, lo
      ensures ByUser(u.log, user, lo) <= 4 + most
      ensures u.now <= lo + WINDOW ==> ByUser(u.log, user, lo) + |OfUser(u.checked, user)| <= 4 + most
    {
      if user == step.user {
        FewerThanAll(OfUser(u.checked, user), u.checked);
        if u.now <= lo + WINDOW { CountCover(t.log, user, step.address, step.at - WINDOW, lo); }
      } else {
        assert OfUser(u.checked, user) == OfUser(t.checked, user);
      }
    }
    forall address: Address, lo
      ensures ByAddress(u.log, address, lo) <= 4 + most
      ensures u.now <= lo + WINDOW ==> ByAddress(u.log, address, lo) + |OfAddress(u.checked, address)| <= 4 + most
    {
      if step.address == Some(address) {
        FewerThanAll(OfAddress(u.checked, address), u.checked);
        if u.now <= lo + WINDOW { CountCover(t.log, step.user, step.address, step.at - WINDOW, lo); }
      } else {
        assert OfAddress(u.checked, address) == OfAddress(t.checked, address);
      }
    }
  }

  lemma FinishKeepsBounded(t: Traffic, most: nat, step: Step)
    requires Bounded(t, most) && step.Finish? && CanStep(t, step)
    ensures Bounded(Do(t, step), most)
  {
    var u, caller := Do(t, step), t.checked[step.call];
    forall user, lo
      ensures ByUser(u.log, user, lo) <= 4 + most
      ensures u.now <= lo + WINDOW ==> ByUser(u.log, user, lo) + |OfUser(u.checked, user)| <= 4 + most
    {
      if u.log != t.log { Snoc(t.log, u.log[|t.log|], user, 0, lo); }
      assert OfUser(u.checked, user) == OfUser(t.checked, user) - {step.call};
      assert caller.user == user <==> step.call in OfUser(t.checked, user);
    }
    forall address: Address, lo
      ensures ByAddress(u.log, address, lo) <= 4 + most
      ensures u.now <= lo + WINDOW ==> ByAddress(u.log, address, lo) + |OfAddress(u.checked, address)| <= 4 + most
    {
      if u.log != t.log { Snoc(t.log, u.log[|t.log|], 0, address, lo); }
      assert OfAddress(u.checked, address) == OfAddress(t.checked, address) - {step.call};
      assert caller.address == Some(address) <==> step.call in OfAddress(t.checked, address);
    }
  }

  /** When attempts overlap, each window of 15 minutes holds at most as many more recorded denials of one name, or
      from one address, as attempts overlap: four, and one for each of them. One at a time, that is five. */
  lemma {:induction false} OverlapBounds(t: Traffic, most: nat, steps: seq<Step>)
    requires Bounded(t, most) && ValidRun(t, most, steps)
    ensures Bounded(Run(t, most, steps), most)
    decreases |steps|
  {
    hide Bounded, Do, CanStep;
    if steps != [] {
      var u := Do(t, steps[0]);
      if steps[0].Check? { CheckKeepsBounded(t, most, steps[0]); } else { FinishKeepsBounded(t, most, steps[0]); }
      OverlapBounds(u, most, steps[1..]);
    }
  }

  /** Nothing is under way. */
  function Quiet(log: seq<Denial>, now: Instant): Traffic { Traffic(log, map[], now) }

  lemma QuietBounded(log: seq<Denial>, now: Instant, most: nat)
    requires forall user, lo :: ByUser(log, user, lo) <= 4 + most
    requires forall address, lo :: ByAddress(log, address, lo) <= 4 + most
    ensures Bounded(Quiet(log, now), most)
  {
    forall u ensures OfUser(map[], u) == {} {}
    forall a ensures OfAddress(map[], a) == {} {}
  }

  /** From an empty log, what every window holds. */
  lemma WindowsHoldAtMost(now: Instant, most: nat, steps: seq<Step>, user: User, address: Address, lo: Instant)
    requires ValidRun(Quiet([], now), most, steps)
    ensures ByUser(Run(Quiet([], now), most, steps).log, user, lo) <= 4 + most
    ensures ByAddress(Run(Quiet([], now), most, steps).log, address, lo) <= 4 + most
  {
    QuietBounded([], now, most);
    OverlapBounds(Quiet([], now), most, steps);
    var v := Run(Quiet([], now), most, steps);
    assert ByUser(v.log, user, lo) <= 4 + most && ByAddress(v.log, address, lo) <= 4 + most;
  }

  lemma Prepend(t: Traffic, most: nat, step: Step, rest: seq<Step>)
    requires |t.checked| <= most && CanStep(t, step) && ValidRun(Do(t, step), most, rest)
    ensures ValidRun(t, most, [step] + rest) && Run(t, most, [step] + rest) == Run(Do(t, step), most, rest)
  {
    hide Do, CanStep;
    assert ([step] + rest)[0] == step && ([step] + rest)[1..] == rest;
  }

  // ---------------------------------------------------------------- attempts in turn

  function CheckOf(a: Attempt): Step { Check(0, a.user, a.address, a.at) }

  function FinishOf(a: Attempt): Step { Finish(0, !a.right, a.auditFails, a.recordedAt) }

  /** A call of Login while nothing else is under way is a check, which is possible exactly if the call is not
      rate-limited, and an end, which leaves the log that the call leaves. */
  lemma LoginIsCheckAndFinish(log: seq<Denial>, now: Instant, a: Attempt)
    requires now <= a.at <= a.recordedAt
    ensures CanStep(Quiet(log, now), CheckOf(a)) <==> AnswerTo(log, a) != RateLimited
    ensures AnswerTo(log, a) == RateLimited ==> LogAfter(log, a) == log
    ensures AnswerTo(log, a) != RateLimited ==>
              var t := Do(Quiet(log, now), CheckOf(a));
              && CanStep(t, FinishOf(a)) && Do(t, FinishOf(a)) == Quiet(LogAfter(log, a), a.recordedAt)
              && (FinishOf(a).denied <==> AnswerTo(log, a) == Denied)
  {
    if AnswerTo(log, a) != RateLimited {
      var t := Do(Quiet(log, now), CheckOf(a));
      assert t.checked - {0} == map[];
    }
  }

  /** The steps of attempts that come one after another. */
  function StepsOf(log: seq<Denial>, attempts: seq<Attempt>): seq<Step>
    decreases |attempts|
  {
    if attempts == [] then []
    else
      var rest := StepsOf(LogAfter(log, attempts[0]), attempts[1..]);
      if AnswerTo(log, attempts[0]) == RateLimited then rest
      else [CheckOf(attempts[0])] + ([FinishOf(attempts[0])] + rest)
  }

  /** Successive calls of Login are a run in which nothing overlaps, and write the log of that run. */
  lemma {:induction false} InTurnIsRun(log: seq<Denial>, now: Instant, attempts: seq<Attempt>)
    requires InTurn(now, attempts)
    ensures ValidRun(Quiet(log, now), 1, StepsOf(log, attempts))
    ensures Run(Quiet(log, now), 1, StepsOf(log, attempts)).log == LogOf(log, attempts)
    decreases |attempts|
  {
    hide CanStep, Do, AnswerTo, LogAfter;
    if attempts != [] {
      var a := attempts[0];
      var after := LogAfter(log, a);
      LoginIsCheckAndFinish(log, now, a);
      if AnswerTo(log, a) == RateLimited {
        Sooner(now, a.recordedAt, attempts[1..]);
        InTurnIsRun(log, now, attempts[1..]);
      } else {
        var t := Do(Quiet(log, now), CheckOf(a));
        InTurnIsRun(after, a.recordedAt, attempts[1..]);
        OneUnderWay(log, now, a);
        Prepend(t, 1, FinishOf(a), StepsOf(after, attempts[1..]));
        Prepend(Quiet(log, now), 1, CheckOf(a), [FinishOf(a)] + StepsOf(after, attempts[1..]));
      }
    }
  }

  lemma Sooner(now: Instant, later: Instant, attempts: seq<Attempt>)
    requires now <= later && InTurn(later, attempts)
    ensures InTurn(now, attempts)
  {
  }

  lemma OneUnderWay(log: seq<Denial>, now: Instant, a: Attempt)
    requires CanStep(Quiet(log, now), CheckOf(a))
    ensures |Do(Quiet(log, now), CheckOf(a)).checked| <= 1
  {
  }

  /** In every run of calls one after another, every window of 15 minutes holds at most five recorded denials of one
      name, and at most five from one address. */
  lemma WindowsAreLimited(log: seq<Denial>, now: Instant, attempts: seq<Attempt>)
    requires Limited(log) && InTurn(now, attempts)
    ensures Limited(LogOf(log, attempts))
  {
    hide InTurn, ByUser, ByAddress, OfUser, OfAddress, StepsOf;
    QuietBounded(log, now, 1);
    InTurnIsRun(log, now, attempts);
    OverlapBounds(Quiet(log, now), 1, StepsOf(log, attempts));
  }

  // ---------------------------------------------------------------- the bound is reached

  function Copies(d: Denial, n: nat): seq<Denial> { seq(n, _ => d) }

  lemma {:induction false} CountCopies(d: Denial, n: nat, since: Instant, lo: Instant)
    requires since < d.at && lo < d.at <= lo + WINDOW
    ensures Failures(Copies(d, n), d.user, Some(d.address), since) == n
    ensures ByUser(Copies(d, n), d.user, lo) == n == ByAddress(Copies(d, n), d.address, lo)
  {
    if n > 0 {
      CountCopies(d, n - 1, since, lo);
      assert Copies(d, n)[1..] == Copies(d, n - 1);
    }
  }

  /** The calls from first up to below last have passed the check. */
  function Calls(caller: Caller, first: nat, last: nat): (m: map<nat, Caller>)
    requires first <= last
    ensures |m| == last - first && (forall k :: k in m <==> first <= k < last) && forall k :: k in m ==> m[k] == caller
    decreases last - first
  {
    if first == last then map[] else Calls(caller, first + 1, last)[first := caller]
  }

  lemma OneMoreCall(caller: Caller, first: nat, last: nat)
    requires first <= last
    ensures Calls(caller, first, last)[last := caller] == Calls(caller, first, last + 1)
    ensures first < last ==> Calls(caller, first, last) - {first} == Calls(caller, first + 1, last)
  {
    hide Calls;
  }

  /** n denials, and the calls from first up to below last under way, all at the time of d. */
  function Stage(d: Denial, n: nat, first: nat, last: nat): Traffic
    requires first <= last
  { Traffic(Copies(d, n), Calls(Caller(d.user, Some(d.address)), first, last), d.at) }

  lemma MayCheck(d: Denial, n: nat, last: nat)
    requires n < 5
    ensures var step := Check(last, d.user, Some(d.address), d.at);
            CanStep(Stage(d, n, 0, last), step) && Do(Stage(d, n, 0, last), step) == Stage(d, n, 0, last + 1)
  {
    hide Calls, Copies, Failures;
    CountCopies(d, n, d.at - WINDOW, d.at - WINDOW);
    OneMoreCall(Caller(d.user, Some(d.address)), 0, last);
  }

  lemma MayDeny(d: Denial, n: nat, first: nat, last: nat)
    requires first < last
    ensures var step := Finish(first, true, false, d.at);
            && CanStep(Stage(d, n, first, last), step)
            && Do(Stage(d, n, first, last), step) == Stage(d, n + 1, first + 1, last)
  {
    var caller := Caller(d.user, Some(d.address));
    hide Calls, Failures;
    OneMoreCall(caller, first, last);
    assert Copies(d, n) + [d] == Copies(d, n + 1);
  }

  /** All calls under way are denied. */
  lemma {:induction false} DenyAll(d: Denial, n: nat, first: nat, last: nat, most: nat) returns (steps: seq<Step>)
    requires first <= last && last - first <= most
    ensures ValidRun(Stage(d, n, first, last), most, steps)
    ensures Run(Stage(d, n, first, last), most, steps).log == Copies(d, n + (last - first))
    decreases last - first
  {
    hide CanStep, Do, Copies;
    if first == last {
      steps := [];
    } else {
      MayDeny(d, n, first, last);
      steps := DenyAll(d, n + 1, first + 1, last, most);
      Prepend(Stage(d, n, first, last), most, Finish(first, true, false, d.at), steps);
      steps := [Finish(first, true, false, d.at)] + steps;
    }
  }

  /** As many calls as may overlap pass the check, and are denied. */
  lemma {:induction false} CheckAll(d: Denial, last: nat, most: nat) returns (steps: seq<Step>)
    requires last <= most
    ensures ValidRun(Stage(d, 4, 0, last), most, steps)
    ensures Run(Stage(d, 4, 0, last), most, steps).log == Copies(d, 4 + most)
    decreases most - last
  {
    hide CanStep, Do, Copies;
    if last == most {
      steps := DenyAll(d, 4, 0, most, most);
    } else {
      var step := Check(last, d.user, Some(d.address), d.at);
      MayCheck(d, 4, last);
      steps := CheckAll(d, last + 1, most);
      Prepend(Stage(d, 4, 0, last), most, step, steps);
      steps := [step] + steps;
    }
  }

  /** Four calls in turn are denied before that. */
  lemma {:induction false} FourFirst(d: Denial, n: nat, most: nat) returns (steps: seq<Step>)
    requires n <= 4 && 1 <= most
    ensures ValidRun(Stage(d, n, 0, 0), most, steps)
    ensures Run(Stage(d, n, 0, 0), most, steps).log == Copies(d, 4 + most)
    decreases 4 - n
  {
    hide CanStep, Do, Copies;
    if n == 4 {
      steps := CheckAll(d, 0, most);
    } else {
      var check, finish := Check(0, d.user, Some(d.address), d.at), Finish(0, true, false, d.at);
      MayCheck(d, n, 0);
      MayDeny(d, n, 0, 1);
      assert Stage(d, n + 1, 1, 1) == Stage(d, n + 1, 0, 0);
      steps := FourFirst(d, n + 1, most);
      Prepend(Stage(d, n, 0, 1), most, finish, steps);
      Prepend(Stage(d, n, 0, 0), most, check, [finish] + steps);
      steps := [check] + ([finish] + steps);
    }
  }

  /** However many calls may overlap, a run from an empty log reaches the bound, for a name and an address at once. */
  lemma BoundIsReached(d: Denial, most: nat) returns (steps: seq<Step>)
    requires 1 <= most
    ensures ValidRun(Quiet([], d.at), most, steps)
    ensures var log := Run(Quiet([], d.at), most, steps).log;
            ByUser(log, d.user, d.at - WINDOW) == 4 + most == ByAddress(log, d.address, d.at - WINDOW)
  {
    assert Stage(d, 0, 0, 0) == Quiet([], d.at);
    steps := FourFirst(d, 0, most);
    CountCopies(d, 4 + most, d.at - WINDOW, d.at - WINDOW);
  }

  /** The run, if it is one, puts no more denials than bound into the window. */
  ghost predicate Holds(now: Instant, most: nat, steps: seq<Step>, user: User, address: Address, lo: Instant,
                        bound: nat)
  {
    ValidRun(Quiet([], now), most, steps) ==>
      var log := Run(Quiet([], now), most, steps).log;
      ByUser(log, user, lo) <= bound && ByAddress(log, address, lo) <= bound
  }

  /** No run with at most that many calls under way together puts more denials into any window. */
  ghost predicate NeverMore(most: nat, bound: nat) {
    forall now, steps, user, address, lo :: Holds(now, most, steps, user, address, lo, bound)
  }

  /** The limit of five holds exactly as long as calls do not overlap. */
  lemma FiveExactlyWhen(most: nat)
    ensures NeverMore(most, 5) <==> most <= 1
  {
    if most <= 1 {
      forall now, steps, user, address, lo ensures Holds(now, most, steps, user, address, lo, 5) {
        if ValidRun(Quiet([], now), most, steps) { WindowsHoldAtMost(now, most, steps, user, address, lo); }
      }
    } else {
      var steps := BoundIsReached(Denial(0, 0, 0), most);
      assert !Holds(0, most, steps, 0, 0, -WINDOW, 5);
    }
  }
}
