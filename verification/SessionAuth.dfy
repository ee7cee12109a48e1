/**
 * Sessions and login throttling (core-runtime/src/ipc/auth.rs and auth_session.rs).
 *
 * Every clock reading is a parameter, in nanoseconds; whether a presented token matches the
 * expected one, and the fresh session id, are parameters too.
 */
module SessionAuth {
  import opened Wrappers

  const SECOND: nat := 1_000_000_000
  const MAX_FAILED_ATTEMPTS: nat := 5
  const RATE_LIMIT_DURATION: nat := 30 * SECOND
  const ATTEMPT_WINDOW: nat := 60 * SECOND
  const MAX_REQUESTS: nat := 1000
  const REQUEST_WINDOW: nat := 60 * SECOND

  type Token = string

  datatype AuthError = InvalidToken | SessionNotFound | SessionExpired | RateLimited | SessionRateLimited

  datatype Session = Session(created: nat, windowStart: nat, requests: nat)

  datatype Limiter = Limiter(attempts: nat, windowStart: Option<nat>, blockedUntil: Option<nat>)

  datatype State = State(sessions: map<Token, Session>, limiter: Limiter, timeout: nat)

  // ---------------------------------------------------------------- the login limiter

  predicate Blocked(l: Limiter, now: nat) { l.blockedUntil.Some? && now < l.blockedUntil.value }

  function AfterFailure(l: Limiter, now: nat): Limiter
  {
    if l.windowStart.None? || now - l.windowStart.value > ATTEMPT_WINDOW then
      l.(attempts := 1, windowStart := Some(now))
    else if l.attempts + 1 >= MAX_FAILED_ATTEMPTS then
      l.(attempts := l.attempts + 1, blockedUntil := Some(now + RATE_LIMIT_DURATION))
    else
      l.(attempts := l.attempts + 1)
  }

  const FRESH: Limiter := Limiter(0, None, None)

  // ---------------------------------------------------------------- one session

  predicate Expired(s: Session, timeout: nat, at: nat) { at - s.created > timeout }

  /** Counting a request against its window, and whether it may pass. */
  function Counted(s: Session, now: nat): (Session, bool)
  {
    if now - s.windowStart > REQUEST_WINDOW then (s.(windowStart := now, requests := 1), true)
    else (s.(requests := s.requests + 1), s.requests + 1 <= MAX_REQUESTS)
  }

  // ---------------------------------------------------------------- calls

  /**
   * A call with its clock readings: a login reads the clock for the block, then for the failure or
   * the new session; a validation for the timeout, then for the window; a sweep between `at` and
   * `now` for each session, by default at its start.
   */
  datatype Call =
    | Login(matches: bool, id: Token, at: nat, now: nat)
    | Validate(token: Token, at: nat, now: nat)
    | Cleanup(at: nat, now: nat, clock: map<Token, nat>)

  /** The clock reading a sweep makes for one session. */
  function Reading(at: nat, clock: map<Token, nat>, t: Token): nat { if t in clock then clock[t] else at }

  datatype Reply = Granted(id: Token) | Passed | Swept | Refused(error: AuthError)

  function Step(st: State, c: Call): (State, Reply)
  {
    match c
    case Login(matches, id, at, now) =>
      if Blocked(st.limiter, at) then (st, Refused(RateLimited))
      else if !matches then (st.(limiter := AfterFailure(st.limiter, now)), Refused(InvalidToken))
      else (st.(limiter := FRESH, sessions := st.sessions[id := Session(now, now, 0)]), Granted(id))
    case Validate(token, at, now) =>
      if token !in st.sessions then (st, Refused(SessionNotFound))
      else if Expired(st.sessions[token], st.timeout, at) then
        (st.(sessions := st.sessions - {token}), Refused(SessionExpired))
      else
        var (s, ok) := Counted(st.sessions[token], now);
        (st.(sessions := st.sessions[token := s]), if ok then Passed else Refused(SessionRateLimited))
    case Cleanup(at, _, clock) =>
      (st.(sessions := map t | t in st.sessions && !Expired(st.sessions[t], st.timeout, Reading(at, clock, t)) :: st.sessions[t]),
       Swept)
  }

  /** The readings of a sweep lie between its start and its end. */
  predicate ReadsInside(c: Call) { c.Cleanup? ==> forall t | t in c.clock :: c.at <= c.clock[t] <= c.now }

  /** The clock never runs backwards, from `t` on. */
  predicate Ordered(cs: seq<Call>, t: nat)
  {
    cs == [] || (t <= cs[0].at <= cs[0].now && ReadsInside(cs[0]) && Ordered(cs[1..], cs[0].now))
  }

  // ---------------------------------------------------------------- the objects

  class RateLimiter {
    var attempts: nat
    var windowStart: Option<nat>
    var blockedUntil: Option<nat>

    function Abs(): Limiter
      reads this
    {
      Limiter(attempts, windowStart, blockedUntil)
    }

    constructor ()
      ensures Abs() == FRESH
    {
      attempts, windowStart, blockedUntil := 0, None, None;
    }

    method IsRateLimited(now: nat) returns (limited: bool)
      ensures limited <==> Blocked(Abs(), now)
    {
      limited := blockedUntil.Some? && now < blockedUntil.value;
    }

    method RecordFailure(now: nat)
      modifies this
      ensures Abs() == AfterFailure(old(Abs()), now)
    {
      var stale := windowStart.None? || now - windowStart.value > ATTEMPT_WINDOW;
      if stale {
        attempts := 1;
        windowStart := Some(now);
        return;
      }
      attempts := attempts + 1;
      if attempts >= MAX_FAILED_ATTEMPTS {
        blockedUntil := Some(now + RATE_LIMIT_DURATION);
      }
    }

    method Reset()
      modifies this
      ensures Abs() == FRESH
    {
      attempts := 0;
      windowStart := None;
      blockedUntil := None;
    }
  }

  class Authenticator {
    var sessions: map<Token, Session>
    const timeout: nat
    const limiter: RateLimiter

    function Abs(): State
      reads this, limiter
    {
      State(sessions, limiter.Abs(), timeout)
    }

    constructor (timeout: nat)
      ensures fresh(limiter) && Abs() == State(map[], FRESH, timeout)
    {
      this.timeout := timeout;
      sessions := map[];
      limiter := new RateLimiter();
    }

    method Authenticate(matches: bool, id: Token, at: nat, now: nat) returns (r: Result<Token, AuthError>)
      modifies this, limiter
      ensures var (st, reply) := Step(old(Abs()), Login(matches, id, at, now));
              Abs() == st && reply == (if r.Ok? then Granted(r.value) else Refused(r.error))
    {
      var limited := limiter.IsRateLimited(at);
      if limited {
        return Err(RateLimited);
      }
      if !matches {
        limiter.RecordFailure(now);
        return Err(InvalidToken);
      }
      limiter.Reset();
      sessions := sessions[id := Session(now, now, 0)];
      return Ok(id);
    }

    method Validate(token: Token, at: nat, now: nat) returns (r: Result<(), AuthError>)
      modifies this
      ensures var (st, reply) := Step(old(Abs()), Call.Validate(token, at, now));
              Abs() == st && reply == (if r.Ok? then Passed else Refused(r.error))
    {
      if token !in sessions {
        return Err(SessionNotFound);
      }
      var s := sessions[token];
      if at - s.created > timeout {
        sessions := sessions - {token};
        return Err(SessionExpired);
      }
      if now - s.windowStart > REQUEST_WINDOW {
        s := s.(requests := 1);
        s := s.(windowStart := now);
      } else {
        s := s.(requests := s.requests + 1);
      }
      sessions := sessions[token := s];
      if s.requests > MAX_REQUESTS {
        return Err(SessionRateLimited);
      }
      return Ok(());
    }

    method Sweep(at: nat, now: nat, clock: map<Token, nat>)
      modifies this
      ensures Abs() == Step(old(Abs()), Cleanup(at, now, clock)).0
    {
      sessions := map t | t in sessions && Reading(at, clock, t) - sessions[t].created <= timeout :: sessions[t];
    }
  }

  // ---------------------------------------------------------------- validations of one session

  /** Calls of the run that are accepted validations of `token` with their window reading in `lo..hi`. */
  function Passes(st: State, cs: seq<Call>, token: Token, lo: nat, hi: nat): nat
    decreases |cs|
  {
    if cs == [] then 0
    else
      var (st', reply) := Step(st, cs[0]);
      (if reply == Passed && cs[0].token == token && lo <= cs[0].now <= hi then 1 else 0)
      + Passes(st', cs[1..], token, lo, hi)
  }

  /** The id is not handed out again: session ids are drawn afresh. */
  predicate NoReissue(cs: seq<Call>, token: Token) { forall i | 0 <= i < |cs| :: cs[i].Login? ==> cs[i].id != token }

  /** What one call does to one session. */
  datatype Effect = Ended | Kept | Touched(ok: bool)

  lemma OneSession(st: State, c: Call, token: Token) returns (e: Effect)
    requires token in st.sessions && (c.Login? ==> c.id != token)
    ensures var (st', reply) := Step(st, c);
            && st'.timeout == st.timeout
            && match e
               case Ended => token !in st'.sessions && !(reply == Passed && c.token == token)
               case Kept => token in st'.sessions && st'.sessions[token] == st.sessions[token] && !(reply == Passed && c.token == token)
               case Touched(ok) => && token in st'.sessions && c.Validate? && c.token == token
                                   && !Expired(st.sessions[token], st.timeout, c.at)
                                   && (st'.sessions[token], ok) == Counted(st.sessions[token], c.now)
                                   && (ok <==> reply == Passed)
  {
    match c
    case Login(_, _, _, _) => e := Kept;
    case Cleanup(at, _, clock) => e := if Expired(st.sessions[token], st.timeout, Reading(at, clock, token)) then Ended else Kept;
    case Validate(t, at, now) =>
      if t != token {
        e := Kept;
      } else if Expired(st.sessions[token], st.timeout, at) {
        e := Ended;
      } else {
        e := Touched(Counted(st.sessions[token], now).1);
      }
  }

  /** A session that is gone stays gone, and nothing passes for it. */
  lemma {:induction false} GoneForGood(st: State, cs: seq<Call>, token: Token, lo: nat, hi: nat)
    requires token !in st.sessions && NoReissue(cs, token)
    ensures Passes(st, cs, token, lo, hi) == 0
    decreases |cs|
  {
    if cs != [] {
      var st' := Step(st, cs[0]).0;
      assert token !in st'.sessions;
      GoneForGood(st', cs[1..], token, lo, hi);
    }
  }

  function Left(s: Session): nat { if s.requests <= MAX_REQUESTS then MAX_REQUESTS - s.requests else 0 }

  /** Nothing counts once the clock has passed the interval. */
  lemma {:induction false} TooLate(st: State, cs: seq<Call>, token: Token, lo: nat, hi: nat, t: nat)
    requires Ordered(cs, t) && hi < t
    ensures Passes(st, cs, token, lo, hi) == 0
    decreases |cs|
  {
    hide Step;
    if cs != [] {
      TooLate(Step(st, cs[0]).0, cs[1..], token, lo, hi, cs[0].now);
    }
  }

  /** Up to the end of the window in force, only what is left of its allowance can pass. */
  lemma {:induction false} WithinWindow(st: State, cs: seq<Call>, token: Token, lo: nat, hi: nat, t: nat)
    requires token in st.sessions && NoReissue(cs, token) && Ordered(cs, t)
    requires hi - st.sessions[token].windowStart <= REQUEST_WINDOW
    ensures Passes(st, cs, token, lo, hi) <= Left(st.sessions[token])
    decreases |cs|
  {
    hide Step;
    if cs != [] {
      var st' := Step(st, cs[0]).0;
      var e := OneSession(st, cs[0], token);
      if cs[0].now > hi {
        TooLate(st', cs[1..], token, lo, hi, cs[0].now);
      } else if e.Ended? {
        GoneForGood(st', cs[1..], token, lo, hi);
      } else {
        WithinWindow(st', cs[1..], token, lo, hi, cs[0].now);
      }
    }
  }

  /** Two windows' length on, at most one more allowance can pass. */
  lemma {:induction false} WithinTwo(st: State, cs: seq<Call>, token: Token, lo: nat, hi: nat, t: nat)
    requires token in st.sessions && NoReissue(cs, token) && Ordered(cs, t)
    requires hi - st.sessions[token].windowStart <= 2 * REQUEST_WINDOW
    ensures Passes(st, cs, token, lo, hi) <= Left(st.sessions[token]) + MAX_REQUESTS
    decreases |cs|
  {
    hide Step;
    if cs != [] {
      var st' := Step(st, cs[0]).0;
      var e := OneSession(st, cs[0], token);
      if cs[0].now > hi {
        TooLate(st', cs[1..], token, lo, hi, cs[0].now);
      } else if e.Ended? {
        GoneForGood(st', cs[1..], token, lo, hi);
      } else if st'.sessions[token].windowStart == st.sessions[token].windowStart {
        WithinTwo(st', cs[1..], token, lo, hi, cs[0].now);
      } else {
        WithinWindow(st', cs[1..], token, lo, hi, cs[0].now);
      }
    }
  }

  /** At most 2000 validations of a session pass in any closed interval of one window's length. */
  lemma {:induction false} AnyInterval(st: State, cs: seq<Call>, token: Token, lo: nat, t: nat)
    requires token in st.sessions && NoReissue(cs, token) && Ordered(cs, t)
    ensures Passes(st, cs, token, lo, lo + 60_000_000_000) <= 2000
    decreases |cs|
  {
    hide Step;
    var hi := lo + REQUEST_WINDOW;
    if hi - st.sessions[token].windowStart <= 2 * REQUEST_WINDOW {
      WithinTwo(st, cs, token, lo, hi, t);
    } else if cs != [] {
      var st' := Step(st, cs[0]).0;
      var e := OneSession(st, cs[0], token);
      if e.Ended? {
        GoneForGood(st', cs[1..], token, lo, hi);
      } else if cs[0].now < lo || e.Kept? {
        AnyInterval(st', cs[1..], token, lo, cs[0].now);
      } else {
        WithinWindow(st', cs[1..], token, lo, hi, cs[0].now);
      }
    }
  }

  /** Accepted validations of `token` counted against the window that began at `w`. */
  function PassesOfWindow(st: State, cs: seq<Call>, token: Token, w: nat): nat
    decreases |cs|
  {
    if cs == [] then 0
    else
      var (st', reply) := Step(st, cs[0]);
      (if reply == Passed && cs[0].token == token && token in st'.sessions && st'.sessions[token].windowStart == w then 1 else 0)
      + PassesOfWindow(st', cs[1..], token, w)
  }

  lemma {:induction false} NoWindowLeft(st: State, cs: seq<Call>, token: Token, w: nat)
    requires NoReissue(cs, token)
    requires token in st.sessions ==> st.sessions[token].windowStart > w
    ensures PassesOfWindow(st, cs, token, w) == 0
    decreases |cs|
  {
    hide Step;
    if cs != [] {
      var st' := Step(st, cs[0]).0;
      if token in st.sessions {
        var e := OneSession(st, cs[0], token);
      } else {
        StaysGone(st, cs[0], token);
      }
      NoWindowLeft(st', cs[1..], token, w);
    }
  }

  lemma StaysGone(st: State, c: Call, token: Token)
    requires token !in st.sessions && (c.Login? ==> c.id != token)
    ensures token !in Step(st, c).0.sessions
  {
  }

  /** Each window accepts at most 1000 validations. */
  lemma {:induction false} OneWindow(st: State, cs: seq<Call>, token: Token, w: nat)
    requires token in st.sessions && NoReissue(cs, token) && st.sessions[token].windowStart <= w
    ensures PassesOfWindow(st, cs, token, w) <= 1000
    ensures st.sessions[token].windowStart == w ==> PassesOfWindow(st, cs, token, w) <= Left(st.sessions[token])
    decreases |cs|
  {
    hide Step;
    if cs != [] {
      var st' := Step(st, cs[0]).0;
      var e := OneSession(st, cs[0], token);
      if e.Ended? || st'.sessions[token].windowStart > w {
        NoWindowLeft(st', cs[1..], token, w);
      } else {
        OneWindow(st', cs[1..], token, w);
      }
    }
  }

  function After(st: State, cs: seq<Call>): State
    decreases |cs|
  {
    if cs == [] then st else After(Step(st, cs[0]).0, cs[1..])
  }

  /** No validation passes once the session has outlived its timeout. */
  lemma {:induction false} NoneAfterTimeout(st: State, cs: seq<Call>, c: Call, token: Token)
    requires token in st.sessions && NoReissue(cs + [c], token)
    requires Step(After(st, cs), c).1 == Passed && c.token == token
    ensures c.at - st.sessions[token].created <= st.timeout
    decreases |cs|
  {
    if cs == [] {
      assert (cs + [c])[0] == c;
      var e := OneSession(st, c, token);
    } else {
      assert (cs + [c])[0] == cs[0] && (cs + [c])[1..] == cs[1..] + [c];
      var st' := Step(st, cs[0]).0;
      var e := OneSession(st, cs[0], token);
      hide Step;
      if e.Ended? {
        PassNeedsSession(st', cs[1..], c, token);
      } else {
        NoneAfterTimeout(st', cs[1..], c, token);
      }
    }
  }

  /**
   * A validation of a held session, by the clock: past its timeout it is refused as expired and the
   * session is gone, and nothing else changes; up to it, it is counted and passes or is refused for
   * its rate, and the session stays with the time it was created.
   */
  lemma ValidatedExactly(st: State, token: Token, at: nat, now: nat)
    ensures var (st', reply) := Step(st, Validate(token, at, now));
            && st'.limiter == st.limiter && st'.timeout == st.timeout
            && (forall t | t != token :: t in st'.sessions <==> t in st.sessions)
            && (forall t | t != token && t in st.sessions :: st'.sessions[t] == st.sessions[t])
            && (token !in st.sessions <==> reply == Refused(SessionNotFound))
            && (reply == Refused(SessionExpired) <==> token in st.sessions && at - st.sessions[token].created > st.timeout)
            && (token in st'.sessions <==> token in st.sessions && at - st.sessions[token].created <= st.timeout)
            && (token in st'.sessions ==>
                  && st'.sessions[token].created == st.sessions[token].created
                  && (reply == Passed || reply == Refused(SessionRateLimited))
                  && (now - st.sessions[token].windowStart > 60_000_000_000 ==> reply == Passed)
                  && (now - st.sessions[token].windowStart <= 60_000_000_000 ==>
                        (reply == Passed <==> st.sessions[token].requests < 1000)))
  {
  }

  /** A sweep keeps exactly the sessions no older than the timeout when it looks at them, as they are. */
  lemma SweptExactly(st: State, at: nat, now: nat, clock: map<Token, nat>)
    ensures var (st', reply) := Step(st, Cleanup(at, now, clock));
            && reply == Swept && st'.limiter == st.limiter && st'.timeout == st.timeout
            && (forall t :: t in st'.sessions <==>
                  t in st.sessions && (if t in clock then clock[t] else at) - st.sessions[t].created <= st.timeout)
            && (forall t | t in st'.sessions :: st'.sessions[t] == st.sessions[t])
  {
  }

  lemma {:induction false} PassNeedsSession(st: State, cs: seq<Call>, c: Call, token: Token)
    requires NoReissue(cs + [c], token)
    requires Step(After(st, cs), c).1 == Passed && c.token == token
    ensures token in st.sessions
    decreases |cs|
  {
    if cs != [] {
      assert (cs + [c])[0] == cs[0] && (cs + [c])[1..] == cs[1..] + [c];
      PassNeedsSession(Step(st, cs[0]).0, cs[1..], c, token);
      if token !in st.sessions {
        StaysGone(st, cs[0], token);
      }
    }
  }

  // ---------------------------------------------------------------- failed logins

  /** A failed token check: a login that was let through and did not match. */
  predicate Failed(reply: Reply) { reply == Refused(InvalidToken) }

  predicate NoGrant(st: State, cs: seq<Call>)
    decreases |cs|
  {
    cs == [] || (!Step(st, cs[0]).1.Granted? && NoGrant(Step(st, cs[0]).0, cs[1..]))
  }

  /** Failed token checks of the run up to time `hi`. */
  function Failures(st: State, cs: seq<Call>, hi: nat): nat
    decreases |cs|
  {
    if cs == [] then 0
    else
      var (st', reply) := Step(st, cs[0]);
      (if Failed(reply) && cs[0].now <= hi then 1 else 0) + Failures(st', cs[1..], hi)
  }

  /** Failed token checks counted in the attempt window that began at `w`. */
  function FailuresOfWindow(st: State, cs: seq<Call>, w: nat): nat
    decreases |cs|
  {
    if cs == [] then 0
    else
      var (st', reply) := Step(st, cs[0]);
      (if Failed(reply) && st'.limiter.windowStart == Some(w) then 1 else 0) + FailuresOfWindow(st', cs[1..], w)
  }

  /** Attempts made in the window that began at `w`, none of which has been reset. */
  predicate Counting(l: Limiter, w: nat, n: nat) { l.windowStart == Some(w) && l.attempts == n }

  /** Failures no more than 60 s after the first of their window are counted in it, one by one. */
  lemma {:induction false} FailuresCounted(st: State, cs: seq<Call>, w: nat, n: nat, hi: nat)
    requires Counting(st.limiter, w, n) && NoGrant(st, cs)
    requires forall i | 0 <= i < |cs| :: cs[i].now <= hi && cs[i].now - w <= 60_000_000_000
    ensures Counting(After(st, cs).limiter, w, n + Failures(st, cs, hi))
    decreases |cs|
  {
    if cs != [] {
      var st', reply := Step(st, cs[0]).0, Step(st, cs[0]).1;
      assert Counting(st'.limiter, w, if Failed(reply) then n + 1 else n);
      hide Step, Counting;
      FailuresCounted(st', cs[1..], w, if Failed(reply) then n + 1 else n, hi);
    }
  }

  /**
   * Once four failures of a window are counted, one more within 60 s of its first blocks: for 30 s
   * from then every login is refused, the right token's too, and leaves everything as it is.
   */
  lemma FifthFailureBlocks(st: State, cs: seq<Call>, w: nat, n: nat, hi: nat, last: Call, matches: bool, id: Token, at: nat, now: nat)
    requires Counting(st.limiter, w, n) && NoGrant(st, cs) && n + Failures(st, cs, hi) >= 4
    requires forall i | 0 <= i < |cs| :: cs[i].now <= hi && cs[i].now - w <= 60_000_000_000
    requires Failed(Step(After(st, cs), last).1) && last.now - w <= 60_000_000_000 && at < last.now + 30_000_000_000
    ensures var st' := Step(After(st, cs), last).0; Step(st', Login(matches, id, at, now)) == (st', Refused(RateLimited))
  {
    FailuresCounted(st, cs, w, n, hi);
    hide After, Failures;
  }

  /** A login that is not blocked is granted exactly if its token matches, and is otherwise refused as invalid. */
  lemma LoginExactly(st: State, matches: bool, id: Token, at: nat, now: nat)
    ensures var (st', reply) := Step(st, Login(matches, id, at, now));
            var blocked := st.limiter.blockedUntil.Some? && at < st.limiter.blockedUntil.value;
            && (reply == Refused(RateLimited) <==> blocked)
            && (blocked ==> st' == st)
            && (reply == Refused(InvalidToken) <==> !blocked && !matches)
            && (reply == Granted(id) <==> !blocked && matches)
            && (reply == Granted(id) ==> st'.sessions == st.sessions[id := Session(now, now, 0)] && st'.limiter == Limiter(0, None, None))
            && (reply != Granted(id) ==> st'.sessions == st.sessions)
            && st'.timeout == st.timeout
  {
  }

  const MAX_PER_WINDOW: nat := 7

  /** From the fifth failure of a window on, each one blocks 30 s further into it. */
  predicate LimiterOk(l: Limiter)
  {
    match l.windowStart
    case None => l.attempts == 0
    case Some(w) =>
      && 1 <= l.attempts <= MAX_PER_WINDOW
      && (l.attempts >= 5 ==> l.blockedUntil.Some?)
      && (l.attempts == 5 ==> l.blockedUntil.value >= w + RATE_LIMIT_DURATION)
      && (l.attempts == 6 ==> l.blockedUntil.value >= w + 2 * RATE_LIMIT_DURATION)
      && (l.attempts == 7 ==> l.blockedUntil.value >= w + 3 * RATE_LIMIT_DURATION)
  }

  /** What a call that grants nothing does to the limiter. */
  lemma LimiterStep(st: State, c: Call)
    requires LimiterOk(st.limiter) && c.at <= c.now && !Step(st, c).1.Granted?
    requires st.limiter.windowStart.Some? ==> st.limiter.windowStart.value <= c.now
    ensures var (st', reply) := Step(st, c);
            var l, l' := st.limiter, st'.limiter;
            && LimiterOk(l')
            && (!Failed(reply) ==> l' == l)
            && (Failed(reply) ==> l'.windowStart.Some?)
            && (Failed(reply) && l'.windowStart == l.windowStart ==> l'.attempts == l.attempts + 1)
            && (Failed(reply) && l'.windowStart != l.windowStart ==>
                  l'.attempts == 1 && l'.windowStart == Some(c.now)
                  && (l.windowStart.Some? ==> c.now > l.windowStart.value + ATTEMPT_WINDOW))
  {
  }

  lemma {:induction false} WindowPassed(st: State, cs: seq<Call>, w: nat, t: nat)
    requires LimiterOk(st.limiter) && NoGrant(st, cs) && Ordered(cs, t)
    requires st.limiter.windowStart.Some? && w < st.limiter.windowStart.value <= t
    ensures FailuresOfWindow(st, cs, w) == 0
    decreases |cs|
  {
    if cs != [] {
      LimiterStep(st, cs[0]);
      hide Step, LimiterOk;
      WindowPassed(Step(st, cs[0]).0, cs[1..], w, cs[0].now);
    }
  }

  /** Without a success in between, an attempt window holds at most seven failed token checks. */
  lemma {:induction false} AttemptWindow(st: State, cs: seq<Call>, w: nat, t: nat)
    requires LimiterOk(st.limiter) && NoGrant(st, cs) && Ordered(cs, t)
    requires st.limiter.windowStart.Some? ==> st.limiter.windowStart.value <= t
    ensures FailuresOfWindow(st, cs, w) <= 7
    ensures st.limiter.windowStart == Some(w) ==> FailuresOfWindow(st, cs, w) <= MAX_PER_WINDOW - st.limiter.attempts
    decreases |cs|
  {
    if cs != [] {
      LimiterStep(st, cs[0]);
      var st' := Step(st, cs[0]).0;
      assert LimiterOk(st'.limiter);
      assert LimiterOk(st.limiter) && LimiterOk(st'.limiter) ==>
        (st'.limiter.windowStart.Some? ==> 1 <= st'.limiter.attempts <= MAX_PER_WINDOW);
      hide Step, LimiterOk;
      AttemptWindow(st', cs[1..], w, cs[0].now);
      if st'.limiter.windowStart.Some? && st'.limiter.windowStart.value > w {
        WindowPassed(st', cs[1..], w, cs[0].now);
      }
    }
  }

  lemma NextWindow(hi: nat, w: nat, v: nat)
    requires w + ATTEMPT_WINDOW < v <= hi
    ensures (hi - v) / ATTEMPT_WINDOW + 1 <= (hi - w) / ATTEMPT_WINDOW
  {
  }

  lemma {:induction false} FailuresTooLate(st: State, cs: seq<Call>, hi: nat, t: nat)
    requires Ordered(cs, t) && hi < t
    ensures Failures(st, cs, hi) == 0
    decreases |cs|
  {
    hide Step;
    if cs != [] {
      FailuresTooLate(Step(st, cs[0]).0, cs[1..], hi, cs[0].now);
    }
  }

  /** What is left of the window in force, and seven for each window that fits after it. */
  lemma {:induction false} FailureBudget(st: State, cs: seq<Call>, hi: nat, t: nat)
    requires LimiterOk(st.limiter) && NoGrant(st, cs) && Ordered(cs, t)
    requires st.limiter.windowStart.Some? && st.limiter.windowStart.value <= t && st.limiter.windowStart.value <= hi
    ensures Failures(st, cs, hi)
         <= MAX_PER_WINDOW - st.limiter.attempts + MAX_PER_WINDOW * ((hi - st.limiter.windowStart.value) / ATTEMPT_WINDOW)
    decreases |cs|
  {
    var n := (hi - st.limiter.windowStart.value) / ATTEMPT_WINDOW;
    assert st.limiter.attempts <= MAX_PER_WINDOW;
    if cs != [] {
      LimiterStep(st, cs[0]);
      hide Step, LimiterOk;
      var st' := Step(st, cs[0]).0;
      if cs[0].now > hi {
        FailuresTooLate(st', cs[1..], hi, cs[0].now);
      } else {
        FailureBudget(st', cs[1..], hi, cs[0].now);
        if st'.limiter.windowStart != st.limiter.windowStart {
          NextWindow(hi, st.limiter.windowStart.value, st'.limiter.windowStart.value);
        }
      }
    }
  }

  /** In `d` from the first failure there are at most seven failed checks for each window begun. */
  lemma FromFirstFailure(st: State, cs: seq<Call>, t: nat, d: nat)
    requires st.limiter == FRESH && NoGrant(st, cs) && Ordered(cs, t)
    requires cs != [] && Failed(Step(st, cs[0]).1)
    ensures Failures(st, cs, cs[0].now + d) <= 7 * (d / 60_000_000_000 + 1)
  {
    LimiterStep(st, cs[0]);
    var st' := Step(st, cs[0]).0;
    hide Step, LimiterOk;
    FailureBudget(st', cs[1..], cs[0].now + d, cs[0].now);
  }

  /** The bound is tight: seven failures in one window, the last exactly 60 s after the first. */
  lemma SevenHappen(timeout: nat)
    ensures FailuresOfWindow(State(map[], FRESH, timeout), SEVEN, 0) == 7 && Ordered(SEVEN, 0)
  {
    var l4 := Limiter(4, Some(0), None);
    FourFailures(timeout);
    var cs := SEVEN[4..];
    var l5 := AfterFailure(l4, 0);
    assert l5 == Limiter(5, Some(0), Some(30 * SECOND));
    var l6 := AfterFailure(l5, 30 * SECOND);
    assert l6 == Limiter(6, Some(0), Some(60 * SECOND));
    var l7 := AfterFailure(l6, 60 * SECOND);
    assert l7 == Limiter(7, Some(0), Some(90 * SECOND));
    var st4, st5, st6 := State(map[], l4, timeout), State(map[], l5, timeout), State(map[], l6, timeout);
    assert cs[0] == Fail(0) && cs[1..][0] == Fail(30 * SECOND) && cs[1..][1..] == [Fail(60 * SECOND)];
    assert FailuresOfWindow(State(map[], l7, timeout), [], 0) == 0;
    assert FailuresOfWindow(st6, [Fail(60 * SECOND)], 0) == 1;
    assert FailuresOfWindow(st5, cs[1..], 0) == 2;
    assert FailuresOfWindow(st4, cs, 0) == 3;
    assert Ordered([Fail(60 * SECOND)], 30 * SECOND) && Ordered(cs[1..], 0) && Ordered(cs, 0);
    OrderedFour();
  }

  function Fail(t: nat): Call { Login(false, "", t, t) }

  const SEVEN: seq<Call> := [Fail(0), Fail(0), Fail(0), Fail(0), Fail(0), Fail(30 * SECOND), Fail(60 * SECOND)]

  lemma FourFailures(timeout: nat)
    ensures FailuresOfWindow(State(map[], FRESH, timeout), SEVEN, 0)
         == 4 + FailuresOfWindow(State(map[], Limiter(4, Some(0), None), timeout), SEVEN[4..], 0)
  {
    var st0, st1, st2, st3 := State(map[], FRESH, timeout), State(map[], Limiter(1, Some(0), None), timeout),
                              State(map[], Limiter(2, Some(0), None), timeout), State(map[], Limiter(3, Some(0), None), timeout);
    assert SEVEN[1..][1..] == SEVEN[2..] && SEVEN[2..][1..] == SEVEN[3..] && SEVEN[3..][1..] == SEVEN[4..];
    assert FailuresOfWindow(st0, SEVEN, 0) == 1 + FailuresOfWindow(st1, SEVEN[1..], 0);
    assert FailuresOfWindow(st1, SEVEN[1..], 0) == 1 + FailuresOfWindow(st2, SEVEN[2..], 0);
    assert FailuresOfWindow(st2, SEVEN[2..], 0) == 1 + FailuresOfWindow(st3, SEVEN[3..], 0);
  }

  lemma OrderedFour()
    requires Ordered(SEVEN[4..], 0)
    ensures Ordered(SEVEN, 0)
  {
    assert SEVEN[1..][1..] == SEVEN[2..] && SEVEN[2..][1..] == SEVEN[3..] && SEVEN[3..][1..] == SEVEN[4..];
    assert Ordered(SEVEN[3..], 0) && Ordered(SEVEN[2..], 0) && Ordered(SEVEN[1..], 0);
  }

  // ---------------------------------------------------------------- what is let through

  /** Validations of `token` in the run whose window reading lies in `lo..hi`, passed or not. */
  function Uses(cs: seq<Call>, token: Token, lo: nat, hi: nat): nat
  {
    if cs == [] then 0
    else (if cs[0].Validate? && cs[0].token == token && lo <= cs[0].now <= hi then 1 else 0) + Uses(cs[1..], token, lo, hi)
  }

  /** Those in the closed interval of one window's length from `lo`. */
  function UsesFrom(cs: seq<Call>, token: Token, lo: nat): nat { Uses(cs, token, lo, lo + 60_000_000_000) }

  /** No such interval holds more of them than the allowance. */
  ghost predicate Modest(cs: seq<Call>, token: Token)
  {
    forall lo: nat :: UsesFrom(cs, token, lo) <= 1000
  }

  lemma ModestTail(cs: seq<Call>, token: Token)
    requires cs != [] && Modest(cs, token)
    ensures Modest(cs[1..], token)
  {
    forall lo: nat
      ensures UsesFrom(cs[1..], token, lo) <= MAX_REQUESTS
    {
      assert UsesFrom(cs, token, lo) <= MAX_REQUESTS;
    }
  }

  function Refusals(st: State, cs: seq<Call>, token: Token): nat
    decreases |cs|
  {
    if cs == [] then 0
    else
      var (st', reply) := Step(st, cs[0]);
      (if reply == Refused(SessionRateLimited) && cs[0].token == token then 1 else 0) + Refusals(st', cs[1..], token)
  }

  lemma {:induction false} NoRefusalsWhenGone(st: State, cs: seq<Call>, token: Token)
    requires token !in st.sessions && NoReissue(cs, token)
    ensures Refusals(st, cs, token) == 0
    decreases |cs|
  {
    if cs != [] {
      StaysGone(st, cs[0], token);
      NoRefusalsWhenGone(Step(st, cs[0]).0, cs[1..], token);
    }
  }

  /**
   * A session that is validated no more often than its allowance in any interval of a window's length
   * is never refused for its rate, in runs of any length.
   */
  lemma {:induction false} ModestUse(st: State, cs: seq<Call>, token: Token, t: nat)
    requires token in st.sessions && NoReissue(cs, token) && Ordered(cs, t) && st.sessions[token].windowStart <= t
    requires Modest(cs, token)
    requires var s := st.sessions[token]; s.requests + UsesFrom(cs, token, s.windowStart) <= 1000
    ensures Refusals(st, cs, token) == 0
    decreases |cs|
  {
    hide Step, Modest, ReadsInside;
    if cs != [] {
      var st', c := Step(st, cs[0]).0, cs[0];
      var e := OneSession(st, c, token);
      RefusalIsValidate(st, c, token);
      ModestTail(cs, token);
      if e.Ended? {
        NoRefusalsWhenGone(st', cs[1..], token);
      } else {
        AtMost(cs, token, c.now);
        ModestUse(st', cs[1..], token, c.now);
      }
    }
  }

  lemma AtMost(cs: seq<Call>, token: Token, lo: nat)
    requires Modest(cs, token)
    ensures UsesFrom(cs, token, lo) <= MAX_REQUESTS
  {
  }

  lemma RefusalIsValidate(st: State, c: Call, token: Token)
    requires token in st.sessions
    ensures Step(st, c).1 == Refused(SessionRateLimited) ==> c.Validate?
    ensures Step(st, c).1 == Refused(SessionRateLimited) && c.token == token ==>
              !Expired(st.sessions[token], st.timeout, c.at) && !Counted(st.sessions[token], c.now).1
  {
  }

  /** The same state but for sessions that have expired by `t`. */
  predicate SweptOf(st: State, full: State, t: nat)
  {
    && st.timeout == full.timeout && st.limiter == full.limiter
    && (forall k | k in st.sessions :: k in full.sessions && full.sessions[k] == st.sessions[k])
    && (forall k | k in full.sessions && k !in st.sessions :: Expired(full.sessions[k], full.timeout, t))
  }

  lemma SweptStep(st: State, full: State, c: Call, t: nat)
    requires SweptOf(st, full, t) && t <= c.at <= c.now && ReadsInside(c)
    ensures SweptOf(Step(st, c).0, Step(full, c).0, c.now)
    ensures Step(st, c).1 == Passed <==> Step(full, c).1 == Passed
    ensures Step(st, c).1.Granted? <==> Step(full, c).1.Granted?
  {
  }

  /** A sweep on one side only. */
  lemma SweepIsSwept(st: State, full: State, c: Call, t: nat)
    requires SweptOf(st, full, t) && c.Cleanup? && t <= c.at <= c.now && ReadsInside(c)
    ensures SweptOf(Step(st, c).0, full, c.now) && Step(st, c).1 == Swept
  {
  }

  function NoCleanups(cs: seq<Call>): seq<Call>
  {
    if cs == [] then [] else if cs[0].Cleanup? then NoCleanups(cs[1..]) else [cs[0]] + NoCleanups(cs[1..])
  }

  lemma {:induction false} CleanupsSkipped(st: State, full: State, cs: seq<Call>, token: Token, lo: nat, hi: nat, t: nat)
    requires SweptOf(st, full, t) && Ordered(cs, t)
    ensures Passes(st, cs, token, lo, hi) == Passes(full, NoCleanups(cs), token, lo, hi)
    decreases |cs|
  {
    hide Step, SweptOf, ReadsInside;
    if cs != [] {
      var c := cs[0];
      if c.Cleanup? {
        SweepIsSwept(st, full, c, t);
        CleanupsSkipped(Step(st, c).0, full, cs[1..], token, lo, hi, c.now);
      } else {
        SweptStep(st, full, c, t);
        CleanupsSkipped(Step(st, c).0, Step(full, c).0, cs[1..], token, lo, hi, c.now);
        assert NoCleanups(cs)[1..] == NoCleanups(cs[1..]);
      }
    }
  }

  /** Sweeping expired sessions, early, late or not at all, changes nothing that passes in any run. */
  lemma CleanupUnseen(st: State, cs: seq<Call>, token: Token, lo: nat, hi: nat, t: nat)
    requires Ordered(cs, t)
    ensures Passes(st, cs, token, lo, hi) == Passes(st, NoCleanups(cs), token, lo, hi)
  {
    CleanupsSkipped(st, st, cs, token, lo, hi, t);
  }

  /** Whatever came before `t`, the right token gets in from 30 s after it. */
  lemma {:induction false} NeverLockedOut(st: State, cs: seq<Call>, t: nat, end: nat)
    requires (st.limiter.blockedUntil.Some? ==> st.limiter.blockedUntil.value <= end + 30_000_000_000)
    requires Ordered(cs, t) && (forall i | 0 <= i < |cs| :: cs[i].now <= end)
    ensures forall at, id, now | at >= end + 30_000_000_000 :: Step(After(st, cs), Login(true, id, at, now)).1 == Granted(id)
    decreases |cs|
  {
    if cs != [] {
      NeverLockedOut(Step(st, cs[0]).0, cs[1..], cs[0].now, end);
    }
  }

  /** A granted id is a session: its first validations within the timeout pass, and the failures are forgotten. */
  lemma LoginThenValidate(st: State, c: Call, at: nat, now: nat)
    requires c.Login? && Step(st, c).1.Granted? && c.now <= at <= now && at - c.now <= st.timeout
    ensures c.matches && Step(st, c).1 == Granted(c.id) && Step(st, c).0.limiter == FRESH
    ensures Step(Step(st, c).0, Validate(c.id, at, now)).1 == Passed
    ensures forall t | t in st.sessions && t != c.id :: t in Step(st, c).0.sessions && Step(st, c).0.sessions[t] == st.sessions[t]
  {
  }

  /** Fewer than five failed checks never block. */
  lemma {:induction false} FewFailuresNoBlock(st: State, cs: seq<Call>, t: nat, hi: nat)
    requires st.limiter.blockedUntil.None? && Ordered(cs, t) && (forall i | 0 <= i < |cs| :: cs[i].now <= hi)
    requires st.limiter.attempts + Failures(st, cs, hi) < 5
    ensures After(st, cs).limiter.blockedUntil.None?
    decreases |cs|
  {
    if cs != [] {
      FewFailuresNoBlock(Step(st, cs[0]).0, cs[1..], cs[0].now, hi);
    }
  }
}
