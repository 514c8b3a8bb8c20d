/** EvaluationRateLimiter: admissions spaced in time and bounded in number and tokens over every
    minute, proved over the whole history of admissions. */
module RateLimiter {
  import opened Options

  const WINDOW: real := 60.0

  datatype Entry = Entry(time: real, tokens: nat)

  function Tokens(entries: seq<Entry>): nat
  {
    if entries == [] then 0 else Tokens(entries[..|entries| - 1]) + entries[|entries| - 1].tokens
  }

  /** The entries later than a bound. */
  function Since(log: seq<Entry>, bound: real): seq<Entry>
  {
    if log == [] then []
    else
      var last := log[|log| - 1];
      Since(log[..|log| - 1], bound) + if last.time > bound then [last] else []
  }

  /** The admissions that count against the budgets at time t. */
  function Recent(log: seq<Entry>, t: real): seq<Entry> { Since(log, t - WINDOW) }

  /** The admissions in the half-open minute that starts at a. */
  function Minute(log: seq<Entry>, a: real): seq<Entry>
  {
    if log == [] then []
    else
      var last := log[|log| - 1];
      Minute(log[..|log| - 1], a) + if a <= last.time < a + WINDOW then [last] else []
  }

  function Interval(requestsPerMinute: nat): real
    requires requestsPerMinute >= 1
  {
    WINDOW / requestsPerMinute as real
  }

  predicate Spaced(log: seq<Entry>, requestsPerMinute: nat, t: real)
    requires requestsPerMinute >= 1
  {
    log != [] ==> log[|log| - 1].time + Interval(requestsPerMinute) <= t
  }

  predicate OverBudget(recent: seq<Entry>, requestsPerMinute: nat, tokensPerMinute: int, tokens: nat)
  {
    |recent| >= requestsPerMinute || Tokens(recent) + tokens > tokensPerMinute
  }

  /** An admission of so many tokens at time t keeps the spacing and both budgets. */
  predicate Legal(log: seq<Entry>, requestsPerMinute: nat, tokensPerMinute: int, tokens: nat, t: real)
    requires requestsPerMinute >= 1
  {
    && Spaced(log, requestsPerMinute, t)
    && !OverBudget(Recent(log, t), requestsPerMinute, tokensPerMinute, tokens)
  }

  ghost predicate Chronological(log: seq<Entry>)
  {
    forall i, j :: 0 <= i <= j < |log| ==> log[i].time <= log[j].time
  }

  /** Every admission in the history was legal when it was made. */
  ghost predicate Admissible(log: seq<Entry>, requestsPerMinute: nat, tokensPerMinute: int)
    requires requestsPerMinute >= 1
  {
    && Chronological(log)
    && (forall i :: 0 <= i < |log| ==>
         Legal(log[..i], requestsPerMinute, tokensPerMinute, log[i].tokens, log[i].time))
  }

  // ---------- What the history guarantees ----------

  lemma AdmissiblePrefix(log: seq<Entry>, rpm: nat, tpm: int, n: nat)
    requires rpm >= 1 && Admissible(log, rpm, tpm) && n <= |log|
    ensures Admissible(log[..n], rpm, tpm)
  {
    forall i | 0 <= i < n
      ensures Legal(log[..n][..i], rpm, tpm, log[..n][i].tokens, log[..n][i].time)
    {
      assert log[..n][..i] == log[..i];
    }
  }

  /** What lies in a minute up to one of its admissions is recent at that admission. */
  lemma {:induction false} MinuteWithinRecent(log: seq<Entry>, a: real, t: real)
    requires t < a + WINDOW
    ensures |Minute(log, a)| <= |Recent(log, t)| && Tokens(Minute(log, a)) <= Tokens(Recent(log, t))
  {
    if log != [] {
      var front, last := log[..|log| - 1], log[|log| - 1];
      MinuteWithinRecent(front, a, t);
      TokensPush(Minute(front, a), last);
      TokensPush(Recent(front, t), last);
      assert Minute(front, a) + [] == Minute(front, a) && Recent(front, t) + [] == Recent(front, t);
    }
  }

  lemma TokensPush(entries: seq<Entry>, e: Entry)
    ensures Tokens(entries + [e]) == Tokens(entries) + e.tokens
  {
    assert (entries + [e])[..|entries|] == entries;
  }

  /** In every half-open minute at most the budgeted requests and tokens are admitted. */
  lemma {:induction false} EveryMinuteWithinBudget(log: seq<Entry>, rpm: nat, tpm: nat, a: real)
    requires rpm >= 1 && Admissible(log, rpm, tpm)
    ensures |Minute(log, a)| <= rpm && Tokens(Minute(log, a)) <= tpm
  {
    if log != [] {
      var n := |log| - 1;
      var front, last := log[..n], log[n];
      if a <= last.time < a + WINDOW {
        MinuteWithinRecent(front, a, last.time);
        TokensPush(Minute(front, a), last);
        assert Legal(log[..n], rpm, tpm, last.tokens, last.time);
      } else {
        AdmissiblePrefix(log, rpm, tpm, n);
        EveryMinuteWithinBudget(front, rpm, tpm, a);
        assert Minute(front, a) + [] == Minute(front, a);
      }
    }
  }

  /** In other words: admissions less than a minute apart, with all between them, are within both budgets. */
  lemma RunWithinBudget(log: seq<Entry>, rpm: nat, tpm: nat, i: nat, j: nat)
    requires rpm >= 1 && Admissible(log, rpm, tpm) && i <= j < |log| && log[j].time < log[i].time + WINDOW
    ensures j + 1 - i <= rpm && Tokens(log[i..j + 1]) <= tpm
  {
    RecentHolds(log, log[j].time, i, j);
    assert Legal(log[..j], rpm, tpm, log[j].tokens, log[j].time);
    assert log[i..j + 1] == log[i..j] + [log[j]];
    TokensPush(log[i..j], log[j]);
  }

  lemma {:induction false} RecentHolds(log: seq<Entry>, t: real, i: nat, j: nat)
    requires i <= j <= |log| && Chronological(log) && (i < j ==> log[i].time > t - WINDOW)
    ensures |Recent(log[..j], t)| >= j - i && Tokens(Recent(log[..j], t)) >= Tokens(log[i..j])
    decreases j
  {
    if i < j {
      var front, last := log[..j - 1], log[j - 1];
      RecentHolds(log, t, i, j - 1);
      assert log[..j][..j - 1] == front && log[..j][j - 1] == last;
      assert log[i].time <= last.time;
      TokensPush(Recent(front, t), last);
      assert log[i..j] == log[i..j - 1] + [last];
      TokensPush(log[i..j - 1], last);
    } else {
      assert log[i..j] == [];
    }
  }

  /** Neighbouring admissions are at least 60 / requestsPerMinute seconds apart. */
  ghost predicate Apart(log: seq<Entry>, requestsPerMinute: nat)
    requires requestsPerMinute >= 1
  {
    forall i, j :: 0 <= i && j == i + 1 && j < |log| ==> log[i].time + Interval(requestsPerMinute) <= log[j].time
  }

  lemma AdmissionsApart(log: seq<Entry>, rpm: nat, tpm: int)
    requires rpm >= 1 && Admissible(log, rpm, tpm)
    ensures Apart(log, rpm)
    ensures forall i, j :: 0 <= i && j == i + 1 && j < |log| ==> log[j].time - log[i].time >= 60.0 / rpm as real
  {
    forall i, j | 0 <= i && j == i + 1 && j < |log|
      ensures log[i].time + Interval(rpm) <= log[j].time
    {
      assert Legal(log[..j], rpm, tpm, log[j].tokens, log[j].time);
    }
  }

  lemma OneMore(k: int, x: real)
    ensures k as real * x == (k - 1) as real * x + x
    ensures 0.0 * x == 0.0
  {
  }

  /** k spaced admissions after a bound stretch over at least k - 1 intervals. */
  lemma {:induction false} SinceStretches(log: seq<Entry>, rpm: nat, bound: real)
    requires rpm >= 1 && Apart(log, rpm) && Since(log, bound) != []
    ensures log[|log| - 1].time > bound + (|Since(log, bound)| - 1) as real * Interval(rpm)
  {
    var n := |log| - 1;
    var front, last, k := log[..n], log[n], |Since(log[..n], bound)|;
    OneMore(k, Interval(rpm));
    if k > 0 {
      SinceStretches(front, rpm, bound);
      var i := n - 1;
      assert log[i].time + Interval(rpm) <= last.time;
      assert Interval(rpm) > 0.0;
    } else {
      assert Since(log, bound) == [last];
    }
  }

  lemma IntervalsInWindow(rpm: nat, k: nat)
    requires rpm >= 1 && k as real * Interval(rpm) < WINDOW
    ensures k < rpm
  {
    if k >= rpm {
      assert rpm as real * Interval(rpm) == WINDOW;
      ScaleUp(k as real, rpm as real, Interval(rpm));
    }
  }

  lemma ScaleUp(a: real, b: real, x: real)
    requires a >= b && x >= 0.0
    ensures a * x >= b * x
  {
    assert (a - b) * x >= 0.0;
  }

  /** Spacing alone already bounds the requests: when the next admission is due, fewer than
      requestsPerMinute are recent. */
  lemma SpacingBoundsRecent(log: seq<Entry>, rpm: nat, t: real)
    requires rpm >= 1 && Apart(log, rpm) && Spaced(log, rpm, t)
    ensures |Recent(log, t)| < rpm
  {
    var k := |Recent(log, t)|;
    if k > 0 {
      SinceStretches(log, rpm, t - WINDOW);
      assert log != [];
      OneMore(k, Interval(rpm));
      IntervalsInWindow(rpm, k);
    }
  }

  lemma ApartFront(log: seq<Entry>, rpm: nat)
    requires rpm >= 1 && Apart(log, rpm) && log != []
    ensures Apart(log[..|log| - 1], rpm) && Spaced(log[..|log| - 1], rpm, log[|log| - 1].time)
  {
    var j := |log| - 1;
    var i := j - 1;
    if i >= 0 { assert log[i].time + Interval(rpm) <= log[j].time; }
  }

  /** So spacing alone keeps every half-open minute within the request budget. */
  lemma {:induction false} SpacingBoundsMinute(log: seq<Entry>, rpm: nat, a: real)
    requires rpm >= 1 && Apart(log, rpm)
    ensures |Minute(log, a)| <= rpm
  {
    if log != [] {
      var front, last := log[..|log| - 1], log[|log| - 1];
      ApartFront(log, rpm);
      if a <= last.time < a + WINDOW {
        MinuteWithinRecent(front, a, last.time);
        SpacingBoundsRecent(front, rpm, last.time);
      } else {
        SpacingBoundsMinute(front, rpm, a);
      }
    }
  }

  // ---------- The budgets over time ----------

  lemma {:induction false} RecentShrinks(log: seq<Entry>, t: real, later: real)
    requires t <= later
    ensures |Recent(log, later)| <= |Recent(log, t)| && Tokens(Recent(log, later)) <= Tokens(Recent(log, t))
  {
    if log != [] {
      var front, last := log[..|log| - 1], log[|log| - 1];
      RecentShrinks(front, t, later);
      TokensPush(Recent(front, t), last);
      TokensPush(Recent(front, later), last);
      assert Recent(front, t) + [] == Recent(front, t) && Recent(front, later) + [] == Recent(front, later);
    }
  }

  /** Once an admission is legal it stays legal. */
  lemma LegalLater(log: seq<Entry>, rpm: nat, tpm: int, tokens: nat, t: real, later: real)
    requires rpm >= 1 && t <= later && Legal(log, rpm, tpm, tokens, t)
    ensures Legal(log, rpm, tpm, tokens, later)
  {
    RecentShrinks(log, t, later);
  }

  /** In a chronological history the recent admissions are a suffix. */
  lemma {:induction false} RecentSuffix(log: seq<Entry>, k: nat, t: real)
    requires k <= |log|
    requires forall i :: 0 <= i < k ==> log[i].time <= t - WINDOW
    requires forall i :: k <= i < |log| ==> log[i].time > t - WINDOW
    ensures Recent(log, t) == log[k..]
  {
    if log != [] {
      var n := |log| - 1;
      if k <= n {
        RecentSuffix(log[..n], k, t);
        assert log[k..] == log[..n][k..] + [log[n]];
      } else {
        RecentSuffix(log[..n], n, t);
        assert log[..n][n..] == [] && log[k..] == [];
      }
    }
  }

  lemma {:induction false} RecentAtMost(log: seq<Entry>, k: nat, t: real)
    requires k <= |log| && forall i :: 0 <= i < k ==> log[i].time <= t - WINDOW
    ensures |Recent(log, t)| <= |log| - k
  {
    if log != [] {
      var n := |log| - 1;
      RecentAtMost(log[..n], if k <= n then k else n, t);
    }
  }

  // ---------- How long to wait ----------

  /** The entries from k on are the ones recent at t. */
  ghost predicate RecentFrom(log: seq<Entry>, k: nat, t: real)
  {
    && k <= |log|
    && (forall i :: 0 <= i < k ==> log[i].time <= t - WINDOW)
    && (forall i :: k <= i < |log| ==> log[i].time > t - WINDOW)
  }

  /** The wait the limiter computes from its last request and the oldest entry of its window. */
  function WaitFor(log: seq<Entry>, k: nat, rpm: nat, tpm: int, tokens: nat, now: real): (wait: real)
    requires rpm >= 1 && tokens <= tpm && k <= |log|
  {
    var spacing := if log == [] then 0.0 else log[|log| - 1].time + Interval(rpm) - now;
    var budget :=
      if OverBudget(log[k..], rpm, tpm, tokens) && k < |log| then log[k].time + WINDOW - now else 0.0;
    MaxReal(MaxReal(0.0, spacing), budget)
  }

  /** The wait without the test of the number of requests. */
  function WaitByTokens(log: seq<Entry>, k: nat, rpm: nat, tpm: int, tokens: nat, now: real): (wait: real)
    requires rpm >= 1 && k <= |log|
  {
    var spacing := if log == [] then 0.0 else log[|log| - 1].time + Interval(rpm) - now;
    var budget := if Tokens(log[k..]) + tokens > tpm && k < |log| then log[k].time + WINDOW - now else 0.0;
    MaxReal(MaxReal(0.0, spacing), budget)
  }

  /** Spaced admissions from the kth on stretch over an interval each. */
  lemma {:induction false} Stretches(log: seq<Entry>, rpm: nat, k: nat)
    requires rpm >= 1 && Apart(log, rpm) && k < |log|
    ensures log[|log| - 1].time >= log[k].time + (|log| - 1 - k) as real * Interval(rpm)
    decreases |log| - k
  {
    OneMore(|log| - 1 - k, Interval(rpm));
    if k + 1 < |log| {
      var next := k + 1;
      Stretches(log, rpm, next);
      assert log[k].time + Interval(rpm) <= log[next].time;
    }
  }

  lemma WholeWindow(rpm: nat)
    requires rpm >= 1
    ensures (rpm - 1) as real * Interval(rpm) == WINDOW - Interval(rpm) && Interval(rpm) > 0.0
  {
    OneMore(rpm, Interval(rpm));
    assert rpm as real * Interval(rpm) == WINDOW;
  }

  /** When the window holds as many requests as are allowed, the oldest leaves it by the time the
      spacing allows the next. */
  lemma FullWindowIsDue(log: seq<Entry>, k: nat, rpm: nat)
    requires rpm >= 1 && Apart(log, rpm) && k < |log| && |log| - k >= rpm
    ensures log[k].time + WINDOW <= log[|log| - 1].time + Interval(rpm)
  {
    Stretches(log, rpm, k);
    WholeWindow(rpm);
    ScaleUp((|log| - 1 - k) as real, (rpm - 1) as real, Interval(rpm));
  }

  /** The test of the number of requests never makes the limiter wait: with spaced admissions, the
      wait it computes is the one computed without that test, at any time and for any window. */
  lemma CountCheckRedundant(log: seq<Entry>, k: nat, rpm: nat, tpm: int, tokens: nat, now: real)
    requires rpm >= 1 && tokens <= tpm && k <= |log| && Apart(log, rpm)
    ensures WaitFor(log, k, rpm, tpm, tokens, now) == WaitByTokens(log, k, rpm, tpm, tokens, now)
  {
    if |log| - k >= rpm { FullWindowIsDue(log, k, rpm); }
  }

  /** Waiting is right: the wait is zero exactly when the admission is legal now, and until it is
      over the admission is not legal. */
  lemma WaitIsNeeded(log: seq<Entry>, k: nat, rpm: nat, tpm: int, tokens: nat, now: real, t: real)
    requires rpm >= 1 && tokens <= tpm && RecentFrom(log, k, now) && Chronological(log)
    requires now <= t
    ensures WaitFor(log, k, rpm, tpm, tokens, now) <= 0.0 <==> Legal(log, rpm, tpm, tokens, now)
    ensures t < now + WaitFor(log, k, rpm, tpm, tokens, now) ==> !Legal(log, rpm, tpm, tokens, t)
  {
    RecentSuffix(log, k, now);
    if k < |log| && t < log[k].time + WINDOW {
      RecentSuffix(log, k, t);
    }
  }

  /** How far the limiter is from admitting: the recent admissions, and one for spacing still due. */
  function Pending(log: seq<Entry>, rpm: nat, t: real): nat
    requires rpm >= 1
  {
    |Recent(log, t)| + if Spaced(log, rpm, t) then 0 else 1
  }

  lemma PendingShrinks(log: seq<Entry>, rpm: nat, t: real, later: real)
    requires rpm >= 1 && t <= later
    ensures Pending(log, rpm, later) <= Pending(log, rpm, t)
  {
    RecentShrinks(log, t, later);
  }

  /** Waiting helps: afterwards an entry has left the window, or the spacing is kept. */
  lemma WaitHelps(log: seq<Entry>, k: nat, rpm: nat, tpm: int, tokens: nat, now: real, later: real)
    requires rpm >= 1 && tokens <= tpm && RecentFrom(log, k, now)
    requires WaitFor(log, k, rpm, tpm, tokens, now) > 0.0 && later >= now + WaitFor(log, k, rpm, tpm, tokens, now)
    ensures Pending(log, rpm, later) < Pending(log, rpm, now)
  {
    RecentSuffix(log, k, now);
    RecentShrinks(log, now, later);
    if k < |log| && OverBudget(log[k..], rpm, tpm, tokens) {
      RecentAtMost(log, k + 1, later);
    }
  }

  /** Any caller that re-checks at a time `now` and stamps at a later clock reading, whatever it
      slept in between, keeps the history admissible. */
  datatype Turn = Turn(now: real, stamp: real, tokens: nat)

  function History(turns: seq<Turn>, rpm: nat, tpm: int): seq<Entry>
    requires rpm >= 1
  {
    if turns == [] then []
    else
      var turn := turns[|turns| - 1];
      var log := History(turns[..|turns| - 1], rpm, tpm);
      if Legal(log, rpm, tpm, turn.tokens, turn.now) then log + [Entry(turn.stamp, turn.tokens)] else log
  }

  ghost predicate MonotoneClock(turns: seq<Turn>)
  {
    && (forall i :: 0 <= i < |turns| ==> turns[i].now <= turns[i].stamp)
    && (forall i, j :: 0 <= i < j < |turns| ==> turns[i].stamp <= turns[j].now)
  }

  lemma AdmissiblePush(log: seq<Entry>, rpm: nat, tpm: int, e: Entry)
    requires rpm >= 1 && Admissible(log, rpm, tpm) && Legal(log, rpm, tpm, e.tokens, e.time)
    requires forall i :: 0 <= i < |log| ==> log[i].time <= e.time
    ensures Admissible(log + [e], rpm, tpm)
  {
    var longer := log + [e];
    forall i | 0 <= i < |longer|
      ensures Legal(longer[..i], rpm, tpm, longer[i].tokens, longer[i].time)
    {
      assert longer[..i] == log[..i];
      if i == |log| { assert log[..i] == log; }
    }
  }

  lemma {:induction false} EveryRunAdmissible(turns: seq<Turn>, rpm: nat, tpm: int)
    requires rpm >= 1 && MonotoneClock(turns)
    ensures Admissible(History(turns, rpm, tpm), rpm, tpm)
    ensures forall i :: 0 <= i < |History(turns, rpm, tpm)| ==>
              turns != [] && History(turns, rpm, tpm)[i].time <= turns[|turns| - 1].stamp
  {
    if turns != [] {
      var n := |turns| - 1;
      var turn, log := turns[n], History(turns[..n], rpm, tpm);
      EveryRunAdmissible(turns[..n], rpm, tpm);
      if n > 0 { assert turns[n - 1].stamp <= turn.now; }
      if Legal(log, rpm, tpm, turn.tokens, turn.now) {
        LegalLater(log, rpm, tpm, turn.tokens, turn.now, turn.stamp);
        AdmissiblePush(log, rpm, tpm, Entry(turn.stamp, turn.tokens));
      }
    }
  }

  /** Every turn that finds its admission legal is recorded, behind those before it, with the time at
      which it is stamped. */
  lemma {:induction false} EveryAdmissionRecorded(turns: seq<Turn>, rpm: nat, tpm: int, n: nat)
    requires rpm >= 1 && n < |turns|
    ensures var k, log := |History(turns[..n], rpm, tpm)|, History(turns, rpm, tpm);
            && k <= |log| && log[..k] == History(turns[..n], rpm, tpm)
            && (Legal(log[..k], rpm, tpm, turns[n].tokens, turns[n].now) ==>
                  k < |log| && log[k] == Entry(turns[n].stamp, turns[n].tokens))
  {
    var front := turns[..|turns| - 1];
    if n < |turns| - 1 {
      EveryAdmissionRecorded(front, rpm, tpm, n);
      assert front[..n] == turns[..n];
    }
  }

  // ---------- The limiter ----------

  /** A monotone clock. An exact one moves only while somebody sleeps, and then by what was asked. */
  class Clock {
    const exact: bool
    var now: real

    constructor (exact: bool, now: real)
      ensures this.exact == exact && this.now == now
    {
      this.exact, this.now := exact, now;
    }

    method Read() returns (t: real)
      modifies this
      ensures t == now >= old(now)
      ensures exact ==> now == old(now)
    {
      if !exact {
        var drift: real :| drift >= 0.0;
        now := now + drift;
      }
      t := now;
    }

    method Sleep(duration: real)
      requires duration > 0.0
      modifies this
      ensures now >= old(now) + duration
      ensures exact ==> now == old(now) + duration
    {
      now := now + duration;
      if !exact {
        var late: real :| late >= 0.0;
        now := now + late;
      }
    }
  }

  class EvaluationRateLimiter {
    const requestsPerMinute: nat
    const tokensPerMinute: int
    const clock: Clock
    var window: seq<Entry>
    var lastRequest: Option<real>
    ghost var log: seq<Entry>  // all admissions so far
    ghost var dropped: nat     // how many of them the window has let go

    ghost predicate Valid()
      reads this, clock
    {
      && requestsPerMinute >= 1 && lastRequest == LastTime(log)
      && Recorded(log, requestsPerMinute, tokensPerMinute, clock.now) && WindowOf(clock.now)
    }

    /** The window is the history without some admissions that are a minute old at time t. */
    ghost predicate WindowOf(t: real)
      reads this
    {
      dropped <= |log| && window == log[dropped..] && AllOld(log, dropped, t)
    }

    constructor (requestsPerMinute: nat, tokensPerMinute: int, clock: Clock)
      requires requestsPerMinute >= 1
      ensures Valid() && log == []
      ensures this.requestsPerMinute == requestsPerMinute && this.tokensPerMinute == tokensPerMinute &&
              this.clock == clock
    {
      this.requestsPerMinute, this.tokensPerMinute, this.clock := requestsPerMinute, tokensPerMinute, clock;
      window, lastRequest, log, dropped := [], None, [], 0;
    }

    /** Lets go of the admissions that are a minute old. */
    method Purge(now: real)
      requires Valid() && now == clock.now
      modifies this`window, this`dropped
      ensures Valid() && RecentFrom(log, dropped, now)
    {
      while window != [] && now - window[0].time >= WINDOW
        invariant WindowOf(now)
        decreases |window|
      {
        window, dropped := window[1..], dropped + 1;
      }
      if window != [] {
        assert log[dropped] == window[0];
      }
    }

    /** Reads the clock, purges the window and computes how long to wait. */
    method Check(tokens: nat) returns (now: real, waitFor: real)
      requires Valid() && tokens <= tokensPerMinute
      modifies clock, this`window, this`dropped
      ensures Valid() && now == clock.now >= old(clock.now) && (clock.exact ==> now == old(clock.now))
      ensures RecentFrom(log, dropped, now)
      ensures waitFor == WaitFor(log, dropped, requestsPerMinute, tokensPerMinute, tokens, now)
    {
      now := clock.Read();
      Purge(now);
      waitFor := ComputeWait(now, tokens);
    }

    method ComputeWait(now: real, tokens: nat) returns (waitFor: real)
      requires Valid() && tokens <= tokensPerMinute
      ensures waitFor == WaitFor(log, dropped, requestsPerMinute, tokensPerMinute, tokens, now)
    {
      waitFor := 0.0;
      if lastRequest.Some? {
        waitFor := MaxReal(waitFor, lastRequest.value + Interval(requestsPerMinute) - now);
      }
      if OverBudget(window, requestsPerMinute, tokensPerMinute, tokens) {
        assert window != [];
        waitFor := MaxReal(waitFor, window[0].time + WINDOW - now);
      }
    }

    /** Reads the clock again and records the admission. */
    method Admit(tokens: nat) returns (timestamp: real)
      requires Valid() && Legal(log, requestsPerMinute, tokensPerMinute, tokens, clock.now)
      modifies this, clock
      ensures Valid() && timestamp == clock.now >= old(clock.now) && (clock.exact ==> timestamp == old(clock.now))
      ensures log == old(log) + [Entry(timestamp, tokens)]
      ensures window == old(window) + [Entry(timestamp, tokens)]
      ensures Legal(old(log), requestsPerMinute, tokensPerMinute, tokens, timestamp)
    {
      ghost var before := clock.now;
      timestamp := clock.Read();
      var entry := Entry(timestamp, tokens);
      RecordedPush(log, requestsPerMinute, tokensPerMinute, before, entry);
      WindowPush(log, dropped, before, entry);
      window, log, lastRequest := window + [entry], log + [entry], Some(timestamp);
    }

    /** Admits a request as soon as spacing and budgets allow. With an exact clock that is the
        earliest time at which they do. */
    method Acquire(tokens: nat) returns (admitted: Option<real>, ghost sleeps: nat)
      requires Valid()
      modifies this, clock
      ensures Valid()
      ensures tokens > tokensPerMinute ==>
              admitted == None && log == old(log) && window == old(window) && clock.now == old(clock.now)
      ensures tokens <= tokensPerMinute ==> admitted.Some? && admitted.value == clock.now >= old(clock.now)
      ensures admitted.Some? ==> log == old(log) + [Entry(admitted.value, tokens)]
      ensures admitted.Some? ==> Legal(old(log), requestsPerMinute, tokensPerMinute, tokens, admitted.value)
      ensures admitted.Some? && clock.exact ==>
        TooEarly(old(log), requestsPerMinute, tokensPerMinute, tokens, old(clock.now), admitted.value)
      ensures sleeps <= |old(window)| + 1
    {
      admitted, sleeps := None, 0;
      if tokens <= tokensPerMinute {
        sleeps := AwaitTurn(tokens);
        var timestamp := Admit(tokens);
        admitted := Some(timestamp);
      }
    }

    /** Sleeps and checks again until the admission is legal. */
    method AwaitTurn(tokens: nat) returns (ghost sleeps: nat)
      requires Valid() && tokens <= tokensPerMinute
      modifies clock, this`window, this`dropped
      ensures Valid() && clock.now >= old(clock.now)
      ensures Legal(log, requestsPerMinute, tokensPerMinute, tokens, clock.now)
      ensures clock.exact ==> TooEarly(log, requestsPerMinute, tokensPerMinute, tokens, old(clock.now), clock.now)
      ensures sleeps <= |old(window)| + 1
    {
      sleeps := 0;
      ghost var start := clock.now;
      RecentAtMost(log, dropped, start);
      var now, waitFor := Check(tokens);
      PendingShrinks(log, requestsPerMinute, start, now);
      while waitFor > 0.0
        invariant Valid() && RecentFrom(log, dropped, now)
        invariant start <= now == clock.now
        invariant waitFor == WaitFor(log, dropped, requestsPerMinute, tokensPerMinute, tokens, now)
        invariant clock.exact ==> TooEarly(log, requestsPerMinute, tokensPerMinute, tokens, start, now)
        invariant sleeps + Pending(log, requestsPerMinute, now) <= |old(window)| + 1
        decreases Pending(log, requestsPerMinute, now)
      {
        StillTooEarly(log, dropped, requestsPerMinute, tokensPerMinute, tokens, start, now);
        ghost var before, oldest := now, dropped;
        clock.Sleep(waitFor);
        sleeps := sleeps + 1;
        now, waitFor := Check(tokens);
        WaitHelps(log, oldest, requestsPerMinute, tokensPerMinute, tokens, before, now);
      }
      WaitIsNeeded(log, dropped, requestsPerMinute, tokensPerMinute, tokens, now, now);
    }
  }

  /** No time from start up to now allows the admission. */
  ghost predicate TooEarly(log: seq<Entry>, rpm: nat, tpm: int, tokens: nat, start: real, now: real)
    requires rpm >= 1
  {
    forall t :: start <= t < now ==> !Legal(log, rpm, tpm, tokens, t)
  }

  lemma StillTooEarly(log: seq<Entry>, k: nat, rpm: nat, tpm: int, tokens: nat, start: real, now: real)
    requires rpm >= 1 && tokens <= tpm && RecentFrom(log, k, now) && Chronological(log)
    ensures TooEarly(log, rpm, tpm, tokens, start, now) ==>
              TooEarly(log, rpm, tpm, tokens, start, now + WaitFor(log, k, rpm, tpm, tokens, now))
  {
    forall t | now <= t < now + WaitFor(log, k, rpm, tpm, tokens, now)
      ensures !Legal(log, rpm, tpm, tokens, t)
    {
      WaitIsNeeded(log, k, rpm, tpm, tokens, now, t);
    }
  }

  /** A history of legal admissions up to now. */
  ghost predicate Recorded(log: seq<Entry>, rpm: nat, tpm: int, now: real)
    requires rpm >= 1
  {
    Admissible(log, rpm, tpm) && forall i :: 0 <= i < |log| ==> log[i].time <= now
  }

  function LastTime(log: seq<Entry>): Option<real> { if log == [] then None else Some(log[|log| - 1].time) }

  /** The first admissions are a minute old at time t. */
  ghost predicate AllOld(log: seq<Entry>, n: nat, t: real)
    requires n <= |log|
  {
    forall i :: 0 <= i < n ==> log[i].time <= t - WINDOW
  }

  lemma RecordedPush(log: seq<Entry>, rpm: nat, tpm: int, now: real, e: Entry)
    requires rpm >= 1 && Recorded(log, rpm, tpm, now)
    requires now <= e.time && Legal(log, rpm, tpm, e.tokens, now)
    ensures Recorded(log + [e], rpm, tpm, e.time) && Legal(log, rpm, tpm, e.tokens, e.time)
  {
    LegalLater(log, rpm, tpm, e.tokens, now, e.time);
    AdmissiblePush(log, rpm, tpm, e);
  }

  lemma WindowPush(log: seq<Entry>, k: nat, now: real, e: Entry)
    requires k <= |log| && AllOld(log, k, now) && now <= e.time
    ensures (log + [e])[k..] == log[k..] + [e] && AllOld(log + [e], k, e.time)
  {
  }

  function MaxReal(a: real, b: real): real { if a < b then b else a }
}
