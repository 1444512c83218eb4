/** The bounded-retry loops of the firmware's start-up: the WiFi association
    loop in `setup` and `waitForNTP`. Both poll a probe, count each failed
    poll in `attempts` and restart the device once `attempts > 30`.

    A probe is given as the sequence of its answers: `ok(k)` is the answer of
    the k-th poll (k = 0 is the poll before the first retry). The device
    restart does not return; the model makes it the terminal state
    `Restarted`. */
module Retry {
  import opened FlowRate

  /** The bound in `attempts > 30`. */
  const MAX_ATTEMPTS: nat := 30

  /** Polling, after `attempts` failed polls; returned normally after
      `attempts` failed polls; or restarted. */
  datatype RetryState = Waiting(attempts: nat) | Done(attempts: nat) | Restarted

  /** A waiting state that the loop can reach: at most 30 failed polls. */
  predicate Bounded(s: RetryState) {
    s.Waiting? ==> s.attempts <= MAX_ATTEMPTS
  }

  /** One poll: success ends the loop; a failure counts one more attempt and
      restarts once there are more than 30. Nothing leaves `Done` or
      `Restarted`. */
  function Step(s: RetryState, probeOk: bool): (t: RetryState)
    ensures Bounded(s) ==> Bounded(t)
    ensures t.Restarted? ==> s.Restarted? || (s.Waiting? && s.attempts >= MAX_ATTEMPTS && !probeOk)
  {
    match s
    case Waiting(a) =>
      if probeOk then Done(a)
      else if a + 1 > MAX_ATTEMPTS then Restarted
      else Waiting(a + 1)
    case Done(_) => s
    case Restarted => s
  }

  /** The state after feeding a finite sequence of poll answers. */
  function Feed(s: RetryState, answers: seq<bool>): (t: RetryState)
    ensures t.Waiting? ==> s.Waiting? && t.attempts == s.attempts + |answers|
    decreases |answers|
  {
    if answers == [] then s else Feed(Step(s, answers[0]), answers[1..])
  }

  /** Where the loop ends when the k-th poll answers `ok(k)`. */
  function Settle(s: RetryState, ok: nat -> bool): (t: RetryState)
    requires Bounded(s)
    ensures !t.Waiting?
    decreases if s.Waiting? then MAX_ATTEMPTS + 1 - s.attempts else 0
  {
    if s.Waiting? then Settle(Step(s, ok(s.attempts)), ok) else s
  }

  /** A step never takes a reachable state past the attempt bound. */
  lemma {:induction false} FeedStaysBounded(s: RetryState, answers: seq<bool>)
    requires Bounded(s)
    ensures Bounded(Feed(s, answers))
    decreases |answers|
  {
    if answers != [] {
      FeedStaysBounded(Step(s, answers[0]), answers[1..]);
    }
  }

  /** Feeding answers one batch after another is feeding them all at once. */
  lemma {:induction false} FeedAppend(s: RetryState, xs: seq<bool>, ys: seq<bool>)
    ensures Feed(s, xs + ys) == Feed(Feed(s, xs), ys)
    decreases |xs|
  {
    if xs != [] {
      assert (xs + ys)[0] == xs[0] && (xs + ys)[1..] == xs[1..] + ys;
      FeedAppend(Step(s, xs[0]), xs[1..], ys);
    } else {
      assert xs + ys == ys;
    }
  }

  /** Once restarted, no further answer changes anything. */
  lemma {:induction false} RestartIsFinal(answers: seq<bool>)
    ensures Feed(Restarted, answers) == Restarted
    decreases |answers|
  {
    if answers != [] {
      RestartIsFinal(answers[1..]);
    }
  }

  /** Once returned, no further answer changes anything. */
  lemma {:induction false} DoneIsFinal(a: nat, answers: seq<bool>)
    ensures Feed(Done(a), answers) == Done(a)
    decreases |answers|
  {
    if answers != [] {
      DoneIsFinal(a, answers[1..]);
    }
  }

  /** The answers of polls a..30, in order. */
  function Polls(ok: nat -> bool, a: nat): (answers: seq<bool>)
    requires a <= MAX_ATTEMPTS + 1
    ensures |answers| == MAX_ATTEMPTS + 1 - a
    ensures forall i :: 0 <= i < |answers| ==> answers[i] == ok(a + i)
  {
    seq(MAX_ATTEMPTS + 1 - a, i requires 0 <= i => ok(a + i))
  }

  /** The loop's end state is the state machine fed the answers of the polls
      it can make: those after `a` failures, up to the 31st poll. */
  lemma {:induction false} SettleIsFeed(a: nat, ok: nat -> bool)
    requires a <= MAX_ATTEMPTS
    ensures Settle(Waiting(a), ok) == Feed(Waiting(a), Polls(ok, a))
    decreases MAX_ATTEMPTS - a
  {
    var answers := Polls(ok, a);
    assert answers[0] == ok(a);
    if ok(a) {
      DoneIsFinal(a, answers[1..]);
    } else if a < MAX_ATTEMPTS {
      assert answers[1..] == Polls(ok, a + 1);
      SettleIsFeed(a + 1, ok);
    } else {
      assert answers[1..] == [];
    }
  }

  /** Restart is entered at most once: once a prefix of the answers has led to
      `Restarted`, every longer prefix ends there too. */
  lemma RestartEnteredOnce(s: RetryState, answers: seq<bool>, i: nat, j: nat)
    requires i <= j <= |answers|
    requires Feed(s, answers[..i]) == Restarted
    ensures Feed(s, answers[..j]) == Restarted
  {
    assert answers[..j] == answers[..i] + answers[i..j];
    FeedAppend(s, answers[..i], answers[i..j]);
    RestartIsFinal(answers[i..j]);
  }

  /** From `Waiting(a)` the loop returns at the first successful poll among
      polls a..30 and restarts exactly when all of them fail. */
  lemma {:induction false} SettleOutcome(a: nat, ok: nat -> bool)
    requires a <= MAX_ATTEMPTS
    ensures Settle(Waiting(a), ok) == Restarted <==> forall k :: a <= k <= MAX_ATTEMPTS ==> !ok(k)
    ensures Settle(Waiting(a), ok).Done? ==>
      var j := Settle(Waiting(a), ok).attempts;
      a <= j <= MAX_ATTEMPTS && ok(j) && forall k :: a <= k < j ==> !ok(k)
    decreases MAX_ATTEMPTS - a
  {
    if !ok(a) && a < MAX_ATTEMPTS {
      SettleOutcome(a + 1, ok);
    }
  }

  /** The WiFi association loop of `setup`: `connected(k)` is whether
      `WiFi.status()` reports a connection at the k-th poll. */
  method AssociateWifi(connected: nat -> bool) returns (outcome: RetryState)
    ensures outcome == Settle(Waiting(0), connected)
    ensures outcome.Done? ==>
      connected(outcome.attempts) && outcome.attempts <= MAX_ATTEMPTS
      && forall k :: 0 <= k < outcome.attempts ==> !connected(k)
    ensures outcome.Restarted? <==> forall k :: 0 <= k <= MAX_ATTEMPTS ==> !connected(k)
  {
    var wifiAttempts: nat := 0;
    while !connected(wifiAttempts)
      invariant wifiAttempts <= MAX_ATTEMPTS
      invariant forall k :: 0 <= k < wifiAttempts ==> !connected(k)
      invariant Settle(Waiting(wifiAttempts), connected) == Settle(Waiting(0), connected)
      decreases MAX_ATTEMPTS - wifiAttempts
    {
      wifiAttempts := wifiAttempts + 1;
      if wifiAttempts > MAX_ATTEMPTS {
        return Restarted;
      }
    }
    return Done(wifiAttempts);
  }

  /** Whether the k-th value of `time(nullptr)` is a synchronised time. */
  function Synced(clock: nat -> int): nat -> bool {
    (k: nat) => ClockValid(clock(k))
  }

  /** `waitForNTP`: `clock(k)` is the k-th value `time(nullptr)` returns.
      `now` is the last value read and `clockReads` the number of reads. The loop
      reads the clock once more before it counts the attempt, so when it
      restarts it has made a 32nd read whose value it never tests. */
  method WaitForNtp(clock: nat -> int) returns (outcome: RetryState, now: int, clockReads: nat)
    ensures outcome == Settle(Waiting(0), Synced(clock))
    ensures outcome.Done? ==>
      now == clock(outcome.attempts) && ClockValid(now) && clockReads == outcome.attempts + 1
      && outcome.attempts <= MAX_ATTEMPTS
      && forall k :: 0 <= k < outcome.attempts ==> !ClockValid(clock(k))
    ensures outcome.Restarted? <==> forall k :: 0 <= k <= MAX_ATTEMPTS ==> !ClockValid(clock(k))
    ensures outcome.Restarted? ==> clockReads == MAX_ATTEMPTS + 2 && now == clock(MAX_ATTEMPTS + 1)
  {
    clockReads := 0;
    now := clock(clockReads);
    clockReads := clockReads + 1;
    var attempts: nat := 0;
    while now < CLOCK_SENTINEL
      invariant attempts <= MAX_ATTEMPTS && clockReads == attempts + 1 && now == clock(attempts)
      invariant forall k :: 0 <= k < attempts ==> !ClockValid(clock(k))
      invariant Settle(Waiting(attempts), Synced(clock)) == Settle(Waiting(0), Synced(clock))
      decreases MAX_ATTEMPTS - attempts
    {
      now := clock(clockReads);
      clockReads := clockReads + 1;
      attempts := attempts + 1;
      if attempts > MAX_ATTEMPTS {
        outcome := Restarted;
        return;
      }
    }
    outcome := Done(attempts);
  }

  /** The value `waitForNTP` reads after its last counted attempt plays no
      part: a clock that becomes valid exactly at that read still restarts
      the device. */
  lemma NtpIgnoresLastRead(clock: nat -> int)
    requires forall k :: 0 <= k <= MAX_ATTEMPTS ==> !ClockValid(clock(k))
    requires ClockValid(clock(MAX_ATTEMPTS + 1))
    ensures Settle(Waiting(0), Synced(clock)) == Restarted
  {
    SettleOutcome(0, Synced(clock));
  }

  /** The start-up sequence that matters here: WiFi association, one
      attempt at the telemetry connection, then clock synchronisation. */
  datatype Boot = Running(channelUp: bool, clock: int) | Rebooted

  /** `setup` after the sensor is configured: `wifi` and `clock` are the
      probes' answers, `channelConnects` whether `client.connect` succeeds. A
      failed channel connection is only logged. */
  method Setup(wifi: nat -> bool, channelConnects: bool, clock: nat -> int) returns (boot: Boot)
    ensures boot.Rebooted? <==>
      Settle(Waiting(0), wifi) == Restarted || Settle(Waiting(0), Synced(clock)) == Restarted
    ensures boot.Running? ==> boot.channelUp == channelConnects && ClockValid(boot.clock)
  {
    var association := AssociateWifi(wifi);
    if association.Restarted? {
      return Rebooted;
    }
    var connected := channelConnects;
    var sync, now, _ := WaitForNtp(clock);
    if sync.Restarted? {
      return Rebooted;
    }
    boot := Running(connected, now);
  }
}
