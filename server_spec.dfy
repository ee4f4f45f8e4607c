/** What one `NameServer` does, as functions of its statistics: the decision of
    `try_reconnect`, the bookkeeping of `send`, and runs of several sends in a row. The
    `NameServer` class is proved against these functions. */
module ServerSpec {
  import opened Types
  import State
  import opened ServerStats

  /** The part of a `NameServer` that decides what a send does: the statistics behind its
      lock, and whether that lock is poisoned. */
  datatype ServerView = ServerView(stats: Stats, poisoned: bool)

  /** `Instant` is monotonic: no reading precedes the recorded failure (`duration_since`
      panics otherwise). */
  predicate ClockAfter(v: ServerView, now: Instant) {
    v.stats.state.Failed? ==> v.stats.state.when <= now
  }

  /** The four ways `try_reconnect` can end. */
  datatype Decision =
    | LockFailed                     // the statistics lock could not be acquired
    | Proceed                        // not `Failed`: use the current connection
    | Reconnect                      // the backoff window has passed: new connection
    | BackingOff(error: ClientError) // still inside the window: replay the error

  /** The decision `try_reconnect` takes at `now`. The window is closed only when strictly
      more than `MaxRetryDelay` has passed since the failure. */
  function Decide(v: ServerView, now: Instant): (d: Decision)
    requires ClockAfter(v, now)
    ensures d.LockFailed? <==> v.poisoned
    ensures d.Proceed? <==> !v.poisoned && !v.stats.state.Failed?
    ensures d.Reconnect? <==>
      !v.poisoned && v.stats.state.Failed? && now > v.stats.state.when + MaxRetryDelay
    ensures d.BackingOff? <==>
      !v.poisoned && v.stats.state.Failed? && now <= v.stats.state.when + MaxRetryDelay
    ensures d.BackingOff? ==> d.error == v.stats.state.error
  {
    if v.poisoned then LockFailed
    else
      match v.stats.state
      case Failed(error, when) =>
        if now - when > MaxRetryDelay then Reconnect else BackingOff(error)
      case _ => Proceed
  }

  /** The view after a reconnect: a fresh lock around `init(None, successes, failures)`. */
  function Reconnected(v: ServerView): (w: ServerView)
    ensures !w.poisoned && w.stats.state == State.Init(None)
    ensures w.stats.successes == v.stats.successes && w.stats.failures == v.stats.failures
  {
    ServerView(Stats(State.Init(None), v.stats.successes, v.stats.failures), false)
  }

  /** The bookkeeping once the transport has answered at `finish`: the view and the result.
      A transport error always reaches the caller, even when the lock cannot be taken;
      a response does only when the success can be recorded. */
  function Complete(v: ServerView, outcome: Result<Message>, finish: Instant): (r: (ServerView, Result<Message>))
    ensures outcome.Err? ==> r.1 == outcome
    ensures !v.poisoned ==> r.1 == outcome
    ensures v.poisoned ==> r.0 == v && r.1 == if outcome.Ok? then Err(LockPoisoned) else outcome
    ensures !v.poisoned && outcome.Ok? ==> r.0 == ServerView(AfterSuccess(v.stats, outcome.value.edns), false)
    ensures !v.poisoned && outcome.Err? ==> r.0 == ServerView(AfterFailure(v.stats, outcome.error, finish), false)
  {
    match outcome
    case Ok(response) =>
      if v.poisoned then (v, Err(LockPoisoned))
      else (v.(stats := AfterSuccess(v.stats, response.edns)), Ok(response))
    case Err(error) =>
      // a poisoned lock is only logged here, so that the transport error is returned
      if v.poisoned then (v, Err(error))
      else (v.(stats := AfterFailure(v.stats, error, finish)), Err(error))
  }

  /** What one send did: the new view, the result, and whether it reconnected and whether
      it handed the message to the transport. */
  datatype SendStep = SendStep(server: ServerView, result: Result<Message>, reconnected: bool, transported: bool)

  /** `NameServer::send` started at `start`, whose transport call (if any) delivers
      `outcome` at `finish`. */
  function Send(v: ServerView, outcome: Result<Message>, start: Instant, finish: Instant): (s: SendStep)
    requires ClockAfter(v, start) && start <= finish
    ensures s.reconnected <==> Decide(v, start).Reconnect?
    ensures s.transported <==> !v.poisoned && !Decide(v, start).BackingOff?
    ensures !s.transported ==>
      s.server == v && s.result == Err(if v.poisoned then LockPoisoned else v.stats.state.error)
    ensures s.transported ==> s.result == outcome && !s.server.poisoned
    ensures s.transported && outcome.Ok? ==> s.server.stats.state.Established?
    ensures s.transported && outcome.Ok? ==>
      s.server.stats == AfterSuccess((if s.reconnected then Reconnected(v) else v).stats, outcome.value.edns)
    ensures s.transported && outcome.Err? ==> s.server.stats.state == State.Failed(outcome.error, finish)
    ensures s.server.stats.successes == v.stats.successes + (if s.transported && outcome.Ok? then 1 else 0)
    ensures s.server.stats.failures == v.stats.failures + (if s.transported && outcome.Err? then 1 else 0)
    ensures s.server.poisoned == v.poisoned
    ensures ClockAfter(s.server, finish)
  {
    var d := Decide(v, start);
    match d
    case LockFailed => SendStep(v, Err(LockPoisoned), false, false)
    case BackingOff(error) => SendStep(v, Err(error), false, false)
    case _ =>
      var current := if d.Reconnect? then Reconnected(v) else v;
      var done := Complete(current, outcome, finish);
      SendStep(done.0, done.1, d.Reconnect?, true)
  }

  /** A `Failed` server is never `Established` again without a reconnect in between. */
  lemma FailedRecoversOnlyByReconnect(v: ServerView, outcome: Result<Message>, start: Instant, finish: Instant)
    requires ClockAfter(v, start) && start <= finish && v.stats.state.Failed?
    ensures Send(v, outcome, start, finish).server.stats.state.Established? ==>
      Send(v, outcome, start, finish).reconnected
  {
  }

  /** One send of a run: when it starts, when the transport answers, and with what. */
  datatype Attempt = Attempt(start: Instant, finish: Instant, outcome: Result<Message>)

  /** The attempts are one after another in time, none before the recorded failure. */
  predicate Chronological(v: ServerView, attempts: seq<Attempt>) {
    && (forall i :: 0 <= i < |attempts| ==> attempts[i].start <= attempts[i].finish)
    && (forall i, j :: 0 <= i < j < |attempts| ==> attempts[i].finish <= attempts[j].start)
    && (|attempts| > 0 ==> ClockAfter(v, attempts[0].start))
  }

  /** The end of a run: the view, how many attempts reached the transport, and the results. */
  datatype RunResult = RunResult(server: ServerView, calls: nat, results: seq<Result<Message>>)

  /** Sends `attempts` one after the other. Every transport call is counted exactly once,
      as a success or as a failure, and the counters never go down, across reconnects too. */
  function Run(v: ServerView, attempts: seq<Attempt>): (t: RunResult)
    requires Chronological(v, attempts)
    ensures |t.results| == |attempts| && t.calls <= |attempts|
    ensures t.server.stats.successes + t.server.stats.failures ==
            v.stats.successes + v.stats.failures + t.calls
    ensures t.server.stats.successes >= v.stats.successes
    ensures t.server.stats.failures >= v.stats.failures
    ensures t.server.poisoned == v.poisoned
    decreases |attempts|
  {
    if attempts == [] then RunResult(v, 0, [])
    else
      var a := attempts[0];
      var s := Send(v, a.outcome, a.start, a.finish);
      var rest := Run(s.server, attempts[1..]);
      RunResult(rest.server, rest.calls + (if s.transported then 1 else 0), [s.result] + rest.results)
  }

  /** Inside the backoff window a failed server makes no transport call: every send replays
      the stored error and nothing changes. */
  lemma {:induction false} BackoffSuppressesTransport(v: ServerView, attempts: seq<Attempt>)
    requires Chronological(v, attempts)
    requires !v.poisoned && v.stats.state.Failed?
    requires forall i :: 0 <= i < |attempts| ==> attempts[i].start <= v.stats.state.when + MaxRetryDelay
    ensures Run(v, attempts).server == v && Run(v, attempts).calls == 0
    ensures forall i :: 0 <= i < |attempts| ==> Run(v, attempts).results[i] == Err(v.stats.state.error)
    decreases |attempts|
  {
    if attempts != [] {
      var a := attempts[0];
      assert Send(v, a.outcome, a.start, a.finish).server == v;
      BackoffSuppressesTransport(v, attempts[1..]);
    }
  }

  /** The first send after the window reconnects: it reaches the transport with a fresh
      `Init` state that keeps both counters, and the outcome is then recorded on top. */
  lemma FirstSendAfterWindowReconnects(v: ServerView, outcome: Result<Message>, start: Instant, finish: Instant)
    requires !v.poisoned && v.stats.state.Failed? && start <= finish
    requires start > v.stats.state.when + MaxRetryDelay
    ensures Send(v, outcome, start, finish).reconnected && Send(v, outcome, start, finish).transported
    ensures Send(v, outcome, start, finish).server ==
      Complete(Reconnected(v), outcome, finish).0
  {
  }

  /** A poisoned lock is never replaced: `try_reconnect` fails before it could install a new
      one, so every later send fails with the lock error and reaches no transport. */
  lemma {:induction false} PoisonedLockIsPermanent(v: ServerView, attempts: seq<Attempt>)
    requires Chronological(v, attempts) && v.poisoned
    ensures Run(v, attempts).server == v && Run(v, attempts).calls == 0
    ensures forall i :: 0 <= i < |attempts| ==> Run(v, attempts).results[i] == Err(LockPoisoned)
    decreases |attempts|
  {
    if attempts != [] {
      var a := attempts[0];
      assert Send(v, a.outcome, a.start, a.finish).server == v;
      PoisonedLockIsPermanent(v, attempts[1..]);
    }
  }

  /** Once EDNS has been negotiated, responses without an EDNS record do not clear it: after
      any number of them the server is still `Established` with the same record. */
  lemma {:induction false} NegotiatedEdnsIsSticky(v: ServerView, edns: Edns, attempts: seq<Attempt>)
    requires Chronological(v, attempts) && !v.poisoned
    requires v.stats.state == State.Established(Some(edns))
    requires forall i :: 0 <= i < |attempts| ==>
      attempts[i].outcome.Ok? && attempts[i].outcome.value.edns == None
    ensures Run(v, attempts).server.stats.state == State.Established(Some(edns))
    ensures Run(v, attempts).calls == |attempts|
    ensures forall i :: 0 <= i < |attempts| ==> Run(v, attempts).results[i] == attempts[i].outcome
    decreases |attempts|
  {
    if attempts != [] {
      var a := attempts[0];
      var s := Send(v, a.outcome, a.start, a.finish);
      assert s.server.stats.state == State.Established(Some(edns));
      NegotiatedEdnsIsSticky(s.server, edns, attempts[1..]);
    }
  }

  /** A new server whose first send times out at `t0`: a send one second later replays the
      timeout without a transport call, and a send one second after the window reaches
      the transport again on a reconnected server. */
  lemma BackoffScenario(t0: Instant, response: Message)
    ensures
      var timeout := Err(Transport("timeout"));
      var v := ServerView(Stats(State.Init(None), 0, 0), false);
      var run := Run(v, [Attempt(t0, t0, timeout),
                         Attempt(t0 + NanosPerSecond, t0 + NanosPerSecond, Ok(response)),
                         Attempt(t0 + MaxRetryDelay + NanosPerSecond,
                                 t0 + MaxRetryDelay + NanosPerSecond, Ok(response))]);
      && run.results == [timeout, timeout, Ok(response)]
      && run.calls == 2
      && run.server.stats == Stats(State.Established(response.edns), 1, 1)
  {
    var timeout := Err(Transport("timeout"));
    var v := ServerView(Stats(State.Init(None), 0, 0), false);
    var a1 := Attempt(t0, t0, timeout);
    var a2 := Attempt(t0 + NanosPerSecond, t0 + NanosPerSecond, Ok(response));
    var a3 := Attempt(t0 + MaxRetryDelay + NanosPerSecond, t0 + MaxRetryDelay + NanosPerSecond, Ok(response));
    var s1 := Send(v, timeout, t0, t0);
    assert s1.server == ServerView(Stats(State.Failed(Transport("timeout"), t0), 0, 1), false);
    var s2 := Send(s1.server, Ok(response), a2.start, a2.finish);
    assert s2.server == s1.server && !s2.transported;
    var s3 := Send(s2.server, Ok(response), a3.start, a3.finish);
    assert s3.reconnected && s3.result == Ok(response);
    assert [a1, a2, a3][1..] == [a2, a3] && [a2, a3][1..] == [a3] && [a3][1..] == [];
    assert Run(s2.server, [a3]) == RunResult(s3.server, 1, [s3.result]);
    assert Run(s1.server, [a2, a3]) == RunResult(s3.server, 1, [s2.result, s3.result]);
    assert Run(v, [a1, a2, a3]) == RunResult(s3.server, 2, [s1.result, s2.result, s3.result]);
  }
}
