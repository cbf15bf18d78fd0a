/** The retry loop around one live stream: at most three attempts, a retry only before any
    chunk reached the client, one error frame at most, one slot release and one close. */
module StreamPump {
  import opened Collections
  import opened Frames
  import opened StreamIntegrity
  import opened StreamWalk

  const MAX_ATTEMPTS: nat := 3

  /** What the upstream does on one attempt; soft tells whether the failure classifies as a
      rate limit that a short backoff may absorb. */
  datatype Dial =
    | DialFails
    | Rejected(soft: bool)
    | Streams(lines: seq<Line>, readFails: bool, room: Option<nat>, soft: bool)

  /** The surroundings of one attempt: the backoff wait, the dispatch guard, the request. */
  datatype Script = Script(backoffFails: bool, cooling: bool, prepareFails: bool, dial: Dial)

  datatype HostEvent = Chunk(attempt: nat, frame: Frame) | ErrorFrame | Released | Closed

  datatype Exit = Delivered | ErrorSent | BackoffFailed

  function Chunks(attempt: nat, fs: seq<Frame>): (r: seq<HostEvent>)
    ensures |r| == |fs| && forall k | 0 <= k < |fs| :: r[k] == Chunk(attempt, fs[k])
  {
    if fs == [] then [] else [Chunk(attempt, fs[0])] + Chunks(attempt, fs[1..])
  }

  class Host {
    var log: seq<HostEvent>

    constructor ()
      ensures log == []
    {
      log := [];
    }

    method Record(events: seq<HostEvent>)
      modifies this
      ensures log == old(log) + events
    {
      log := log + events;
    }
  }

  // ----- one attempt

  /** A rate limit is retried only while no chunk was emitted and attempts remain. */
  predicate Retries(n: nat, soft: bool, emitted: seq<Frame>) {
    emitted == [] && soft && n < MAX_ATTEMPTS
  }

  /** The possible outcomes of attempt n: what it emitted, whether to go on, how it ended. */
  ghost predicate AttemptResult(env: Env, n: nat, dial: Dial, emitted: seq<Frame>, retry: bool, exit: Exit) {
    match dial
    case DialFails => emitted == [] && !retry && exit == ErrorSent
    case Rejected(soft) => emitted == [] && retry == (soft && n < MAX_ATTEMPTS) && (!retry ==> exit == ErrorSent)
    case Streams(lines, readFails, room, soft) =>
      exists error: Option<WalkError> ::
        && Emitted(WalkFrom(env, INITIAL, lines, readFails), room, emitted, error)
        && retry == (error.Some? && Retries(n, soft, emitted))
        && (!retry ==> exit == if error.None? then Delivered else ErrorSent)
  }

  method PumpAttempt(env: Env, n: nat, dial: Dial, host: Host)
    returns (retry: bool, exit: Exit, ghost emitted: seq<Frame>)
    modifies host
    ensures AttemptResult(env, n, dial, emitted, retry, exit)
    ensures host.log == old(host.log) + Chunks(n, emitted) + (if !retry && exit == ErrorSent then [ErrorFrame] else [])
  {
    emitted := [];
    exit := ErrorSent;
    retry := false;
    match dial {
      case DialFails =>
        host.Record([ErrorFrame]);
      case Rejected(soft) =>
        if soft && n < MAX_ATTEMPTS {
          retry := true;
        } else {
          host.Record([ErrorFrame]);
        }
      case Streams(lines, readFails, room, soft) =>
        var frames, error := Walk(env, lines, readFails, room);
        emitted := frames;
        host.Record(Chunks(n, frames));
        if error.None? {
          exit := Delivered;
        } else if Retries(n, soft, frames) {
          retry := true;
        } else {
          host.Record([ErrorFrame]);
        }
    }
  }

  // ----- the loop

  /** All chunks come from one attempt; then an error frame unless the stream was delivered
      or the backoff failed before anything was emitted; then the release and the close. */
  ghost predicate PumpLog(log: seq<HostEvent>, hasRelease: bool, n: nat, emitted: seq<Frame>, exit: Exit) {
    log == Chunks(n, emitted) + (if exit == ErrorSent then [ErrorFrame] else [])
           + (if hasRelease then [Released] else []) + [Closed]
  }

  /** How the last attempt n of a run can end. */
  ghost predicate LastAttempt(env: Env, script: Script, n: nat, emitted: seq<Frame>, exit: Exit) {
    if n > 1 && script.backoffFails then emitted == [] && exit == BackoffFailed
    else if script.cooling || script.prepareFails then emitted == [] && exit == ErrorSent
    else AttemptResult(env, n, script.dial, emitted, false, exit)
  }

  /** Attempt n reached the upstream, showed the client nothing, and may be repeated. */
  ghost predicate Retried(env: Env, script: Script, n: nat) {
    && !(n > 1 && script.backoffFails) && !script.cooling && !script.prepareFails
    && (script.dial.Rejected? || script.dial.Streams?) && script.dial.soft
    && (script.dial.Streams? ==>
          var w := WalkFrom(env, INITIAL, script.dial.lines, script.dial.readFails);
          exists error: Option<WalkError> :: error.Some? && Emitted(w, script.dial.room, [], error))
  }

  /** Retry safety, for every behaviour of the upstream and the host. */
  method Pump(env: Env, plan: nat -> Script, hasRelease: bool, host: Host)
    returns (ghost n: nat, ghost emitted: seq<Frame>, ghost exit: Exit)
    requires host.log == []
    modifies host
    ensures 1 <= n <= 3
    ensures PumpLog(host.log, hasRelease, n, emitted, exit)
    ensures LastAttempt(env, plan(n), n, emitted, exit)
    ensures forall k | 1 <= k < n :: Retried(env, plan(k), k)
  {
    n, emitted, exit := PumpLoop(env, plan, host);
    if hasRelease { host.Record([Released]); }
    host.Record([Closed]);
  }

  method PumpLoop(env: Env, plan: nat -> Script, host: Host)
    returns (ghost n: nat, ghost emitted: seq<Frame>, ghost exit: Exit)
    requires host.log == []
    modifies host
    ensures 1 <= n <= MAX_ATTEMPTS
    ensures host.log == Chunks(n, emitted) + (if exit == ErrorSent then [ErrorFrame] else [])
    ensures LastAttempt(env, plan(n), n, emitted, exit)
    ensures forall k | 1 <= k < n :: Retried(env, plan(k), k)
  {
    hide WalkFrom, Emitted;
    var attempt: nat := 1;
    while attempt <= MAX_ATTEMPTS
      invariant 1 <= attempt <= MAX_ATTEMPTS && host.log == []
      invariant forall k | 1 <= k < attempt :: Retried(env, plan(k), k)
      decreases MAX_ATTEMPTS - attempt
    {
      var script := plan(attempt);
      if attempt > 1 && script.backoffFails {
        return attempt, [], BackoffFailed;
      }
      if script.cooling || script.prepareFails {
        host.Record([ErrorFrame]);
        return attempt, [], ErrorSent;
      }
      var retry, how;
      retry, how, emitted := PumpAttempt(env, attempt, script.dial, host);
      if !retry {
        return attempt, emitted, how;
      }
      assert attempt < MAX_ATTEMPTS && emitted == [];
      attempt := attempt + 1;
    }
  }

  // ----- synchronous collection with the same retries

  /** One collection attempt: no stream to read, or one that is read to its end. */
  datatype Attempt = NoStream(soft: bool) | Stream(lines: seq<Line>, readFails: bool, soft: bool)

  predicate Collected(env: Env, a: Attempt) {
    a.Stream? && WalkFrom(env, INITIAL, a.lines, a.readFails).verdict.Success?
  }

  /** Returns every chunk of one fully validated attempt, or none: the chunks of an attempt that
      failed halfway are dropped, and only rate limits are retried, at most twice; backoffFails
      tells of the wait after attempt k. */
  method CollectStream(env: Env, plan: nat -> Attempt, backoffFails: nat -> bool)
    returns (r: Option<seq<Frame>>, n: nat)
    ensures 1 <= n <= 3
    ensures forall k | 1 <= k < n :: !Collected(env, plan(k)) && plan(k).soft && !backoffFails(k)
    ensures r.Some? <==> Collected(env, plan(n))
    ensures r.Some? ==> r.value == Emissions(WalkFrom(env, INITIAL, plan(n).lines, plan(n).readFails))
    ensures r.None? ==> n == 3 || !plan(n).soft || backoffFails(n)
  {
    hide WalkFrom;
    r, n := None, 1;
    for attempt := 1 to MAX_ATTEMPTS + 1
      invariant r.None? && 1 <= n <= MAX_ATTEMPTS && n == if attempt == 1 then 1 else attempt - 1
      invariant forall k | 1 <= k < attempt :: !Collected(env, plan(k)) && plan(k).soft
      invariant forall k | 1 <= k < n :: !backoffFails(k)
    {
      if attempt > 1 && backoffFails(attempt - 1) { return; }
      n := attempt;
      var a := plan(attempt);
      if a.Stream? {
        var collected := Collect(env, a.lines, a.readFails);
        if collected.Success? { return Some(collected.value), n; }
      }
      if !a.soft { return; }
    }
  }

  // ----- reading a log

  function ErrorFrames(log: seq<HostEvent>): nat {
    if log == [] then 0 else ErrorFrames(log[..|log| - 1]) + (if log[|log| - 1] == ErrorFrame then 1 else 0)
  }

  lemma {:induction false} NoErrorFrames(log: seq<HostEvent>)
    requires ErrorFrame !in log
    ensures ErrorFrames(log) == 0
  {
    if log != [] {
      NoErrorFrames(log[..|log| - 1]);
    }
  }

  lemma CountErrors(log: seq<HostEvent>, hasRelease: bool, n: nat, emitted: seq<Frame>, exit: Exit)
    requires PumpLog(log, hasRelease, n, emitted, exit)
    ensures ErrorFrames(log) == if exit == ErrorSent then 1 else 0
  {
    var chunks := Chunks(n, emitted);
    var error := if exit == ErrorSent then [ErrorFrame] else [];
    var tail := if hasRelease then [Released, Closed] else [Closed];
    assert log == chunks + error + tail;
    ErrorFramesAppend(chunks + error, tail);
    ErrorFramesAppend(chunks, error);
    NoErrorFrames(chunks);
    NoErrorFrames(tail);
    assert [ErrorFrame][..0] == [];
  }

  /** Reading the log of any run: one close at its very end, one release if there was a slot,
      every chunk from the last attempt, one error frame exactly when the run did not deliver
      and did not fail in the backoff wait, and a delivered run shows a complete stream. */
  lemma PumpSafety(env: Env, script: Script, log: seq<HostEvent>, hasRelease: bool, n: nat, emitted: seq<Frame>,
          exit: Exit)
    requires PumpLog(log, hasRelease, n, emitted, exit) && LastAttempt(env, script, n, emitted, exit)
    ensures forall k | 0 <= k < |log| :: (log[k] == Closed <==> k == |log| - 1)
    ensures forall k | 0 <= k < |log| :: (log[k] == Released <==> hasRelease && k == |log| - 2)
    ensures forall k | 0 <= k < |log| && log[k].Chunk? :: log[k].attempt == n
    ensures ErrorFrames(log) == if exit == ErrorSent then 1 else 0
    ensures exit == BackoffFailed <==> n > 1 && script.backoffFails
    ensures exit == BackoffFailed ==> emitted == []
    ensures !(n > 1 && script.backoffFails) && (script.cooling || script.prepareFails) ==>
      exit == ErrorSent && emitted == []
    ensures exit == Delivered ==>
      && script.dial.Streams?
      && WalkFrom(env, INITIAL, script.dial.lines, script.dial.readFails).verdict.Success?
      && emitted == Emissions(WalkFrom(env, INITIAL, script.dial.lines, script.dial.readFails))
  {
    CountErrors(log, hasRelease, n, emitted, exit);
    AttemptDelivers(env, n, script.dial, emitted, exit);
    hide WalkFrom, ErrorFrames, AttemptResult, Emissions;
  }

  /** A run that ends in an error while attempts were left did not end in a rate limit before the
      client saw anything: that is always tried again, up to three times in all. */
  lemma RateLimitIsRetried(env: Env, script: Script, n: nat, emitted: seq<Frame>, exit: Exit)
    requires LastAttempt(env, script, n, emitted, exit) && exit == ErrorSent && n < 3
    ensures || script.cooling || script.prepareFails || script.dial == DialFails
            || !script.dial.soft || emitted != []
  {
    hide WalkFrom, Emitted;
  }

  lemma AttemptDelivers(env: Env, n: nat, dial: Dial, emitted: seq<Frame>, exit: Exit)
    ensures AttemptResult(env, n, dial, emitted, false, exit) ==> exit != BackoffFailed
    ensures AttemptResult(env, n, dial, emitted, false, exit) && exit == Delivered ==>
      && dial.Streams?
      && WalkFrom(env, INITIAL, dial.lines, dial.readFails).verdict.Success?
      && emitted == Emissions(WalkFrom(env, INITIAL, dial.lines, dial.readFails))
  {
    hide WalkFrom, Emissions;
  }

  lemma {:induction false} ErrorFramesAppend(a: seq<HostEvent>, b: seq<HostEvent>)
    ensures ErrorFrames(a + b) == ErrorFrames(a) + ErrorFrames(b)
  {
    if b == [] {
      assert a + b == a;
    } else {
      assert (a + b)[..|a + b| - 1] == a + b[..|b| - 1];
      ErrorFramesAppend(a, b[..|b| - 1]);
    }
  }
}
