/**
 Model of the reconnect policy of the exchange trade stream. The stream is
 driven by a trace of what each `watch_trades` call produced; the model folds
 the trace into the actions the generator takes (yield a batch, sleep before
 reconnecting, raise) and the retry counter it keeps.
 */
module TradeStream {

  const MaxReconnectRetries: nat := 5
  const BackoffBaseSeconds: nat := 2

  function Pow(base: nat, k: nat): (p: nat)
    ensures base >= 1 ==> p >= 1
  {
    if k == 0 then 1 else base * Pow(base, k - 1)
  }

  /** Backoff before the `k`-th consecutive reconnection attempt, in seconds. */
  function Backoff(k: nat): nat {
    Pow(BackoffBaseSeconds, k)
  }

  /** What one wait on the exchange produced. */
  datatype Event<T> =
    | Received(batch: T)   // a batch of trades
    | NetworkDown          // a network error or "exchange not available"
    | Cancel               // the consuming coroutine was cancelled
    | Crash                // any other exception

  /** Why the stream ended. `LoopExit` is the `while` guard failing, which never happens. */
  datatype Ending = GaveUp | Cancelled | Crashed | LoopExit

  datatype Action<T> = Yield(batch: T) | Sleep(seconds: nat) | Raise(why: Ending)

  datatype State = Streaming(retries: nat) | Ended(retries: nat, why: Ending)

  /** The outcome of feeding events to the stream. */
  datatype Run<T> = Run(state: State, actions: seq<Action<T>>)

  /** The state at the head of the outer loop is one with the counter within the limit. */
  predicate AtLoopHead(s: State) {
    s.Streaming? && s.retries <= MaxReconnectRetries
  }

  /** The outer loop's guard, then the inner loop in the `try` block. */
  function Resume(retries: nat): State {
    if retries <= MaxReconnectRetries then Streaming(retries) else Ended(retries, LoopExit)
  }

  function Step<T>(s: State, e: Event<T>): (r: Run<T>)
    ensures s.Ended? ==> r == Run(s, [])
    ensures AtLoopHead(s) ==> AtLoopHead(r.state) || (r.state.Ended? && r.state.why != LoopExit)
  {
    match s
    case Ended(_, _) => Run(s, [])
    case Streaming(retries) =>
      match e
      case Received(batch) => Run(Streaming(0), [Yield(batch)])
      case NetworkDown =>
        var k := retries + 1;
        if k > MaxReconnectRetries then Run(Ended(k, GaveUp), [Raise(GaveUp)])
        else Run(Resume(k), [Sleep(Backoff(k))])
      case Cancel => Run(Ended(retries, Cancelled), [Raise(Cancelled)])
      case Crash => Run(Ended(retries, Crashed), [Raise(Crashed)])
  }

  function Feed<T>(s: State, events: seq<Event<T>>): Run<T>
    decreases |events|
  {
    if events == [] then Run(s, [])
    else
      var first := Step(s, events[0]);
      var rest := Feed(first.state, events[1..]);
      Run(rest.state, first.actions + rest.actions)
  }

  /** Start of `stream_trades`: no retries yet. */
  const Start: State := Streaming(0)

  // ---------------------------------------------------------------------------
  // Properties
  // ---------------------------------------------------------------------------

  lemma {:induction false} FeedAppend<T>(s: State, xs: seq<Event<T>>, ys: seq<Event<T>>)
    ensures Feed(s, xs + ys).state == Feed(Feed(s, xs).state, ys).state
    ensures Feed(s, xs + ys).actions == Feed(s, xs).actions + Feed(Feed(s, xs).state, ys).actions
    decreases |xs|
  {
    if xs == [] {
      assert xs + ys == ys;
    } else {
      assert (xs + ys)[0] == xs[0];
      assert (xs + ys)[1..] == xs[1..] + ys;
      FeedAppend(Step(s, xs[0]).state, xs[1..], ys);
    }
  }

  /**
   From the head of the loop, the counter stays within 0..5 for as long as the
   stream runs, and the stream never ends because the `while` guard failed.
   */
  lemma {:induction false} GuardNeverExits<T>(s: State, events: seq<Event<T>>)
    requires AtLoopHead(s)
    ensures AtLoopHead(Feed(s, events).state) || (Feed(s, events).state.Ended? && Feed(s, events).state.why != LoopExit)
    decreases |events|
  {
    if events != [] {
      var first := Step(s, events[0]);
      if first.state.Ended? {
        EndedStaysEnded(first.state, events[1..]);
      } else {
        GuardNeverExits(first.state, events[1..]);
      }
    }
  }

  /** Once the stream has raised, nothing further happens. */
  lemma {:induction false} EndedStaysEnded<T>(s: State, events: seq<Event<T>>)
    requires s.Ended?
    ensures Feed(s, events) == Run(s, [])
    decreases |events|
  {
    if events != [] {
      EndedStaysEnded(s, events[1..]);
    }
  }

  function Repeat<T>(e: Event<T>, n: nat): (r: seq<Event<T>>)
    ensures |r| == n && forall i :: 0 <= i < n ==> r[i] == e
  {
    if n == 0 then [] else [e] + Repeat(e, n - 1)
  }

  /** The sleeps taken for retries `from + 1` up to `from + n`. */
  function Backoffs<T>(from: nat, n: nat): (r: seq<Action<T>>)
    ensures |r| == n
    ensures forall i :: 0 <= i < n ==> r[i] == Sleep(Backoff(from + i + 1))
    decreases n
  {
    if n == 0 then [] else [Sleep(Backoff(from + 1))] + Backoffs(from + 1, n - 1)
  }

  /**
   `n` consecutive network errors starting with `j` retries, staying within the
   limit, leave the counter at `j + n` and sleep 2^(j+1), ..., 2^(j+n) seconds.
   */
  lemma {:induction false} ConsecutiveFailures<T>(j: nat, n: nat)
    requires j + n <= MaxReconnectRetries
    ensures Feed(Streaming(j), Repeat<T>(NetworkDown, n)) == Run(Streaming(j + n), Backoffs<T>(j, n))
    decreases n
  {
    if n > 0 {
      var events := Repeat<T>(NetworkDown, n);
      var tail := Repeat<T>(NetworkDown, n - 1);
      assert events[0] == NetworkDown && events[1..] == tail;
      var first := Step<T>(Streaming(j), NetworkDown);
      assert first == Run(Streaming(j + 1), [Sleep(Backoff(j + 1))]);
      var rest := Feed(Streaming(j + 1), tail);
      assert Feed(Streaming(j), events) == Run(rest.state, first.actions + rest.actions);
      ConsecutiveFailures<T>(j + 1, n - 1);
      assert rest == Run(Streaming(j + n), Backoffs<T>(j + 1, n - 1));
      assert Backoffs<T>(j, n) == [Sleep(Backoff(j + 1))] + Backoffs<T>(j + 1, n - 1);
    }
  }

  /** From a fresh stream the delays are 2, 4, 8, 16 and 32 seconds. */
  lemma BackoffSchedule<T>()
    ensures Feed(Start, Repeat<T>(NetworkDown, 5)) ==
            Run(Streaming(5), [Sleep(2), Sleep(4), Sleep(8), Sleep(16), Sleep(32)])
  {
    FirstFiveBackoffs<T>();
    ConsecutiveFailures<T>(0, 5);
  }

  lemma FirstFiveBackoffs<T>()
    ensures Backoffs<T>(0, 5) == [Sleep(2), Sleep(4), Sleep(8), Sleep(16), Sleep(32)]
  {
    assert Pow(2, 1) == 2 && Pow(2, 2) == 4 && Pow(2, 3) == 8 && Pow(2, 4) == 16 && Pow(2, 5) == 32;
    var b := Backoffs<T>(0, 5);
    assert b[0] == Sleep(2) && b[1] == Sleep(4) && b[2] == Sleep(8) && b[3] == Sleep(16) && b[4] == Sleep(32);
  }

  /** The sixth consecutive network error re-raises and ends the stream. */
  lemma SixthFailureGivesUp<T>()
    ensures var r := Feed(Start, Repeat<T>(NetworkDown, 6));
            r.state == Ended(6, GaveUp) && r.actions == Backoffs<T>(0, 5) + [Raise(GaveUp)]
  {
    var six := Repeat<T>(NetworkDown, 6);
    assert six == Repeat<T>(NetworkDown, 5) + [NetworkDown];
    FeedAppend(Start, Repeat<T>(NetworkDown, 5), [NetworkDown]);
    ConsecutiveFailures<T>(0, 5);
  }

  /**
   A received batch resets the counter: whatever happened before, what follows
   a batch behaves as from a fresh stream, so failures count only since the
   last batch.
   */
  lemma FailuresCountSinceLastBatch<T>(s: State, before: seq<Event<T>>, batch: T, after: seq<Event<T>>)
    requires Feed(s, before).state.Streaming?
    ensures Feed(s, before + [Received(batch)] + after).state == Feed(Start, after).state
  {
    FeedAppend(s, before + [Received(batch)], after);
    FeedAppend(s, before, [Received(batch)]);
  }

  /** Cancellation re-raises and keeps the counter as it was. */
  lemma CancelKeepsCounter<T>(k: nat)
    ensures Step<T>(Streaming(k), Cancel) == Run(Ended(k, Cancelled), [Raise(Cancelled)])
  {
  }

  /** The batches received, in order. */
  function Batches<T>(events: seq<Event<T>>): seq<T> {
    if events == [] then []
    else (if events[0].Received? then [events[0].batch] else []) + Batches(events[1..])
  }

  /** The batches yielded, in order. */
  function Yields<T>(actions: seq<Action<T>>): seq<T> {
    if actions == [] then []
    else (if actions[0].Yield? then [actions[0].batch] else []) + Yields(actions[1..])
  }

  lemma {:induction false} YieldsAppend<T>(xs: seq<Action<T>>, ys: seq<Action<T>>)
    ensures Yields(xs + ys) == Yields(xs) + Yields(ys)
    decreases |xs|
  {
    if xs == [] {
      assert xs + ys == ys;
    } else {
      assert (xs + ys)[0] == xs[0];
      assert (xs + ys)[1..] == xs[1..] + ys;
      YieldsAppend(xs[1..], ys);
    }
  }

  /**
   While the stream is running, every received batch is yielded unchanged and
   in order, and nothing else is yielded.
   */
  lemma {:induction false} YieldsEveryBatch<T>(s: State, events: seq<Event<T>>)
    requires s.Streaming?
    requires Feed(s, events).state.Streaming?
    ensures Yields(Feed(s, events).actions) == Batches(events)
    decreases |events|
  {
    if events != [] {
      var first := Step(s, events[0]);
      if first.state.Ended? {
        EndedStaysEnded(first.state, events[1..]);
        assert false;
      }
      YieldsEveryBatch(first.state, events[1..]);
      YieldsAppend(first.actions, Feed(first.state, events[1..]).actions);
    }
  }
}
