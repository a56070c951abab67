/**
 * The read loop behind `openMessageStream`: the body of the Flowable that a
 * device hands out. It reads lines from the device's input stream until the
 * subscriber cancels or the device is closed, and reports what it reads to
 * the emitter.
 *
 * Reads are a script: the results that successive `readLine` calls return.
 * The two flags the loop polls (the emitter's `isCancelled` and the device's
 * `closed`) are set by other threads; both only ever go from false to true,
 * so together they are described by one number `stopAt`, the first
 * observation point at which the loop sees either of them set. The loop
 * observes them at two kinds of points: point 2k is the loop-head check before
 * the k-th read, point 2k+1 is the check in the catch block after the k-th
 * read failed. When the script runs out while the loop is still live, the
 * next `readLine` blocks: the signals are those emitted so far and there is
 * no completion yet.
 */
module MessageStream {
  import opened Common

  /** What one `readLine` call does: return a line, return null (end of stream), or throw. */
  datatype ReadResult = Line(text: string) | EndOfStream | ReadFailure(cause: Cause)

  /** A call the loop makes on the emitter: onNext, onError or onComplete. */
  datatype Signal = Next(item: string) | Error(cause: Cause) | Complete

  /** What the loop passes to the emitter for one read while it sees no stop. */
  function Emitted(r: ReadResult): (signals: seq<Signal>)
  {
    match r
    case Line(s) => if s == "" then [] else [Next(s)]
    case EndOfStream => []
    case ReadFailure(c) => [Error(c)]
  }

  /** The emitter calls made from the k-th read onwards. */
  function SignalsFrom(script: seq<ReadResult>, stopAt: nat, k: nat): (signals: seq<Signal>)
    requires k <= |script|
    decreases |script| - k
  {
    if stopAt <= 2 * k then [Complete]
    else if k == |script| then []
    else if script[k].ReadFailure? && stopAt <= 2 * k + 1 then [Complete]
    else Emitted(script[k]) + SignalsFrom(script, stopAt, k + 1)
  }

  /** The emitter calls of a whole run of the read loop. */
  function Signals(script: seq<ReadResult>, stopAt: nat): (signals: seq<Signal>)
  {
    SignalsFrom(script, stopAt, 0)
  }

  /** How many `readLine` calls the loop makes: it reads while the loop-head check sees no stop. */
  function ReadsPerformed(script: seq<ReadResult>, stopAt: nat): (n: nat)
    ensures n <= |script|
    ensures n < |script| ==> stopAt <= 2 * n
    ensures forall k :: 0 <= k < n ==> 2 * k < stopAt
  {
    if |script| <= (stopAt + 1) / 2 then |script| else (stopAt + 1) / 2
  }

  /** The lines among some read results that are neither null nor empty, in order. */
  function NonEmptyLines(rs: seq<ReadResult>): (lines: seq<string>)
    ensures forall i :: 0 <= i < |lines| ==> lines[i] != ""
  {
    if rs == [] then []
    else (if rs[0].Line? && rs[0].text != "" then [rs[0].text] else []) + NonEmptyLines(rs[1..])
  }

  /** The items passed to onNext, in order. */
  function Items(signals: seq<Signal>): (items: seq<string>)
  {
    if signals == [] then []
    else (if signals[0].Next? then [signals[0].item] else []) + Items(signals[1..])
  }

  lemma {:induction false} ItemsAppend(a: seq<Signal>, b: seq<Signal>)
    ensures Items(a + b) == Items(a) + Items(b)
  {
    if a == [] {
      assert a + b == b;
    } else {
      assert (a + b)[1..] == a[1..] + b;
      ItemsAppend(a[1..], b);
    }
  }

  lemma {:induction false} NonEmptyLinesStep(script: seq<ReadResult>, k: nat, n: nat)
    requires k < n <= |script|
    ensures NonEmptyLines(script[k..n]) ==
      (if script[k].Line? && script[k].text != "" then [script[k].text] else []) + NonEmptyLines(script[k + 1..n])
  {
    assert script[k..n][1..] == script[k + 1..n];
  }

  lemma {:induction false} ItemsFrom(script: seq<ReadResult>, stopAt: nat, k: nat)
    requires k <= ReadsPerformed(script, stopAt)
    ensures Items(SignalsFrom(script, stopAt, k)) == NonEmptyLines(script[k..ReadsPerformed(script, stopAt)])
    decreases |script| - k
  {
    var n := ReadsPerformed(script, stopAt);
    if stopAt <= 2 * k {
      assert n == k;
    } else if k == |script| {
    } else if script[k].ReadFailure? && stopAt <= 2 * k + 1 {
      assert n == k + 1;
      NonEmptyLinesStep(script, k, n);
      assert script[k + 1..n] == [];
    } else {
      NonEmptyLinesStep(script, k, n);
      ItemsAppend(Emitted(script[k]), SignalsFrom(script, stopAt, k + 1));
      ItemsFrom(script, stopAt, k + 1);
    }
  }

  /**
   * Exactly the non-null, non-empty lines among the reads the loop performs
   * reach onNext, in the order they were read: an empty line or a null is
   * dropped and the loop goes on reading.
   */
  lemma ItemsAreNonEmptyLines(script: seq<ReadResult>, stopAt: nat)
    ensures Items(Signals(script, stopAt)) == NonEmptyLines(script[..ReadsPerformed(script, stopAt)])
  {
    ItemsFrom(script, stopAt, 0);
    assert script[0..ReadsPerformed(script, stopAt)] == script[..ReadsPerformed(script, stopAt)];
  }

  lemma {:induction false} ErrorFrom(script: seq<ReadResult>, stopAt: nat, k: nat, c: Cause)
    requires k <= |script|
    ensures Error(c) in SignalsFrom(script, stopAt, k) <==>
      exists j :: k <= j < |script| && script[j] == ReadFailure(c) && 2 * j + 1 < stopAt
    decreases |script| - k
  {
    if stopAt <= 2 * k {
      assert forall j :: k <= j < |script| ==> !(2 * j + 1 < stopAt);
    } else if k == |script| {
    } else {
      ErrorFrom(script, stopAt, k + 1, c);
      match script[k]
      case Line(s) =>
      case EndOfStream =>
      case ReadFailure(c') =>
        if stopAt <= 2 * k + 1 {
          assert forall j :: k <= j < |script| ==> !(2 * j + 1 < stopAt);
        }
    }
  }

  /**
   * A read failure reaches onError exactly when the loop saw no stop at the
   * catch-block check that followed it; a failure that races with close or
   * cancel is swallowed.
   */
  lemma ErrorReportedIffLive(script: seq<ReadResult>, stopAt: nat, c: Cause)
    ensures Error(c) in Signals(script, stopAt) <==>
      exists k :: 0 <= k < |script| && script[k] == ReadFailure(c) && 2 * k + 1 < stopAt
  {
    ErrorFrom(script, stopAt, 0, c);
  }

  /** Complete occurs only as the last emitter call. */
  predicate CompleteOnlyLast(signals: seq<Signal>)
  {
    forall i :: 0 <= i < |signals| - 1 ==> signals[i] != Complete
  }

  lemma {:induction false} CompleteFrom(script: seq<ReadResult>, stopAt: nat, k: nat)
    requires k <= |script|
    ensures Complete in SignalsFrom(script, stopAt, k) <==> stopAt <= 2 * |script|
    ensures CompleteOnlyLast(SignalsFrom(script, stopAt, k))
    decreases |script| - k
  {
    if stopAt <= 2 * k {
    } else if k == |script| {
    } else {
      CompleteFrom(script, stopAt, k + 1);
      var rest := SignalsFrom(script, stopAt, k + 1);
      match script[k]
      case Line(s) =>
        var head: seq<Signal> := if s == "" then [] else [Next(s)];
        assert SignalsFrom(script, stopAt, k) == head + rest;
        assert forall i :: 0 <= i < |head| ==> head[i] != Complete;
      case EndOfStream =>
      case ReadFailure(c) =>
        if stopAt > 2 * k + 1 {
          assert SignalsFrom(script, stopAt, k) == [Error(c)] + rest;
        }
    }
  }

  /**
   * The loop completes exactly when it sees the stop within the script, and
   * onComplete is its last call: an end of stream (null) does not end the loop.
   */
  lemma CompletesIffStopped(script: seq<ReadResult>, stopAt: nat)
    ensures Complete in Signals(script, stopAt) <==> stopAt <= 2 * |script|
    ensures CompleteOnlyLast(Signals(script, stopAt))
  {
    CompleteFrom(script, stopAt, 0);
  }

  lemma {:induction false} StoppedFrom(script: seq<ReadResult>, more: seq<ReadResult>, stopAt: nat, k: nat)
    requires k <= |script|
    requires stopAt <= 2 * |script|
    ensures SignalsFrom(script + more, stopAt, k) == SignalsFrom(script, stopAt, k)
    decreases |script| - k
  {
    if stopAt <= 2 * k {
    } else {
      assert k < |script|;
      assert (script + more)[k] == script[k];
      StoppedFrom(script, more, stopAt, k + 1);
    }
  }

  /** Once the loop has seen the stop, nothing read afterwards is ever reported. */
  lemma ReadsAfterStopIgnored(script: seq<ReadResult>, more: seq<ReadResult>, stopAt: nat)
    requires stopAt <= 2 * |script|
    ensures Signals(script + more, stopAt) == Signals(script, stopAt)
  {
    StoppedFrom(script, more, stopAt, 0);
  }

  /** One turn of the loop for a read it reports (or drops) and then goes on. */
  lemma Advance(script: seq<ReadResult>, stopAt: nat, k: nat, done: seq<Signal>, next: seq<Signal>)
    requires 2 * k < stopAt && k < |script|
    requires !(script[k].ReadFailure? && stopAt <= 2 * k + 1)
    requires next == done + Emitted(script[k])
    ensures done + SignalsFrom(script, stopAt, k) == next + SignalsFrom(script, stopAt, k + 1)
  {
  }

  /** One turn of the loop for a failed read that raced with the stop. */
  lemma Swallow(script: seq<ReadResult>, stopAt: nat, k: nat)
    requires 2 * k < stopAt && k < |script|
    requires script[k].ReadFailure? && stopAt <= 2 * k + 1
    ensures SignalsFrom(script, stopAt, k) == [Complete]
    ensures SignalsFrom(script, stopAt, k + 1) == [Complete]
  {
  }

  /**
   * The read loop of the two Java revisions: a failed read with the stream
   * already cancelled or closed leaves the loop with `break`.
   */
  method JavaReadLoop(script: seq<ReadResult>, stopAt: nat) returns (signals: seq<Signal>)
    ensures signals == Signals(script, stopAt)
  {
    ghost var all := Signals(script, stopAt);
    signals := [];
    var k := 0;
    var blocked := false;
    while 2 * k < stopAt
      invariant k <= |script|
      invariant signals + SignalsFrom(script, stopAt, k) == all
      decreases |script| - k
    {
      if k == |script| {
        blocked := true;
        break;
      }
      match script[k] {
        case Line(s) =>
          if s != "" {
            Advance(script, stopAt, k, signals, signals + [Next(s)]);
            signals := signals + [Next(s)];
          } else {
            Advance(script, stopAt, k, signals, signals);
          }
        case EndOfStream =>
          Advance(script, stopAt, k, signals, signals);
        case ReadFailure(c) =>
          if 2 * k + 1 < stopAt {
            Advance(script, stopAt, k, signals, signals + [Error(c)]);
            signals := signals + [Error(c)];
          } else {
            Swallow(script, stopAt, k);
            break;
          }
      }
      k := k + 1;
    }
    if !blocked {
      signals := signals + [Complete];
    }
  }

  /**
   * The read loop of the Kotlin revision: a failed read with the stream
   * already cancelled or closed falls through to the loop-head check, which
   * then sees the stop as well.
   */
  method KotlinReadLoop(script: seq<ReadResult>, stopAt: nat) returns (signals: seq<Signal>)
    ensures signals == Signals(script, stopAt)
  {
    ghost var all := Signals(script, stopAt);
    signals := [];
    var k := 0;
    var blocked := false;
    while 2 * k < stopAt
      invariant k <= |script|
      invariant signals + SignalsFrom(script, stopAt, k) == all
      decreases |script| - k
    {
      if k == |script| {
        blocked := true;
        break;
      }
      match script[k] {
        case Line(s) =>
          if s != "" {
            Advance(script, stopAt, k, signals, signals + [Next(s)]);
            signals := signals + [Next(s)];
          } else {
            Advance(script, stopAt, k, signals, signals);
          }
        case EndOfStream =>
          Advance(script, stopAt, k, signals, signals);
        case ReadFailure(c) =>
          if 2 * k + 1 < stopAt {
            Advance(script, stopAt, k, signals, signals + [Error(c)]);
            signals := signals + [Error(c)];
          } else {
            Swallow(script, stopAt, k);
          }
      }
      k := k + 1;
    }
    if !blocked {
      signals := signals + [Complete];
    }
  }
}
