/**
  The error handling of a client's read loop. Close errors with status 1001
  (Going Away) or 1006 (Abnormal Closure, reported when the connection drops
  without a close frame), section 7.4.1 of RFC 6455, are retried with a
  counter that is never reset; the loop ends when such an error arrives while
  the counter is already above the limit. Every other read error is logged
  and the loop goes on.
 */
module ReadPump {
  import opened State

  /** Status code 1001, Going Away. */
  const GoingAway: int := 1001
  /** Status code 1006, Abnormal Closure. */
  const AbnormalClosure: int := 1006
  /** The loop gives up once the counter exceeds this value. */
  const RetryLimit: nat := 15

  /** One result of reading the next frame. */
  datatype ReadEvent =
    | Frame(msg: Message)     // a message was decoded
    | CloseError(code: int)   // a close error, with its status code
    | OtherError              // any other failure: transport or JSON decoding

  predicate Retryable(ev: ReadEvent) {
    ev.CloseError? && (ev.code == GoingAway || ev.code == AbnormalClosure)
  }

  /** What the loop does after one read. */
  datatype Step =
    | Process(msg: Message, attempts: nat)   // run middleware and dispatch
    | Retry(attempts: nat)                   // read again
    | Stop                                   // leave the loop and deregister

  function ReadStep(attempts: nat, ev: ReadEvent): (r: Step)
    ensures r.Stop? <==> Retryable(ev) && attempts > RetryLimit
    ensures Retryable(ev) && r.Retry? ==> r.attempts == attempts + 1
    ensures !Retryable(ev) ==> !r.Stop? && r.attempts == attempts
    ensures r.Process? <==> ev.Frame?
    ensures r.Process? ==> r.msg == ev.msg
  {
    match ev
    case Frame(m) => Process(m, attempts)
    case CloseError(code) =>
      if code == GoingAway || code == AbnormalClosure then
        if attempts > RetryLimit then Stop else Retry(attempts + 1)
      else Retry(attempts)
    case OtherError => Retry(attempts)
  }

  /** The number of retryable close errors in a run of reads. */
  function RetryCount(evs: seq<ReadEvent>): (n: nat)
    ensures n <= |evs|
  {
    if evs == [] then 0 else (if Retryable(evs[0]) then 1 else 0) + RetryCount(evs[1..])
  }

  /** Where a run of reads leaves the loop. */
  datatype LoopEnd = Stopped(at: nat) | Running(attempts: nat)

  /** Feeds the reads to the loop one by one, starting from retry count
      `counter`. The loop can only stop on a retryable close error, and the
      counter never passes the limit plus one. */
  function RunReads(evs: seq<ReadEvent>, counter: nat): (r: LoopEnd)
    requires counter <= RetryLimit + 1
    ensures r.Stopped? ==> r.at < |evs| && Retryable(evs[r.at])
    ensures r.Running? ==> r.attempts <= RetryLimit + 1
    decreases |evs|
  {
    if evs == [] then Running(counter)
    else
      var step := ReadStep(counter, evs[0]);
      if step.Stop? then Stopped(0)
      else
        var rest := RunReads(evs[1..], step.attempts);
        if rest.Running? then rest else Stopped(rest.at + 1)
  }

  /** The loop stops exactly at the first retryable close error that finds
      the counter at the limit plus one; until it stops, the counter is the
      number of retryable close errors seen. */
  lemma {:induction false} RunReadsCounts(evs: seq<ReadEvent>, counter: nat)
    requires counter <= RetryLimit + 1
    ensures RunReads(evs, counter).Stopped? ==>
      counter + RetryCount(evs[..RunReads(evs, counter).at]) == RetryLimit + 1
    ensures RunReads(evs, counter).Running? ==>
      RunReads(evs, counter).attempts == counter + RetryCount(evs)
    decreases |evs|
  {
    if evs != [] {
      var step := ReadStep(counter, evs[0]);
      if !step.Stop? {
        RunReadsCounts(evs[1..], step.attempts);
        var rest := RunReads(evs[1..], step.attempts);
        if rest.Stopped? {
          assert evs[..rest.at + 1][1..] == evs[1..][..rest.at];
        }
      }
    }
  }

  /** A run in which every read is a retryable close error. */
  ghost predicate AllRetryable(evs: seq<ReadEvent>) {
    forall i :: 0 <= i < |evs| ==> Retryable(evs[i])
  }

  lemma {:induction false} RetryCountAll(evs: seq<ReadEvent>)
    requires AllRetryable(evs)
    ensures RetryCount(evs) == |evs|
  {
    if evs != [] {
      RetryCountAll(evs[1..]);
    }
  }

  /** Because the counter is never reset, the seventeenth retryable close
      error ends the loop, and sixteen are survived. */
  lemma SeventeenthCloseStops(evs: seq<ReadEvent>)
    requires AllRetryable(evs) && |evs| >= RetryLimit + 2
    ensures RunReads(evs, 0) == Stopped(RetryLimit + 1)
    ensures RunReads(evs[..RetryLimit + 1], 0) == Running(RetryLimit + 1)
  {
    RetryCountAll(evs[..RetryLimit + 1]);
    RunReadsCounts(evs, 0);
    RunReadsCounts(evs[..RetryLimit + 1], 0);
    var r := RunReads(evs, 0);
    if r.Stopped? {
      RetryCountAll(evs[..r.at]);
    } else {
      RetryCountAll(evs);
    }
  }

  /** Reads that are not retryable close errors never end the loop and never
      move the counter, whatever they are: a normal closure (status 1000)
      included. */
  lemma {:induction false} OtherErrorsNeverStop(evs: seq<ReadEvent>, attempts: nat)
    requires attempts <= RetryLimit + 1
    requires forall i :: 0 <= i < |evs| ==> !Retryable(evs[i])
    ensures RunReads(evs, attempts) == Running(attempts)
    decreases |evs|
  {
    if evs != [] {
      OtherErrorsNeverStop(evs[1..], attempts);
      RunReadsCounts(evs, attempts);
    }
  }
}
