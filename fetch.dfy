/** The retry loop of `fetch_url` (lambda_function.py:10-29).
    The network is a function from the attempt number to what that
    request did; sleeping is recorded as a list of delays in
    half-seconds (`backoff_factor` is 0.5 s). */
module Fetch {
  import opened Results

  /** `max_retries`: the most requests one call makes. */
  const MaxRetries: nat := 3

  /** What one `requests.get` call does: gives a response (whatever its
      status code), times out, or fails with another request error. */
  datatype Attempt<R> = Response(response: R) | Timeout | OtherError

  /** What a call to `fetch_url` returns, with the trace of its effects:
      how many requests it made and the delays it slept, in order. */
  datatype FetchResult<R> = FetchResult(response: Option<R>, requests: nat, sleeps: seq<nat>)

  /** The delay after a timeout on attempt `k` (counted from 0), in
      half-seconds: `backoff_factor * 2 ** k` seconds is 2 ** k halves. */
  function Backoff(k: nat): nat
  {
    if k == 0 then 1 else 2 * Backoff(k - 1)
  }

  /** The delays slept after timeouts on attempts 0 .. k-1. */
  function Backoffs(k: nat): (ds: seq<nat>)
    ensures |ds| == k
  {
    if k == 0 then [] else Backoffs(k - 1) + [Backoff(k - 1)]
  }

  /** Reference definition: the calls from attempt `k` on, one attempt
      at a time. */
  function AttemptsFrom<R>(net: nat -> Attempt<R>, k: nat): FetchResult<R>
    decreases MaxRetries - k
  {
    if k >= MaxRetries then FetchResult(None, k, [])
    else
      match net(k)
      case Response(r) => FetchResult(Some(r), k + 1, [])
      case OtherError => FetchResult(None, k + 1, [])
      case Timeout =>
        var rest := AttemptsFrom(net, k + 1);
        rest.(sleeps := [Backoff(k)] + rest.sleeps)
  }

  function Fetched<R>(net: nat -> Attempt<R>): FetchResult<R>
  {
    AttemptsFrom(net, 0)
  }

  /** `fetch_url`: up to `MaxRetries` attempts; the first response is
      returned at once, a non-timeout error breaks out of the loop, a
      timeout is followed by a doubling sleep (also after the last attempt). */
  method FetchUrl<R>(net: nat -> Attempt<R>) returns (response: Option<R>, requests: nat, sleeps: seq<nat>)
    ensures FetchResult(response, requests, sleeps) == Fetched(net)
  {
    response, requests, sleeps := None, 0, [];
    var attempt := 0;
    while attempt < MaxRetries
      invariant attempt <= MaxRetries
      invariant requests == attempt && response == None
      invariant sleeps == Backoffs(attempt)
      invariant forall i: nat :: i < attempt ==> net(i).Timeout?
    {
      requests := requests + 1;
      var outcome := net(attempt);
      if outcome.Response? {
        response := Some(outcome.response);
        FetchReturnsFirstResponse(net, attempt);
        return;
      } else if outcome.OtherError? {
        FetchStopsOnError(net, attempt);
        return;
      }
      sleeps := sleeps + [Backoff(attempt)];
      attempt := attempt + 1;
    }
    FetchGivesUp(net);
    BackoffSchedule();
  }

  /** Each delay is twice the one before: 1, 2, 4 half-seconds. */
  lemma {:induction false} BackoffsDouble(k: nat)
    ensures forall i :: 0 < i < k ==> Backoffs(k)[i] == 2 * Backoffs(k)[i - 1]
    ensures k > 0 ==> Backoffs(k)[0] == 1
  {
    if k > 0 {
      BackoffsDouble(k - 1);
      assert forall i :: 0 <= i < k - 1 ==> Backoffs(k)[i] == Backoffs(k - 1)[i];
    }
  }

  lemma BackoffSchedule()
    ensures Backoffs(MaxRetries) == [1, 2, 4]
  {
    assert Backoff(0) == 1 && Backoff(1) == 2 && Backoff(2) == 4;
  }

  /** Attempts `k .. j-1` all timing out: the run from `k` is the run from
      `j` with those timeouts' delays in front. */
  lemma {:induction false} TimeoutsThen<R>(net: nat -> Attempt<R>, k: nat, j: nat)
    requires k <= j <= MaxRetries
    requires forall i: nat :: k <= i < j ==> net(i).Timeout?
    ensures AttemptsFrom(net, k).response == AttemptsFrom(net, j).response
    ensures AttemptsFrom(net, k).requests == AttemptsFrom(net, j).requests
    ensures Backoffs(k) + AttemptsFrom(net, k).sleeps == Backoffs(j) + AttemptsFrom(net, j).sleeps
    decreases j - k
  {
    if k < j {
      TimeoutsThen(net, k + 1, j);
      assert Backoffs(k + 1) == Backoffs(k) + [Backoff(k)];
      assert AttemptsFrom(net, k).sleeps == [Backoff(k)] + AttemptsFrom(net, k + 1).sleeps;
    }
  }

  /** The first response is returned, after `k` timeouts and their delays,
      whatever its status code. */
  lemma FetchReturnsFirstResponse<R>(net: nat -> Attempt<R>, k: nat)
    requires k < MaxRetries && net(k).Response?
    requires forall i: nat :: i < k ==> net(i).Timeout?
    ensures Fetched(net) == FetchResult(Some(net(k).response), k + 1, Backoffs(k))
  {
    TimeoutsThen(net, 0, k);
  }

  /** Any other request error ends the call at once, without a sleep, and
      nothing is returned. */
  lemma FetchStopsOnError<R>(net: nat -> Attempt<R>, k: nat)
    requires k < MaxRetries && net(k).OtherError?
    requires forall i: nat :: i < k ==> net(i).Timeout?
    ensures Fetched(net) == FetchResult(None, k + 1, Backoffs(k))
  {
    TimeoutsThen(net, 0, k);
  }

  /** Three timeouts: three requests, three sleeps, nothing returned. */
  lemma FetchGivesUp<R>(net: nat -> Attempt<R>)
    requires forall i: nat :: i < MaxRetries ==> net(i).Timeout?
    ensures Fetched(net) == FetchResult(None, MaxRetries, [1, 2, 4])
  {
    TimeoutsThen(net, 0, MaxRetries);
    BackoffSchedule();
  }

  /** Whatever the network does: at least one and at most `MaxRetries`
      requests, one delay per timeout, each delay double the last. */
  lemma FetchBounds<R>(net: nat -> Attempt<R>)
    ensures 1 <= Fetched(net).requests <= MaxRetries
    ensures Fetched(net).sleeps <= [1, 2, 4]
    ensures Fetched(net).response.Some? ==> |Fetched(net).sleeps| == Fetched(net).requests - 1
  {
    BackoffSchedule();
    if !net(0).Timeout? {
      if net(0).Response? { FetchReturnsFirstResponse(net, 0); } else { FetchStopsOnError(net, 0); }
    } else if !net(1).Timeout? {
      if net(1).Response? { FetchReturnsFirstResponse(net, 1); } else { FetchStopsOnError(net, 1); }
    } else if !net(2).Timeout? {
      if net(2).Response? { FetchReturnsFirstResponse(net, 2); } else { FetchStopsOnError(net, 2); }
    } else {
      FetchGivesUp(net);
    }
  }

  /** Two timeouts, then a response: three requests, delays 0.5 s and 1 s,
      and the response is returned. */
  lemma TwoTimeoutsThenResponse<R>(r: R)
    ensures var net := (i: nat) => if i < 2 then Timeout else Response(r);
            Fetched(net) == FetchResult(Some(r), 3, [1, 2])
  {
    var net := (i: nat) => if i < 2 then Timeout else Response(r);
    FetchReturnsFirstResponse(net, 2);
    assert Backoffs(2) == [1, 2];
  }
}
