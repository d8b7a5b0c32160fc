/** The `retry(times, delay)` decorator: the wrapped call is attempted up to `times` times.
    What the k-th call (counting from 0) does is given by `call(k)`; the warning logged and the
    `sleep(delay)` after each failure are recorded as events. */
module Retry {
  import opened Wrappers
  import opened Seqs

  datatype Outcome<T, E> = Return(value: T) | Raise(error: E)

  datatype Event<E> =
    | Called(attempt: nat)
    /** `Retry {attempt+1}/{times} failed: {e}` */
    | Warned(number: nat, times: int, error: E)
    | Slept(delay: real)

  /** What the wrapper ends with. `RaisedNone` is `raise None` when no attempt was made (for
      `times <= 0`), which Python turns into a `TypeError`. `SleepRaised` is the `ValueError`
      that `time.sleep` raises for a negative delay, after the first failure's warning. */
  datatype Ending<T, E> = Returned(value: T) | Raised(error: E) | RaisedNone | SleepRaised

  /** The ending of the attempts numbered `k` onward, given that earlier ones failed and the
      last of them raised `last` (`None` before the first attempt). */
  function EndingFrom<T, E>(call: nat -> Outcome<T, E>, times: int, delay: real, k: nat, last: Option<E>): Ending<T, E>
    decreases times - k
  {
    if k >= times then (if last.Some? then Raised(last.value) else RaisedNone)
    else match call(k)
      case Return(v) => Returned(v)
      case Raise(e) => if delay < 0.0 then SleepRaised else EndingFrom(call, times, delay, k + 1, Some(e))
  }

  /** The events of the attempts numbered `k` onward. */
  function EventsFrom<T, E>(call: nat -> Outcome<T, E>, times: int, delay: real, k: nat): seq<Event<E>>
    decreases times - k
  {
    if k >= times then []
    else match call(k)
      case Return(_) => [Called(k)]
      case Raise(e) =>
        if delay < 0.0 then [Called(k), Warned(k + 1, times, e)]
        else [Called(k), Warned(k + 1, times, e), Slept(delay)] + EventsFrom(call, times, delay, k + 1)
  }

  /** `wrapper(*args, **kwargs)`. */
  method Attempt<T, E>(call: nat -> Outcome<T, E>, times: int, delay: real)
    returns (ending: Ending<T, E>, events: seq<Event<E>>)
    ensures ending == EndingFrom(call, times, delay, 0, None)
    ensures events == EventsFrom(call, times, delay, 0)
  {
    var last: Option<E> := None;
    events := [];
    var attempt := 0;
    while attempt < times
      invariant 0 <= attempt
      invariant attempt <= times || attempt == 0
      invariant EndingFrom(call, times, delay, attempt, last) == EndingFrom(call, times, delay, 0, None)
      invariant events + EventsFrom(call, times, delay, attempt) == EventsFrom(call, times, delay, 0)
      decreases times - attempt
    {
      ghost var before := events;
      events := events + [Called(attempt)];
      match call(attempt)
      case Return(v) =>
        ReturnStep(call, times, delay, attempt, before);
        ending := Returned(v);
        return;
      case Raise(e) =>
        last := Some(e);
        if delay < 0.0 {
          events := events + [Warned(attempt + 1, times, e)];
          SleepRaiseStep(call, times, delay, attempt, before, e);
          ending := SleepRaised;
          return;
        }
        events := events + [Warned(attempt + 1, times, e), Slept(delay)];
        RaiseStep(call, times, delay, attempt, before, e);
      attempt := attempt + 1;
    }
    AppendNil(events);
    ending := if last.Some? then Raised(last.value) else RaisedNone;
  }

  lemma ReturnStep<T, E>(call: nat -> Outcome<T, E>, times: int, delay: real, k: nat, before: seq<Event<E>>)
    requires k < times && call(k).Return?
    ensures before + EventsFrom(call, times, delay, k) == before + [Called(k)]
  {
  }

  /** A failed attempt's events, then those of the attempts after it. */
  lemma RaiseStep<T, E>(call: nat -> Outcome<T, E>, times: int, delay: real, k: nat, before: seq<Event<E>>, e: E)
    requires k < times && call(k) == Raise(e) && delay >= 0.0
    ensures before + EventsFrom(call, times, delay, k) ==
      (before + [Called(k)] + [Warned(k + 1, times, e), Slept(delay)]) + EventsFrom(call, times, delay, k + 1)
  {
  }

  /** A failed attempt whose sleep raises: its call and warning are the last events. */
  lemma SleepRaiseStep<T, E>(call: nat -> Outcome<T, E>, times: int, delay: real, k: nat, before: seq<Event<E>>, e: E)
    requires k < times && call(k) == Raise(e) && delay < 0.0
    ensures before + EventsFrom(call, times, delay, k) == before + [Called(k)] + [Warned(k + 1, times, e)]
  {
  }

  /** The number of calls made. */
  function Calls<E>(events: seq<Event<E>>): nat
    decreases |events|
  {
    if events == [] then 0
    else (if events[0].Called? then 1 else 0) + Calls(events[1..])
  }

  lemma {:induction false} CallsAppend<E>(a: seq<Event<E>>, b: seq<Event<E>>)
    ensures Calls(a + b) == Calls(a) + Calls(b)
    decreases |a|
  {
    if a != [] {
      assert (a + b)[0] == a[0];
      assert (a + b)[1..] == a[1..] + b;
      CallsAppend(a[1..], b);
    } else {
      assert a + b == b;
    }
  }

  /** `fn` is called at most `times` times. */
  lemma {:induction false} AtMostTimesCalls<T, E>(call: nat -> Outcome<T, E>, times: int, delay: real, k: nat)
    ensures Calls(EventsFrom(call, times, delay, k)) <= if times > k then times - k else 0
    decreases times - k
  {
    if k < times {
      match call(k)
      case Return(_) =>
        var one: seq<Event<E>> := [Called(k)];
        assert Calls(one) == 1 by { assert one[1..] == []; }
      case Raise(e) =>
        if delay < 0.0 {
          var two: seq<Event<E>> := [Called(k), Warned(k + 1, times, e)];
          var one: seq<Event<E>> := [Warned(k + 1, times, e)];
          assert Calls(one) == 0 by { assert one[1..] == []; }
          assert two[1..] == one;
          return;
        }
        var head := [Called(k), Warned(k + 1, times, e), Slept(delay)];
        CallsAppend(head, EventsFrom(call, times, delay, k + 1));
        assert Calls(head) == 1 by {
          var t2: seq<Event<E>> := [Slept(delay)];
          assert Calls(t2) == 0 by { assert t2[1..] == []; }
          var t1: seq<Event<E>> := [Warned(k + 1, times, e), Slept(delay)];
          assert t1[1..] == t2;
          assert head[1..] == t1;
        }
        AtMostTimesCalls(call, times, delay, k + 1);
    }
  }

  /** The first successful attempt's result is returned, and nothing is called after it:
      the events are three per failed attempt and then the successful call. Failed attempts
      before it are retried only when `time.sleep(delay)` accepts the delay. */
  lemma {:induction false} FirstSuccessReturned<T, E>(call: nat -> Outcome<T, E>, times: int, delay: real, k: nat, j: nat, last: Option<E>)
    requires k <= j < times
    requires call(j).Return?
    requires forall i :: k <= i < j ==> call(i).Raise?
    requires k == j || delay >= 0.0
    ensures EndingFrom(call, times, delay, k, last) == Returned(call(j).value)
    ensures |EventsFrom(call, times, delay, k)| == 3 * (j - k) + 1
    ensures EventsFrom(call, times, delay, k)[3 * (j - k)] == Called(j)
    decreases j - k
  {
    if k < j {
      var e := call(k).error;
      FirstSuccessReturned(call, times, delay, k + 1, j, Some(e));
      assert EndingFrom(call, times, delay, k, last) == EndingFrom(call, times, delay, k + 1, Some(e));
      var head := [Called(k), Warned(k + 1, times, e), Slept(delay)];
      assert EventsFrom(call, times, delay, k) == head + EventsFrom(call, times, delay, k + 1);
    }
  }

  /** When every attempt fails and the delay is one `time.sleep` accepts, the exception of
      the last attempt is raised, and every attempt (the last one included) is a call followed
      by one warning and one sleep. */
  lemma {:induction false} AllFailRaisesLast<T, E>(call: nat -> Outcome<T, E>, times: int, delay: real, k: nat, last: Option<E>)
    requires k < times
    requires forall i :: k <= i < times ==> call(i).Raise?
    requires delay >= 0.0
    ensures EndingFrom(call, times, delay, k, last) == Raised(call(times - 1).error)
    ensures |EventsFrom(call, times, delay, k)| == 3 * (times - k)
    ensures forall p :: 0 <= p < |EventsFrom(call, times, delay, k)| ==>
      EventsFrom(call, times, delay, k)[p] ==
        if p % 3 == 0 then Called(k + p / 3)
        else if p % 3 == 1 then Warned(k + p / 3 + 1, times, call(k + p / 3).error)
        else Slept(delay)
    decreases times - k
  {
    var e := call(k).error;
    var head := [Called(k), Warned(k + 1, times, e), Slept(delay)];
    var all := EventsFrom(call, times, delay, k);
    if k + 1 < times {
      AllFailRaisesLast(call, times, delay, k + 1, Some(e));
      var rest := EventsFrom(call, times, delay, k + 1);
      assert all == head + rest;
      forall p | 0 <= p < |all|
        ensures all[p] ==
          if p % 3 == 0 then Called(k + p / 3)
          else if p % 3 == 1 then Warned(k + p / 3 + 1, times, call(k + p / 3).error)
          else Slept(delay)
      {
        if p < 3 {
          SmallDivMod(p);
        } else {
          ShiftDivMod(p);
          assert all[p] == rest[p - 3];
        }
      }
    } else {
      assert EndingFrom(call, times, delay, k + 1, Some(e)) == Raised(e);
      assert all == head;
    }
  }

  lemma SmallDivMod(p: int)
    requires 0 <= p < 3
    ensures p / 3 == 0 && p % 3 == p
  {
  }

  lemma ShiftDivMod(p: int)
    requires 3 <= p
    ensures (p - 3) / 3 == p / 3 - 1 && (p - 3) % 3 == p % 3
  {
  }

  /** With a negative delay the first failure ends the wrapper: its warning is logged, then
      `time.sleep` raises `ValueError` out of the `except` block, so `fn` is never retried. */
  lemma NegativeDelayStops<T, E>(call: nat -> Outcome<T, E>, times: int, delay: real, k: nat, last: Option<E>)
    requires k < times && call(k).Raise? && delay < 0.0
    ensures EndingFrom(call, times, delay, k, last) == SleepRaised
    ensures EventsFrom(call, times, delay, k) == [Called(k), Warned(k + 1, times, call(k).error)]
  {
  }

  /** With a negative delay `fn` is called at most once, whatever its outcomes, and its own
      exception is never the one that leaves the wrapper. */
  lemma NegativeDelayCallsOnce<T, E>(call: nat -> Outcome<T, E>, times: int, delay: real)
    requires delay < 0.0
    ensures Calls(EventsFrom(call, times, delay, 0)) <= 1
    ensures !EndingFrom(call, times, delay, 0, None).Raised?
  {
    if 0 < times {
      match call(0)
      case Return(_) =>
        var one: seq<Event<E>> := [Called(0)];
        assert Calls(one) == 1 by { assert one[1..] == []; }
      case Raise(e) =>
        var two: seq<Event<E>> := [Called(0), Warned(1, times, e)];
        var one: seq<Event<E>> := [Warned(1, times, e)];
        assert Calls(one) == 0 by { assert one[1..] == []; }
        assert two[1..] == one;
    }
  }

  /** With `times <= 0` nothing is called and `raise None` is reached. */
  lemma NoAttemptsRaisesNone<T, E>(call: nat -> Outcome<T, E>, times: int, delay: real)
    requires times <= 0
    ensures EndingFrom(call, times, delay, 0, None) == RaisedNone
    ensures EventsFrom(call, times, delay, 0) == []
  {
  }
}
