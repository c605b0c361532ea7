/**
 * `createSingleFlight`: one cached promise, replaced only after it has failed. The event loop is
 * explicit: callers call, the factory's promise settles, and the catch callback of a rejected
 * promise runs some time later.
 */
module SingleFlight {
  import opened Wrappers

  /** A call of the factory: pending, rejected with its catch callback still to run, or over. */
  datatype Attempt<+T, +E> = Pending | Rejecting(error: E) | Rejected(error: E) | Fulfilled(value: T)

  /** `callers[i]` is the attempt whose promise the i-th caller was given, or none if the factory threw at once. */
  datatype State<+T, +E> = State(cached: Option<nat>, attempts: seq<Attempt<T, E>>, callers: seq<Option<nat>>)

  datatype Event<+T, +E> = Call | CallThrows | Fulfill(attempt: nat, value: T) | Reject(attempt: nat, error: E) | RunCatch(attempt: nat)

  predicate Enabled<T, E>(s: State<T, E>, e: Event<T, E>) {
    match e
    case Call => true
    case CallThrows => s.cached == None
    case Fulfill(a, _) => a < |s.attempts| && s.attempts[a].Pending?
    case Reject(a, _) => a < |s.attempts| && s.attempts[a].Pending?
    case RunCatch(a) => a < |s.attempts| && s.attempts[a].Rejecting?
  }

  function Next<T, E>(s: State<T, E>, e: Event<T, E>): State<T, E>
    requires Enabled(s, e)
  {
    match e
    case Call =>
      if s.cached.Some? then s.(callers := s.callers + [s.cached])
      else State(Some(|s.attempts|), s.attempts + [Pending], s.callers + [Some(|s.attempts|)])
    case CallThrows => s.(callers := s.callers + [None])
    case Fulfill(a, v) => s.(attempts := s.attempts[a := Fulfilled(v)])
    case Reject(a, error) => s.(attempts := s.attempts[a := Rejecting(error)])
    case RunCatch(a) => s.(cached := None, attempts := s.attempts[a := Rejected(s.attempts[a].error)])
  }

  /** The getter and its callbacks over the closure variable. */
  class Flight<T(!new), E(!new)> {
    var cached: Option<nat>
    var attempts: seq<Attempt<T, E>>
    var callers: seq<Option<nat>>

    function View(): State<T, E>
      reads this
    {
      State(cached, attempts, callers)
    }

    ghost predicate Valid()
      reads this
    {
      Sound(View())
    }

    constructor ()
      ensures Valid() && View() == State(None, [], [])
    {
      cached, attempts, callers := None, [], [];
    }

    method Get() returns (attempt: nat)
      requires Valid()
      modifies this
      ensures Valid() && View() == Next(old(View()), Call) && callers == old(callers) + [Some(attempt)]
    {
      if cached == None {
        attempts := attempts + [Pending];
        cached := Some(|attempts| - 1);
      }
      attempt := cached.value;
      callers := callers + [cached];
    }

    method SettleValue(a: nat, value: T)
      requires Valid() && Enabled(View(), Fulfill(a, value))
      modifies this
      ensures Valid() && View() == Next(old(View()), Fulfill(a, value))
    {
      attempts := attempts[a := Fulfilled(value)];
    }

    method SettleError(a: nat, error: E)
      requires Valid() && Enabled(View(), Reject(a, error))
      modifies this
      ensures Valid() && View() == Next(old(View()), Reject(a, error))
    {
      attempts := attempts[a := Rejecting(error)];
    }

    /** The catch callback clears the variable without looking at it; it can only hold this attempt. */
    method Catch(a: nat)
      requires Valid() && Enabled(View(), RunCatch(a))
      modifies this
      ensures Valid() && View() == Next(old(View()), RunCatch(a)) && old(cached) == Some(a)
    {
      cached := None;
      attempts := attempts[a := Rejected(attempts[a].error)];
    }
  }

  /** Only the newest attempt can be unfinished or fulfilled, and it is the cached one exactly then. */
  ghost predicate Sound<T, E>(s: State<T, E>) {
    && (forall a :: 0 <= a < |s.attempts| ==> (s.cached == Some(a) <==> !s.attempts[a].Rejected?))
    && (s.cached.Some? ==> s.cached.value == |s.attempts| - 1 && s.cached.value < |s.attempts|)
    && (forall i :: 0 <= i < |s.callers| && s.callers[i].Some? ==> s.callers[i].value < |s.attempts|)
  }

  lemma NextIsSound<T, E>(s: State<T, E>, e: Event<T, E>)
    requires Sound(s) && Enabled(s, e)
    ensures Sound(Next(s, e))
  {
  }

  // ---- runs

  ghost predicate Possible<T, E>(s: State<T, E>, events: seq<Event<T, E>>)
    decreases |events|, 0
  {
    events == []
    || (Possible(s, events[..|events| - 1]) && Enabled(After(s, events[..|events| - 1]), events[|events| - 1]))
  }

  ghost function After<T, E>(s: State<T, E>, events: seq<Event<T, E>>): State<T, E>
    requires Possible(s, events)
    decreases |events|, 1
  {
    if events == [] then s else Next(After(s, events[..|events| - 1]), events[|events| - 1])
  }

  function Unfinished<T, E>(attempts: seq<Attempt<T, E>>): set<nat> {
    set a | 0 <= a < |attempts| && (attempts[a].Pending? || attempts[a].Rejecting?)
  }

  /** After any events: at most one attempt is unfinished, and a catch callback clears only its own. */
  lemma {:induction false} OneInFlight<T, E>(events: seq<Event<T, E>>)
    requires Possible(State(None, [], []), events)
    ensures var s := After(State(None, [], []), events);
            && Sound(s)
            && (forall a, b :: a in Unfinished(s.attempts) && b in Unfinished(s.attempts) ==> a == b)
            && (forall a: nat :: Enabled(s, RunCatch(a)) ==> s.cached == Some(a))
  {
    if events != [] {
      OneInFlight(events[..|events| - 1]);
      NextIsSound(After(State(None, [], []), events[..|events| - 1]), events[|events| - 1]);
    }
  }

  /** Callers share the newest attempt until it has failed and its callback has run. */
  lemma {:induction false} CallersShare<T, E>(s: State<T, E>, events: seq<Event<T, E>>)
    requires Sound(s) && s.cached.Some? && Possible(s, events)
    requires forall k :: 0 <= k < |events| ==> !events[k].RunCatch?
    ensures var later := After(s, events);
            && Sound(later) && later.cached == s.cached && |later.attempts| == |s.attempts| && |s.callers| <= |later.callers|
            && forall i :: |s.callers| <= i < |later.callers| ==> later.callers[i] == s.cached
  {
    if events != [] {
      CallersShare(s, events[..|events| - 1]);
      NextIsSound(After(s, events[..|events| - 1]), events[|events| - 1]);
    }
  }

  /** Once an attempt has succeeded the factory is never called again, and everyone gets that value. */
  lemma {:induction false} SuccessIsForever<T, E>(s: State<T, E>, a: nat, events: seq<Event<T, E>>)
    requires Sound(s) && a < |s.attempts| && s.attempts[a].Fulfilled? && Possible(s, events)
    ensures var later := After(s, events);
            && Sound(later) && later.attempts == s.attempts && later.cached == Some(a) && |s.callers| <= |later.callers|
            && forall i :: |s.callers| <= i < |later.callers| ==> later.callers[i] == Some(a)
  {
    if events != [] {
      SuccessIsForever(s, a, events[..|events| - 1]);
      NextIsSound(After(s, events[..|events| - 1]), events[|events| - 1]);
    }
  }

  function Failures<T, E>(attempts: seq<Attempt<T, E>>): nat {
    if attempts == [] then 0
    else Failures(attempts[..|attempts| - 1]) + if attempts[|attempts| - 1].Rejected? then 1 else 0
  }

  /** Every call of the factory but the cached one has failed: a retry needs a failure before it. */
  lemma RetriesFollowFailures<T, E>(s: State<T, E>)
    requires Sound(s)
    ensures Failures(s.attempts) == |s.attempts| - if s.cached.Some? then 1 else 0
  {
    if s.cached.Some? {
      AllFailed(s.attempts[..|s.attempts| - 1]);
    } else {
      AllFailed(s.attempts);
    }
  }

  lemma {:induction false} AllFailed<T, E>(attempts: seq<Attempt<T, E>>)
    requires forall a :: 0 <= a < |attempts| ==> attempts[a].Rejected?
    ensures Failures(attempts) == |attempts|
  {
    if attempts != [] {
      AllFailed(attempts[..|attempts| - 1]);
    }
  }
}
