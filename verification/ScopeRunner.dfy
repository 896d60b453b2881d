/**
  ScopeRunner of ext/Simple-WebSocket-Server-v2.0.2/utility.hpp:434-477: handlers run under shared
  locks, and `stop` waits until none is held and then prevents all others. Any number of threads
  interleave at their accesses to the atomic `count`; a weak compare-exchange may fail for no reason.
 */
module ScopeRunners {

  /** Where a thread is, with its local `expected` inside the loop of continue_lock. */
  datatype Thread =
    | Idle
    | Locking(expected: int)   // before the loop condition of continue_lock
    | Holding                  // the shared lock is alive
    | Refused                  // continue_lock has returned nullptr
    | Stopping                 // before the compare-exchange of stop
    | HasStopped               // stop has returned

  datatype State = State(count: int, threads: seq<Thread>)

  datatype Action =
    | Load                       // continue_lock is called and reads count
    | TryLock(spurious: bool)    // one evaluation of the loop condition
    | Release                    // the destructor of the shared lock
    | CallStop
    | TryStop(spurious: bool)    // one compare-exchange, and the test of what it found
    | Return                     // after a refusal or a stop

  datatype Event = Event(thread: nat, action: Action)

  predicate Allowed(s: State, e: Event) {
    && e.thread < |s.threads|
    && match e.action
       case Load => s.threads[e.thread].Idle?
       case TryLock(_) => s.threads[e.thread].Locking?
       case Release => s.threads[e.thread].Holding?
       case CallStop => s.threads[e.thread].Idle?
       case TryStop(_) => s.threads[e.thread].Stopping?
       case Return => s.threads[e.thread].Refused? || s.threads[e.thread].HasStopped?
  }

  /** compare_exchange_weak(expected, desired): the new count, the new `expected`, and the result. */
  function CompareExchange(count: int, expected: int, desired: int, spurious: bool): (int, int, bool) {
    if count == expected && !spurious then (desired, expected, true) else (count, count, false)
  }

  function Next(s: State, e: Event): State
    requires Allowed(s, e)
  {
    var i := e.thread;
    match e.action
    case Load => s.(threads := s.threads[i := Locking(s.count)])
    case TryLock(spurious) =>
      var expected := s.threads[i].expected;
      if expected < 0 then s.(threads := s.threads[i := Refused])
      else
        var (count, found, ok) := CompareExchange(s.count, expected, expected + 1, spurious);
        State(count, s.threads[i := if ok then Holding else Locking(found)])
    case Release => State(s.count - 1, s.threads[i := Idle])
    case CallStop => s.(threads := s.threads[i := Stopping])
    case TryStop(spurious) =>
      var (count, found, ok) := CompareExchange(s.count, 0, -1, spurious);
      State(count, s.threads[i := if ok || found < 0 then HasStopped else Stopping])
    case Return => s.(threads := s.threads[i := Idle])
  }

  predicate Possible(s: State, es: seq<Event>)
    decreases |es|
  {
    es == [] || (Allowed(s, es[0]) && Possible(Next(s, es[0]), es[1..]))
  }

  function After(s: State, es: seq<Event>): State
    requires Possible(s, es)
    decreases |es|
  {
    if es == [] then s else After(Next(s, es[0]), es[1..])
  }

  function Start(threads: nat): State {
    State(0, seq(threads, _ => Idle))
  }

  // ---------- The invariant ----------

  /** How many shared locks are alive. */
  function Live(threads: seq<Thread>): nat {
    if threads == [] then 0
    else Live(threads[..|threads| - 1]) + if threads[|threads| - 1].Holding? then 1 else 0
  }

  /**
    The count is the number of live locks, or -1 with none live; whoever was refused, is about to be
    refused, or has returned from stop, has seen -1.
   */
  ghost predicate Inv(s: State) {
    && (s.count == Live(s.threads) || (s.count == -1 && Live(s.threads) == 0))
    && (forall i | 0 <= i < |s.threads| && s.threads[i].Locking? :: s.threads[i].expected >= -1)
    && (s.count != -1 ==>
          forall i | 0 <= i < |s.threads| ::
            !s.threads[i].Refused? && !s.threads[i].HasStopped? && (s.threads[i].Locking? ==> s.threads[i].expected >= 0))
  }

  function One(t: Thread): nat {
    if t.Holding? then 1 else 0
  }

  lemma {:induction false} LiveUpdate(threads: seq<Thread>, i: nat, t: Thread)
    requires i < |threads|
    ensures Live(threads[i := t]) == Live(threads) - One(threads[i]) + One(t)
  {
    var n := |threads| - 1;
    if i < n {
      LiveUpdate(threads[..n], i, t);
      assert threads[i := t][..n] == threads[..n][i := t];
    } else {
      assert threads[i := t][..n] == threads[..n];
    }
  }

  lemma {:induction false} LivePositive(threads: seq<Thread>, i: nat)
    requires i < |threads| && threads[i].Holding?
    ensures Live(threads) > 0
  {
    var n := |threads| - 1;
    if i < n {
      LivePositive(threads[..n], i);
    }
  }

  lemma {:induction false} LiveZero(n: nat)
    ensures Live(seq(n, _ => Idle)) == 0
  {
    if n > 0 {
      LiveZero(n - 1);
      assert seq(n, _ => Idle)[..n - 1] == seq(n - 1, _ => Idle);
    }
  }

  lemma Kept(s: State, e: Event)
    requires Inv(s) && Allowed(s, e)
    ensures Inv(Next(s, e))
    ensures s.count == -1 ==> Next(s, e).count == -1
  {
    hide Live;
    var i, t := e.thread, Next(s, e);
    LiveUpdate(s.threads, i, t.threads[i]);
    if s.threads[i].Holding? {
      LivePositive(s.threads, i);
    }
  }

  // ---------- Every interleaving ----------

  lemma {:induction false} RunKeeps(s: State, es: seq<Event>)
    requires Inv(s) && Possible(s, es)
    ensures Inv(After(s, es)) && (s.count == -1 ==> After(s, es).count == -1)
    decreases |es|
  {
    hide Inv, Next, Allowed;
    if es != [] {
      Kept(s, es[0]);
      RunKeeps(Next(s, es[0]), es[1..]);
    }
  }

  lemma StartInv(n: nat)
    ensures Inv(Start(n))
  {
    LiveZero(n);
  }

  /** The count is the number of live locks, or it is -1 and no lock is alive. */
  lemma CountIsLive(n: nat, es: seq<Event>)
    requires Possible(Start(n), es)
    ensures var s := After(Start(n), es);
            s.count == Live(s.threads) || (s.count == -1 && Live(s.threads) == 0)
  {
    hide After, Possible, Live;
    StartInv(n);
    RunKeeps(Start(n), es);
  }

  /** Some call of stop has returned, or continue_lock has refused, at the end of a run. */
  predicate SomeReturned(s: State) {
    exists i | 0 <= i < |s.threads| :: s.threads[i].HasStopped? || s.threads[i].Refused?
  }

  /**
    Once any stop has returned (or any lock has been refused), in whatever comes after it no lock is
    held or granted, and the count stays -1.
   */
  lemma StoppedForGood(n: nat, before: seq<Event>, after: seq<Event>)
    requires Possible(Start(n), before)
    requires Possible(After(Start(n), before), after)
    requires SomeReturned(After(Start(n), before))
    ensures var s := After(After(Start(n), before), after);
            s.count == -1 && forall i | 0 <= i < |s.threads| :: !s.threads[i].Holding?
  {
    hide After, Possible, Live;
    StartInv(n);
    RunKeeps(Start(n), before);
    RunKeeps(After(Start(n), before), after);
    NoneHolding(After(After(Start(n), before), after));
  }

  lemma NoneHolding(s: State)
    requires Live(s.threads) == 0
    ensures forall i | 0 <= i < |s.threads| :: !s.threads[i].Holding?
  {
    hide Live;
    forall i | 0 <= i < |s.threads|
      ensures !s.threads[i].Holding?
    {
      if s.threads[i].Holding? {
        LivePositive(s.threads, i);
      }
    }
  }

  /** A lock is refused, and a stop returns, only when no lock is alive. */
  lemma StopWaits(n: nat, es: seq<Event>, e: Event)
    requires Possible(Start(n), es) && Allowed(After(Start(n), es), e)
    requires var t := Next(After(Start(n), es), e).threads[e.thread]; t.HasStopped? || t.Refused?
    ensures Live(After(Start(n), es).threads) == 0
  {
    hide After, Possible, Live;
    StartInv(n);
    RunKeeps(Start(n), es);
  }

  // ---------- Progress ----------

  lemma RunEmpty(s: State)
    ensures Possible(s, []) && After(s, []) == s
  {}

  lemma RunCons(s: State, e: Event, rest: seq<Event>)
    requires Allowed(s, e) && Possible(Next(s, e), rest)
    ensures Possible(s, [e] + rest) && After(s, [e] + rest) == After(Next(s, e), rest)
  {
    assert ([e] + rest)[0] == e && ([e] + rest)[1..] == rest;
  }

  /** While the runner is open, an idle thread that is not disturbed gets its lock in one round. */
  lemma GrantsWhenOpen(n: nat, es: seq<Event>, i: nat)
    requires Possible(Start(n), es)
    requires var s := After(Start(n), es); i < |s.threads| && s.threads[i].Idle? && s.count >= 0
    ensures var s := After(Start(n), es);
            var two := [Event(i, Load), Event(i, TryLock(false))];
            Possible(s, two) && After(s, two) == State(s.count + 1, s.threads[i := Holding])
  {
    var s := After(Start(n), es);
    var two := [Event(i, Load), Event(i, TryLock(false))];
    var t := Next(s, two[0]);
    RunEmpty(Next(t, two[1]));
    RunCons(t, two[1], []);
    RunCons(s, two[0], [two[1]]);
    assert [two[1]] + [] == [two[1]] && [two[0]] + [two[1]] == two;
    assert s.threads[i := Locking(s.count)][i := Holding] == s.threads[i := Holding];
  }

  /** A round that is not spurious grants the lock exactly when the count is the one last seen. */
  lemma GrantedIff(s: State, i: nat)
    requires i < |s.threads| && s.threads[i].Locking? && s.threads[i].expected >= 0
    ensures Next(s, Event(i, TryLock(false))).threads[i].Holding? <==> s.count == s.threads[i].expected
  {}

  /** One undisturbed round of continue_lock, unless it has come to an end. */
  function Round(s: State, i: nat): State
    requires i < |s.threads|
  {
    if s.threads[i].Locking? then Next(s, Event(i, TryLock(false))) else s
  }

  /** A thread inside the loop needs at most two undisturbed rounds: granted if open, refused if stopped. */
  lemma LockingEnds(n: nat, es: seq<Event>, i: nat)
    requires Possible(Start(n), es)
    requires var s := After(Start(n), es); i < |s.threads| && s.threads[i].Locking?
    ensures var s := After(Start(n), es);
            Round(Round(s, i), i) == if s.count >= 0 then State(s.count + 1, s.threads[i := Holding])
                                     else State(-1, s.threads[i := Refused])
  {
    hide After, Possible, Live;
    StartInv(n);
    RunKeeps(Start(n), es);
    var s := After(Start(n), es);
    var seen := s.threads[i := Locking(s.count)];
    assert seen[i := Holding] == s.threads[i := Holding] && seen[i := Refused] == s.threads[i := Refused];
  }

  /** A round of stop that is not spurious returns exactly when no lock is held, and leaves -1. */
  lemma StopReturnsIff(n: nat, es: seq<Event>, i: nat)
    requires Possible(Start(n), es)
    requires var s := After(Start(n), es); i < |s.threads| && s.threads[i].Stopping?
    ensures var s := After(Start(n), es);
            var t := Next(s, Event(i, TryStop(false)));
            && (t.threads[i].HasStopped? <==> Live(s.threads) == 0)
            && (t.threads[i].HasStopped? <==> s.count == 0 || s.count == -1)
            && (if t.threads[i].HasStopped? then t.count == -1 else t == s)
  {
    hide After, Possible, Live;
    StartInv(n);
    RunKeeps(Start(n), es);
    var s := After(Start(n), es);
    assert s.threads[i := Stopping] == s.threads;
  }

  lemma {:induction false} SomeHolder(threads: seq<Thread>) returns (j: nat)
    requires Live(threads) > 0
    ensures j < |threads| && threads[j].Holding?
  {
    var n := |threads| - 1;
    if threads[n].Holding? {
      j := n;
    } else {
      j := SomeHolder(threads[..n]);
    }
  }

  /** Whatever has happened, a stop that is waiting can still return. */
  lemma {:induction false} StopCanReturn(s: State, i: nat)
    requires Inv(s) && i < |s.threads| && s.threads[i].Stopping?
    ensures exists es :: Possible(s, es) && |After(s, es).threads| == |s.threads| && After(s, es).threads[i].HasStopped?
    decreases Live(s.threads)
  {
    if Live(s.threads) == 0 {
      var e := Event(i, TryStop(false));
      RunEmpty(Next(s, e));
      RunCons(s, e, []);
      assert Possible(s, [e] + []);
    } else {
      var j := SomeHolder(s.threads);
      var e := Event(j, Release);
      Kept(s, e);
      LiveUpdate(s.threads, j, Idle);
      StopCanReturn(Next(s, e), i);
      var rest :| Possible(Next(s, e), rest) && |After(Next(s, e), rest).threads| == |s.threads|
                  && After(Next(s, e), rest).threads[i].HasStopped?;
      RunCons(s, e, rest);
      assert Possible(s, [e] + rest);
    }
  }

  // ---------- The runner's methods, between two accesses to the count ----------

  class ScopeRunner {
    var count: int
    var threads: seq<Thread>

    constructor (n: nat)
      ensures Now() == Start(n) && Inv(Now())
    {
      count, threads := 0, seq(n, _ => Idle);
      new;
      StartInv(n);
    }

    function Now(): State
      reads this
    {
      State(count, threads)
    }

    method CompareExchangeWeak(expected: int, desired: int, spurious: bool) returns (found: int, ok: bool)
      modifies this`count
      ensures (count, found, ok) == CompareExchange(old(count), expected, desired, spurious)
    {
      found, ok := expected, count == expected && !spurious;
      if ok {
        count := desired;
      } else {
        found := count;
      }
    }

    /** One round of continue_lock. */
    method ContinueLock(i: nat, spurious: bool)
      requires Inv(Now()) && Allowed(Now(), Event(i, TryLock(spurious)))
      modifies this
      ensures Now() == Next(old(Now()), Event(i, TryLock(spurious))) && Inv(Now())
    {
      hide Inv;
      Kept(Now(), Event(i, TryLock(spurious)));
      var expected := threads[i].expected;
      if expected >= 0 {
        var found, ok := CompareExchangeWeak(expected, expected + 1, spurious);
        threads := threads[i := if ok then Holding else Locking(found)];
      } else {
        threads := threads[i := Refused];
      }
    }

    method ReleaseLock(i: nat)
      requires Inv(Now()) && Allowed(Now(), Event(i, Release))
      modifies this
      ensures Now() == Next(old(Now()), Event(i, Release)) && Inv(Now())
    {
      hide Inv;
      Kept(Now(), Event(i, Release));
      count := count - 1;
      threads := threads[i := Idle];
    }

    /** One round of stop. */
    method Stop(i: nat, spurious: bool)
      requires Inv(Now()) && Allowed(Now(), Event(i, TryStop(spurious)))
      modifies this
      ensures Now() == Next(old(Now()), Event(i, TryStop(spurious))) && Inv(Now())
    {
      hide Inv;
      Kept(Now(), Event(i, TryStop(spurious)));
      var expected, ok := CompareExchangeWeak(0, -1, spurious);
      if ok || expected < 0 {
        threads := threads[i := HasStopped];
      } else {
        threads := threads[i := Stopping];
      }
    }
  }
}
