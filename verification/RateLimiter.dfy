/** The concurrency gate with retries, as interleaved threads and as one call (core/rate_limiter.py). */
module RateLimiter {
  import opened Wrappers
  import opened Sequences

  datatype Config = Config(maxConcurrent: int, maxRetries: nat, baseDelay: real)

  /** The constructor: None is the error for a non-positive concurrency; negative retries and tiny delays are raised. */
  function MakeConfig(maxConcurrent: int, maxRetries: int, baseDelay: real): (r: Option<Config>)
    ensures r.Some? <==> maxConcurrent >= 1
    ensures r.Some? ==> IsConfig(r.value) && r.value.maxConcurrent == maxConcurrent
    ensures r.Some? ==>
              (maxRetries < 0 ==> r.value.maxRetries == 0) && (maxRetries >= 0 ==> r.value.maxRetries == maxRetries)
    ensures r.Some? ==>
              (baseDelay < 0.1 ==> r.value.baseDelay == 0.1) && (baseDelay >= 0.1 ==> r.value.baseDelay == baseDelay)
  {
    if maxConcurrent < 1 then None
    else Some(Config(maxConcurrent, if maxRetries < 0 then 0 else maxRetries,
                     if baseDelay < 0.1 then 0.1 else baseDelay))
  }

  predicate IsConfig(c: Config) { c.maxConcurrent >= 1 && c.baseDelay > 0.0 }

  function Power(n: nat): (p: int)
    ensures p >= 1
  {
    if n == 0 then 1 else 2 * Power(n - 1)
  }

  /** The upper end of the jittered delay after attempt n. */
  function MaxDelay(c: Config, n: nat): real { c.baseDelay * Power(n) as real }

  /** The bound on everything slept before attempt n. */
  function MaxSlept(c: Config, n: nat): real { c.baseDelay * (Power(n) - 1) as real }

  lemma MaxSleptStep(c: Config, n: nat)
    requires c.baseDelay >= 0.0
    ensures MaxSlept(c, n) + MaxDelay(c, n) == MaxSlept(c, n + 1)
    ensures MaxSlept(c, 0) == 0.0 && MaxDelay(c, n) >= 0.0
  {
    assert Power(n + 1) == 2 * Power(n);
  }

  lemma {:induction false} MaxSleptGrows(c: Config, m: nat, n: nat)
    requires c.baseDelay >= 0.0 && m <= n
    ensures MaxSlept(c, m) <= MaxSlept(c, n)
    decreases n
  {
    if m < n {
      MaxSleptGrows(c, m, n - 1);
      MaxSleptStep(c, n - 1);
    }
  }

  // ---- threads ----

  /** Where one execute call stands. Between acquire and release it holds a permit, also while it backs off. */
  datatype Phase =
    | Waiting
    | Running
    | Sleeping
    | Leaving(retry: bool, returned: bool)
    | Finished(returned: bool)

  datatype Thread = Thread(phase: Phase, attempt: nat, calls: nat, slept: real, acquired: nat, released: nat)

  /** The semaphore's free permits and the calls begun so far. */
  datatype State = State(free: int, threads: seq<Thread>)

  datatype Event =
    | Enter                               // another thread calls execute
    | Acquire(i: nat)                     // the semaphore is taken and fn is called
    | Return(i: nat)                      // fn returns
    | Raise(i: nat)                       // fn raises something else, or too often
    | RateLimited(i: nat, delay: real)    // fn raises a rate-limit error and the thread goes to sleep
    | Wake(i: nat)
    | Interrupt(i: nat)                   // the sleep is interrupted
    | Release(i: nat)                     // the finally clause

  function Start(): Thread { Thread(Waiting, 0, 0, 0.0, 0, 0) }

  predicate Enabled(c: Config, s: State, e: Event) {
    match e
    case Enter => true
    case Acquire(i) => i < |s.threads| && s.threads[i].phase == Waiting && s.free > 0
    case Return(i) => i < |s.threads| && s.threads[i].phase == Running
    case Raise(i) => i < |s.threads| && s.threads[i].phase == Running
    case RateLimited(i, delay) =>
      i < |s.threads| && s.threads[i].phase == Running && s.threads[i].attempt < c.maxRetries
      && 0.0 <= delay <= MaxDelay(c, s.threads[i].attempt)
    case Wake(i) => i < |s.threads| && s.threads[i].phase == Sleeping
    case Interrupt(i) => i < |s.threads| && s.threads[i].phase == Sleeping
    case Release(i) => i < |s.threads| && s.threads[i].phase.Leaving?
  }

  function Moved(c: Config, t: Thread, e: Event): Thread
    requires !e.Enter?
  {
    match e
    case Acquire(_) => t.(phase := Running, calls := t.calls + 1, acquired := t.acquired + 1)
    case Return(_) => t.(phase := Leaving(false, true))
    case Raise(_) => t.(phase := Leaving(false, false))
    case RateLimited(_, delay) => t.(phase := Sleeping, slept := t.slept + delay)
    case Wake(_) => t.(phase := Leaving(true, false), attempt := t.attempt + 1)
    case Interrupt(_) => t.(phase := Leaving(false, false))
    case Release(_) =>
      t.(released := t.released + 1,
         phase := if t.phase.Leaving? && t.phase.retry then Waiting else Finished(t.phase.Leaving? && t.phase.returned))
  }

  function After(c: Config, s: State, e: Event): State
    requires Enabled(c, s, e)
  {
    if e.Enter? then s.(threads := s.threads + [Start()])
    else State(if e.Acquire? then s.free - 1 else if e.Release? then s.free + 1 else s.free,
               s.threads[e.i := Moved(c, s.threads[e.i], e)])
  }

  // ---- what every interleaving keeps ----

  predicate Holds(t: Thread) { t.phase.Running? || t.phase.Sleeping? || t.phase.Leaving? }

  function Holders(ts: seq<Thread>): nat {
    if ts == [] then 0 else Holders(ts[..|ts| - 1]) + if Holds(ts[|ts| - 1]) then 1 else 0
  }

  /** The threads inside fn or backing off. */
  function Active(ts: seq<Thread>): nat {
    if ts == [] then 0
    else Active(ts[..|ts| - 1]) + if ts[|ts| - 1].phase.Running? || ts[|ts| - 1].phase.Sleeping? then 1 else 0
  }

  lemma {:induction false} ActiveHold(ts: seq<Thread>)
    ensures Active(ts) <= Holders(ts)
  {
    if ts != [] { ActiveHold(ts[..|ts| - 1]); }
  }

  lemma {:induction false} HoldersUpdate(ts: seq<Thread>, i: nat, t: Thread)
    requires i < |ts|
    ensures Holders(ts[i := t]) == Holders(ts) - (if Holds(ts[i]) then 1 else 0) + (if Holds(t) then 1 else 0)
  {
    var front := ts[..|ts| - 1];
    if i == |ts| - 1 {
      assert ts[i := t][..|ts| - 1] == front;
    } else {
      HoldersUpdate(front, i, t);
      assert ts[i := t][..|ts| - 1] == front[i := t];
    }
  }

  /** One execute call's own accounts. */
  ghost predicate IsFair(c: Config, t: Thread) {
    && t.attempt <= c.maxRetries
    && t.acquired == t.released + (if Holds(t) then 1 else 0)
    && t.calls == t.acquired
    && 0.0 <= t.slept
    && match t.phase
       case Waiting => t.calls == t.attempt && t.slept <= MaxSlept(c, t.attempt)
       case Running => t.calls == t.attempt + 1 && t.slept <= MaxSlept(c, t.attempt)
       case Sleeping => t.calls == t.attempt + 1 && t.attempt < c.maxRetries && t.slept <= MaxSlept(c, t.attempt + 1)
       case Leaving(retry, _) => (if retry then t.calls == t.attempt else t.calls <= t.attempt + 1) &&
         WithinBudget(c, t) && (retry ==> t.slept <= MaxSlept(c, t.attempt))
       case Finished(_) => WithinBudget(c, t)
  }

  /** fn is called at most maxRetries + 1 times and the sleeps add up to at most baseDelay * (2^maxRetries - 1). */
  ghost predicate WithinBudget(c: Config, t: Thread) {
    t.calls <= c.maxRetries + 1 && t.slept <= MaxSlept(c, c.maxRetries)
  }

  ghost predicate Inv(c: Config, s: State) {
    && IsConfig(c)
    && s.free >= 0 && s.free + Holders(s.threads) == c.maxConcurrent
    && forall i | 0 <= i < |s.threads| :: IsFair(c, s.threads[i])
  }

  lemma MovedIsFair(c: Config, s: State, e: Event)
    requires Inv(c, s) && Enabled(c, s, e) && !e.Enter?
    ensures IsFair(c, Moved(c, s.threads[e.i], e))
  {
    var t := s.threads[e.i];
    MaxSleptStep(c, t.attempt);
    MaxSleptGrows(c, t.attempt, c.maxRetries);
    if t.attempt < c.maxRetries { MaxSleptGrows(c, t.attempt + 1, c.maxRetries); }
    hide Power, MaxSlept, MaxDelay;
  }

  /** Every step of every thread keeps the permits and each call's accounts in order. */
  lemma StepKeepsInv(c: Config, s: State, e: Event)
    requires Inv(c, s) && Enabled(c, s, e)
    ensures Inv(c, After(c, s, e))
  {
    hide IsFair, MaxDelay;
    if e.Enter? {
      assert (s.threads + [Start()])[..|s.threads|] == s.threads;
      StartIsFair(c);
    } else {
      MovedIsFair(c, s, e);
      HoldersUpdate(s.threads, e.i, Moved(c, s.threads[e.i], e));
    }
  }

  lemma StartIsFair(c: Config)
    requires IsConfig(c)
    ensures IsFair(c, Start())
  {
    MaxSleptStep(c, 0);
  }

  ghost predicate IsRun(c: Config, s: State, es: seq<Event>)
    decreases |es|
  {
    es == [] || (Enabled(c, s, es[0]) && IsRun(c, After(c, s, es[0]), es[1..]))
  }

  ghost function Final(c: Config, s: State, es: seq<Event>): State
    requires IsRun(c, s, es)
    decreases |es|
  {
    if es == [] then s else Final(c, After(c, s, es[0]), es[1..])
  }

  /** In every interleaving, free permits and holders add up to the configured number, so no more calls than that run or
      back off at once, and every call stays within its attempts and its total sleep. */
  lemma {:induction false} EveryRunIsSafe(c: Config, s: State, es: seq<Event>)
    requires Inv(c, s) && IsRun(c, s, es)
    ensures var f := Final(c, s, es);
            && Inv(c, f) && Active(f.threads) <= c.maxConcurrent
            && (forall i | 0 <= i < |f.threads| ::
                  f.threads[i].calls <= c.maxRetries + 1 && f.threads[i].slept <= MaxSlept(c, c.maxRetries)
                  && (f.threads[i].phase.Finished? ==> f.threads[i].acquired == f.threads[i].released))
    decreases |es|
  {
    if es == [] {
      ActiveHold(s.threads);
      forall i | 0 <= i < |s.threads| ensures WithinBudget(c, s.threads[i]) { FairIsWithinBudget(c, s.threads[i]); }
    } else {
      StepKeepsInv(c, s, es[0]);
      hide IsFair, Enabled, Inv;
      EveryRunIsSafe(c, After(c, s, es[0]), es[1..]);
    }
  }

  lemma FairIsWithinBudget(c: Config, t: Thread)
    requires IsConfig(c) && IsFair(c, t)
    ensures WithinBudget(c, t)
  {
    MaxSleptGrows(c, t.attempt, c.maxRetries);
    if t.attempt < c.maxRetries { MaxSleptGrows(c, t.attempt + 1, c.maxRetries); }
    hide Power, MaxSlept;
  }

  lemma BeginsSafe(c: Config)
    requires IsConfig(c)
    ensures Inv(c, State(c.maxConcurrent, []))
  {
  }

  // ---- progress ----

  lemma {:induction false} SomeHolder(ts: seq<Thread>) returns (i: nat)
    requires Holders(ts) > 0
    ensures i < |ts| && Holds(ts[i])
  {
    if Holds(ts[|ts| - 1]) {
      i := |ts| - 1;
    } else {
      i := SomeHolder(ts[..|ts| - 1]);
    }
  }

  /** A thread that is not finished can move, unless it waits for a permit that another unfinished thread will free. */
  lemma NeverStuck(c: Config, s: State, i: nat) returns (e: Event)
    requires Inv(c, s) && i < |s.threads| && !s.threads[i].phase.Finished?
    ensures Enabled(c, s, e) && !e.Enter?
  {
    hide IsFair, MaxDelay;
    var j := i;
    if s.threads[i].phase == Waiting {
      if s.free > 0 {
        return Acquire(i);
      }
      j := SomeHolder(s.threads);
    }
    match s.threads[j].phase {
      case Running => e := Return(j);
      case Sleeping => e := Wake(j);
      case Leaving(_, _) => e := Release(j);
    }
  }

  /** How many steps a thread can still take. */
  function Work(c: Config, t: Thread): int {
    match t.phase
    case Waiting => 4 * (c.maxRetries - t.attempt) + 4
    case Running => 4 * (c.maxRetries - t.attempt) + 3
    case Sleeping => 4 * (c.maxRetries - t.attempt) + 2
    case Leaving(retry, _) => if retry then 4 * (c.maxRetries - t.attempt) + 5 else 1
    case Finished(_) => 0
  }

  function TotalWork(c: Config, ts: seq<Thread>): int {
    if ts == [] then 0 else TotalWork(c, ts[..|ts| - 1]) + Work(c, ts[|ts| - 1])
  }

  lemma {:induction false} TotalWorkUpdate(c: Config, ts: seq<Thread>, i: nat, t: Thread)
    requires i < |ts|
    ensures TotalWork(c, ts[i := t]) == TotalWork(c, ts) - Work(c, ts[i]) + Work(c, t)
  {
    var front := ts[..|ts| - 1];
    if i == |ts| - 1 {
      assert ts[i := t][..|ts| - 1] == front;
    } else {
      TotalWorkUpdate(c, front, i, t);
      assert ts[i := t][..|ts| - 1] == front[i := t];
    }
  }

  lemma {:induction false} TotalWorkBounds(c: Config, ts: seq<Thread>)
    requires forall i | 0 <= i < |ts| :: IsFair(c, ts[i])
    ensures 0 <= TotalWork(c, ts) <= |ts| * (4 * c.maxRetries + 4)
  {
    hide IsFair, Work;
    if ts != [] {
      var k, n := 4 * c.maxRetries + 4, |ts|;
      TotalWorkBounds(c, ts[..n - 1]);
      WorkBounds(c, ts[n - 1]);
      assert (n - 1) * k + k == n * k;
    }
  }

  lemma WorkBounds(c: Config, t: Thread)
    requires IsFair(c, t)
    ensures 0 <= Work(c, t) <= 4 * c.maxRetries + 4
  {
    hide MaxSlept;
  }

  function Entries(es: seq<Event>): nat {
    if es == [] then 0 else Entries(es[1..]) + if es[0].Enter? then 1 else 0
  }

  /** Entering adds a call's worth of work, every other step does some. */
  lemma StepDoesWork(c: Config, s: State, e: Event)
    requires Inv(c, s) && Enabled(c, s, e)
    ensures var before, after := TotalWork(c, s.threads), TotalWork(c, After(c, s, e).threads);
            if e.Enter? then after == before + 4 * c.maxRetries + 4 else after < before
  {
    hide IsFair, MaxDelay, Holders;
    if e.Enter? {
      assert (s.threads + [Start()])[..|s.threads|] == s.threads;
    } else {
      AttemptBounded(c, s.threads[e.i]);
      TotalWorkUpdate(c, s.threads, e.i, Moved(c, s.threads[e.i], e));
    }
  }

  lemma AttemptBounded(c: Config, t: Thread)
    requires IsFair(c, t)
    ensures t.attempt <= c.maxRetries
  {
  }

  /** The steps n calls may take in all. */
  function Allotted(c: Config, n: nat): nat { n * (4 * c.maxRetries + 4) }

  lemma AllottedStep(c: Config, n: nat)
    ensures Allotted(c, n + 1) == Allotted(c, n) + 4 * c.maxRetries + 4
  {
  }

  /** Every run ends: a call takes at most 4 * maxRetries + 4 steps, however the threads interleave. */
  lemma {:induction false} RunsAreBounded(c: Config, s: State, es: seq<Event>)
    requires Inv(c, s) && IsRun(c, s, es)
    ensures |es| - Entries(es) <= TotalWork(c, s.threads) + Allotted(c, Entries(es))
    decreases |es|
  {
    if es == [] {
      TotalWorkBounds(c, s.threads);
    } else {
      StepKeepsInv(c, s, es[0]);
      StepDoesWork(c, s, es[0]);
      hide Inv, Enabled, After, TotalWork, Allotted;
      RunsAreBounded(c, After(c, s, es[0]), es[1..]);
      AllottedStep(c, Entries(es[1..]));
    }
  }

  // ---- one call ----

  /** What fn does when it is called: return, be rate limited (with the jitter drawn), or raise. */
  datatype Outcome<T> = Success(value: T) | Limited(delay: real) | Failure

  /** The delays of the first outcomes, added up. */
  function Delays<T>(outcomes: nat -> Outcome<T>, n: nat): real {
    if n == 0 then 0.0 else Delays(outcomes, n - 1) + if outcomes(n - 1).Limited? then outcomes(n - 1).delay else 0.0
  }

  datatype Done<T> = Returned(value: T) | Raised

  /** The attempt that ends the call: the first not rate limited, or the last one allowed. */
  ghost predicate IsLast<T>(c: Config, outcomes: nat -> Outcome<T>, k: nat) {
    && k <= c.maxRetries
    && (forall j: nat | j < k :: outcomes(j).Limited?)
    && (outcomes(k).Limited? ==> k == c.maxRetries)
  }

  class Limiter {
    const config: Config
    var permits: int

    constructor (c: Config)
      requires IsConfig(c)
      ensures config == c && permits == c.maxConcurrent
    {
      config, permits := c, c.maxConcurrent;
    }

    /** execute, alone with a free permit: fn is called up to the attempt that ends the call, whose outcome is the
        result, and the permit count is restored on every exit. */
    method Execute<T>(outcomes: nat -> Outcome<T>) returns (done: Done<T>, calls: nat, slept: real)
      requires IsConfig(config) && permits > 0
      requires forall k: nat :: outcomes(k).Limited? ==> 0.0 <= outcomes(k).delay <= MaxDelay(config, k)
      modifies this
      ensures permits == old(permits)
      ensures calls >= 1 && IsLast(config, outcomes, calls - 1)
      ensures done == if outcomes(calls - 1).Success? then Returned(outcomes(calls - 1).value) else Raised
      ensures slept == Delays(outcomes, calls - 1)
      ensures 0.0 <= slept <= MaxSlept(config, calls - 1) <= MaxSlept(config, config.maxRetries)
    {
      hide MaxSlept, MaxDelay, Power;
      var attempt := 0;
      calls, slept := 0, 0.0;
      MaxSleptStep(config, 0);
      while true
        invariant attempt <= config.maxRetries && calls == attempt && permits == old(permits)
        invariant forall j: nat | j < attempt :: outcomes(j).Limited?
        invariant slept == Delays(outcomes, attempt) && 0.0 <= slept <= MaxSlept(config, attempt)
        decreases config.maxRetries - attempt
      {
        MaxSleptGrows(config, attempt, config.maxRetries);
        permits := permits - 1;
        var outcome := outcomes(attempt);
        calls := calls + 1;
        if outcome.Success? {
          permits := permits + 1;
          return Returned(outcome.value), calls, slept;
        }
        if !outcome.Limited? || attempt >= config.maxRetries {
          permits := permits + 1;
          return Raised, calls, slept;
        }
        slept := slept + outcome.delay;
        MaxSleptStep(config, attempt);
        attempt := attempt + 1;
        permits := permits + 1;
      }
    }
  }
}
