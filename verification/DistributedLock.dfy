/**
 The distributed lock: three scripts over keys with an expiry, and the client's counted retry loop. Times
 are in milliseconds. A key whose expiry has come is treated as absent.
 */
module DistributedLock {
  import opened Basics

  datatype Grant = Grant(value: Str, expires: int)

  type Locks = map<Str, Grant>

  datatype LockOp =
    | Acquire(resource: Str, value: Str, ttl: int)
    | ReleaseLock(resource: Str, value: Str)
    | ExtendLock(resource: Str, value: Str, ttl: int)

  datatype LockEvent = LockEvent(at: int, op: LockOp)

  predicate HeldBy(locks: Locks, resource: Str, value: Str, at: int) {
    resource in locks && locks[resource].value == value && at < locks[resource].expires
  }

  predicate Taken(locks: Locks, resource: Str, at: int) {
    resource in locks && at < locks[resource].expires
  }

  /** SET NX PX succeeds; a non-positive TTL is an error of the server. */
  predicate Acquires(locks: Locks, e: LockEvent) {
    e.op.Acquire? && e.op.ttl > 0 && !Taken(locks, e.op.resource, e.at)
  }

  function LockNext(locks: Locks, e: LockEvent): Locks {
    match e.op
    case Acquire(r, v, ttl) => if Acquires(locks, e) then locks[r := Grant(v, e.at + ttl)] else locks
    case ReleaseLock(r, v) => if HeldBy(locks, r, v, e.at) then locks - {r} else locks
    case ExtendLock(r, v, ttl) =>
      if !HeldBy(locks, r, v, e.at) then locks
      else if ttl <= 0 then locks - {r} // PEXPIRE with a time in the past deletes the key
      else locks[r := Grant(v, e.at + ttl)]
  }

  /**
   What each call does to the lock it names: an acquire with a positive TTL succeeds exactly when there is no grant or
   its time has come, an expired one included; a release or extension works exactly for the value that has a grant.
   */
  lemma CallEffect(locks: Locks, e: LockEvent)
    ensures var r, v, u := e.op.resource, e.op.value, LockNext(locks, e);
            var live := r in locks && e.at < locks[r].expires;
            && (forall q :: q != r ==> (q in u <==> q in locks) && (q in locks ==> u[q] == locks[q]))
            && (e.op.Acquire? ==> (Acquires(locks, e) <==> e.op.ttl > 0 && !live))
            && (e.op.Acquire? ==>
                  if e.op.ttl > 0 && !live then r in u && u[r] == Grant(v, e.at + e.op.ttl) else u == locks)
            && (!e.op.Acquire? && !(live && locks[r].value == v) ==> u == locks)
            && (e.op.ReleaseLock? && live && locks[r].value == v ==> r !in u)
            && (e.op.ExtendLock? && live && locks[r].value == v && e.op.ttl > 0 ==>
                  r in u && u[r] == Grant(v, e.at + e.op.ttl))
            && (e.op.ExtendLock? && live && locks[r].value == v && e.op.ttl <= 0 ==> r !in u)
  {
  }

  function LockRun(locks: Locks, es: seq<LockEvent>): Locks {
    if es == [] then locks else LockNext(LockRun(locks, es[..|es| - 1]), es[|es| - 1])
  }

  lemma LockRunStep(locks: Locks, es: seq<LockEvent>, i: nat)
    requires i < |es|
    ensures LockRun(locks, es[..i + 1]) == LockNext(LockRun(locks, es[..i]), es[i])
  {
    assert es[..i + 1][..i] == es[..i];
  }

  lemma {:induction false} LockAppend(locks: Locks, xs: seq<LockEvent>, ys: seq<LockEvent>)
    ensures LockRun(locks, xs + ys) == LockRun(LockRun(locks, xs), ys)
  {
    if ys == [] {
      assert xs + ys == xs;
    } else {
      var n := |ys| - 1;
      assert (xs + ys)[..|xs + ys| - 1] == xs + ys[..n];
      LockAppend(locks, xs, ys[..n]);
    }
  }

  /** The holder itself gives the lock up, or cuts it short of `h`. */
  predicate GivesUp(e: LockEvent, resource: Str, value: Str, h: int) {
    match e.op
    case Acquire(_, _, _) => false
    case ReleaseLock(r, v) => r == resource && v == value
    case ExtendLock(r, v, ttl) => r == resource && v == value && e.at + ttl < h
  }

  /** A grant that reaches `h` survives every run before `h` in which its holder does not give it up. */
  lemma {:induction false} GrantLasts(locks: Locks, es: seq<LockEvent>, resource: Str, value: Str, h: int)
    requires resource in locks && locks[resource].value == value && locks[resource].expires >= h
    requires forall i :: 0 <= i < |es| ==> es[i].at < h && !GivesUp(es[i], resource, value, h)
    ensures var u := LockRun(locks, es); resource in u && u[resource].value == value && u[resource].expires >= h
  {
    if es != [] {
      GrantLasts(locks, es[..|es| - 1], resource, value, h);
    }
  }

  /**
   Mutual exclusion over whole runs: between an acquire that succeeds and a later one that succeeds on the
   same resource, the first holder gave the lock up or its time had come.
   */
  lemma MutualExclusion(locks: Locks, es: seq<LockEvent>, i: nat, j: nat)
    requires i < j < |es|
    requires Acquires(LockRun(locks, es[..i]), es[i]) && Acquires(LockRun(locks, es[..j]), es[j])
    requires es[i].op.resource == es[j].op.resource
    ensures var h := es[i].at + es[i].op.ttl;
            || (exists x :: i < x <= j && es[x].at >= h)
            || (exists x :: i < x < j && GivesUp(es[x], es[i].op.resource, es[i].op.value, h))
  {
    var r, v, h := es[i].op.resource, es[i].op.value, es[i].at + es[i].op.ttl;
    LockRunStep(locks, es, i);
    if (forall x :: i < x <= j ==> es[x].at < h) && (forall x :: i < x < j ==> !GivesUp(es[x], r, v, h)) {
      assert es[..j] == es[..i + 1] + es[i + 1..j];
      LockAppend(locks, es[..i + 1], es[i + 1..j]);
      var between := es[i + 1..j];
      assert forall x :: 0 <= x < |between| ==> between[x] == es[i + 1 + x];
      GrantLasts(LockRun(locks, es[..i + 1]), between, r, v, h);
      assert false;
    }
  }

  lemma {:induction false} UntouchedStays(locks: Locks, es: seq<LockEvent>, resource: Str)
    requires forall i :: 0 <= i < |es| ==> es[i].op.resource != resource
    ensures resource in LockRun(locks, es) <==> resource in locks
    ensures resource in locks ==> LockRun(locks, es)[resource] == locks[resource]
  {
    if es != [] {
      var n := |es| - 1;
      UntouchedStays(locks, es[..n], resource);
      CallEffect(LockRun(locks, es[..n]), es[n]);
    }
  }

  /** A lock nobody touches after its grant can be acquired again exactly from the moment the grant runs out. */
  lemma RunsOutOnTime(locks: Locks, es: seq<LockEvent>, i: nat, j: nat)
    requires i < j < |es| && Acquires(LockRun(locks, es[..i]), es[i])
    requires es[j].op.Acquire? && es[j].op.ttl > 0 && es[j].op.resource == es[i].op.resource
    requires forall x :: i < x < j ==> es[x].op.resource != es[i].op.resource
    ensures Acquires(LockRun(locks, es[..j]), es[j]) <==> es[j].at >= es[i].at + es[i].op.ttl
  {
    LockRunStep(locks, es, i);
    CallEffect(LockRun(locks, es[..i]), es[i]);
    var between := es[i + 1..j];
    assert es[..j] == es[..i + 1] + between;
    assert forall x :: 0 <= x < |between| ==> between[x] == es[i + 1 + x];
    LockAppend(locks, es[..i + 1], between);
    UntouchedStays(LockRun(locks, es[..i + 1]), between, es[i].op.resource);
    CallEffect(LockRun(locks, es[..j]), es[j]);
  }

  /** Whatever grants the value still has recorded have run out by `from`. */
  predicate Lost(locks: Locks, value: Str, from: int) {
    forall r :: r in locks && locks[r].value == value ==> locks[r].expires <= from
  }

  function Without(es: seq<LockEvent>, value: Str): seq<LockEvent> {
    if es == [] then []
    else
      var n := |es| - 1;
      Without(es[..n], value) + if es[n].op.value == value then [] else [es[n]]
  }

  /** A value that has lost its grants gets none back but by acquiring; its other calls change nothing. */
  lemma LateEvent(locks: Locks, e: LockEvent, value: Str, from: int)
    requires Lost(locks, value, from) && e.at >= from && !(e.op.Acquire? && e.op.value == value)
    ensures Lost(LockNext(locks, e), value, from)
    ensures e.op.value == value ==> LockNext(locks, e) == locks
  {
  }

  lemma LockRunSnoc(locks: Locks, es: seq<LockEvent>, e: LockEvent)
    ensures LockRun(locks, es + [e]) == LockNext(LockRun(locks, es), e)
  {
    assert (es + [e])[..|es|] == es;
  }

  /**
   Late calls over whole runs: a value that has lost its grants and acquires no more is as good as absent, and all
   its releases and extensions can be struck from the run without changing the state it leads to.
   */
  lemma {:induction false} FormerHolderIsAbsent(locks: Locks, es: seq<LockEvent>, value: Str, from: int)
    requires Lost(locks, value, from)
    requires forall i :: 0 <= i < |es| ==> es[i].at >= from && !(es[i].op.Acquire? && es[i].op.value == value)
    ensures LockRun(locks, es) == LockRun(locks, Without(es, value)) && Lost(LockRun(locks, es), value, from)
  {
    if es != [] {
      var n := |es| - 1;
      var p, e := es[..n], es[n];
      FormerHolderIsAbsent(locks, p, value, from);
      LateEvent(LockRun(locks, p), e, value, from);
      LockRunSnoc(locks, Without(p, value), e);
      assert Without(es, value) == if e.op.value == value then Without(p, value) else Without(p, value) + [e];
    }
  }

  predicate Mentions(e: LockEvent, value: Str) {
    e.op.value == value
  }

  /** A lock value nobody mentions is never granted. */
  lemma {:induction false} UnmentionedNeverHolds(locks: Locks, es: seq<LockEvent>, value: Str)
    requires forall r :: r in locks ==> locks[r].value != value
    requires forall i :: 0 <= i < |es| ==> !Mentions(es[i], value)
    ensures forall r :: r in LockRun(locks, es) ==> LockRun(locks, es)[r].value != value
  {
    if es != [] {
      UnmentionedNeverHolds(locks, es[..|es| - 1], value);
    }
  }

  // ----- the client -----

  function Pow2(n: nat): nat {
    if n == 0 then 1 else 2 * Pow2(n - 1)
  }

  /** A delay lengthened by up to half of itself, floored. */
  function Jittered(delay: nat, draw: real): int {
    var jitter := draw * delay as real * 0.5;
    (delay as real + jitter).Floor
  }

  /** `calculateBackoff` for a random draw in [0, 1). */
  function Backoff(base: nat, attempt: nat, draw: real): int {
    var delay: nat := base * Pow2(attempt);
    Jittered(delay, draw)
  }

  lemma BackoffBounds(base: nat, attempt: nat, draw: real)
    requires 0.0 <= draw < 1.0
    ensures base * Pow2(attempt) <= Backoff(base, attempt, draw)
    ensures 2 * Backoff(base, attempt, draw) <= 3 * base * Pow2(attempt)
  {
    JitterBounds(base * Pow2(attempt), draw);
    MulAssoc(3, base, Pow2(attempt));
  }

  lemma JitterBounds(delay: nat, draw: real)
    requires 0.0 <= draw < 1.0
    ensures delay <= Jittered(delay, draw) && 2 * Jittered(delay, draw) <= 3 * delay
  {
    DrawShortens(delay as real, draw);
    FloorBounds(delay, draw * delay as real * 0.5);
  }

  /** The floor of the delay lengthened by the drawn part of its half: exactly one whole number. */
  lemma BackoffIsFloor(base: nat, attempt: nat, draw: real)
    ensures var d, f := (base * Pow2(attempt)) as real, Backoff(base, attempt, draw) as real;
            f <= d + draw * d * 0.5 < f + 1.0
  {
    FloorIsBelow(base * Pow2(attempt), draw);
  }

  lemma FloorIsBelow(delay: nat, draw: real)
    ensures var f := Jittered(delay, draw) as real;
            f <= delay as real + draw * delay as real * 0.5 < f + 1.0
  {
  }

  lemma DrawShortens(delay: real, draw: real)
    requires 0.0 <= draw < 1.0 && delay >= 0.0
    ensures 0.0 <= draw * delay * 0.5 <= delay * 0.5
  {
    var t := draw * delay;
    assert t >= 0.0;
    assert (1.0 - draw) * delay == delay - t;
    assert (1.0 - draw) * delay >= 0.0;
  }

  lemma FloorBounds(delay: nat, jitter: real)
    requires 0.0 <= jitter <= delay as real * 0.5
    ensures delay <= (delay as real + jitter).Floor && 2 * (delay as real + jitter).Floor <= 3 * delay
  {
    var f := (delay as real + jitter).Floor;
    assert f as real <= delay as real + jitter;
    assert (2 * f) as real <= (3 * delay) as real;
  }

  lemma MulAssoc(x: int, y: int, z: int)
    ensures x * (y * z) == x * y * z
  {
  }

  /** What a client keeps of a lock it acquired; `expiresAt` is on its own clock. */
  class Lock {
    const resource: Str
    const value: Str
    var expiresAt: int

    constructor (resource: Str, value: Str, expiresAt: int)
      ensures this.resource == resource && this.value == value && this.expiresAt == expiresAt
    {
      this.resource, this.value, this.expiresAt := resource, value, expiresAt;
    }
  }

  /** How a call to the server ends: with its reply, or in an error before or after the script has run. */
  datatype Call = Replied | NotDelivered | ReplyLost

  ghost predicate NoneLost(calls: nat -> Call, n: nat) {
    forall i: nat :: i < n ==> !calls(i).ReplyLost?
  }

  class LockServer {
    var locks: Locks

    method Eval(e: LockEvent) returns (ok: bool)
      modifies this
      ensures locks == LockNext(old(locks), e)
      ensures e.op.Acquire? ==> ok == Acquires(old(locks), e)
      ensures !e.op.Acquire? ==> ok == HeldBy(old(locks), e.op.resource, e.op.value, e.at)
    {
      match e.op
      case Acquire(r, v, ttl) =>
        ok := ttl > 0 && !(r in locks && e.at < locks[r].expires);
        if ok {
          locks := locks[r := Grant(v, e.at + ttl)];
        }
      case ReleaseLock(r, v) =>
        ok := r in locks && e.at < locks[r].expires && locks[r].value == v;
        if ok {
          locks := locks - {r};
        }
      case ExtendLock(r, v, ttl) =>
        ok := r in locks && e.at < locks[r].expires && locks[r].value == v;
        if ok {
          if ttl <= 0 {
            locks := locks - {r};
          } else {
            locks := locks[r := Grant(v, e.at + ttl)];
          }
        }
    }

    /** The calls of other clients that reach the server while this one sleeps. */
    method Others(es: seq<LockEvent>)
      modifies this
      ensures locks == LockRun(old(locks), es)
    {
      for i := 0 to |es|
        invariant locks == LockRun(old(locks), es[..i])
      {
        LockRunStep(old(locks), es, i);
        var _ := Eval(es[i]);
      }
      assert es[..|es|] == es;
    }

    /** One attempt: what others did before it, then the call, which may be lost on either way. */
    method Attempt(e: LockEvent, call: Call, es: seq<LockEvent>) returns (ok: bool)
      requires e.op.Acquire?
      modifies this
      ensures locks == if call.NotDelivered? then LockRun(old(locks), es) else LockNext(LockRun(old(locks), es), e)
      ensures ok <==> call.Replied? && Acquires(LockRun(old(locks), es), e)
    {
      Others(es);
      ok := false;
      if !call.NotDelivered? {
        ok := Eval(e);
        ok := ok && !call.ReplyLost?;
      }
    }

    /**
     `acquireLock`: at most `maxRetry + 1` attempts under one fresh value, with an exponential back-off in
     between, after a refusal and after an error alike. `at` gives the time of each attempt, `calls` how its call
     ends, `draws` the random draws, `others` what other clients do before it; `clock` is the client's clock after
     a success.
     */
    method AcquireLock(
      resource: Str, value: Str, ttl: int, maxRetry: int, retryDelay: nat,
      at: nat -> int, calls: nat -> Call, clock: nat -> int, draws: nat -> real, others: nat -> seq<LockEvent>)
      returns (lock: Lock?, attempts: nat, slept: int)
      requires forall i :: 0.0 <= draws(i) < 1.0
      requires forall r :: r in locks ==> locks[r].value != value
      requires forall n, i :: 0 <= i < |others(n)| ==> !Mentions(others(n)[i], value)
      modifies this
      ensures attempts <= if maxRetry < 0 then 0 else maxRetry + 1
      ensures lock != null ==>
                && fresh(lock) && attempts > 0
                && resource in locks && locks[resource] == Grant(value, at(attempts - 1) + ttl)
                && lock.resource == resource && lock.value == value
                && lock.expiresAt == clock(attempts - 1) + ttl
      ensures lock == null ==>
                && (maxRetry >= 0 ==> attempts == maxRetry + 1)
                && (NoneLost(calls, attempts) ==> forall r :: r in locks ==> locks[r].value != value)
      ensures SleptWithin(slept, retryDelay, if attempts > 0 then attempts - 1 else 0)
      ensures 2 * slept <= 3 * retryDelay * (Pow2(if maxRetry < 0 then 0 else maxRetry) - 1)
    {
      attempts, slept := 0, 0;
      while attempts <= maxRetry
        invariant attempts <= if maxRetry < 0 then 0 else maxRetry + 1
        invariant NoneLost(calls, attempts) ==> forall r :: r in locks ==> locks[r].value != value
        invariant SleptWithin(slept, retryDelay, Waits(attempts, maxRetry))
        decreases maxRetry - attempts
      {
        if NoneLost(calls, attempts) {
          UnmentionedNeverHolds(locks, others(attempts), value);
        }
        var e := LockEvent(at(attempts), Acquire(resource, value, ttl));
        var ok := Attempt(e, calls(attempts), others(attempts));
        if ok {
          BoundGrows(retryDelay, attempts, maxRetry);
          lock := new Lock(resource, value, clock(attempts) + ttl);
          attempts := attempts + 1;
          return;
        }
        if attempts < maxRetry {
          SleepOnce(slept, retryDelay, attempts, draws(attempts));
          slept := slept + Backoff(retryDelay, attempts, draws(attempts));
        }
        attempts := attempts + 1;
      }
      lock := null;
    }

    /** `releaseLock`: deletes the key only while the server still grants it to this lock's value. */
    method Release(lock: Lock, at: int) returns (released: bool)
      modifies this
      ensures released == HeldBy(old(locks), lock.resource, lock.value, at)
      ensures locks == if released then old(locks) - {lock.resource} else old(locks)
    {
      released := Eval(LockEvent(at, ReleaseLock(lock.resource, lock.value)));
    }

    /** `extendLock`: the client's copy of the expiry moves exactly when the server's does. */
    method Extend(lock: Lock, ttl: int, at: int, clock: int) returns (extended: bool)
      modifies this, lock
      ensures extended == HeldBy(old(locks), lock.resource, lock.value, at)
      ensures lock.expiresAt == if extended then clock + ttl else old(lock.expiresAt)
      ensures locks == LockNext(old(locks), LockEvent(at, ExtendLock(lock.resource, lock.value, ttl)))
      ensures extended && ttl > 0 ==> locks == old(locks)[lock.resource := Grant(lock.value, at + ttl)]
    {
      extended := Eval(LockEvent(at, ExtendLock(lock.resource, lock.value, ttl)));
      if extended {
        lock.expiresAt := clock + ttl;
      }
    }
  }

  /** How many times a client has slept when it is about to make another attempt. */
  function Waits(attempts: nat, maxRetry: int): nat {
    if maxRetry < 0 then 0 else if attempts <= maxRetry then attempts else maxRetry
  }

  lemma {:induction false} PowGrows(m: nat, n: nat)
    requires m <= n
    ensures 1 <= Pow2(m) <= Pow2(n)
    decreases n
  {
    if m < n {
      PowGrows(m, n - 1);
    } else if m > 0 {
      PowGrows(m - 1, m - 1);
    }
  }

  /** After `n` back-offs: between the sum of the doubled delays and one and a half times it. */
  predicate SleptWithin(slept: int, retryDelay: nat, n: nat) {
    retryDelay * (Pow2(n) - 1) <= slept && 2 * slept <= 3 * retryDelay * (Pow2(n) - 1)
  }

  lemma SleepOnce(slept: int, retryDelay: nat, n: nat, draw: real)
    requires 0.0 <= draw < 1.0 && SleptWithin(slept, retryDelay, n)
    ensures SleptWithin(slept + Backoff(retryDelay, n, draw), retryDelay, n + 1)
  {
    BackoffBounds(retryDelay, n, draw);
    BoundStep(3 * retryDelay, n);
    BoundStep(retryDelay, n);
  }

  lemma BoundGrows(d: nat, m: nat, n: nat)
    requires m <= n
    ensures 3 * d * (Pow2(m) - 1) <= 3 * d * (Pow2(n) - 1)
  {
    PowGrows(m, n);
    MulMono(3 * d, Pow2(m) - 1, Pow2(n) - 1);
  }

  lemma MulMono(c: nat, x: int, y: int)
    requires x <= y
    ensures c * x <= c * y
  {
  }

  lemma BoundStep(d: nat, n: nat)
    ensures d * (Pow2(n) - 1) + d * Pow2(n) == d * (Pow2(n + 1) - 1)
  {
    var p: int := Pow2(n);
    assert Pow2(n + 1) == 2 * p;
    assert d * (p - 1) + d * p == d * (2 * p - 1);
  }
}
