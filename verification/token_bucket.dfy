/**
 The token-bucket admission controller.

 The bucket's mutex and refill goroutine exist only to make each step atomic,
 so every step is modelled here as a pure transition on an immutable `Bucket`.
 The `running` flag stands for the stop channel still being open: `Stop`
 closes it, and the refill loop returns once it observes the closed channel.
 */
module TokenBucket {
  import opened Wrappers

  /** The bucket's state. `refillInterval` is a `time.Duration` in nanoseconds. */
  datatype Bucket = Bucket(
    maxTokens: int,
    tokens: int,
    tokensPerInterval: int,
    refillInterval: int,
    running: bool)

  /** The counter stays within the capacity. */
  predicate Valid(b: Bucket) {
    0 <= b.tokens <= b.maxTokens
  }

  /** The configuration fields that no step may alter. */
  predicate SameConfig(b: Bucket, b': Bucket) {
    && b'.maxTokens == b.maxTokens
    && b'.tokensPerInterval == b.tokensPerInterval
    && b'.refillInterval == b.refillInterval
  }

  /** A new bucket starts full and not stopped. */
  function NewTokenBucket(maxTokens: int, tokensPerInterval: int, refillInterval: int): (b: Bucket)
    ensures b.tokens == b.maxTokens == maxTokens
    ensures b.tokensPerInterval == tokensPerInterval && b.refillInterval == refillInterval
    ensures b.running
    ensures maxTokens >= 0 ==> Valid(b)
  {
    Bucket(maxTokens, maxTokens, tokensPerInterval, refillInterval, true)
  }

  /** The outcome of one take: whether the request was admitted, and the new state. */
  datatype Taken = Taken(admitted: bool, bucket: Bucket)

  /** Takes one token if one is available; otherwise denies and changes nothing. */
  function TakeToken(b: Bucket): (r: Taken)
    ensures r.admitted <==> b.tokens > 0
    ensures r.admitted ==> r.bucket == b.(tokens := b.tokens - 1)
    ensures !r.admitted ==> r.bucket == b
    ensures SameConfig(b, r.bucket) && r.bucket.running == b.running
    ensures Valid(b) ==> Valid(r.bucket)
  {
    if b.tokens > 0 then Taken(true, b.(tokens := b.tokens - 1))
    else Taken(false, b)
  }

  function Min(x: int, y: int): int {
    if x <= y then x else y
  }

  /**
   One refill tick: adds `tokensPerInterval` and clamps at `maxTokens`.
   The comparison is arranged so that no intermediate value exceeds
   `maxTokens`; the source's own addition can wrap around (see `RefillAsWritten`).
   */
  function Refill(b: Bucket): (r: Bucket)
    requires Valid(b) && b.tokensPerInterval >= 0
    ensures r.tokens == Min(b.tokens + b.tokensPerInterval, b.maxTokens)
    ensures r == b.(tokens := r.tokens)
    ensures Valid(r)
  {
    if b.tokensPerInterval > b.maxTokens - b.tokens then b.(tokens := b.maxTokens)
    else b.(tokens := b.tokens + b.tokensPerInterval)
  }

  /** A ticker event: refills a running bucket; a stopped bucket's loop has returned. */
  function Tick(b: Bucket): (r: Bucket)
    requires Valid(b) && b.tokensPerInterval >= 0
    ensures Valid(r) && SameConfig(b, r) && r.running == b.running
    ensures !b.running ==> r == b
    ensures b.running ==> r.tokens - b.tokens == Min(b.tokensPerInterval, b.maxTokens - b.tokens)
  {
    if b.running then Refill(b) else b
  }

  /** Closes the stop channel; closing it twice would panic, hence the precondition. */
  function Stop(b: Bucket): (r: Bucket)
    requires b.running
    ensures !r.running
    ensures r.tokens == b.tokens && SameConfig(b, r)
  {
    b.(running := false)
  }

  /** What can happen to the shared bucket, one atomic step at a time. */
  datatype Event = Take | TickEvent | StopEvent

  /** One event; `None` stands for the panic of a second `Stop`. */
  function Step(b: Bucket, e: Event): (r: Option<Bucket>)
    requires Valid(b) && b.tokensPerInterval >= 0
    ensures r.None? <==> e == StopEvent && !b.running
  {
    match e
    case Take => Some(TakeToken(b).bucket)
    case TickEvent => Some(Tick(b))
    case StopEvent => if b.running then Some(Stop(b)) else None
  }

  /** Runs a sequence of events, stopping at the first panic. */
  function Run(b: Bucket, es: seq<Event>): Option<Bucket>
    requires Valid(b) && b.tokensPerInterval >= 0
    decreases |es|
  {
    if |es| == 0 then Some(b)
    else match Step(b, es[0])
      case None => None
      case Some(b') => StepPreserves(b, es[0]); Run(b', es[1..])
  }

  lemma StepPreserves(b: Bucket, e: Event)
    requires Valid(b) && b.tokensPerInterval >= 0
    ensures Step(b, e).Some? ==> Valid(Step(b, e).value) && SameConfig(b, Step(b, e).value)
  {
  }

  /** Every reachable state keeps `0 <= tokens <= maxTokens` and the configuration. */
  lemma {:induction false} RunPreservesInvariant(b: Bucket, es: seq<Event>)
    requires Valid(b) && b.tokensPerInterval >= 0
    ensures Run(b, es).Some? ==> Valid(Run(b, es).value) && SameConfig(b, Run(b, es).value)
    decreases |es|
  {
    if |es| > 0 {
      var s := Step(b, es[0]);
      if s.Some? {
        StepPreserves(b, es[0]);
        RunPreservesInvariant(s.value, es[1..]);
      }
    }
  }

  /** Number of `Take` events in a trace. */
  function CountTakes(es: seq<Event>): nat {
    if |es| == 0 then 0 else (if es[0] == Take then 1 else 0) + CountTakes(es[1..])
  }

  /**
   After `Stop`, ticks change nothing: the count can only fall, by at most
   one per take, and the bucket never panics while no second stop arrives.
   */
  lemma {:induction false} StoppedNeverRefills(b: Bucket, es: seq<Event>)
    requires Valid(b) && b.tokensPerInterval >= 0 && !b.running
    requires StopEvent !in es
    ensures Run(b, es).Some?
    ensures !Run(b, es).value.running
    ensures b.tokens - CountTakes(es) <= Run(b, es).value.tokens <= b.tokens
    decreases |es|
  {
    if |es| > 0 {
      var b' := Step(b, es[0]).value;
      assert StopEvent !in es[1..] by {
        assert forall i :: 0 <= i < |es[1..]| ==> es[1..][i] == es[i + 1];
      }
      StoppedNeverRefills(b', es[1..]);
    }
  }

  /** The results and final state of `n` consecutive takes with no refill in between. */
  function TakeMany(b: Bucket, n: nat): (seq<bool>, Bucket)
    decreases n
  {
    if n == 0 then ([], b)
    else
      var t := TakeToken(b);
      var (rest, b') := TakeMany(t.bucket, n - 1);
      ([t.admitted] + rest, b')
  }

  /** With at least `n` tokens, `n` consecutive takes all succeed and leave `tokens - n`. */
  lemma {:induction false} TakeManySucceeds(b: Bucket, n: nat)
    requires n <= b.tokens
    ensures |TakeMany(b, n).0| == n
    ensures forall i :: 0 <= i < n ==> TakeMany(b, n).0[i]
    ensures TakeMany(b, n).1 == b.(tokens := b.tokens - n)
    decreases n
  {
    if n > 0 {
      var t := TakeToken(b);
      TakeManySucceeds(t.bucket, n - 1);
    }
  }

  /**
   Starting full at capacity C, N <= C takes all succeed and leave C - N; after
   C takes with no refill the next take is denied and changes nothing.
   */
  lemma FreshBucketAdmitsCapacity(c: nat, rate: int, interval: int, n: nat)
    requires n <= c
    ensures var (rs, b) := TakeMany(NewTokenBucket(c, rate, interval), n);
      && (forall i :: 0 <= i < |rs| ==> rs[i])
      && |rs| == n
      && b.tokens == c - n
    ensures var b := TakeMany(NewTokenBucket(c, rate, interval), c).1;
      !TakeToken(b).admitted && TakeToken(b).bucket == b
  {
    TakeManySucceeds(NewTokenBucket(c, rate, interval), n);
    TakeManySucceeds(NewTokenBucket(c, rate, interval), c);
  }

  // Go's `int` is 64 bits wide; the source's refill adds before it clamps.

  const MinInt64: int := -0x8000_0000_0000_0000
  const MaxInt64: int := 0x7FFF_FFFF_FFFF_FFFF

  predicate IsInt64(x: int) {
    MinInt64 <= x <= MaxInt64
  }

  /** Two's-complement wrap-around of a 64-bit signed addition result. */
  function Wrap64(x: int): (r: int)
    ensures IsInt64(r)
    ensures IsInt64(x) ==> r == x
  {
    (x - MinInt64) % 0x1_0000_0000_0000_0000 + MinInt64
  }

  /** The refill tick exactly as written: `tokens += tokensPerInterval` in 64-bit arithmetic, then clamp. */
  function RefillAsWritten(b: Bucket): (r: Bucket)
    requires IsInt64(b.tokens) && IsInt64(b.tokensPerInterval) && IsInt64(b.maxTokens)
    ensures r == b.(tokens := r.tokens)
  {
    var t := Wrap64(b.tokens + b.tokensPerInterval);
    b.(tokens := if t > b.maxTokens then b.maxTokens else t)
  }

  /** Whenever the sum fits in 64 bits, the written refill and `Refill` agree. */
  lemma RefillAsWrittenAgrees(b: Bucket)
    requires Valid(b) && b.tokensPerInterval >= 0
    requires IsInt64(b.maxTokens) && IsInt64(b.tokensPerInterval)
    requires b.tokens + b.tokensPerInterval <= MaxInt64
    ensures RefillAsWritten(b) == Refill(b)
  {
  }

  /**
   A full bucket of capacity 100 refilled at the largest 64-bit rate: the
   written addition wraps to a negative count, breaking `0 <= tokens`,
   while `Refill` stays at capacity.
   */
  lemma RefillAsWrittenWrapsNegative()
    ensures var b := Bucket(100, 100, MaxInt64, 1_000_000_000, true);
      && Valid(b)
      && RefillAsWritten(b).tokens == MinInt64 + 99
      && !Valid(RefillAsWritten(b))
      && Refill(b).tokens == 100
  {
  }
}
