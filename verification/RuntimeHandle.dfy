/**
 The handles that select a throttling mode: the rate limiter's parameters for each priority and
 the state that all clones of one handle share.
 */
module RuntimeHandle {
  import opened Polling
  import opened Priorities

  /** Tokens added at each interval, the interval, and the most tokens kept. */
  datatype Bucket = Bucket(amount: nat, interval: nat, maxTokens: nat)

  function BucketFor(priority: Priority): Option<Bucket> {
    match priority
    case VeryLow => Some(Bucket(800, Millis(70), 2_000))
    case Low => Some(Bucket(1_100, Millis(50), 2_000))
    case Middle => Some(Bucket(1_400, Millis(30), 2_000))
    case High => Some(Bucket(1_700, Millis(10), 2_000))
    case VeryHigh => None
  }

  /** `AtomicU64::fetch_sub(1)` */
  function Dec64(x: u64): u64 { if x == 0 then 0xFFFF_FFFF_FFFF_FFFF else x - 1 }

  /** A u64 after so many decrements from zero. */
  function Decrements(n: nat): u64 {
    if n == 0 then 0 else Dec64(Decrements(n - 1))
  }

  lemma {:induction false} DecrementsClosedForm(n: nat)
    ensures Wrap64(Decrements(n) + n) == 0
  {
    if n > 0 {
      DecrementsClosedForm(n - 1);
      OneDown(Decrements(n - 1), n - 1);
    }
  }

  lemma {:induction false} OneDown(x: u64, n: nat)
    requires Wrap64(x + n) == 0
    ensures Wrap64(Dec64(x) + (n + 1)) == 0
  {
    if x == 0 {
      assert Dec64(x) + (n + 1) == n + 0x1_0000_0000_0000_0000;
    }
  }

  /** The atomics behind the `Arc` of a handle. */
  class Shared {
    var dropped: bool
    var counter: u64

    constructor ()
      ensures !dropped && counter == 0
    {
      dropped, counter := false, 0;
    }
  }

  /** A handle; its clones are equal values that reach the same shared state. */
  datatype RateLimiterRuntimeHandle = RateLimiterRuntimeHandle(limiter: Option<Bucket>, shared: Shared, priority: Priority)

  /** A new handle with its own shared state. A limiter is configured for every throttled
      priority, and its capacity is never below one interval's tokens. */
  method NewHandle(priority: Priority) returns (h: RateLimiterRuntimeHandle)
    ensures fresh(h.shared) && h.shared.counter == 0 && !h.shared.dropped
    ensures h.priority == priority && h.limiter == BucketFor(priority)
    ensures h.limiter == match priority
                         case VeryLow => Some(Bucket(800, 70_000_000, 2_000))
                         case Low => Some(Bucket(1_100, 50_000_000, 2_000))
                         case Middle => Some(Bucket(1_400, 30_000_000, 2_000))
                         case High => Some(Bucket(1_700, 10_000_000, 2_000))
                         case VeryHigh => None
    ensures h.limiter.None? <==> priority.VeryHigh?
    ensures h.limiter.Some? ==> 0 < h.limiter.value.amount <= h.limiter.value.maxTokens && h.limiter.value.interval > 0
  {
    var shared := new Shared();
    match priority {
      case VeryLow => h := RateLimiterRuntimeHandle(Some(Bucket(800, Millis(70), 2_000)), shared, priority);
      case Low => h := RateLimiterRuntimeHandle(Some(Bucket(1_100, Millis(50), 2_000)), shared, priority);
      case Middle => h := RateLimiterRuntimeHandle(Some(Bucket(1_400, Millis(30), 2_000)), shared, priority);
      case High => h := RateLimiterRuntimeHandle(Some(Bucket(1_700, Millis(10), 2_000)), shared, priority);
      case VeryHigh => h := RateLimiterRuntimeHandle(None, shared, priority);
    }
  }

  /** Dropping any clone raises the flag that all of them share. */
  method DropHandle(h: RateLimiterRuntimeHandle)
    modifies h.shared
    ensures h.shared.dropped && h.shared.counter == old(h.shared.counter)
  {
    h.shared.dropped := true;
  }
}
