/**
 The fixed-window rate limiter: one counter per (client, window) in the
 shared store, under the key `rl:<ip>:<window index>`, written as a decimal
 string. Clock, window length and limit are parameters.
 */
module RateLimit {
  import opened Decimal
  import opened Kv

  /** `Math.floor(Date.now() / (windowSec * 1000))`, with the clock in milliseconds. */
  function WindowIndex(nowMs: nat, windowSec: nat): nat
    requires windowSec > 0
  {
    var windowMs := windowSec * 1000;
    DivOfNat(nowMs, windowMs);
    nowMs / windowMs
  }

  lemma DivOfNat(a: nat, b: nat)
    requires b > 0
    ensures a / b >= 0
  {
  }

  /** `rl:${ip}:${window}`. */
  function RateKey(ip: string, window: nat): string
  {
    "rl:" + ip + ":" + NatToString(window)
  }

  /** `curStr ? Number(curStr) : 0`: an absent or empty counter reads as 0. */
  function CurrentCount(store: Store, key: string): Num
  {
    var v := Get(store, key);
    if Truthy(v) then ToNumber(v.value) else Finite(0)
  }

  /** `cur >= max`; a NaN counter never compares as reaching the limit. */
  predicate Exhausted(count: Num, max: nat)
  {
    count.Finite? && count.n >= max
  }

  /**
   `rateLimitOk`: refuses, writing nothing, once the window's counter has
   reached the limit; otherwise counts this request and allows it.
   */
  function RateLimitOk(store: Store, ip: string, nowMs: nat, windowSec: nat, max: nat): (r: Step<bool>)
    requires windowSec > 0
    ensures var key := RateKey(ip, WindowIndex(nowMs, windowSec));
      && (r.out <==> !Exhausted(CurrentCount(store, key), max))
      && (!r.out ==> r.store == store)
      && (r.out ==> CurrentCount(r.store, key) == Increment(CurrentCount(store, key)))
      && r.store.Keys == store.Keys + (if r.out then {key} else {})
      && (forall k :: k in store && k != key ==> r.store[k] == store[k])
  {
    var key := RateKey(ip, WindowIndex(nowMs, windowSec));
    var cur := CurrentCount(store, key);
    if Exhausted(cur, max) then
      Step(false, store)
    else
      NumberRoundTrip(Increment(cur));
      Step(true, store[key := NumToString(Increment(cur))])
  }

  /** n requests from one client at one instant: what each was told, and the store after them. */
  function Repeat(store: Store, ip: string, nowMs: nat, windowSec: nat, max: nat, n: nat): Step<seq<bool>>
    requires windowSec > 0
    decreases n
  {
    if n == 0 then Step([], store)
    else
      var first := RateLimitOk(store, ip, nowMs, windowSec, max);
      var rest := Repeat(first.store, ip, nowMs, windowSec, max, n - 1);
      Step([first.out] + rest.out, rest.store)
  }

  /** From a counter at c, the next n requests are allowed while c + n stays within the limit. */
  lemma {:induction false} RepeatAllowed(store: Store, ip: string, nowMs: nat, windowSec: nat, max: nat, n: nat, c: nat)
    requires windowSec > 0
    requires CurrentCount(store, RateKey(ip, WindowIndex(nowMs, windowSec))) == Finite(c)
    requires c + n <= max
    ensures Repeat(store, ip, nowMs, windowSec, max, n).out == seq(n, _ => true)
    ensures CurrentCount(Repeat(store, ip, nowMs, windowSec, max, n).store, RateKey(ip, WindowIndex(nowMs, windowSec)))
         == Finite(c + n)
    decreases n
  {
    if n > 0 {
      var first := RateLimitOk(store, ip, nowMs, windowSec, max);
      AllowedBelowLimit(store, ip, nowMs, windowSec, max, c);
      RepeatAllowed(first.store, ip, nowMs, windowSec, max, n - 1, c + 1);
      RepeatFirst(store, ip, nowMs, windowSec, max, n);
      AllTrueCons(n);
    }
  }

  /** A counter at c below the limit lets the request through and moves to c + 1. */
  lemma AllowedBelowLimit(store: Store, ip: string, nowMs: nat, windowSec: nat, max: nat, c: nat)
    requires windowSec > 0
    requires CurrentCount(store, RateKey(ip, WindowIndex(nowMs, windowSec))) == Finite(c)
    requires c < max
    ensures var first := RateLimitOk(store, ip, nowMs, windowSec, max);
      first.out && CurrentCount(first.store, RateKey(ip, WindowIndex(nowMs, windowSec))) == Finite(c + 1)
  {
  }

  /** The first of n requests, then the other n - 1 from the store it leaves. */
  lemma RepeatFirst(store: Store, ip: string, nowMs: nat, windowSec: nat, max: nat, n: nat)
    requires windowSec > 0 && n > 0
    ensures var first := RateLimitOk(store, ip, nowMs, windowSec, max);
      var rest := Repeat(first.store, ip, nowMs, windowSec, max, n - 1);
      Repeat(store, ip, nowMs, windowSec, max, n) == Step([first.out] + rest.out, rest.store)
  {
  }

  lemma AllTrueCons(n: nat)
    requires n > 0
    ensures [true] + seq(n - 1, _ => true) == seq(n, _ => true)
  {
  }

  /**
   In a window with no counter yet, the first `max` requests are allowed and
   the one after them is refused.
   */
  lemma MaxThenRefused(store: Store, ip: string, nowMs: nat, windowSec: nat, max: nat)
    requires windowSec > 0
    requires RateKey(ip, WindowIndex(nowMs, windowSec)) !in store
    ensures Repeat(store, ip, nowMs, windowSec, max, max + 1).out == seq(max, _ => true) + [false]
  {
    var key := RateKey(ip, WindowIndex(nowMs, windowSec));
    RepeatSplit(store, ip, nowMs, windowSec, max, max);
    RepeatAllowed(store, ip, nowMs, windowSec, max, max, 0);
    var before := Repeat(store, ip, nowMs, windowSec, max, max);
    assert CurrentCount(before.store, key) == Finite(max);
    assert !RateLimitOk(before.store, ip, nowMs, windowSec, max).out;
  }

  /** Running n + 1 requests is running n and then one more. */
  lemma {:induction false} RepeatSplit(store: Store, ip: string, nowMs: nat, windowSec: nat, max: nat, n: nat)
    requires windowSec > 0
    ensures var before := Repeat(store, ip, nowMs, windowSec, max, n);
      var last := RateLimitOk(before.store, ip, nowMs, windowSec, max);
      Repeat(store, ip, nowMs, windowSec, max, n + 1) == Step(before.out + [last.out], last.store)
    decreases n
  {
    if n > 0 {
      var first := RateLimitOk(store, ip, nowMs, windowSec, max);
      RepeatSplit(first.store, ip, nowMs, windowSec, max, n - 1);
      var rest := Repeat(first.store, ip, nowMs, windowSec, max, n - 1);
      var last := RateLimitOk(rest.store, ip, nowMs, windowSec, max);
      assert [first.out] + (rest.out + [last.out]) == ([first.out] + rest.out) + [last.out];
    } else {
      var first := RateLimitOk(store, ip, nowMs, windowSec, max);
      assert Repeat(first.store, ip, nowMs, windowSec, max, 0) == Step([], first.store);
      assert [first.out] + [] == [] + [first.out];
    }
  }

  /** Counters of different windows live under different keys. */
  lemma RateKeysOfWindowsDiffer(ip: string, w1: nat, w2: nat)
    requires w1 != w2
    ensures RateKey(ip, w1) != RateKey(ip, w2)
  {
    NatToStringInjective(w1, w2);
    var p := "rl:" + ip + ":";
    assert RateKey(ip, w1) == p + NatToString(w1) && RateKey(ip, w2) == p + NatToString(w2);
    assert RateKey(ip, w1)[|p|..] == NatToString(w1);
    assert RateKey(ip, w2)[|p|..] == NatToString(w2);
  }

  /**
   Requests in one window do not touch another window's counter, so a new
   window starts from an empty counter and is allowed again.
   */
  lemma NextWindowAllowed(store: Store, ip: string, now1: nat, now2: nat, windowSec: nat, max: nat, n: nat)
    requires windowSec > 0 && max > 0
    requires WindowIndex(now1, windowSec) != WindowIndex(now2, windowSec)
    requires RateKey(ip, WindowIndex(now2, windowSec)) !in store
    ensures RateLimitOk(Repeat(store, ip, now1, windowSec, max, n).store, ip, now2, windowSec, max).out
  {
    RateKeysOfWindowsDiffer(ip, WindowIndex(now1, windowSec), WindowIndex(now2, windowSec));
    RepeatKeepsOtherKeys(store, ip, now1, windowSec, max, n, RateKey(ip, WindowIndex(now2, windowSec)));
  }

  /** Repeated requests never add or change a key other than their own window's counter. */
  lemma {:induction false} RepeatKeepsOtherKeys(store: Store, ip: string, nowMs: nat, windowSec: nat, max: nat, n: nat, k: string)
    requires windowSec > 0
    requires k != RateKey(ip, WindowIndex(nowMs, windowSec))
    ensures k in Repeat(store, ip, nowMs, windowSec, max, n).store <==> k in store
    ensures k in store ==> Repeat(store, ip, nowMs, windowSec, max, n).store[k] == store[k]
    decreases n
  {
    if n > 0 {
      var first := RateLimitOk(store, ip, nowMs, windowSec, max);
      RepeatKeepsOtherKeys(first.store, ip, nowMs, windowSec, max, n - 1, k);
    }
  }
}
