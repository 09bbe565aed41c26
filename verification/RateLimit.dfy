/** The fixed-window limiter in front of every credential-checked route. */
module RateLimit {
  datatype Limiter = Limiter(windowSecs: nat, max: nat, windowStart: nat, count: nat)

  function SaturatingSub(a: nat, b: nat): nat {
    if a >= b then a - b else 0
  }

  function Roll(l: Limiter, now: nat): Limiter {
    if SaturatingSub(now, l.windowStart) >= l.windowSecs then l.(windowStart := now, count := 0) else l
  }

  function Attempt(l: Limiter, now: nat): (bool, Limiter) {
    var r := Roll(l, now);
    if r.count < r.max then (true, r.(count := r.count + 1)) else (false, r)
  }

  function RetryAfter(l: Limiter, now: nat): nat {
    SaturatingSub(l.windowSecs, SaturatingSub(now, l.windowStart))
  }

  /** The window has passed, or has no length. */
  predicate Over(l: Limiter, now: nat) {
    l.windowStart + l.windowSecs <= now || l.windowSecs == 0
  }

  /** An attempt in the window is admitted while fewer than max were; the first one past its end
      starts a new window at its own clock reading. */
  lemma AttemptIff(l: Limiter, now: nat)
    ensures var (ok, l') := Attempt(l, now);
            && l'.max == l.max && l'.windowSecs == l.windowSecs
            && (Over(l, now) ==> (ok <==> l.max > 0) && l'.windowStart == now && l'.count == (if ok then 1 else 0))
            && (!Over(l, now) ==> (ok <==> l.count < l.max) && l'.windowStart == l.windowStart && l'.count == (if ok then l.count + 1 else l.count))
  {
  }

  /** The seconds left of the window; all of them if the clock is behind its start. */
  lemma RetryAfterIs(l: Limiter, now: nat)
    ensures RetryAfter(l, now)
            == if Over(l, now) then 0 else if now < l.windowStart then l.windowSecs else l.windowStart + l.windowSecs - now
  {
  }

  class RateLimiter {
    const windowSecs: nat
    const max: nat
    var windowStart: nat
    var count: nat

    ghost function State(): Limiter
      reads this
    {
      Limiter(windowSecs, max, windowStart, count)
    }

    constructor (max: nat, windowSecs: nat)
      ensures State() == Limiter(windowSecs, max, 0, 0)
    {
      this.windowSecs, this.max, windowStart, count := windowSecs, max, 0, 0;
    }

    method Allow(now: nat) returns (ok: bool)
      modifies this
      ensures (ok, State()) == Attempt(old(State()), now)
      ensures ok <==> if old(windowStart) + windowSecs <= now || windowSecs == 0 then max > 0 else old(count) < max
      ensures windowStart == if old(windowStart) + windowSecs <= now || windowSecs == 0 then now else old(windowStart)
    {
      if SaturatingSub(now, windowStart) >= windowSecs {
        windowStart := now;
        count := 0;
      }
      if count < max {
        count := count + 1;
        ok := true;
      } else {
        ok := false;
      }
    }

    method RetryAfterSecs(now: nat) returns (secs: nat)
      ensures secs == RetryAfter(State(), now)
      ensures secs == 0 <==> windowStart + windowSecs <= now || windowSecs == 0
    {
      secs := SaturatingSub(windowSecs, SaturatingSub(now, windowStart));
    }
  }

  // Runs: one attempt per clock reading.

  /** How many of the attempts are admitted. */
  function Admitted(l: Limiter, times: seq<nat>): nat
    decreases |times|
  {
    if times == [] then 0
    else (if Attempt(l, times[0]).0 then 1 else 0) + Admitted(Attempt(l, times[0]).1, times[1..])
  }

  function After(l: Limiter, times: seq<nat>): Limiter
    decreases |times|
  {
    if times == [] then l else After(Attempt(l, times[0]).1, times[1..])
  }

  /** If the clock stays below the end of the k-th window after this one, at most
      max attempts are admitted in each, less what this window has used already. */
  lemma {:induction false} AdmittedWithin(l: Limiter, times: seq<nat>, t: nat, k: nat)
    requires l.windowSecs > 0 && l.count <= l.max && t < l.windowStart + l.windowSecs * k + l.windowSecs
    requires forall i | 0 <= i < |times| :: times[i] <= t
    ensures Admitted(l, times) + l.count <= l.max * k + l.max
    decreases |times|
  {
    assert 0 <= l.max * k;
    if times != [] {
      var next := Attempt(l, times[0]).1;
      if SaturatingSub(times[0], l.windowStart) < l.windowSecs {
        AdmittedWithin(next, times[1..], t, k);
      } else if k > 0 {
        assert l.windowSecs * (k - 1) == l.windowSecs * k - l.windowSecs;
        assert l.max * (k - 1) == l.max * k - l.max;
        AdmittedWithin(next, times[1..], t, k - 1);
      }
    }
  }

  /** Whatever the clock does up to `t`, at most max * (1 + (t - windowStart) / windowSecs)
      attempts are admitted. */
  lemma AdmittedUpTo(l: Limiter, times: seq<nat>, t: nat)
    requires l.windowSecs > 0 && l.count <= l.max && l.windowStart <= t
    requires forall i | 0 <= i < |times| :: times[i] <= t
    ensures Admitted(l, times) <= l.max * (1 + (t - l.windowStart) / l.windowSecs)
  {
    BelowNextMultiple(t - l.windowStart, l.windowSecs);
    AdmittedWithin(l, times, t, (t - l.windowStart) / l.windowSecs);
    Distribute(l.max, (t - l.windowStart) / l.windowSecs);
  }

  lemma BelowNextMultiple(a: nat, w: nat)
    requires w > 0
    ensures a < w * (a / w) + w
  {
  }

  lemma Distribute(m: nat, k: nat)
    ensures m * (1 + k) == m * k + m
  {
  }

  lemma {:induction false} CountStaysWithinMax(l: Limiter, times: seq<nat>)
    requires l.count <= l.max
    ensures After(l, times).count <= After(l, times).max == l.max && After(l, times).windowSecs == l.windowSecs
    decreases |times|
  {
    if times != [] {
      CountStaysWithinMax(Attempt(l, times[0]).1, times[1..]);
    }
  }

  lemma TwoWindowsFromFirst(s: Limiter, span: seq<nat>)
    requires s.windowSecs > 0 && s.count <= s.max && span != []
    requires forall a | 0 <= a < |span| :: span[a] <= span[0] + s.windowSecs
    ensures Admitted(s, span) <= 2 * s.max
  {
    var r := Roll(s, span[0]);
    assert Attempt(r, span[0]) == Attempt(s, span[0]);
    assert Admitted(r, span) == Admitted(s, span);
    var t := if r.windowStart <= span[0] then span[0] + r.windowSecs else r.windowStart + r.windowSecs;
    AdmittedWithin(r, span, t, 1);
  }

  /** On every run with a nondecreasing clock, the attempts whose readings lie within
      windowSecs of each other, both ends included, admit at most 2 * max. */
  lemma AnySpanAdmitsAtMostTwoWindows(l: Limiter, times: seq<nat>, i: nat, j: nat)
    requires l.windowSecs > 0 && l.count <= l.max
    requires forall a, b | 0 <= a <= b < |times| :: times[a] <= times[b]
    requires i < j <= |times| && times[j - 1] <= times[i] + l.windowSecs
    ensures Admitted(After(l, times[..i]), times[i..j]) <= 2 * l.max
  {
    CountStaysWithinMax(l, times[..i]);
    TwoWindowsFromFirst(After(l, times[..i]), times[i..j]);
  }

  /** After a refusal, every attempt strictly before now + retryAfter is refused and
      changes nothing, however many there are and in whatever order; and the next one,
      exactly at now + retryAfter, is admitted if and only if the clock had not gone back
      behind the window's start when the refusal was issued. */
  lemma {:induction false} RetryAfterIsExact(l: Limiter, now: nat, times: seq<nat>)
    requires !Attempt(l, now).0 && l.max > 0
    requires forall i | 0 <= i < |times| :: times[i] < now + RetryAfter(Attempt(l, now).1, now)
    ensures var r := Attempt(l, now).1;
            && Admitted(r, times) == 0 && After(r, times) == r
            && (Attempt(After(r, times), now + RetryAfter(r, now)).0 <==> l.windowStart <= now)
  {
    if times != [] {
      RetryAfterIsExact(l, now, times[1..]);
      assert Attempt(l, times[0]) == (false, l);
    }
  }

  /** `n` attempts at one instant. */
  function At(t: nat, n: nat): seq<nat> {
    if n == 0 then [] else [t] + At(t, n - 1)
  }

  lemma {:induction false} FillsWindow(l: Limiter, t: nat, n: nat, rest: seq<nat>)
    requires SaturatingSub(t, l.windowStart) < l.windowSecs && l.count + n <= l.max
    ensures Admitted(l, At(t, n) + rest) == n + Admitted(l.(count := l.count + n), rest)
    decreases n
  {
    if n == 0 {
      assert At(t, n) + rest == rest;
    } else {
      assert (At(t, n) + rest)[1..] == At(t, n - 1) + rest;
      FillsWindow(l.(count := l.count + 1), t, n - 1, rest);
    }
  }

  /** The bound is reached: a full window's worth in the last second of one window and
      the first of the next. */
  lemma TwoWindowsAreReached(max: nat, windowSecs: nat)
    requires windowSecs > 1 && max > 0
    ensures Admitted(Limiter(windowSecs, max, 0, 0), At(windowSecs - 1, max) + At(windowSecs, max)) == 2 * max
  {
    var l, t := Limiter(windowSecs, max, 0, 0), windowSecs;
    FillsWindow(l, t - 1, max, At(t, max));
    var full, next := l.(count := max), Limiter(windowSecs, max, t, 0);
    assert Attempt(full, t) == Attempt(next, t);
    assert Admitted(full, At(t, max)) == Admitted(next, At(t, max));
    FillsWindow(next, t, max, []);
    assert At(t, max) + [] == At(t, max);
  }
}
