/** The leaky bucket over one session's commands, in exact real arithmetic. */
module RateLimiting {

  /** Commands drained per second and the most the bucket holds; both at least one. */
  datatype Limits = Limits(drainPerSec: real, capacity: real) {
    ghost predicate Valid() {
      drainPerSec >= 1.0 && capacity >= 1.0
    }
  }

  /** `last` is the latest time seen. */
  datatype Bucket = Bucket(level: real, last: real)

  function Max(a: real, b: real): real {
    if a >= b then a else b
  }

  function Elapsed(b: Bucket, now: real): real {
    Max(now - b.last, 0.0)
  }

  function Drain(l: Limits, b: Bucket, now: real): real {
    Elapsed(b, now) * l.drainPerSec
  }

  /** The bucket once it has drained up to `now` and taken the command, or not. */
  function Take(l: Limits, b: Bucket, now: real, forward: bool): Bucket {
    Bucket(Max(b.level - Drain(l, b, now), 0.0) + (if forward then 1.0 else 0.0), Max(b.last, now))
  }

  class RateLimiter {
    const limits: Limits
    var level: real
    var last: real

    function State(): Bucket
      reads this
    {
      Bucket(level, last)
    }

    constructor (rate: nat, burst: nat, now: real)
      requires rate >= 1 && burst >= 1
      ensures limits == Limits(rate as real, burst as real) && limits.Valid() && State() == Bucket(0.0, now)
    {
      limits := Limits(rate as real, burst as real);
      level, last := 0.0, now;
    }

    /** Forwards whenever the bucket has room for one more command. */
    method Check(now: real) returns (forward: bool)
      modifies this
      ensures forward <==> Take(limits, old(State()), now, true).level <= limits.capacity
      ensures State() == Take(limits, old(State()), now, forward)
    {
      var elapsed := Elapsed(Bucket(level, last), now);
      last := Max(last, now);
      level := Max(level - elapsed * limits.drainPerSec, 0.0);
      forward := level + 1.0 <= limits.capacity;
      if forward {
        level := level + 1.0;
      }
    }
  }

  // Whole runs of commands, under this policy or any other.

  function AfterAll(l: Limits, b: Bucket, times: seq<real>, decisions: seq<bool>): Bucket
    requires |times| == |decisions|
  {
    if times == [] then b
    else
      var n := |times| - 1;
      Take(l, AfterAll(l, b, times[..n], decisions[..n]), times[n], decisions[n])
  }

  /** The bucket never holds more than its capacity. */
  ghost predicate Respects(l: Limits, b: Bucket, times: seq<real>, decisions: seq<bool>)
    requires |times| == |decisions|
  {
    forall n | 0 <= n <= |times| :: AfterAll(l, b, times[..n], decisions[..n]).level <= l.capacity
  }

  function Forwards(decisions: seq<bool>): nat {
    if decisions == [] then 0
    else Forwards(decisions[..|decisions| - 1]) + if decisions[|decisions| - 1] then 1 else 0
  }

  /** What the limiter decides, command by command. */
  function Decisions(l: Limits, b: Bucket, times: seq<real>): (r: seq<bool>)
    ensures |r| == |times|
  {
    if times == [] then []
    else
      var n := |times| - 1;
      var earlier := Decisions(l, b, times[..n]);
      earlier + [Take(l, AfterAll(l, b, times[..n], earlier), times[n], true).level <= l.capacity]
  }

  /** What may drain while the latest time moves. */
  function Allowance(l: Limits, from: real, to: real): real {
    l.drainPerSec * (to - from)
  }

  lemma DrainIsAllowance(l: Limits, b: Bucket, now: real)
    requires l.Valid()
    ensures Drain(l, b, now) == Allowance(l, b.last, Max(b.last, now)) >= 0.0
  {
  }

  lemma AllowanceAdds(l: Limits, a: real, b: real, c: real)
    ensures Allowance(l, a, b) + Allowance(l, b, c) == Allowance(l, a, c)
    ensures Allowance(l, a, a) == 0.0
  {
  }

  lemma {:induction false} AfterAllFacts(l: Limits, b: Bucket, times: seq<real>, decisions: seq<bool>)
    requires l.Valid() && b.level >= 0.0 && |times| == |decisions|
    ensures var end := AfterAll(l, b, times, decisions);
            && end.level >= 0.0 && end.last >= b.last
            && Forwards(decisions) as real <= end.level - b.level + Allowance(l, b.last, end.last)
    decreases |times|
  {
    hide Drain, Allowance;
    if times == [] {
      AllowanceAdds(l, b.last, b.last, b.last);
    } else {
      var n := |times| - 1;
      AfterAllFacts(l, b, times[..n], decisions[..n]);
      var mid := AfterAll(l, b, times[..n], decisions[..n]);
      DrainIsAllowance(l, mid, times[n]);
      AllowanceAdds(l, b.last, mid.last, Max(mid.last, times[n]));
    }
  }

  /**
   * No policy within the bucket forwards more than the burst plus the rate times how far the latest time
   * has moved, over any stretch of commands and any clock, backwards ones included.
   */
  lemma WindowBound(l: Limits, b: Bucket, times: seq<real>, decisions: seq<bool>)
    requires l.Valid() && b.level >= 0.0 && |times| == |decisions| && Respects(l, b, times, decisions)
    ensures Forwards(decisions) as real <= l.capacity + Allowance(l, b.last, AfterAll(l, b, times, decisions).last)
  {
    hide Drain, Allowance;
    AfterAllFacts(l, b, times, decisions);
    assert times[..|times|] == times && decisions[..|times|] == decisions;
  }

  lemma {:induction false} LimiterRespects(l: Limits, b: Bucket, times: seq<real>)
    requires l.Valid() && 0.0 <= b.level <= l.capacity
    ensures Respects(l, b, times, Decisions(l, b, times))
    decreases |times|
  {
    if times != [] {
      var n := |times| - 1;
      var decisions := Decisions(l, b, times);
      LimiterRespects(l, b, times[..n]);
      assert decisions[..n] == Decisions(l, b, times[..n]);
      forall k | 0 <= k <= |times| ensures AfterAll(l, b, times[..k], decisions[..k]).level <= l.capacity {
        if k <= n {
          assert times[..n][..k] == times[..k] && decisions[..n][..k] == decisions[..k];
        } else {
          var mid := AfterAll(l, b, times[..n], decisions[..n]);
          assert times[..k] == times && decisions[..k] == decisions;
          assert times[..n][..n] == times[..n] && decisions[..n][..n] == decisions[..n];
          DrainOnlyLowers(l, mid, times[n]);
        }
      }
    }
  }

  lemma DrainOnlyLowers(l: Limits, b: Bucket, now: real)
    requires l.Valid() && b.level <= l.capacity
    ensures Take(l, b, now, false).level <= l.capacity
  {
    DrainIsAllowance(l, b, now);
  }

  /**
   * At every prefix of the commands the limiter has forwarded at least as many as any other way of staying
   * within the same bucket would have.
   */
  lemma {:induction false} LimiterIsOptimal(l: Limits, b: Bucket, times: seq<real>, other: seq<bool>)
    requires l.Valid() && 0.0 <= b.level <= l.capacity
    requires |other| == |times| && Respects(l, b, times, other)
    ensures var mine := Decisions(l, b, times);
            var ahead := Forwards(mine) as real - Forwards(other) as real;
            && Forwards(other) <= Forwards(mine)
            && ahead >= AfterAll(l, b, times, mine).level - AfterAll(l, b, times, other).level
    decreases |times|
  {
    hide Take;
    if times != [] {
      var n := |times| - 1;
      var mine := Decisions(l, b, times);
      forall k | 0 <= k <= n ensures AfterAll(l, b, times[..n][..k], other[..n][..k]).level <= l.capacity {
        assert times[..n][..k] == times[..k] && other[..n][..k] == other[..k];
      }
      LimiterIsOptimal(l, b, times[..n], other[..n]);
      assert mine[..n] == Decisions(l, b, times[..n]);
      assert times[..n + 1] == times && other[..n + 1] == other;
      var a, o := AfterAll(l, b, times[..n], mine[..n]), AfterAll(l, b, times[..n], other[..n]);
      SameClock(l, b, times[..n], mine[..n], other[..n]);
      StaysAhead(l, a, o, times[n], Forwards(mine[..n]), Forwards(other[..n]), mine[n], other[n]);
    }
  }

  lemma SameDrain(l: Limits, a: Bucket, b: Bucket, now: real)
    requires a.last == b.last
    ensures Drain(l, a, now) == Drain(l, b, now)
  {
  }

  lemma {:induction false} SameClock(l: Limits, b: Bucket, times: seq<real>, first: seq<bool>, second: seq<bool>)
    requires |times| == |first| == |second|
    ensures AfterAll(l, b, times, first).last == AfterAll(l, b, times, second).last
    decreases |times|
  {
    if times != [] {
      var n := |times| - 1;
      SameClock(l, b, times[..n], first[..n], second[..n]);
    }
  }

  /** One command: being ahead by at least the difference in level, and not behind, survives drain and decision. */
  lemma StaysAhead(l: Limits, a: Bucket, o: Bucket, now: real, mine: nat, other: nat, forward: bool, forwardOther: bool)
    requires l.Valid() && a.last == o.last
    requires mine >= other && mine as real - other as real >= a.level - o.level
    requires forward <==> Take(l, a, now, true).level <= l.capacity
    requires Take(l, o, now, forwardOther).level <= l.capacity
    ensures var m, t := mine + (if forward then 1 else 0), other + (if forwardOther then 1 else 0);
            && m >= t
            && m as real - t as real >= Take(l, a, now, forward).level - Take(l, o, now, forwardOther).level
  {
    hide Drain, Allowance;
    DrainIsAllowance(l, a, now);
    SameDrain(l, a, o, now);
  }
}
