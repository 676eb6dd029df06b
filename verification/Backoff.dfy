/** The two supervisors and their delays (src/run.rs, src/main.rs). */
module Backoff {
  import opened Text

  /** In seconds. */
  const BACKOFF_MIN: nat := 1
  const BACKOFF_MAX: nat := 30

  function NextBackoff(prev: Option<nat>): nat {
    match prev
    case None => BACKOFF_MIN
    case Some(d) => if 2 * d < BACKOFF_MAX then 2 * d else BACKOFF_MAX
  }

  /** A draw from the random number generator. The scaled factor may be rounded up
      to 1.25, so both ends of the interval are possible. */
  type Draw = d: real | 0.0 <= d <= 1.0 witness 0.0

  /** `jittered`, in milliseconds, from a base in seconds. */
  function Jittered(base: nat, draw: Draw): int {
    ((1000 * base) as real * (0.75 + draw * 0.5)).Floor
  }

  function Power2(k: nat): nat {
    if k == 0 then 1 else 2 * Power2(k - 1)
  }

  /** The delay that the `k`-th failure in a row is meant to have, counting from one. */
  function Base(k: nat): nat
    requires k >= 1
  {
    if Power2(k - 1) < BACKOFF_MAX then Power2(k - 1) else BACKOFF_MAX
  }

  lemma BaseStep(k: nat)
    requires k >= 1
    ensures NextBackoff(Some(Base(k))) == Base(k + 1) && NextBackoff(None) == Base(1)
  {
  }

  // --------------------------------------------------------------------- the jitter

  /** Every delay stays within a quarter of its base, and both bounds are reached. */
  lemma JitterBand(base: nat, draw: Draw)
    ensures 750 * base <= Jittered(base, draw) <= 1250 * base
    ensures Jittered(base, 0.0) == 750 * base && Jittered(base, 1.0) == 1250 * base
  {
  }

  /** The delay is that share of the base, rounded down to milliseconds. */
  lemma JitterExact(base: nat, draw: Draw)
    ensures var exact := base as real * 750.0 + base as real * 500.0 * draw;
            Jittered(base, draw) as real <= exact < Jittered(base, draw) as real + 1.0
  {
    var thousands := (1000 * base) as real;
    assert thousands == base as real * 1000.0;
    assert thousands * (0.75 + draw * 0.5) == thousands * 0.75 + thousands * (draw * 0.5);
    assert thousands * (draw * 0.5) == base as real * 500.0 * draw;
  }

  lemma {:induction false} BaseBelowCap(k: nat)
    requires k >= 1
    ensures Base(k) < 30 <==> k <= 5
    ensures 1 <= Base(k) <= 30 && (k <= 5 ==> 750 * Base(k + 1) > 1250 * Base(k)) && (k > 5 ==> Base(k) == 30)
  {
    if k > 6 {
      BaseBelowCap(k - 1);
    }
  }

  /** The bases are 1, 2, 4, 8 and 16 seconds, and 30 from the sixth failure on. */
  lemma BaseValues(k: nat)
    requires k >= 1
    ensures Base(k) == if k == 1 then 1 else if k == 2 then 2 else if k == 3 then 4 else if k == 4 then 8
                       else if k == 5 then 16 else 30
  {
    if k <= 5 {
      assert Power2(0) == 1 && Power2(1) == 2 && Power2(2) == 4 && Power2(3) == 8 && Power2(4) == 16;
    } else {
      BaseBelowCap(k);
    }
  }

  predicate Shorter(base: nat, d: Draw, next: nat, e: Draw) {
    Jittered(base, d) < Jittered(next, e)
  }

  /** Whatever is drawn, the delay from `next` is longer than the one from `base`. */
  ghost predicate AlwaysShorter(base: nat, next: nat) {
    forall d: Draw, e: Draw :: Shorter(base, d, next, e)
  }

  /** Below the cap, and only there, a delay exceeds the one before it whatever was drawn. */
  lemma DelaysGrowExactlyBelowCap(k: nat)
    requires k >= 1
    ensures Base(k) < BACKOFF_MAX <==> AlwaysShorter(Base(k), Base(k + 1))
  {
    BaseBelowCap(k);
    if k <= 5 {
      var base, next := Base(k), Base(k + 1);
      forall d: Draw, e: Draw ensures Shorter(base, d, next, e) {
        JitterBand(base, d);
        JitterBand(next, e);
      }
    } else {
      BaseBelowCap(k + 1);
      var low: Draw, high: Draw := 0.0, 1.0;
      JitterBand(30, low);
      assert !Shorter(Base(k), high, Base(k + 1), low);
    }
  }

  // ------------------------------------------------------------- reconnecting for ever

  datatype Attempt = DialFailed | Dropped | Rejected(reason: string) | Shutdown

  predicate Fails(a: Attempt) {
    a.DialFailed? || a.Dropped?
  }

  /** `reconnect_loop` over any finite part of a run: how the attempts go and what is
      drawn are given; the delays slept are returned. `None`: still running. */
  method ReconnectLoop(attempts: seq<Attempt>, draws: nat -> Draw) returns (result: Option<Attempt>, sleeps: seq<int>)
    ensures result.Some? ==> |sleeps| < |attempts| && !Fails(attempts[|sleeps|]) && result.value == attempts[|sleeps|]
    ensures result.None? ==> |sleeps| == |attempts|
    ensures forall i :: 0 <= i < |sleeps| ==> Fails(attempts[i]) && sleeps[i] == Jittered(Base(i + 1), draws(i))
  {
    var backoff: Option<nat> := None;
    sleeps := [];
    var n := 0;
    while n < |attempts|
      invariant 0 <= n == |sleeps| <= |attempts|
      invariant backoff == if n == 0 then None else Some(Base(n))
      invariant forall i :: 0 <= i < n ==> Fails(attempts[i]) && sleeps[i] == Jittered(Base(i + 1), draws(i))
    {
      match attempts[n] {
        case Rejected(_) => return Some(attempts[n]), sleeps;
        case Shutdown => return Some(attempts[n]), sleeps;
        case _ =>
          if n > 0 {
            BaseStep(n);
          }
          var delay := NextBackoff(backoff);
          backoff := Some(delay);
          sleeps := sleeps + [Jittered(delay, draws(n))];
      }
      n := n + 1;
    }
    result := None;
  }

  // ---------------------------------------------------------------- the provider loop

  /** How one provider iteration ends: `Ok(Some(_))`, `Ok(None)`, or an error. */
  datatype Iteration = Submitted | Idle | Failed

  /** The iterations since the last submission, up to and including number `i`. */
  function Streak(runs: seq<Iteration>, i: nat): nat
    requires i < |runs|
  {
    if runs[i].Submitted? then 0 else if i == 0 then 1 else 1 + Streak(runs, i - 1)
  }

  /** None after a submission; otherwise counted from the last one. */
  function WorkDelay(runs: seq<Iteration>, i: nat, draw: Draw): int
    requires i < |runs|
  {
    if runs[i].Submitted? then 0 else Jittered(Base(Streak(runs, i)), draw)
  }

  lemma {:induction false} StreakFrom(runs: seq<Iteration>, from: nat, i: nat)
    requires from <= i < |runs| && (from == 0 || runs[from - 1].Submitted?)
    requires forall j :: from <= j <= i ==> !runs[j].Submitted?
    ensures Streak(runs, i) == i - from + 1
  {
    if from < i {
      StreakFrom(runs, from, i - 1);
    }
  }

  /** What is slept, in milliseconds: nothing right after a submission; and after the `k`-th
      iteration in a row that submitted nothing, since the start or since the last submission,
      1, 2, 4, 8, 16 and then 30 seconds, give or take a quarter. */
  lemma DelayMeans(runs: seq<Iteration>, from: nat, i: nat, draw: Draw)
    requires i < |runs| && from <= i + 1 && (from == 0 || runs[from - 1].Submitted?)
    requires forall j :: from <= j <= i ==> !runs[j].Submitted?
    ensures var k, delay := i - from + 1, WorkDelay(runs, i, draw);
            if k == 0 then delay == 0
            else
              var base := if k == 1 then 1 else if k == 2 then 2 else if k == 3 then 4 else if k == 4 then 8
                          else if k == 5 then 16 else 30;
              750 * base <= delay <= 1250 * base && delay == Jittered(base, draw)
  {
    if from <= i {
      StreakFrom(runs, from, i);
      BaseValues(i - from + 1);
      JitterBand(Base(i - from + 1), draw);
    }
  }

  /** The backoff register after the first `n` iterations. */
  function Register(runs: seq<Iteration>, n: nat): Option<nat>
    requires n <= |runs|
  {
    if n == 0 || Streak(runs, n - 1) == 0 then None else Some(Base(Streak(runs, n - 1)))
  }

  lemma RegisterStep(runs: seq<Iteration>, n: nat)
    requires n < |runs|
    ensures Register(runs, n + 1) == if runs[n].Submitted? then None else Some(NextBackoff(Register(runs, n)))
    ensures !runs[n].Submitted? ==> NextBackoff(Register(runs, n)) == Base(Streak(runs, n))
  {
    if n > 0 && Streak(runs, n - 1) > 0 {
      BaseStep(Streak(runs, n - 1));
    }
  }

  /** The supervisor of `cmd_work`: it goes on until it is interrupted. */
  method WorkLoop(runs: seq<Iteration>, draws: nat -> Draw) returns (sleeps: seq<int>)
    ensures |sleeps| == |runs|
    ensures forall i :: 0 <= i < |runs| ==> sleeps[i] == WorkDelay(runs, i, draws(i))
  {
    var backoff: Option<nat> := None;
    sleeps := [];
    for n := 0 to |runs|
      invariant |sleeps| == n
      invariant backoff == Register(runs, n)
      invariant forall i :: 0 <= i < n ==> sleeps[i] == WorkDelay(runs, i, draws(i))
    {
      RegisterStep(runs, n);
      var delay := 0;
      match runs[n] {
        case Submitted =>
          backoff := None;
        case _ =>
          var d := NextBackoff(backoff);
          backoff := Some(d);
          delay := Jittered(d, draws(n));
      }
      sleeps := sleeps + [delay];
    }
  }
}
