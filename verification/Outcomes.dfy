/** Plain definitions over a sequence of call outcomes, oldest first; `true` is a failure. */
module Outcomes {
  import opened Prelude

  function Failures(h: seq<bool>): nat {
    if h == [] then 0 else Failures(h[..|h| - 1]) + Bit(h[|h| - 1])
  }

  /** The run of failures that ends `h`. */
  function Streak(h: seq<bool>): nat {
    if h == [] || !h[|h| - 1] then 0 else 1 + Streak(h[..|h| - 1])
  }

  /** The most recent `n` outcomes, or all of them when there are fewer. */
  function LastN(h: seq<bool>, n: nat): (r: seq<bool>)
    ensures |r| == Min(|h|, n)
  {
    if |h| <= n then h else h[|h| - n..]
  }

  /** Failure fraction, 0 when there are no outcomes. */
  function Rate(h: seq<bool>): real {
    if h == [] then 0.0 else Failures(h) as real / |h| as real
  }

  /** One outcome enters a buffer of the given capacity, evicting the oldest when full. */
  function Push(w: seq<bool>, capacity: nat, failed: bool): seq<bool>
    requires 1 <= capacity
  {
    (if |w| >= capacity then w[1..] else w) + [failed]
  }

  lemma {:induction false} FailuresBound(h: seq<bool>)
    ensures Failures(h) <= |h|
  {
    if h != [] {
      FailuresBound(h[..|h| - 1]);
    }
  }

  lemma FailuresSnoc(h: seq<bool>, failed: bool)
    ensures Failures(h + [failed]) == Failures(h) + Bit(failed)
  {
    assert (h + [failed])[..|h|] == h;
  }

  lemma {:induction false} FailuresConcat(a: seq<bool>, b: seq<bool>)
    ensures Failures(a + b) == Failures(a) + Failures(b)
  {
    if b == [] {
      assert a + b == a;
    } else {
      var front := b[..|b| - 1];
      FailuresConcat(a, front);
      assert a + b == (a + front) + [b[|b| - 1]];
      FailuresSnoc(a + front, b[|b| - 1]);
    }
  }

  /** Evicting the oldest outcome takes off exactly what it had put on. */
  lemma FailuresEvict(w: seq<bool>)
    requires w != []
    ensures Failures(w[1..]) == Failures(w) - Bit(w[0])
  {
    assert w == w[..1] + w[1..];
    FailuresConcat(w[..1], w[1..]);
    FailuresSnoc([], w[0]);
    assert [] + [w[0]] == w[..1];
  }

  lemma FailuresOfPush(w: seq<bool>, capacity: nat, failed: bool)
    requires 1 <= capacity
    ensures Failures(Push(w, capacity, failed))
         == Failures(w) - (if |w| >= capacity then Bit(w[0]) else 0) + Bit(failed)
  {
    if |w| >= capacity {
      FailuresEvict(w);
      FailuresSnoc(w[1..], failed);
    } else {
      FailuresSnoc(w, failed);
    }
  }

  /** Evicting one at a time keeps exactly the most recent `capacity` outcomes of the whole history. */
  lemma PushKeepsLastN(h: seq<bool>, capacity: nat, failed: bool)
    requires 1 <= capacity
    ensures LastN(h + [failed], capacity) == Push(LastN(h, capacity), capacity, failed)
  {
  }

  lemma FailuresOfLastN(h: seq<bool>, n: nat)
    ensures Failures(LastN(h, n)) <= Failures(h)
  {
    if |h| > n {
      assert h == h[..|h| - n] + LastN(h, n);
      FailuresConcat(h[..|h| - n], LastN(h, n));
    }
  }

  lemma StreakSnoc(h: seq<bool>, failed: bool)
    ensures Streak(h + [failed]) == if failed then Streak(h) + 1 else 0
  {
    assert (h + [failed])[..|h|] == h;
  }

  /** The streak is the longest all-failure suffix. */
  lemma {:induction false} StreakIsTrailingRun(h: seq<bool>)
    ensures Streak(h) <= |h|
    ensures forall i :: |h| - Streak(h) <= i < |h| ==> h[i]
    ensures Streak(h) < |h| ==> !h[|h| - Streak(h) - 1]
    ensures Streak(h) <= Failures(h)
  {
    if h != [] && h[|h| - 1] {
      StreakIsTrailingRun(h[..|h| - 1]);
    }
  }

  /** The rate compared as the trip rule compares it. */
  lemma RateAtLeast(h: seq<bool>, threshold: real)
    requires h != []
    ensures Rate(h) >= threshold <==> Failures(h) as real >= Times(threshold, |h| as real)
  {
    QuotientOrder(Failures(h) as real, |h| as real, threshold);
  }

  lemma RateBounds(h: seq<bool>)
    ensures 0.0 <= Rate(h) <= 1.0
  {
    FailuresBound(h);
    if h != [] {
      var f, n := Failures(h) as real, |h| as real;
      TimesUnit(n);
      QuotientOrder(f, n, 0.0);
      QuotientOrder(f, n, 1.0);
    }
  }

  lemma {:induction false} NoFailuresAtAll(h: seq<bool>)
    ensures Failures(h) == 0 <==> forall i :: 0 <= i < |h| ==> !h[i]
    ensures Failures(h) == |h| <==> forall i :: 0 <= i < |h| ==> h[i]
  {
    FailuresBound(h);
    if h != [] {
      var front := h[..|h| - 1];
      FailuresBound(front);
      NoFailuresAtAll(front);
      assert forall i :: 0 <= i < |front| ==> front[i] == h[i];
    }
  }

  /** The rate is 0 exactly without any failure, outcomes or none, and 1 exactly on outcomes that are all failures. */
  lemma RateEnds(h: seq<bool>)
    ensures Rate(h) == 0.0 <==> forall i :: 0 <= i < |h| ==> !h[i]
    ensures Rate(h) == 1.0 <==> h != [] && forall i :: 0 <= i < |h| ==> h[i]
  {
    NoFailuresAtAll(h);
    if h != [] {
      var f, n := Failures(h) as real, |h| as real;
      TimesUnit(n);
      QuotientOrder(f, n, 0.0);
      QuotientOrder(f, n, 1.0);
    }
  }

  /** Recording a success never raises the rate, evicting or not. */
  lemma SuccessNeverRaisesRate(w: seq<bool>, capacity: nat)
    requires 1 <= capacity
    ensures Rate(Push(w, capacity, false)) <= Rate(w)
  {
    var after := Push(w, capacity, false);
    FailuresOfPush(w, capacity, false);
    FailuresBound(w);
    if w == [] {
      assert Failures(after) == 0;
    } else {
      Quotients(Failures(w) as real, Failures(after) as real, |w| as real, |after| as real);
    }
  }

  lemma Quotients(f: real, g: real, n: real, m: real)
    requires 0.0 <= g <= f && 0.0 < n <= m
    ensures g / m <= f / n
  {
    var q := f / n;
    TimesUnit(n);
    QuotientOrder(f, n, 0.0);
    QuotientOrder(f, n, q);
    TimesMonotone(q, n, m);
    QuotientOrder(g, m, q);
  }
}
