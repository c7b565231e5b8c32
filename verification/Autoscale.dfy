/** How many rollout replicas a run asks for, and what repeated reconciles make of it. */
module Autoscale {

  datatype Topology = Topology(replicas: int, minReplicas: int, maxReplicas: int)

  datatype Metrics = Metrics(
    queueDepth: int, generationP95: real, tokensPerSecond: real, trainerDemand: int, backpressured: bool)

  function Capacity(m: Metrics): (c: real)
    ensures c >= 1.0
  {
    if m.tokensPerSecond < 1.0 then 1.0 else m.tokensPerSecond
  }

  function Ceiling(x: real): int {
    -((-x).Floor)
  }

  function QueueTarget(m: Metrics): int {
    Ceiling(m.queueDepth as real / Capacity(m))
  }

  function Clamped(t: Topology, n: int): int {
    var raised := if n < t.minReplicas then t.minReplicas else n;
    if raised > t.maxReplicas then t.maxReplicas else raised
  }

  function Max(a: int, b: int): int {
    if a < b then b else a
  }

  /** Enough for the queue and for the trainer, or one more when generation is slow and
      neither asks for more, within the bounds. */
  function Desired(t: Topology, current: int, m: Metrics): int {
    if m.backpressured then t.minReplicas
    else
      var wanted := Max(Max(current, QueueTarget(m)), m.trainerDemand);
      Clamped(t, if m.generationP95 > 30.0 && wanted == current then current + 1 else wanted)
  }

  predicate Covers(m: Metrics, n: int) {
    n as real * Capacity(m) >= m.queueDepth as real
  }

  /** n replicas are no fewer than there are, enough for the queue and for the trainer, and
      more than there are when generation is slow. */
  predicate IsEnough(m: Metrics, current: int, n: int) {
    n >= current && Covers(m, n) && n >= m.trainerDemand && (m.generationP95 > 30.0 ==> n > current)
  }

  /** desired is the least count within the bounds that is enough, or the upper bound when
      none is; under backpressure it is the lower bound. */
  ghost predicate IsLeastEnough(t: Topology, current: int, m: Metrics, desired: int) {
    && t.minReplicas <= desired <= t.maxReplicas
    && if m.backpressured then desired == t.minReplicas
       else (desired == t.maxReplicas || IsEnough(m, current, desired))
            && forall n :: t.minReplicas <= n < desired ==> !IsEnough(m, current, n)
  }

  lemma DesiredIsLeastEnough(t: Topology, current: int, m: Metrics)
    requires t.minReplicas <= t.maxReplicas
    ensures IsLeastEnough(t, current, m, Desired(t, current, m))
  {
    QueueTargetIsLeast(m, Desired(t, current, m));
    forall n | t.minReplicas <= n < Desired(t, current, m) ensures m.backpressured || !IsEnough(m, current, n) {
      QueueTargetIsLeast(m, n);
    }
  }

  method DesiredRolloutReplicas(t: Topology, current: int, m: Metrics) returns (desired: int)
    ensures desired == Desired(t, current, m)
    ensures t.minReplicas <= t.maxReplicas ==> IsLeastEnough(t, current, m, desired)
  {
    if t.minReplicas <= t.maxReplicas {
      DesiredIsLeastEnough(t, current, m);
    }
    if m.backpressured {
      return t.minReplicas;
    }
    desired := current;
    var queueTarget := QueueTarget(m);
    if queueTarget > desired {
      desired := queueTarget;
    }
    if m.trainerDemand > desired {
      desired := m.trainerDemand;
    }
    if m.generationP95 > 30.0 && desired == current {
      desired := desired + 1;
    }
    if desired < t.minReplicas {
      desired := t.minReplicas;
    }
    if desired > t.maxReplicas {
      desired := t.maxReplicas;
    }
  }

  /** The queue target is the least number of replicas whose capacity covers the queue. */
  lemma QueueTargetIsLeast(m: Metrics, n: int)
    ensures n >= QueueTarget(m) <==> Covers(m, n)
  {
    var q, c := m.queueDepth as real, Capacity(m);
    var x := q / c;
    assert x * c == q;
    assert n >= Ceiling(x) <==> n as real >= x;
    if n as real >= x {
      Scale(x, n as real, c);
    } else {
      ScaleStrictly(n as real, x, c);
    }
  }

  lemma Scale(a: real, b: real, c: real)
    requires a <= b && c > 0.0
    ensures a * c <= b * c
  {
  }

  lemma ScaleStrictly(a: real, b: real, c: real)
    requires a < b && c > 0.0
    ensures a * c < b * c
  {
  }

  lemma StaysInBounds(t: Topology, current: int, m: Metrics)
    requires t.minReplicas <= t.maxReplicas
    ensures t.minReplicas <= Desired(t, current, m) <= t.maxReplicas
  {
  }

  // ----- Repeated reconciles -----

  /** What one reconcile stores, from what the last one stored: a count that is not positive
      is taken for the topology's own. */
  function Stored(t: Topology, m: Metrics, current: int): int {
    Desired(t, if current <= 0 then t.replicas else current, m)
  }

  function After(t: Topology, m: Metrics, start: int, n: nat): int {
    if n == 0 then start else Stored(t, m, After(t, m, start, n - 1))
  }

  predicate IsSteady(t: Topology, m: Metrics, current: int) {
    Stored(t, m, current) == current
  }

  lemma StoredGrows(t: Topology, m: Metrics, current: int)
    requires 0 <= t.minReplicas <= t.maxReplicas && !m.backpressured && current <= t.maxReplicas
    ensures Stored(t, m, current) >= current
  {
  }

  /** Under steady metrics, without backpressure, the count after each reconcile is within
      bounds and never falls again. */
  lemma {:induction false} NeverFalls(t: Topology, m: Metrics, start: int, n: nat)
    requires 0 <= t.minReplicas <= t.maxReplicas && !m.backpressured && n > 0
    ensures t.minReplicas <= After(t, m, start, n) <= t.maxReplicas
    ensures After(t, m, start, n) <= After(t, m, start, n + 1)
  {
    StoredGrows(t, m, After(t, m, start, n));
  }

  lemma {:induction false} SteadyOrHigh(t: Topology, m: Metrics, start: int, n: nat)
    requires 0 <= t.minReplicas <= t.maxReplicas && !m.backpressured && 0 < n <= t.maxReplicas
    ensures IsSteady(t, m, After(t, m, start, n)) || After(t, m, start, n) >= n
  {
    if n == 1 {
      assert After(t, m, start, 1) == Stored(t, m, start);
    } else {
      SteadyOrHigh(t, m, start, n - 1);
      NeverFalls(t, m, start, n - 1);
    }
  }

  /** Under steady metrics the count has settled once as many reconciles have passed as the
      topology allows replicas. */
  lemma {:induction false} Settles(t: Topology, m: Metrics, start: int, n: nat)
    requires 0 <= t.minReplicas <= t.maxReplicas && !m.backpressured && n > 0 && n >= t.maxReplicas
    ensures IsSteady(t, m, After(t, m, start, n))
  {
    if t.maxReplicas == 0 {
      NeverFalls(t, m, start, n);
    } else if n == t.maxReplicas {
      SteadyOrHigh(t, m, start, n);
      NeverFalls(t, m, start, n);
    } else {
      Settles(t, m, start, n - 1);
    }
  }
}
