/** The in-memory round robin between tenants: one queue per tenant, the tenants in
    sorted order, and a cursor into that order. */
module FairQueue {
  import opened Basics
  import opened StringOrder

  datatype Queue = Queue(byTenant: map<string, seq<string>>, order: seq<string>, cursor: int)

  ghost predicate Valid(q: Queue) {
    && Increasing(q.order)
    && (forall t :: t in q.order <==> t in q.byTenant)
    && q.cursor >= 0
  }

  function Items(q: Queue, tenant: string): seq<string> {
    if tenant in q.byTenant then q.byTenant[tenant] else []
  }

  // ----- One step -----

  datatype Served = Served(tenant: string, item: string) | Nothing

  datatype Event = Push(tenant: string, item: string) | Pop(served: Served)

  /** i lies on the way up from a to just before b, past the end if need be. */
  predicate FromTo(a: int, i: int, b: int) {
    if a <= b then a <= i < b else i >= a || i < b
  }

  predicate HasItems(q: Queue, i: int) {
    0 <= i < |q.order| && Items(q, q.order[i]) != []
  }

  /** The first place with items, going round from where the cursor stands. */
  ghost predicate IsTurnOf(q: Queue, k: int) {
    && |q.order| > 0 && HasItems(q, k)
    && forall i :: 0 <= i < |q.order| && FromTo(q.cursor % |q.order|, i, k) ==> !HasItems(q, i)
  }

  ghost predicate Pushes(q: Queue, tenant: string, item: string, q': Queue) {
    && Valid(q') && q'.cursor == q.cursor
    && q'.byTenant == q.byTenant[tenant := Items(q, tenant) + [item]]
  }

  ghost predicate Pops(q: Queue, served: Served, q': Queue) {
    match served
    case Served(tenant, item) =>
      exists k ::
        && IsTurnOf(q, k) && tenant == q.order[k] && item == Items(q, tenant)[0]
        && q' == Queue(q.byTenant[tenant := Items(q, tenant)[1..]], q.order, k + 1)
    case Nothing =>
      && (forall t :: Items(q, t) == [])
      && q'.byTenant == q.byTenant && q'.order == q.order && q'.cursor >= 0
      && (|q.order| > 0 ==> q'.cursor % |q.order| == q.cursor % |q.order|)
  }

  ghost predicate Next(q: Queue, e: Event, q': Queue) {
    match e
    case Push(tenant, item) => Pushes(q, tenant, item, q')
    case Pop(served) => Pops(q, served, q')
  }

  // ----- The queue as the program keeps it -----

  lemma WrapOnce(x: int, n: int)
    requires 0 <= x <= n && n > 0
    ensures x % n == if x < n then x else 0
  {
    if x == n {
      assert n % n == 0;
    } else {
      assert x / n == 0;
    }
  }

  lemma NothingLeft(q: Queue)
    requires Valid(q) && forall i :: 0 <= i < |q.order| ==> !HasItems(q, i)
    ensures forall t :: Items(q, t) == []
  {
    forall t | t in q.byTenant ensures Items(q, t) == [] {
      var i :| 0 <= i < |q.order| && q.order[i] == t;
      assert !HasItems(q, i);
    }
  }

  lemma TurnReached(q: Queue, start: int, checked: int, k: int)
    requires |q.order| > 0 && start == q.cursor % |q.order| && 0 <= checked < |q.order| && HasItems(q, k)
    requires k == start + checked || k == start + checked - |q.order|
    requires NonePassed(q, start, checked)
    ensures IsTurnOf(q, k)
  {
  }

  /** None of the first `checked` places going round from start has items. */
  ghost predicate NonePassed(q: Queue, start: int, checked: int) {
    forall i :: 0 <= i < |q.order| && Passed(start, checked, i, |q.order|) ==> !HasItems(q, i)
  }

  lemma OnePassedMore(q: Queue, start: int, checked: int, k: int)
    requires 0 <= k < |q.order| && !HasItems(q, k) && NonePassed(q, start, checked)
    requires k == start + checked || k == start + checked - |q.order|
    ensures NonePassed(q, start, checked + 1)
  {
  }

  class RoundRobin {
    var byTenant: map<string, seq<string>>
    var order: seq<string>
    var cursor: int

    ghost function State(): Queue
      reads this
    {
      Queue(byTenant, order, cursor)
    }

    constructor ()
      ensures State() == Queue(map[], [], 0) && Valid(State())
    {
      byTenant, order, cursor := map[], [], 0;
    }

    method Push(tenant: string, item: string)
      requires Valid(State())
      modifies this
      ensures Pushes(old(State()), tenant, item, State())
    {
      if tenant !in byTenant {
        order := Sort((set t | t in order) + {tenant});
        byTenant := byTenant[tenant := []];
      }
      byTenant := byTenant[tenant := byTenant[tenant] + [item]];
      assert byTenant == old(byTenant)[tenant := Items(old(State()), tenant) + [item]];
    }

    /** Fails exactly when every queue is empty, wherever the cursor stands. */
    method Pop() returns (served: Served)
      requires Valid(State())
      modifies this`byTenant, this`cursor
      ensures Valid(State()) && Pops(old(State()), served, State())
    {
      ghost var q := State();
      if |order| == 0 {
        return Nothing;
      }
      var n := |order|;
      ghost var start := cursor % n;
      var checked := 0;
      while checked < n
        invariant 0 <= checked <= n && cursor >= 0 && byTenant == q.byTenant
        invariant checked == 0 ==> cursor == q.cursor
        invariant checked > 0 ==> 0 < cursor <= n && (cursor == start + checked || cursor == start + checked - n)
        invariant NonePassed(q, start, checked)
      {
        if checked > 0 {
          WrapOnce(cursor, n);
        }
        cursor := cursor % n;
        assert cursor == start + checked || cursor == start + checked - n;
        var tenant := order[cursor];
        var k := cursor;
        cursor := cursor + 1;
        var items := byTenant[tenant];
        if |items| != 0 {
          TurnReached(q, start, checked, k);
          byTenant := byTenant[tenant := items[1..]];
          return Served(tenant, items[0]);
        }
        OnePassedMore(q, start, checked, k);
        checked := checked + 1;
      }
      forall i | 0 <= i < n ensures !HasItems(q, i) {
        assert Passed(start, n, i, n);
      }
      NothingLeft(q);
      WrapOnce(cursor, n);
      assert cursor % n == start;
      return Nothing;
    }
  }

  /** Place i is among the first `checked` places going round from start. */
  predicate Passed(start: int, checked: int, i: int, n: int) {
    start <= i < start + checked || i < start + checked - n
  }

  // ----- Runs: nothing is lost, nothing is reordered within a tenant -----

  ghost predicate IsRun(queues: seq<Queue>, events: seq<Event>) {
    && |queues| == |events| + 1
    && queues[0] == Queue(map[], [], 0)
    && forall i :: 0 <= i < |events| ==> Next(queues[i], events[i], queues[i + 1])
  }

  lemma {:induction false} RunIsValid(queues: seq<Queue>, events: seq<Event>, n: nat)
    requires IsRun(queues, events) && n < |queues|
    ensures Valid(queues[n])
  {
    if n > 0 {
      RunIsValid(queues, events, n - 1);
      assert Next(queues[n - 1], events[n - 1], queues[n]);
      PopKeepsValid(queues[n - 1], events[n - 1], queues[n]);
    }
  }

  lemma PopKeepsValid(q: Queue, e: Event, q': Queue)
    requires Valid(q) && Next(q, e, q')
    ensures Valid(q')
  {
    if e.Pop? && e.served.Served? {
      assert e.served.tenant in q.order;
    }
  }

  /** The items one event adds to, or takes from, a tenant's queue. */
  function Added(e: Event, tenant: string): seq<string> {
    if e.Push? && e.tenant == tenant then [e.item] else []
  }

  function Taken(e: Event, tenant: string): seq<string> {
    if e.Pop? && e.served.Served? && e.served.tenant == tenant then [e.served.item] else []
  }

  function PushedFor(events: seq<Event>, tenant: string): seq<string> {
    if events == [] then []
    else PushedFor(events[..|events| - 1], tenant) + Added(events[|events| - 1], tenant)
  }

  function PoppedFor(events: seq<Event>, tenant: string): seq<string> {
    if events == [] then []
    else PoppedFor(events[..|events| - 1], tenant) + Taken(events[|events| - 1], tenant)
  }

  lemma StepOfTenant(q: Queue, e: Event, q': Queue, tenant: string)
    requires Next(q, e, q')
    ensures Items(q, tenant) + Added(e, tenant) == Taken(e, tenant) + Items(q', tenant)
  {
  }

  lemma Regroup(pushed: seq<string>, popped: seq<string>, before: seq<string>, added: seq<string>, taken: seq<string>,
                after: seq<string>)
    requires pushed == popped + before && before + added == taken + after
    ensures pushed + added == popped + taken + after
  {
    assert pushed + added == popped + (before + added);
  }

  /** What was pushed for a tenant is, in this order, what was popped for it followed by
      what still waits. */
  lemma {:induction false} ItemsAreConserved(queues: seq<Queue>, events: seq<Event>, n: nat, tenant: string)
    requires IsRun(queues, events) && n < |queues|
    ensures PushedFor(events[..n], tenant) == PoppedFor(events[..n], tenant) + Items(queues[n], tenant)
  {
    if n > 0 {
      ItemsAreConserved(queues, events, n - 1, tenant);
      var e := events[n - 1];
      assert events[..n][..n - 1] == events[..n - 1];
      StepOfTenant(queues[n - 1], e, queues[n], tenant);
      Regroup(PushedFor(events[..n - 1], tenant), PoppedFor(events[..n - 1], tenant), Items(queues[n - 1], tenant),
              Added(e, tenant), Taken(e, tenant), Items(queues[n], tenant));
    }
  }

  // ----- Round robin is fair -----

  predicate ServesTenant(e: Event, tenant: string) {
    e.Pop? && e.served.Served? && e.served.tenant == tenant
  }

  /** x lies on the way up from just past a to b, past the end if need be. */
  predicate PastUpTo(a: int, x: int, b: int) {
    if a < b then a < x <= b else x > a || x <= b
  }

  /** Wherever the cursor stands between a served place and a waiting one, a pop that does
      not serve the waiting place serves one between them and leaves the cursor between them. */
  lemma PopStaysBehind(q: Queue, k: int, a: int, b: int)
    requires IsTurnOf(q, k) && 0 <= a < |q.order| && HasItems(q, b) && a != b && k != b
    requires PastUpTo(a, q.cursor % |q.order|, b)
    ensures k != a && PastUpTo(a, (k + 1) % |q.order|, b)
  {
    var start := q.cursor % |q.order|;
    WrapOnce(k + 1, |q.order|);
    assert !FromTo(start, b, k);
  }

  lemma CursorPasses(q: Queue, e: Event, q': Queue, a: int, b: int)
    requires Valid(q) && Next(q, e, q') && 0 <= a < |q.order| && 0 <= b < |q.order| && a != b
    requires ServesTenant(e, q.order[a])
    ensures q'.order == q.order && PastUpTo(a, q'.cursor % |q.order|, b)
  {
    var k :| IsTurnOf(q, k) && e.served.tenant == q.order[k] && q'.cursor == k + 1;
    SamePlace(q, k, a);
    WrapOnce(k + 1, |q.order|);
  }

  lemma StepStaysBehind(q: Queue, e: Event, q': Queue, a: int, b: int)
    requires Next(q, e, q') && q'.order == q.order && 0 <= a < |q.order| && HasItems(q, b) && a != b
    requires !ServesTenant(e, q.order[b]) && PastUpTo(a, q.cursor % |q.order|, b)
    ensures PastUpTo(a, q'.cursor % |q.order|, b)
  {
    if e.Pop? && e.served.Served? {
      var k :| IsTurnOf(q, k) && e.served.tenant == q.order[k] && q'.cursor == k + 1;
      PopStaysBehind(q, k, a, b);
    }
  }

  /** From event i on, up to state n, the tenants are these, and the one in place b waits. */
  ghost predicate Awaits(queues: seq<Queue>, events: seq<Event>, order: seq<string>, i: nat, n: nat, b: int)
    requires i < n < |queues| == |events| + 1 && 0 <= b < |order|
  {
    && (forall k :: i <= k <= n ==> queues[k].order == order)
    && (forall k :: i < k < n ==> HasItems(queues[k], b) && !ServesTenant(events[k], order[b]))
  }

  /** With the tenants fixed and the tenant in place b waiting: since a pop served place a, and
      as long as none serves b, the cursor stays between the two, so a is not served again. */
  lemma {:induction false} CursorStaysBehind(queues: seq<Queue>, events: seq<Event>, order: seq<string>,
                                             i: nat, n: nat, a: int, b: int)
    requires IsRun(queues, events) && i < n < |queues| && 0 <= a < |order| && 0 <= b < |order| && a != b
    requires Awaits(queues, events, order, i, n, b) && ServesTenant(events[i], order[a])
    ensures PastUpTo(a, queues[n].cursor % |order|, b)
    decreases n
  {
    RunIsValid(queues, events, n - 1);
    var q, e, q' := queues[n - 1], events[n - 1], queues[n];
    assert Next(q, e, q') && q.order == order && q'.order == order;
    if n - 1 == i {
      CursorPasses(q, e, q', a, b);
    } else {
      CursorStaysBehind(queues, events, order, i, n - 1, a, b);
      StepStaysBehind(q, e, q', a, b);
    }
  }

  lemma SamePlace(q: Queue, k: int, a: int)
    requires Valid(q) && 0 <= k < |q.order| && 0 <= a < |q.order| && q.order[k] == q.order[a]
    ensures k == a
  {
    LessIsIrreflexive(q.order[k]);
  }

  /** Between two items served from one tenant, every other tenant whose queue stays
      non-empty is served, as long as no new tenant joins. */
  lemma EveryoneIsServedInBetween(queues: seq<Queue>, events: seq<Event>, i: nat, j: nat, t: string, u: string)
    requires IsRun(queues, events) && i < j < |events| && t != u
    requires forall k :: i <= k <= j ==> queues[k].order == queues[i].order
    requires ServesTenant(events[i], t) && ServesTenant(events[j], t)
    requires forall k :: i < k <= j ==> Items(queues[k], u) != []
    ensures exists k :: i < k < j && ServesTenant(events[k], u)
  {
    if forall k :: i < k < j ==> !ServesTenant(events[k], u) {
      RunIsValid(queues, events, i);
      RunIsValid(queues, events, j);
      assert Next(queues[i], events[i], queues[i + 1]);
      assert Next(queues[j], events[j], queues[j + 1]);
      var q := queues[j];
      var a :| IsTurnOf(queues[i], a) && t == queues[i].order[a];
      assert u in q.byTenant && u in q.order;
      var b :| 0 <= b < |q.order| && q.order[b] == u;
      assert Awaits(queues, events, q.order, i, j, b);
      CursorStaysBehind(queues, events, q.order, i, j, a, b);
      var k :| IsTurnOf(q, k) && t == q.order[k];
      SamePlace(q, k, a);
      PopStaysBehind(q, k, a, b);
    }
  }
}
