/** The durable rotation of trainer claims between tenants: tickets in a table, and the
    tenant served last. */
module FairClaim {
  import opened StringOrder

  type Time = int

  datatype Ticket = Ticket(id: nat, tenant: string, run: string, owner: string, createdAt: Time)

  /** The ticket table in the order it is read (creation time, then id), the id the
      next ticket gets, and the tenant granted a turn last. */
  datatype Scheduler = Scheduler(tickets: seq<Ticket>, nextId: nat, lastTenant: string)

  datatype Call = Call(tenant: string, run: string, owner: string, now: Time)

  // ----- Entering a ticket -----

  /** A ticket of the same run and owner already waits; the insert then does nothing. */
  predicate Waits(tickets: seq<Ticket>, run: string, owner: string) {
    exists i :: 0 <= i < |tickets| && tickets[i].run == run && tickets[i].owner == owner
  }

  /** A new ticket has the greatest id, so it goes after all tickets not younger than it. */
  function Placed(tickets: seq<Ticket>, t: Ticket): seq<Ticket> {
    if tickets == [] || tickets[|tickets| - 1].createdAt <= t.createdAt then tickets + [t]
    else Placed(tickets[..|tickets| - 1], t) + [tickets[|tickets| - 1]]
  }

  function Entered(s: Scheduler, c: Call): Scheduler {
    if Waits(s.tickets, c.run, c.owner) then s
    else s.(tickets := Placed(s.tickets, Ticket(s.nextId, c.tenant, c.run, c.owner, c.now)), nextId := s.nextId + 1)
  }

  // ----- Choosing the next tenant -----

  function Tenants(tickets: seq<Ticket>): set<string> {
    set i | 0 <= i < |tickets| :: tickets[i].tenant
  }

  function Above(tenants: set<string>, last: string): set<string> {
    set t | t in tenants && Less(last, t)
  }

  /** The next tenant after the last one in rotation: the least above it, or the least of all. */
  ghost predicate IsNextTenant(tenants: set<string>, last: string, t: string) {
    if Above(tenants, last) != {} then IsLeast(Above(tenants, last), t) else IsLeast(tenants, t)
  }

  lemma NextTenantIsUnique(tenants: set<string>, last: string, t: string, u: string)
    requires IsNextTenant(tenants, last, t) && IsNextTenant(tenants, last, u)
    ensures t == u
  {
    LeastIsUnique(if Above(tenants, last) != {} then Above(tenants, last) else tenants, t, u);
  }

  /** The place of a tenant's first ticket. */
  predicate IsHead(tickets: seq<Ticket>, tenant: string, h: nat) {
    h < |tickets| && tickets[h].tenant == tenant && forall i :: 0 <= i < h ==> tickets[i].tenant != tenant
  }

  predicate IsTicketOf(t: Ticket, c: Call) {
    t.tenant == c.tenant && t.run == c.run && t.owner == c.owner
  }

  /** The call takes the turn: the next tenant's first ticket, at h, is the caller's own. */
  ghost predicate TakesTurn(s: Scheduler, c: Call, h: nat) {
    var tickets := Entered(s, c).tickets;
    IsNextTenant(Tenants(tickets), s.lastTenant, c.tenant) && IsHead(tickets, c.tenant, h) && IsTicketOf(tickets[h], c)
  }

  function Removed(tickets: seq<Ticket>, h: nat): seq<Ticket>
    requires h < |tickets|
  {
    tickets[..h] + tickets[h + 1..]
  }

  /** One call: the caller's ticket is entered; a granted call removes exactly that
      ticket again and makes its tenant the last one served. */
  ghost predicate Next(s: Scheduler, c: Call, granted: bool, s': Scheduler) {
    var entered := Entered(s, c);
    if granted then
      exists h :: TakesTurn(s, c, h) && s' == entered.(tickets := Removed(entered.tickets, h), lastTenant := c.tenant)
    else
      (forall h :: !TakesTurn(s, c, h)) && s' == entered
  }

  // ----- The call as the program makes it -----

  method FirstByTenant(tickets: seq<Ticket>) returns (first: map<string, nat>)
    ensures first.Keys == Tenants(tickets)
    ensures forall t :: t in first ==> IsHead(tickets, t, first[t])
  {
    first := map[];
    for i := 0 to |tickets|
      invariant first.Keys == Tenants(tickets[..i])
      invariant forall t :: t in first ==> first[t] < i && IsHead(tickets, t, first[t])
      invariant forall k :: 0 <= k < i ==> tickets[k].tenant in first
    {
      TenantsOneMore(tickets, i);
      if tickets[i].tenant !in first {
        first := first[tickets[i].tenant := i];
      }
    }
    assert tickets[..|tickets|] == tickets;
  }

  lemma TenantsOneMore(tickets: seq<Ticket>, i: nat)
    requires i < |tickets|
    ensures Tenants(tickets[..i + 1]) == Tenants(tickets[..i]) + {tickets[i].tenant}
  {
    assert tickets[..i + 1] == tickets[..i] + [tickets[i]];
    forall t | t in Tenants(tickets[..i]) ensures t in Tenants(tickets[..i + 1]) {
      var k :| 0 <= k < i && tickets[k].tenant == t;
      assert tickets[..i + 1][k].tenant == t;
    }
    assert tickets[..i + 1][i].tenant == tickets[i].tenant;
  }

  /** The first tenant of the sorted list past the last one served, or the first of all. */
  method SelectTenant(tenants: seq<string>, last: string) returns (selected: string)
    requires Increasing(tenants) && |tenants| > 0
    ensures IsNextTenant((set t | t in tenants), last, selected)
  {
    ghost var all := set t | t in tenants;
    for i := 0 to |tenants|
      invariant forall k :: 0 <= k < i ==> !Less(last, tenants[k])
    {
      if Less(last, tenants[i]) {
        forall t | t in Above(all, last) ensures AtMost(tenants[i], t) {
          var k :| 0 <= k < |tenants| && tenants[k] == t;
        }
        assert tenants[i] in Above(all, last);
        return tenants[i];
      }
    }
    assert Above(all, last) == {};
    return tenants[0];
  }

  class Claims {
    var state: Scheduler

    constructor ()
      ensures state == Scheduler([], 0, "")
    {
      state := Scheduler([], 0, "");
    }

    method AcquireTurn(tenant: string, run: string, owner: string, now: Time) returns (granted: bool)
      modifies this
      ensures Next(old(state), Call(tenant, run, owner, now), granted, state)
    {
      ghost var s, c := state, Call(tenant, run, owner, now);
      if !Waits(state.tickets, run, owner) {
        state := state.(tickets := Placed(state.tickets, Ticket(state.nextId, tenant, run, owner, now)),
          nextId := state.nextId + 1);
      }
      assert state == Entered(s, c);
      EnteredIsWaiting(s, c);
      assert state.tickets[0].tenant in Tenants(state.tickets);
      var first := FirstByTenant(state.tickets);
      var tenants := Sort(first.Keys);
      assert (set t | t in tenants) == Tenants(state.tickets);
      var selected := SelectTenant(tenants, state.lastTenant);
      assert selected in Tenants(state.tickets);
      var head := first[selected];
      if selected != tenant || state.tickets[head].run != run || state.tickets[head].owner != owner {
        forall h ensures !TakesTurn(s, c, h) {
          if TakesTurn(s, c, h) {
            NextTenantIsUnique(Tenants(state.tickets), s.lastTenant, selected, tenant);
          }
        }
        return false;
      }
      assert TakesTurn(s, c, head);
      state := state.(lastTenant := tenant, tickets := Removed(state.tickets, head));
      return true;
    }
  }

  lemma {:induction false} PlacedIsPresent(tickets: seq<Ticket>, t: Ticket)
    ensures t in Placed(tickets, t)
  {
    if tickets != [] && tickets[|tickets| - 1].createdAt > t.createdAt {
      PlacedIsPresent(tickets[..|tickets| - 1], t);
    }
  }

  lemma EnteredIsWaiting(s: Scheduler, c: Call)
    ensures Entered(s, c).tickets != []
  {
    if !Waits(s.tickets, c.run, c.owner) {
      PlacedIsPresent(s.tickets, Ticket(s.nextId, c.tenant, c.run, c.owner, c.now));
    }
  }

  // ----- Runs -----

  /** A run of calls under a clock that does not go back; granted[i] tells whether call i got its turn. */
  ghost predicate IsRun(states: seq<Scheduler>, calls: seq<Call>, granted: seq<bool>) {
    && |states| == |calls| + 1 && |granted| == |calls|
    && states[0] == Scheduler([], 0, "")
    && (forall i :: 0 <= i < |calls| ==> Next(states[i], calls[i], granted[i], states[i + 1]))
    && (forall i, j :: 0 <= i <= j < |calls| ==> calls[i].now <= calls[j].now)
  }

  predicate IsWaiting(s: Scheduler, tenant: string) {
    tenant in Tenants(s.tickets)
  }

  // ----- Rotation is fair -----

  /** x lies strictly between a and b on the way up from a, past the end of the order if need be. */
  predicate OnTheWay(a: string, x: string, b: string) {
    if Less(a, b) then Less(a, x) && Less(x, b) else Less(a, x) || Less(x, b)
  }

  /** The rotation never passes over a waiting tenant. */
  lemma NextTenantIsOnTheWay(tenants: set<string>, last: string, next: string, waiting: string)
    requires IsNextTenant(tenants, last, next) && waiting in tenants && waiting != next && last != waiting
    ensures OnTheWay(last, next, waiting)
  {
    LessIsTotal(last, waiting);
    LessIsTotal(next, waiting);
    if Less(last, waiting) {
      assert waiting in Above(tenants, last);
    } else if Above(tenants, last) == {} {
      assert AtMost(next, waiting);
    }
  }

  lemma OnTheWayStays(a: string, last: string, x: string, b: string)
    requires a != b && last != b
    requires last == a || OnTheWay(a, last, b)
    requires OnTheWay(last, x, b)
    ensures OnTheWay(a, x, b)
  {
    if last != a {
      LessIsTotal(a, b);
      LessIsTotal(last, b);
      if Less(a, b) {
        LessIsAsymmetric(last, b);
        LessIsTransitive(a, last, x);
      } else if Less(a, last) {
        if Less(last, b) {
          LessIsTransitive(a, last, b);
        } else if Less(last, x) {
          LessIsTransitive(a, last, x);
        }
      }
    }
  }

  lemma NobodyIsOnTheWayFromItself(a: string, b: string)
    requires a != b
    ensures !OnTheWay(a, a, b)
  {
    LessIsIrreflexive(a);
    LessIsTotal(a, b);
    if Less(b, a) {
      LessIsAsymmetric(b, a);
    }
  }

  lemma {:induction false} PlacedTenants(tickets: seq<Ticket>, t: Ticket)
    ensures Tenants(Placed(tickets, t)) == Tenants(tickets) + {t.tenant}
  {
    if tickets == [] || tickets[|tickets| - 1].createdAt <= t.createdAt {
      TenantsOneMore(tickets + [t], |tickets|);
      assert (tickets + [t])[..|tickets|] == tickets && (tickets + [t])[..|tickets| + 1] == tickets + [t];
    } else {
      var front, last := tickets[..|tickets| - 1], tickets[|tickets| - 1];
      PlacedTenants(front, t);
      var placed := Placed(front, t);
      TenantsOneMore(placed + [last], |placed|);
      assert (placed + [last])[..|placed|] == placed && (placed + [last])[..|placed| + 1] == placed + [last];
      TenantsOneMore(tickets, |front|);
      assert tickets[..|front| + 1] == tickets;
    }
  }

  lemma WaitingIsConsidered(s: Scheduler, c: Call, tenant: string)
    requires IsWaiting(s, tenant)
    ensures tenant in Tenants(Entered(s, c).tickets)
  {
    PlacedTenants(s.tickets, Ticket(s.nextId, c.tenant, c.run, c.owner, c.now));
  }

  /** A turn granted to another tenant while one waits moves the rotation towards the waiting tenant. */
  lemma GrantIsOnTheWay(s: Scheduler, c: Call, s': Scheduler, waiting: string)
    requires Next(s, c, true, s') && IsWaiting(s, waiting) && c.tenant != waiting && s.lastTenant != waiting
    ensures OnTheWay(s.lastTenant, c.tenant, waiting) && s'.lastTenant == c.tenant
  {
    WaitingIsConsidered(s, c, waiting);
    NextTenantIsOnTheWay(Tenants(Entered(s, c).tickets), s.lastTenant, c.tenant, waiting);
  }

  ghost predicate GrantedTo(calls: seq<Call>, granted: seq<bool>, i: nat, tenant: string)
    requires |calls| == |granted|
  {
    i < |calls| && granted[i] && calls[i].tenant == tenant
  }

  /** Since other was granted at call i, the rotation has stayed on the way from it to the waiting tenant. */
  lemma {:induction false} RotationStaysBehind(states: seq<Scheduler>, calls: seq<Call>, granted: seq<bool>,
                                               i: nat, n: nat, other: string, waiting: string)
    requires IsRun(states, calls, granted) && i < n < |states| && other != waiting
    requires GrantedTo(calls, granted, i, other)
    requires forall k :: i <= k < n ==> IsWaiting(states[k], waiting) && !GrantedTo(calls, granted, k, waiting)
    ensures states[n].lastTenant != waiting
    ensures states[n].lastTenant == other || OnTheWay(other, states[n].lastTenant, waiting)
    decreases n
  {
    assert Next(states[n - 1], calls[n - 1], granted[n - 1], states[n]);
    if n - 1 > i {
      RotationStaysBehind(states, calls, granted, i, n - 1, other, waiting);
      if granted[n - 1] {
        GrantIsOnTheWay(states[n - 1], calls[n - 1], states[n], waiting);
        OnTheWayStays(other, states[n - 1].lastTenant, calls[n - 1].tenant, waiting);
      }
    }
  }

  /** Fairness: over any stretch of a run in which a tenant keeps waiting and is not
      granted a turn, every other tenant is granted at most one, whoever comes and goes. */
  lemma OthersGoAtMostOnce(states: seq<Scheduler>, calls: seq<Call>, granted: seq<bool>,
                           m: nat, n: nat, waiting: string, other: string, i: nat, j: nat)
    requires IsRun(states, calls, granted) && m <= n < |states| && other != waiting
    requires forall k :: m <= k < n ==> IsWaiting(states[k], waiting) && !GrantedTo(calls, granted, k, waiting)
    requires m <= i < n && m <= j < n && GrantedTo(calls, granted, i, other) && GrantedTo(calls, granted, j, other)
    ensures i == j
  {
    if i < j {
      SecondTurnIsRefused(states, calls, granted, i, j, waiting, other);
    } else if j < i {
      SecondTurnIsRefused(states, calls, granted, j, i, waiting, other);
    }
  }

  lemma SecondTurnIsRefused(states: seq<Scheduler>, calls: seq<Call>, granted: seq<bool>,
                            i: nat, j: nat, waiting: string, other: string)
    requires IsRun(states, calls, granted) && i < j < |calls| && other != waiting
    requires forall k :: i <= k <= j ==> IsWaiting(states[k], waiting) && !GrantedTo(calls, granted, k, waiting)
    requires GrantedTo(calls, granted, i, other)
    ensures !GrantedTo(calls, granted, j, other)
  {
    RotationStaysBehind(states, calls, granted, i, j, other, waiting);
    var last := states[j].lastTenant;
    NobodyIsOnTheWayFromItself(other, waiting);
    if granted[j] && calls[j].tenant != waiting {
      assert Next(states[j], calls[j], granted[j], states[j + 1]);
      GrantIsOnTheWay(states[j], calls[j], states[j + 1], waiting);
      OnTheWayStays(other, last, calls[j].tenant, waiting);
    }
  }

  // ----- First come, first served within a tenant -----

  /** Every ticket is older than those after it, by id and by time. */
  ghost predicate InOrder(s: Scheduler, now: Time) {
    && (forall i, j :: 0 <= i < j < |s.tickets| ==> s.tickets[i].id < s.tickets[j].id)
    && (forall i :: 0 <= i < |s.tickets| ==> s.tickets[i].id < s.nextId && s.tickets[i].createdAt <= now)
  }

  lemma EnteredInOrder(s: Scheduler, c: Call, now: Time)
    requires InOrder(s, now) && now <= c.now
    ensures InOrder(Entered(s, c), c.now)
    ensures !Waits(s.tickets, c.run, c.owner) ==>
              Entered(s, c).tickets == s.tickets + [Ticket(s.nextId, c.tenant, c.run, c.owner, c.now)]
  {
  }

  lemma StepInOrder(s: Scheduler, c: Call, granted: bool, s': Scheduler, now: Time)
    requires InOrder(s, now) && now <= c.now && Next(s, c, granted, s')
    ensures InOrder(s', c.now)
  {
    EnteredInOrder(s, c, now);
    if granted {
      var h :| TakesTurn(s, c, h)
               && s' == Entered(s, c).(tickets := Removed(Entered(s, c).tickets, h), lastTenant := c.tenant);
      RemovedInOrder(Entered(s, c), h, s', c.now);
    }
  }

  lemma RemovedInOrder(s: Scheduler, h: nat, s': Scheduler, now: Time)
    requires InOrder(s, now) && h < |s.tickets| && s'.tickets == Removed(s.tickets, h) && s'.nextId == s.nextId
    ensures InOrder(s', now)
  {
  }

  ghost function ClockAt(calls: seq<Call>, n: nat): Time
    requires n <= |calls|
  {
    if n > 0 then calls[n - 1].now else if |calls| > 0 then calls[0].now else 0
  }

  lemma {:induction false} RunIsInOrder(states: seq<Scheduler>, calls: seq<Call>, granted: seq<bool>, n: nat)
    requires IsRun(states, calls, granted) && n < |states|
    ensures InOrder(states[n], ClockAt(calls, n))
  {
    if n > 0 {
      RunIsInOrder(states, calls, granted, n - 1);
      assert Next(states[n - 1], calls[n - 1], granted[n - 1], states[n]);
      StepInOrder(states[n - 1], calls[n - 1], granted[n - 1], states[n], ClockAt(calls, n - 1));
    }
  }

  /** A granted turn takes the oldest waiting ticket of its tenant, which is the caller's own,
      and leaves every other ticket waiting in its place. */
  lemma GrantIsFirstComeFirstServed(states: seq<Scheduler>, calls: seq<Call>, granted: seq<bool>, n: nat)
    returns (h: nat)
    requires IsRun(states, calls, granted) && n < |calls| && granted[n]
    ensures var tickets := Entered(states[n], calls[n]).tickets;
            && h < |tickets| && IsTicketOf(tickets[h], calls[n])
            && (forall i :: 0 <= i < |tickets| && tickets[i].tenant == calls[n].tenant ==>
                  tickets[h].id <= tickets[i].id)
            && states[n + 1].tickets == Removed(tickets, h)
  {
    var s, c := states[n], calls[n];
    RunIsInOrder(states, calls, granted, n);
    EnteredInOrder(s, c, ClockAt(calls, n));
    assert Next(s, c, granted[n], states[n + 1]);
    var entered := Entered(s, c);
    h :| TakesTurn(s, c, h)
         && states[n + 1] == entered.(tickets := Removed(entered.tickets, h), lastTenant := c.tenant);
  }
}
