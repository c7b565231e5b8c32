/** The ticket table of the claim rotation: each caller has one ticket, calls leave other callers'
    tickets alone, and as long as somebody waits somebody can go. */
module FairTickets {
  import opened StringOrder
  import opened FairClaim

  // ----- One ticket for each caller -----

  predicate IsCallers(t: Ticket, c: Call) {
    t.run == c.run && t.owner == c.owner
  }

  /** The tickets of all other callers, in order. */
  function OthersOf(tickets: seq<Ticket>, c: Call): seq<Ticket> {
    if tickets == [] then []
    else
      var last := tickets[|tickets| - 1];
      OthersOf(tickets[..|tickets| - 1], c) + if IsCallers(last, c) then [] else [last]
  }

  /** No two tickets are of the same run and owner. */
  ghost predicate OneEach(tickets: seq<Ticket>) {
    forall i, j :: 0 <= i < j < |tickets| ==> tickets[i].run != tickets[j].run || tickets[i].owner != tickets[j].owner
  }

  ghost predicate HasNone(tickets: seq<Ticket>, c: Call) {
    forall i :: 0 <= i < |tickets| ==> !IsCallers(tickets[i], c)
  }

  /** The caller's one ticket is at place h. */
  ghost predicate HasOnly(tickets: seq<Ticket>, c: Call, h: nat) {
    h < |tickets| && IsCallers(tickets[h], c) && forall i :: 0 <= i < |tickets| && i != h ==> !IsCallers(tickets[i], c)
  }

  lemma {:induction false} OthersJoined(a: seq<Ticket>, b: seq<Ticket>, c: Call)
    ensures OthersOf(a + b, c) == OthersOf(a, c) + OthersOf(b, c)
  {
    if b == [] {
      assert a + b == a;
    } else {
      assert (a + b)[..|a + b| - 1] == a + b[..|b| - 1];
      OthersJoined(a, b[..|b| - 1], c);
    }
  }

  lemma OneOther(t: Ticket, c: Call)
    ensures OthersOf([t], c) == if IsCallers(t, c) then [] else [t]
  {
    assert [t][..0] == [];
  }

  lemma AppendedOnce(tickets: seq<Ticket>, t: Ticket, c: Call)
    requires OneEach(tickets) && HasNone(tickets, c) && IsCallers(t, c)
    ensures OneEach(tickets + [t]) && HasOnly(tickets + [t], c, |tickets|)
    ensures OthersOf(tickets + [t], c) == OthersOf(tickets, c)
  {
    OthersJoined(tickets, [t], c);
    OneOther(t, c);
    forall i | 0 <= i < |tickets| ensures !IsCallers((tickets + [t])[i], c) {
      assert (tickets + [t])[i] == tickets[i];
    }
  }

  lemma NoneWaits(tickets: seq<Ticket>, c: Call)
    ensures HasNone(tickets, c) <==> !Waits(tickets, c.run, c.owner)
  {
  }

  lemma WaitsOnce(tickets: seq<Ticket>, c: Call) returns (h: nat)
    requires OneEach(tickets) && !HasNone(tickets, c)
    ensures HasOnly(tickets, c, h)
  {
    h :| h < |tickets| && IsCallers(tickets[h], c);
  }

  /** Entering keeps one ticket for each caller, and leaves the caller with one. */
  lemma EnteredOnce(s: Scheduler, c: Call, now: Time) returns (h: nat)
    requires OneEach(s.tickets) && InOrder(s, now) && now <= c.now
    ensures var tickets := Entered(s, c).tickets;
            && OneEach(tickets) && HasOnly(tickets, c, h) && OthersOf(tickets, c) == OthersOf(s.tickets, c)
            && (if HasNone(s.tickets, c) then h == |s.tickets| && tickets[..h] == s.tickets && IsTicketOf(tickets[h], c)
                else tickets == s.tickets)
  {
    NoneWaits(s.tickets, c);
    if HasNone(s.tickets, c) {
      EnteredInOrder(s, c, now);
      h := |s.tickets|;
      AppendedOnce(s.tickets, Ticket(s.nextId, c.tenant, c.run, c.owner, c.now), c);
    } else {
      h := WaitsOnce(s.tickets, c);
    }
  }

  lemma RemovedAt(tickets: seq<Ticket>, h: nat, i: nat)
    requires h < |tickets| && i < |tickets| - 1
    ensures Removed(tickets, h)[i] == tickets[if i < h then i else i + 1]
  {
  }

  lemma RemovedLeavesOthers(tickets: seq<Ticket>, c: Call, h: nat)
    requires h < |tickets| && IsCallers(tickets[h], c)
    ensures OthersOf(Removed(tickets, h), c) == OthersOf(tickets, c)
  {
    var front, back := tickets[..h], tickets[h + 1..];
    assert tickets == front + ([tickets[h]] + back);
    OthersJoined(front, [tickets[h]] + back, c);
    OthersJoined([tickets[h]], back, c);
    OthersJoined(front, back, c);
    OneOther(tickets[h], c);
  }

  lemma RemovedOnce(tickets: seq<Ticket>, c: Call, h: nat)
    requires OneEach(tickets) && HasOnly(tickets, c, h)
    ensures OneEach(Removed(tickets, h)) && HasNone(Removed(tickets, h), c)
    ensures OthersOf(Removed(tickets, h), c) == OthersOf(tickets, c)
  {
    RemovedLeavesOthers(tickets, c, h);
    var left := Removed(tickets, h);
    forall i | 0 <= i < |left| ensures !IsCallers(left[i], c) {
      RemovedAt(tickets, h, i);
    }
    forall i, j | 0 <= i < j < |left| ensures left[i].run != left[j].run || left[i].owner != left[j].owner {
      RemovedAt(tickets, h, i);
      RemovedAt(tickets, h, j);
    }
  }

  /** What a call does to the table: a caller's first call adds its ticket at the end, a later one
      leaves the table as it is, and a granted one takes the caller's ticket away. */
  ghost predicate Leaves(s: Scheduler, c: Call, granted: bool, s': Scheduler) {
    && OneEach(s'.tickets) && OthersOf(s'.tickets, c) == OthersOf(s.tickets, c)
    && (granted ==> HasNone(s'.tickets, c) && s'.lastTenant == c.tenant)
    && (!granted ==> s'.lastTenant == s.lastTenant && exists h :: HasOnly(s'.tickets, c, h))
    && (!granted && !HasNone(s.tickets, c) ==> s'.tickets == s.tickets)
    && (!granted && HasNone(s.tickets, c) ==>
          && |s'.tickets| == |s.tickets| + 1 && s'.tickets[..|s.tickets|] == s.tickets
          && IsTicketOf(s'.tickets[|s.tickets|], c))
  }

  lemma TurnTakesTicket(s: Scheduler, c: Call, s': Scheduler, h: nat)
    requires Next(s, c, true, s') && HasOnly(Entered(s, c).tickets, c, h)
    ensures s'.tickets == Removed(Entered(s, c).tickets, h) && s'.lastTenant == c.tenant
  {
    var entered := Entered(s, c);
    var g: nat :| TakesTurn(s, c, g)
                  && s' == entered.(tickets := Removed(entered.tickets, g), lastTenant := c.tenant);
    assert IsCallers(entered.tickets[g], c);
  }

  lemma StepLeaves(s: Scheduler, c: Call, granted: bool, s': Scheduler, now: Time)
    requires OneEach(s.tickets) && InOrder(s, now) && now <= c.now && Next(s, c, granted, s')
    ensures Leaves(s, c, granted, s')
  {
    var h := EnteredOnce(s, c, now);
    if granted {
      TurnTakesTicket(s, c, s', h);
      RemovedOnce(Entered(s, c).tickets, c, h);
    } else {
      assert s' == Entered(s, c) && HasOnly(s'.tickets, c, h);
    }
  }

  lemma {:induction false} OneTicketEach(states: seq<Scheduler>, calls: seq<Call>, granted: seq<bool>, n: nat)
    requires IsRun(states, calls, granted) && n < |states|
    ensures OneEach(states[n].tickets)
    decreases n, 0
  {
    if n > 0 {
      OneTicketEach(states, calls, granted, n - 1);
      CallLeaves(states, calls, granted, n - 1);
    }
  }

  /** Over every run: no caller ever has two tickets, and each call does to the table what Leaves
      says, whoever else calls. */
  lemma {:induction false} CallLeaves(states: seq<Scheduler>, calls: seq<Call>, granted: seq<bool>, n: nat)
    requires IsRun(states, calls, granted) && n < |calls|
    ensures Leaves(states[n], calls[n], granted[n], states[n + 1])
    decreases n, 1
  {
    OneTicketEach(states, calls, granted, n);
    RunIsInOrder(states, calls, granted, n);
    assert Next(states[n], calls[n], granted[n], states[n + 1]);
    StepLeaves(states[n], calls[n], granted[n], states[n + 1], ClockAt(calls, n));
  }

  // ----- The turn does not get stuck -----

  /** It is this tenant's turn: nobody waiting comes before it on the way up from the last tenant. */
  ghost predicate IsUp(tickets: seq<Ticket>, last: string, tenant: string) {
    && (exists i :: 0 <= i < |tickets| && tickets[i].tenant == tenant)
    && forall i :: 0 <= i < |tickets| ==>
         if Less(last, tenant) then !Less(last, tickets[i].tenant) || AtMost(tenant, tickets[i].tenant)
         else !Less(last, tickets[i].tenant) && AtMost(tenant, tickets[i].tenant)
  }

  lemma UpIsNext(tickets: seq<Ticket>, last: string, tenant: string)
    ensures IsUp(tickets, last, tenant) <==> IsNextTenant(Tenants(tickets), last, tenant)
  {
    if IsUp(tickets, last, tenant) {
      forall u | u in Above(Tenants(tickets), last) ensures Less(last, tenant) && AtMost(tenant, u) {
        var i :| 0 <= i < |tickets| && tickets[i].tenant == u;
      }
      forall u | u in Tenants(tickets) && !Less(last, tenant) ensures AtMost(tenant, u) {
        var i :| 0 <= i < |tickets| && tickets[i].tenant == u;
      }
      assert tenant in Tenants(tickets);
      assert Less(last, tenant) ==> tenant in Above(Tenants(tickets), last);
    }
    if IsNextTenant(Tenants(tickets), last, tenant) {
      forall i | 0 <= i < |tickets|
        ensures if Less(last, tenant) then !Less(last, tickets[i].tenant) || AtMost(tenant, tickets[i].tenant)
                else !Less(last, tickets[i].tenant) && AtMost(tenant, tickets[i].tenant)
      {
        assert tickets[i].tenant in Tenants(tickets);
        assert Less(last, tickets[i].tenant) ==> tickets[i].tenant in Above(Tenants(tickets), last);
      }
      assert tenant in Tenants(tickets);
    }
  }

  /** Whoever holds the first ticket of the tenant whose turn it is gets the turn by calling. */
  lemma HeadIsGranted(s: Scheduler, h: nat, c: Call, granted: bool, s': Scheduler)
    requires IsHead(s.tickets, c.tenant, h) && IsTicketOf(s.tickets[h], c) && IsUp(s.tickets, s.lastTenant, c.tenant)
    requires Next(s, c, granted, s')
    ensures granted
  {
    assert Waits(s.tickets, c.run, c.owner);
    UpIsNext(s.tickets, s.lastTenant, c.tenant);
    assert TakesTurn(s, c, h);
  }

  /** As long as anybody waits, it is somebody's turn. */
  lemma SomebodyIsUp(s: Scheduler) returns (h: nat)
    requires s.tickets != []
    ensures h < |s.tickets| && IsHead(s.tickets, s.tickets[h].tenant, h)
    ensures IsUp(s.tickets, s.lastTenant, s.tickets[h].tenant)
  {
    var tenants := Tenants(s.tickets);
    assert s.tickets[0].tenant in tenants;
    var pool := if Above(tenants, s.lastTenant) != {} then Above(tenants, s.lastTenant) else tenants;
    LeastExists(pool);
    var t :| IsLeast(pool, t);
    assert IsNextTenant(tenants, s.lastTenant, t);
    UpIsNext(s.tickets, s.lastTenant, t);
    h := 0;
    while s.tickets[h].tenant != t
      invariant h < |s.tickets| && (forall i :: 0 <= i < h ==> s.tickets[i].tenant != t)
      invariant exists i :: h <= i < |s.tickets| && s.tickets[i].tenant == t
      decreases |s.tickets| - h
    {
      h := h + 1;
    }
  }
}
