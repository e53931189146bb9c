/** Flooding ends: for broadcasts and for messages sent over an explicit list of
    connections, which no hop limit stops. */
module FloodTermination {
  import opened Basics
  import opened Messages
  import opened DaemonSpec
  import opened DaemonLaws
  import opened FloodSystem
  import opened FloodSafety

  function InFlight(net: seq<Flight>, id: string): nat {
    if net == [] then 0
    else InFlight(net[..|net| - 1], id) + if IdOf(net[|net| - 1].msg) == id then 1 else 0
  }

  lemma {:induction false} InFlightSum(a: seq<Flight>, b: seq<Flight>, id: string)
    ensures InFlight(a + b, id) == InFlight(a, id) + InFlight(b, id)
  {
    if b == [] {
      assert a + b == a;
    } else {
      InFlightSum(a, b[..|b| - 1], id);
      assert (a + b)[..|a + b| - 1] == a + b[..|b| - 1];
    }
  }

  lemma InFlightWithout(net: seq<Flight>, i: nat, id: string)
    requires i < |net|
    ensures InFlight(net, id) == InFlight(Without(net, i), id) + if IdOf(net[i].msg) == id then 1 else 0
  {
    assert net == net[..i] + [net[i]] + net[i + 1..];
    InFlightSum(net[..i] + [net[i]], net[i + 1..], id);
    InFlightSum(net[..i], [net[i]], id);
    InFlightSum(net[..i], net[i + 1..], id);
    assert [net[i]][..0] == [];
  }

  lemma {:induction false} InFlightRange(net: seq<Flight>, id: string)
    ensures InFlight(net, id) <= |net|
    ensures (forall f :: f in net ==> IdOf(f.msg) != id) ==> InFlight(net, id) == 0
  {
    if net != [] { InFlightRange(net[..|net| - 1], id); }
  }

  ghost predicate HasAccepted(s: System, n: Ip, id: string) {
    exists a :: a in s.accepted && a.node == n && a.id == id
  }

  ghost function Waiting(s: System, id: string): set<Ip> {
    set n | n in s.hosts && !HasAccepted(s, n, id)
  }

  /** No daemon has more than bound connections. */
  ghost predicate Bounded(s: System, bound: nat) {
    forall n :: n in s.hosts ==> |s.hosts[n].daemon.connections| <= bound
  }

  predicate Delivers(s: System, a: Action, id: string)
    requires Enabled(s, a)
  {
    a.Deliver? && IdOf(s.net[a.i].msg) == id
  }

  lemma UnissuedNotInFlight(s: System, id: string)
    requires Safe(s) && id !in s.issued
    ensures InFlight(s.net, id) == 0
  {
    forall f | f in s.net ensures IdOf(f.msg) != id { assert GoodCopy(s, f.msg, f.path); }
    InFlightRange(s.net, id);
  }

  // ---- what each kind of step does to the copies of one identifier --------

  /** The copies one effect launches: at most one per connection. */
  lemma LaunchCount(d: Daemon, now: nat, msg: Message, sender: Option<nat>, path: seq<Ip>, id: string)
    requires ValidSender(d, sender)
    ensures InFlight(Launch(d, Dispatch(d, now, msg, sender).relays, path), id) <= |d.connections|
  {
    DispatchShape(d, now, msg, sender);
    BroadcastLimits(d, now, Onward(d, msg), OnwardList(d, msg));
    InFlightRange(Launch(d, Dispatch(d, now, msg, sender).relays, path), id);
  }

  /** A new message is numbered afresh: it adds no copy of an identifier already issued. */
  lemma OriginateCount(s: System, n: Ip, e: Effect, id: string)
    requires Safe(s) && n in s.hosts && LinksOf(s.hosts[n].daemon, e.relays)
    requires |e.relays| <= |s.hosts[n].daemon.connections|
    requires forall r :: r in e.relays ==> IdOf(r.msg) !in s.issued
    ensures var t := Originate(s, n, e);
            && (id in s.issued ==> InFlight(t.net, id) == InFlight(s.net, id))
            && (id !in s.issued ==> InFlight(t.net, id) <= |s.hosts[n].daemon.connections|)
            && Waiting(t, id) == Waiting(s, id)
  {
    var flights := Launch(s.hosts[n].daemon, e.relays, [n]);
    InFlightSum(s.net, flights, id);
    LaunchedIds(s.hosts[n].daemon, e.relays, [n], s.issued.Keys);
    InFlightRange(flights, id);
    if id !in s.issued {
      UnissuedNotInFlight(s, id);
    }
    WaitingSame(s, Originate(s, n, e), id);
  }

  lemma LaunchedIds(d: Daemon, relays: seq<Relay>, path: seq<Ip>, ids: set<string>)
    requires LinksOf(d, relays) && forall r :: r in relays ==> IdOf(r.msg) !in ids
    ensures forall f :: f in Launch(d, relays, path) ==> IdOf(f.msg) !in ids
  {
    var flights := Launch(d, relays, path);
    forall f | f in flights ensures IdOf(f.msg) !in ids {
      var i :| 0 <= i < |flights| && flights[i] == f;
      assert relays[i] in relays;
    }
  }

  lemma SubmitCount(s: System, n: Ip, msg: Message, sender: Option<nat>, id: string)
    requires Safe(s) && Enabled(s, Submit(n, msg, sender))
    ensures var t := Originate(s, n, Dispatch(s.hosts[n].daemon, s.hosts[n].clock, msg, sender));
            && (id in s.issued ==> InFlight(t.net, id) == InFlight(s.net, id))
            && (id !in s.issued ==> InFlight(t.net, id) <= |s.hosts[n].daemon.connections|)
            && Waiting(t, id) == Waiting(s, id)
  {
    var d, now := s.hosts[n].daemon, s.hosts[n].clock;
    DispatchShape(d, now, msg, sender);
    BroadcastLimits(d, now, Onward(d, msg), OnwardList(d, msg));
    NewIds(s, n, Onward(d, msg), OnwardList(d, msg));
    OriginateCount(s, n, Dispatch(d, now, msg, sender), id);
  }

  lemma NewIds(s: System, n: Ip, msg: Message, list: seq<nat>)
    requires Safe(s) && n in s.hosts && msg.tag.None? && ValidList(s.hosts[n].daemon.connections, list)
    ensures forall r :: r in Broadcast(s.hosts[n].daemon, s.hosts[n].clock, msg, list).relays
              ==> IdOf(r.msg) !in s.issued
  {
    BroadcastCopies(s.hosts[n].daemon, s.hosts[n].clock, msg, list);
    FreshId(s, n);
  }

  lemma HasAcceptedAppend(s: System, t: System, a: Acceptance, id: string)
    requires t.accepted == s.accepted + [a]
    ensures forall m :: HasAccepted(t, m, id) <==> HasAccepted(s, m, id) || (a.node == m && a.id == id)
  {
    assert a in t.accepted;
    forall m ensures HasAccepted(t, m, id) <==> HasAccepted(s, m, id) || (a.node == m && a.id == id) {
      if HasAccepted(s, m, id) {
        var x :| x in s.accepted && x.node == m && x.id == id;
        assert x in t.accepted;
      }
    }
  }

  /** A delivery takes the daemon out of the waiting set exactly when it records the identifier. */
  lemma DeliveryWaiting(s: System, i: nat, sender: Option<nat>, id: string)
    requires Safe(s) && Enabled(s, Deliver(i, sender))
    ensures var f := s.net[i];
            var d := s.hosts[f.to].daemon;
            var t := Receive(s, i, sender);
            if IdOf(f.msg) == id && Recorded(d, Dispatch(d, s.hosts[f.to].clock, f.msg, sender), id) then
              f.to in Waiting(s, id) && Waiting(t, id) == Waiting(s, id) - {f.to}
            else Waiting(t, id) == Waiting(s, id)
  {
    var f := s.net[i];
    var d := s.hosts[f.to].daemon;
    var t := Receive(s, i, sender);
    if Recorded(d, Dispatch(d, s.hosts[f.to].clock, f.msg, sender), IdOf(f.msg)) {
      HasAcceptedAppend(s, t, Acceptance(f.to, IdOf(f.msg), f.path), id);
      RecordedWasWaiting(s, i, sender);
    } else {
      assert forall m :: HasAccepted(t, m, id) == HasAccepted(s, m, id);
    }
  }

  /** What a delivery changes: the copy is gone, and either the daemon leaves the
      waiting set and sends at most one copy per connection, or nothing is sent. */
  lemma DeliveryCount(s: System, i: nat, sender: Option<nat>, id: string)
    requires Safe(s) && Enabled(s, Deliver(i, sender))
    ensures var t := Receive(s, i, sender);
            var n := s.net[i].to;
            if IdOf(s.net[i].msg) != id then
              InFlight(t.net, id) == InFlight(s.net, id) && Waiting(t, id) == Waiting(s, id)
            else if Waiting(t, id) == Waiting(s, id) then
              InFlight(t.net, id) == InFlight(s.net, id) - 1
            else
              && n in Waiting(s, id) && Waiting(t, id) == Waiting(s, id) - {n}
              && InFlight(t.net, id) <= InFlight(s.net, id) - 1 + |s.hosts[n].daemon.connections|
  {
    var f := s.net[i];
    var d, now := s.hosts[f.to].daemon, s.hosts[f.to].clock;
    var flights := Launch(d, Dispatch(d, now, f.msg, sender).relays, f.path + [f.to]);
    assert Receive(s, i, sender).net == Without(s.net, i) + flights;
    InFlightWithout(s.net, i, id);
    InFlightSum(Without(s.net, i), flights, id);
    DeliveryWaiting(s, i, sender, id);
    DeliveredIds(s, i, sender);
    LaunchCount(d, now, f.msg, sender, f.path + [f.to], id);
    InFlightRange(flights, id);
  }

  /** The copies a delivery launches carry the identifier of the copy delivered,
      and there are none unless it was recorded. */
  lemma DeliveredIds(s: System, i: nat, sender: Option<nat>)
    requires Safe(s) && Enabled(s, Deliver(i, sender))
    ensures var f := s.net[i];
            var d := s.hosts[f.to].daemon;
            var e := Dispatch(d, s.hosts[f.to].clock, f.msg, sender);
            && (forall g :: g in Launch(d, e.relays, f.path + [f.to]) ==> IdOf(g.msg) == IdOf(f.msg))
            && (!Recorded(d, e, IdOf(f.msg)) ==> e.relays == [])
            && (Recorded(d, e, IdOf(f.msg)) ==> !Stale(d, s.hosts[f.to].clock, f.msg.tag.value))
  {
    var f := s.net[i];
    var d, now := s.hosts[f.to].daemon, s.hosts[f.to].clock;
    assert f in s.net && GoodCopy(s, f.msg, f.path) && GoodIssue(s, IdOf(f.msg));
    DispatchShape(d, now, f.msg, sender);
    var e := Dispatch(d, now, f.msg, sender);
    var m, list := Onward(d, f.msg), OnwardList(d, f.msg);
    BroadcastReceived(d, now, m, list);
    BroadcastCopies(d, now, m, list);
    if !Quiet(d, e) {
      var copy := BroadcastAccepts(d, now, f.msg, m, list);
      LaunchedCopies(d, e.relays, f.path + [f.to], copy);
    }
  }

  lemma RecordedWasWaiting(s: System, i: nat, sender: Option<nat>)
    requires Safe(s) && Enabled(s, Deliver(i, sender))
    requires var f := s.net[i];
             var d := s.hosts[f.to].daemon;
             Recorded(d, Dispatch(d, s.hosts[f.to].clock, f.msg, sender), IdOf(f.msg))
    ensures s.net[i].to in Waiting(s, IdOf(s.net[i].msg))
  {
    var f := s.net[i];
    assert f in s.net && GoodCopy(s, f.msg, f.path);
    DeliveredIds(s, i, sender);
    GateMeansNew(s, f.to, IdOf(f.msg));
  }

  /** Every delivery of a copy lowers (daemons that have not accepted it, copies
      in flight), compared lexicographically. */
  lemma {:induction false} DeliveryDecreases(s: System, i: nat, sender: Option<nat>)
    requires Safe(s) && Enabled(s, Deliver(i, sender))
    ensures var id := IdOf(s.net[i].msg);
            var t := Receive(s, i, sender);
            || |Waiting(t, id)| < |Waiting(s, id)|
            || (Waiting(t, id) == Waiting(s, id) && InFlight(t.net, id) < InFlight(s.net, id))
  {
    DeliveryCount(s, i, sender, IdOf(s.net[i].msg));
  }

  // ---- whole runs ---------------------------------------------------------

  function Deliveries(s: System, acts: seq<Action>, id: string): nat
    requires IsRun(s, acts)
  {
    if acts == [] then 0
    else
      Deliveries(s, acts[..|acts| - 1], id)
      + if Delivers(Exec(s, acts[..|acts| - 1]), acts[|acts| - 1], id) then 1 else 0
  }

  ghost predicate AlwaysBounded(s: System, acts: seq<Action>, bound: nat)
    requires IsRun(s, acts)
    decreases |acts|
  {
    && Bounded(Exec(s, acts), bound)
    && (acts == [] || AlwaysBounded(s, acts[..|acts| - 1], bound))
  }

  /** A step from s to t pays for a delivery (paid is 1 or 0) out of the copies in
      flight and the daemons still waiting. */
  ghost predicate Pays(s: System, t: System, paid: nat, id: string, bound: nat) {
    if id in s.issued then
      InFlight(t.net, id) + bound * |Waiting(t, id)| + paid <= InFlight(s.net, id) + bound * |Waiting(s, id)|
    else paid == 0 && InFlight(t.net, id) <= bound
  }

  lemma NothingToPay(s: System, t: System, id: string, bound: nat)
    requires Waiting(t, id) == Waiting(s, id)
    requires InFlight(t.net, id) <= if id in s.issued then InFlight(s.net, id) else bound
    ensures Pays(s, t, 0, id, bound)
  {}

  lemma StepBudget(s: System, a: Action, id: string, bound: nat)
    requires Safe(s) && Enabled(s, a) && Bounded(s, bound)
    ensures Pays(s, Apply(s, a), if Delivers(s, a, id) then 1 else 0, id, bound)
  {
    match a
    case Submit(n, msg, sender) =>
      SubmitCount(s, n, msg, sender, id);
      NothingToPay(s, Apply(s, a), id, bound);
    case Announce(n, msg) =>
      BroadcastLimits(s.hosts[n].daemon, s.hosts[n].clock, msg, []);
      NewIds(s, n, msg, []);
      OriginateCount(s, n, Broadcast(s.hosts[n].daemon, s.hosts[n].clock, msg, []), id);
      NothingToPay(s, Apply(s, a), id, bound);
    case Deliver(i, sender) => DeliveryBudget(s, i, sender, id, bound);
    case _ => IdleBudget(s, a, id, bound);
  }

  lemma IdleBudget(s: System, a: Action, id: string, bound: nat)
    requires Safe(s) && Enabled(s, a) && (a.Lose? || a.Tick? || a.Reconnect?)
    ensures Pays(s, Apply(s, a), 0, id, bound)
  {
    if a.Lose? { InFlightWithout(s.net, a.i, id); }
    if id !in s.issued { UnissuedNotInFlight(s, id); }
    WaitingSame(s, Apply(s, a), id);
    NothingToPay(s, Apply(s, a), id, bound);
  }

  lemma WaitingSame(s: System, t: System, id: string)
    requires t.accepted == s.accepted && t.hosts.Keys == s.hosts.Keys
    ensures Waiting(t, id) == Waiting(s, id)
  {
    assert forall m :: HasAccepted(t, m, id) == HasAccepted(s, m, id);
  }

  /** A daemon that stops waiting pays for the copies it sends. */
  lemma Exchange(bound: nat, waiting: set<Ip>, n: Ip)
    requires n in waiting
    ensures bound * |waiting| == bound * |waiting - {n}| + bound
  {
    assert |waiting - {n}| == |waiting| - 1;
  }

  lemma DeliveryBudget(s: System, i: nat, sender: Option<nat>, id: string, bound: nat)
    requires Safe(s) && Enabled(s, Deliver(i, sender)) && Bounded(s, bound)
    ensures Pays(s, Receive(s, i, sender), if IdOf(s.net[i].msg) == id then 1 else 0, id, bound)
  {
    assert s.net[i] in s.net && GoodCopy(s, s.net[i].msg, s.net[i].path);
    DeliveryCount(s, i, sender, id);
    if id !in s.issued { UnissuedNotInFlight(s, id); }
    if s.net[i].to in Waiting(s, id) {
      Exchange(bound, Waiting(s, id), s.net[i].to);
    }
  }

  /** What has been delivered and what still can be fits in the budget of the identifier. */
  ghost predicate InBudget(t: System, delivered: nat, id: string, bound: nat) {
    if id in t.issued then
      delivered + InFlight(t.net, id) + bound * |Waiting(t, id)| <= bound * (|t.hosts.Keys| + 1)
    else delivered == 0
  }

  lemma BudgetStep(s: System, a: Action, delivered: nat, id: string, bound: nat)
    requires Safe(s) && Enabled(s, a) && Bounded(s, bound) && InBudget(s, delivered, id, bound)
    ensures Apply(s, a).hosts.Keys == s.hosts.Keys
    ensures InBudget(Apply(s, a), delivered + if Delivers(s, a, id) then 1 else 0, id, bound)
  {
    StepBudget(s, a, id, bound);
    StepSafe(s, a);
    BudgetFits(s, Apply(s, a), delivered, if Delivers(s, a, id) then 1 else 0, id, bound);
  }

  lemma BudgetFits(s: System, t: System, delivered: nat, paid: nat, id: string, bound: nat)
    requires Grows(s, t) && InBudget(s, delivered, id, bound)
    requires Pays(s, t, paid, id, bound)
    ensures InBudget(t, delivered + paid, id, bound)
  {
    SubsetSize(Waiting(t, id), t.hosts.Keys);
    Within(bound, |Waiting(t, id)|, |s.hosts.Keys|);
  }

  lemma Within(bound: nat, waiting: nat, all: nat)
    requires waiting <= all
    ensures bound + bound * waiting <= bound * (all + 1)
  {
    assert bound * waiting <= bound * all;
  }

  lemma {:induction false} BudgetKept(s: System, acts: seq<Action>, id: string, bound: nat)
    requires Init(s) && IsRun(s, acts) && AlwaysBounded(s, acts, bound)
    ensures Exec(s, acts).hosts.Keys == s.hosts.Keys
    ensures InBudget(Exec(s, acts), Deliveries(s, acts, id), id, bound)
  {
    if acts != [] {
      var before := acts[..|acts| - 1];
      BudgetKept(s, before, id, bound);
      RunSafe(s, before);
      BudgetStep(Exec(s, before), acts[|acts| - 1], Deliveries(s, before, id), id, bound);
    }
  }

  /** In every run, however long, the copies of one identifier are delivered at
      most bound * (daemons + 1) times in all. */
  lemma {:induction false} FloodingEnds(s: System, acts: seq<Action>, id: string, bound: nat)
    requires Init(s) && IsRun(s, acts) && AlwaysBounded(s, acts, bound)
    ensures Deliveries(s, acts, id) <= bound * (|s.hosts.Keys| + 1)
  {
    BudgetKept(s, acts, id, bound);
    NonNegative(bound, |Waiting(Exec(s, acts), id)|);
    NonNegative(bound, |s.hosts.Keys| + 1);
  }

  lemma NonNegative(x: nat, y: nat)
    ensures x * y >= 0
  {}
}
