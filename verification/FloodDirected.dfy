/** Messages for one service of one named server, over whole runs: they make one
    hop, and the service is handed each of them once. */
module FloodDirected {
  import opened Basics
  import opened Messages
  import opened DaemonSpec
  import opened DaemonLaws
  import opened FloodSystem
  import opened FloodSafety
  import opened FloodTermination
  import opened FloodCoverage
  import opened FloodReach
  import opened FloodService

  predicate Named(server: string) {
    server != "" && server != SERVER_ANY && server != SERVER_REMOTE && server != SERVER_ME
  }

  /** A message for one service of one server. */
  predicate Directed(msg: Message) {
    !IsBroadcast(msg.service) && Named(msg.server)
  }

  // ---- one dispatch -------------------------------------------------------

  /** A copy that is directed comes from a message directed to another server, and
      takes a link to that server. */
  lemma DirectedRelay(d: Daemon, now: int, msg: Message, sender: Option<nat>, r: Relay)
    requires ValidSender(d, sender) && r in Dispatch(d, now, msg, sender).relays && Directed(r.msg)
    ensures Directed(msg) && msg.server != d.serverName && r.msg.server == msg.server
    ensures r.conn < |d.connections|
    ensures d.connections[r.conn].serverName == msg.server && d.connections[r.conn].ctype.RemoteType?
  {
    var e := Dispatch(d, now, msg, sender);
    DispatchShape(d, now, msg, sender);
    BroadcastCopies(d, now, Onward(d, msg), OnwardList(d, msg));
    assert e == Forward(d, now, msg, sender);
    var decision := RoutingRefinesDecision(d, now, msg, sender);
    assert decision.SendOut? && r.conn in decision.links;
  }

  lemma SentForAll(d: Daemon, now: int, msg: Message)
    requires Broadcast(d, now, msg, []).relays != []
    ensures ToAll(msg, TagOf(msg).hops) || ToRemote(msg, TagOf(msg).hops)
  {
    var all, remote := ToAll(msg, TagOf(msg).hops), ToRemote(msg, TagOf(msg).hops);
    ScanAllChooses(d.connections, |d.connections|, msg.command, all, remote, TagOf(msg).informed);
    assert Targets(d, msg, []).chosen[0] in Targets(d, msg, []).chosen;
  }

  /** A daemon's own broadcast of a directed message goes nowhere. */
  lemma DirectedAnnounce(d: Daemon, now: int, msg: Message)
    requires Directed(msg)
    ensures Broadcast(d, now, msg, []).relays == []
  {
    if Broadcast(d, now, msg, []).relays != [] { SentForAll(d, now, msg); }
  }

  /** The daemon of the server asked for sends nothing on and records nothing. */
  lemma DirectedArrives(d: Daemon, now: int, msg: Message, sender: Option<nat>)
    requires ValidSender(d, sender) && Directed(msg) && msg.server == d.serverName
    ensures Quiet(d, Dispatch(d, now, msg, sender))
  {
    if !((msg.tag.Some? && Stale(d, now, msg.tag.value)) || d.shutdown || ForThisDaemon(d, msg)) {
      var decision := RoutingRefinesDecision(d, now, msg, sender);
      assert !decision.SendOut?;
    }
  }

  /** The connection the message is for. */
  ghost predicate IsReceiver(d: Daemon, msg: Message, k: nat) {
    FirstNamed(d.connections, msg.server, msg.service, 0) == Some(k)
  }

  /** Nothing keeps the daemon from handing the message over. */
  predicate Passes(d: Daemon, now: int, msg: Message, sender: Option<nat>, k: nat) {
    && (msg.tag.None? || !Stale(d, now, msg.tag.value)) && !d.shutdown && !ForThisDaemon(d, msg)
    && sender != Some(k) && k < |d.connections| && CommandAllowed(d, d.connections[k], msg.command)
  }

  lemma OneSend(d: Daemon, k: nat, j: nat)
    ensures multiset([k])[j] == if j == k then 1 else 0
  {}

  /** What the daemon of the server hands over. */
  lemma DirectedSends(d: Daemon, now: int, msg: Message, sender: Option<nat>, k: nat)
    requires ValidSender(d, sender) && Directed(msg)
    ensures Sends(Dispatch(d, now, msg, sender), k)
         == if IsReceiver(d, msg, k) && Passes(d, now, msg, sender, k) then 1 else 0
  {
    var e := Dispatch(d, now, msg, sender);
    if (msg.tag.Some? && Stale(d, now, msg.tag.value)) || d.shutdown {
      assert ServiceSends(e.outputs) == [];
    } else if ForThisDaemon(d, msg) {
      NoServiceSends([ForUs(msg)]);
      assert e.outputs == [ForUs(msg)];
    } else {
      assert e == Forward(d, now, msg, sender);
      var decision := RoutingRefinesDecision(d, now, msg, sender);
      DirectedDecision(d, msg, decision, k);
      if decision.HandTo? { OneSend(d, decision.conn, k); }
    }
  }

  lemma DirectedDecision(d: Daemon, msg: Message, decision: Decision, k: nat)
    requires Directed(msg) && Decides(d, msg, decision)
    ensures IsReceiver(d, msg, k) <==> decision == HandTo(k)
  {
    assert Server(d, msg) == msg.server;
  }

  // ---- the invariant ------------------------------------------------------

  /** A connection marked remote that carries a server's name leads to that server. */
  ghost predicate TrueLinks(s: System) {
    forall n, c :: n in s.hosts && c in s.hosts[n].daemon.connections && c.ctype.RemoteType? && c.serverName != ""
      ==> c.ip in s.hosts && s.hosts[c.ip].daemon.serverName == c.serverName
  }

  lemma TrueLinksSame(s: System, t: System)
    requires SameLinks(s, t) && TrueLinks(s)
    ensures TrueLinks(t)
  {
    forall n, c | n in t.hosts && c in t.hosts[n].daemon.connections && c.ctype.RemoteType? && c.serverName != ""
      ensures c.ip in t.hosts && t.hosts[c.ip].daemon.serverName == c.serverName
    {
      assert c in s.hosts[n].daemon.connections;
    }
  }

  /** A copy of a directed message: as it was issued, on its way to the server it is for. */
  ghost predicate OnlyHop(s: System, id: string, f: Flight)
    requires id in s.issued
  {
    && f.msg == s.issued[id].msg && f.path == [s.issued[id].origin]
    && f.to in s.hosts && s.hosts[f.to].daemon.serverName == f.msg.server
  }

  /** Directed messages make one hop and nobody records them; others are never sent on as directed ones. */
  ghost predicate Straight(s: System, id: string)
    requires id in s.issued
  {
    if Directed(s.issued[id].msg) then
      && (forall f :: f in s.net && IdOf(f.msg) == id ==> OnlyHop(s, id, f))
      && (forall x :: x in s.accepted ==> x.id != id)
    else
      forall f :: f in s.net && IdOf(f.msg) == id ==> !Directed(f.msg)
  }

  lemma StraightKept(s: System, t: System, id: string)
    requires SameLinks(s, t) && id in s.issued && id in t.issued && t.issued[id] == s.issued[id] && Straight(s, id)
    requires forall f :: f in t.net && IdOf(f.msg) == id ==>
               f in s.net || (!Directed(s.issued[id].msg) && !Directed(f.msg))
    requires Directed(s.issued[id].msg) ==> forall x :: x in t.accepted && x.id == id ==> x in s.accepted
    ensures Straight(t, id)
  {}

  /** The copies of a newly issued message. */
  lemma StraightStart(s: System, n: Ip, e: Effect, id: string)
    requires Safe(s) && n in s.hosts && SameSetup(s.hosts[n].daemon, e) && LinksOf(s.hosts[n].daemon, e.relays)
    requires e.relays != [] && id == IdOf(e.relays[0].msg) && id !in s.issued
    requires forall r :: r in e.relays ==> r.msg == e.relays[0].msg
    requires forall r :: r in e.relays && Directed(r.msg) ==> LeadsTo(s, n, r)
    ensures id in Originate(s, n, e).issued && Straight(Originate(s, n, e), id)
  {
    var t := Originate(s, n, e);
    var flights := Launch(s.hosts[n].daemon, e.relays, [n]);
    forall f | f in s.net ensures IdOf(f.msg) != id { assert GoodCopy(s, f.msg, f.path); }
    forall x | x in s.accepted ensures x.id != id { assert GoodAcceptance(s, x); }
    forall f | f in flights ensures f.msg == e.relays[0].msg && (Directed(f.msg) ==> OnlyHop(t, id, f)) {
      var i :| 0 <= i < |flights| && flights[i] == f;
      assert e.relays[i] in e.relays;
      if Directed(f.msg) { assert LeadsTo(s, n, e.relays[i]); }
    }
  }

  /** The link of a relay leads to the server the message is for. */
  ghost predicate LeadsTo(s: System, n: Ip, r: Relay)
    requires n in s.hosts
  {
    var cs := s.hosts[n].daemon.connections;
    r.conn < |cs| && cs[r.conn].ip in s.hosts && s.hosts[cs[r.conn].ip].daemon.serverName == r.msg.server
  }

  /** What is sent for a message without identifier, whichever way it came. */
  ghost predicate FreshEffect(s: System, n: Ip, e: Effect)
    requires n in s.hosts
  {
    && SameSetup(s.hosts[n].daemon, e) && LinksOf(s.hosts[n].daemon, e.relays)
    && (forall r :: r in e.relays ==> IdOf(r.msg) !in s.issued)
    && (forall r, q :: r in e.relays && q in e.relays ==> r.msg == q.msg)
    && (forall r :: r in e.relays && Directed(r.msg) ==> LeadsTo(s, n, r))
    && DistinctEnds(s.hosts[n].daemon, e.relays)
  }

  ghost predicate DistinctEnds(d: Daemon, relays: seq<Relay>)
    requires LinksOf(d, relays)
  {
    forall i, j :: 0 <= i < j < |relays| ==> d.connections[relays[i].conn].ip != d.connections[relays[j].conn].ip
  }

  lemma BroadcastEnds(d: Daemon, now: int, msg: Message, list: seq<nat>)
    requires ValidList(d.connections, list)
    ensures DistinctEnds(d, Broadcast(d, now, msg, list).relays)
  {
    TargetsMeaning(d, msg, list);
  }

  lemma LinkLeads(s: System, n: Ip, r: Relay)
    requires TrueLinks(s) && n in s.hosts && r.conn < |s.hosts[n].daemon.connections| && Named(r.msg.server)
    requires var c := s.hosts[n].daemon.connections[r.conn]; c.serverName == r.msg.server && c.ctype.RemoteType?
    ensures LeadsTo(s, n, r)
  {
    assert s.hosts[n].daemon.connections[r.conn] in s.hosts[n].daemon.connections;
  }

  lemma FreshSubmit(s: System, n: Ip, msg: Message, sender: Option<nat>)
    requires Safe(s) && TrueLinks(s) && Enabled(s, Submit(n, msg, sender))
    ensures FreshEffect(s, n, Dispatch(s.hosts[n].daemon, s.hosts[n].clock, msg, sender))
  {
    var d, now := s.hosts[n].daemon, s.hosts[n].clock;
    var e := Dispatch(d, now, msg, sender);
    DispatchShape(d, now, msg, sender);
    NewIds(s, n, Onward(d, msg), OnwardList(d, msg));
    BroadcastCopies(d, now, Onward(d, msg), OnwardList(d, msg));
    BroadcastEnds(d, now, Onward(d, msg), OnwardList(d, msg));
    forall r | r in e.relays && Directed(r.msg) ensures LeadsTo(s, n, r) {
      DirectedRelay(d, now, msg, sender, r);
      LinkLeads(s, n, r);
    }
  }

  lemma FreshAnnounce(s: System, n: Ip, msg: Message)
    requires Safe(s) && Enabled(s, Announce(n, msg))
    ensures FreshEffect(s, n, Broadcast(s.hosts[n].daemon, s.hosts[n].clock, msg, []))
    ensures var e := Broadcast(s.hosts[n].daemon, s.hosts[n].clock, msg, []);
            forall r :: r in e.relays ==> !Directed(r.msg)
  {
    var d, now := s.hosts[n].daemon, s.hosts[n].clock;
    BroadcastSetup(d, now, msg, []);
    NewIds(s, n, msg, []);
    BroadcastCopies(d, now, msg, []);
    BroadcastEnds(d, now, msg, []);
    if Directed(msg) { DirectedAnnounce(d, now, msg); }
  }

  lemma StraightOriginate(s: System, n: Ip, e: Effect, id: string)
    requires Safe(s) && n in s.hosts && FreshEffect(s, n, e)
    requires id in s.issued ==> Straight(s, id)
    requires id in Originate(s, n, e).issued
    ensures Straight(Originate(s, n, e), id)
  {
    if e.relays != [] { assert e.relays[0] in e.relays; }
    if id in s.issued {
      OriginateUnaffected(s, n, e, id);
      StraightKept(s, Originate(s, n, e), id);
    } else {
      StraightStart(s, n, e, id);
    }
  }

  /** A delivered copy that is not directed is not sent on as a directed one. */
  lemma NeverStraightens(s: System, i: nat, sender: Option<nat>)
    requires Enabled(s, Deliver(i, sender)) && !Directed(s.net[i].msg)
    ensures var f, t := s.net[i], Receive(s, i, sender);
            forall g :: g in t.net && g !in s.net ==> !Directed(g.msg)
  {
    var f, t := s.net[i], Receive(s, i, sender);
    var d, now := s.hosts[f.to].daemon, s.hosts[f.to].clock;
    var relays := Dispatch(d, now, f.msg, sender).relays;
    var flights := Launch(d, relays, f.path + [f.to]);
    assert t.net == Without(s.net, i) + flights;
    forall g | g in flights ensures !Directed(g.msg) {
      var j :| 0 <= j < |flights| && flights[j] == g;
      if Directed(relays[j].msg) { DirectedRelay(d, now, f.msg, sender, relays[j]); }
    }
  }

  /** A directed copy arrives and that is all. */
  lemma DirectedDelivery(s: System, i: nat, sender: Option<nat>, id: string)
    requires Safe(s) && Enabled(s, Deliver(i, sender)) && IdOf(s.net[i].msg) == id
    requires id in s.issued && Straight(s, id) && Directed(s.issued[id].msg)
    ensures var t := Receive(s, i, sender);
            t.net == Without(s.net, i) && t.accepted == s.accepted && t.issued == s.issued
  {
    var f := s.net[i];
    assert f in s.net && OnlyHop(s, id, f);
    DirectedArrives(s.hosts[f.to].daemon, s.hosts[f.to].clock, f.msg, sender);
    assert Launch(s.hosts[f.to].daemon, [], f.path + [f.to]) == [];
  }

  lemma StraightDeliver(s: System, i: nat, sender: Option<nat>, id: string)
    requires Safe(s) && Enabled(s, Deliver(i, sender)) && id in s.issued && Straight(s, id)
    ensures Receive(s, i, sender).issued == s.issued && Straight(Receive(s, i, sender), id)
  {
    var f, t := s.net[i], Receive(s, i, sender);
    LinksStep(s, Deliver(i, sender));
    assert f in s.net;
    if IdOf(f.msg) == id {
      if Directed(s.issued[id].msg) {
        DirectedDelivery(s, i, sender, id);
      } else {
        NeverStraightens(s, i, sender);
      }
      StraightKept(s, t, id);
    } else {
      ReceiveUnaffected(s, i, sender, id);
      StraightKept(s, t, id);
    }
  }

  lemma StraightStep(s: System, a: Action, id: string)
    requires Safe(s) && TrueLinks(s) && Enabled(s, a) && !a.Reconnect?
    requires id in s.issued ==> Straight(s, id)
    requires id in Apply(s, a).issued
    ensures Straight(Apply(s, a), id)
  {
    match a {
      case Submit(n, msg, sender) =>
        FreshSubmit(s, n, msg, sender);
        StraightOriginate(s, n, Dispatch(s.hosts[n].daemon, s.hosts[n].clock, msg, sender), id);
      case Announce(n, msg) =>
        FreshAnnounce(s, n, msg);
        StraightOriginate(s, n, Broadcast(s.hosts[n].daemon, s.hosts[n].clock, msg, []), id);
      case Deliver(i, sender) => StraightDeliver(s, i, sender, id);
      case Lose(i) => StraightIdle(s, a, id);
      case Tick(n, now) => StraightIdle(s, a, id);
    }
  }

  lemma StraightIdle(s: System, a: Action, id: string)
    requires Enabled(s, a) && (a.Lose? || a.Tick?) && id in s.issued && Straight(s, id)
    ensures Straight(Apply(s, a), id)
  {
    StraightKept(s, Apply(s, a), id);
  }

  lemma {:induction false} RunStraight(s: System, acts: seq<Action>, id: string)
    requires Init(s) && IsRun(s, acts) && Static(acts) && TrueLinks(s) && id in Exec(s, acts).issued
    ensures Straight(Exec(s, acts), id)
  {
    var before, a := acts[..|acts| - 1], acts[|acts| - 1];
    var p := Exec(s, before);
    assert a in acts;
    RunSafe(s, before);
    RunLinks(s, before);
    TrueLinksSame(s, p);
    if id in p.issued { RunStraight(s, before, id); }
    StraightStep(p, a, id);
  }

  /** What is known at any point of a run. */
  lemma StateBefore(s: System, acts: seq<Action>, id: string)
    requires Init(s) && IsRun(s, acts) && Static(acts) && TrueLinks(s)
    ensures var p := Exec(s, acts);
            && Safe(p) && SameLinks(s, p) && TrueLinks(p) && (id in p.issued ==> Straight(p, id))
  {
    RunSafe(s, acts);
    RunLinks(s, acts);
    TrueLinksSame(s, Exec(s, acts));
    if id in Exec(s, acts).issued { RunStraight(s, acts, id); }
  }

  /** A directed message makes one hop, to the server it is for. */
  lemma {:induction false} DirectedOneHop(s: System, acts: seq<Action>, f: Flight)
    requires Init(s) && IsRun(s, acts) && Static(acts) && TrueLinks(s)
    requires f in Exec(s, acts).net && Directed(f.msg)
    ensures |f.path| == 1 && f.to in s.hosts && s.hosts[f.to].daemon.serverName == f.msg.server
  {
    RunSafe(s, acts);
    RunLinks(s, acts);
    assert GoodCopy(Exec(s, acts), f.msg, f.path);
    RunStraight(s, acts, IdOf(f.msg));
  }

  // ---- one copy, one delivery ---------------------------------------------

  lemma EndsDiffer(d: Daemon, relays: seq<Relay>, i: nat, j: nat)
    requires LinksOf(d, relays) && DistinctEnds(d, relays) && i < j < |relays|
    ensures d.connections[relays[i].conn].ip != d.connections[relays[j].conn].ip
  {}

  lemma OneCopy(s: System, n: Ip, e: Effect, id: string)
    requires Safe(s) && n in s.hosts && FreshEffect(s, n, e)
    requires e.relays != [] && Directed(e.relays[0].msg) && id == IdOf(e.relays[0].msg)
    ensures InFlight(Originate(s, n, e).net, id) == 1
  {
    var d := s.hosts[n].daemon;
    assert e.relays[0] in e.relays;
    OneRelay(s, n, e);
    InFlightSum(s.net, Launch(d, e.relays, [n]), id);
    UnissuedNotInFlight(s, id);
    var flights := Launch(d, e.relays, [n]);
    assert flights == [flights[0]] && [flights[0]][..0] == [];
  }

  lemma OneRelay(s: System, n: Ip, e: Effect)
    requires Safe(s) && n in s.hosts && FreshEffect(s, n, e)
    requires e.relays != [] && Directed(e.relays[0].msg)
    ensures |e.relays| == 1
  {
    var d := s.hosts[n].daemon;
    forall i | 0 <= i < |e.relays| ensures d.connections[e.relays[i].conn].ip == d.connections[e.relays[0].conn].ip {
      assert e.relays[i] in e.relays && LeadsTo(s, n, e.relays[i]) && LeadsTo(s, n, e.relays[0]);
    }
    if |e.relays| > 1 { EndsDiffer(d, e.relays, 0, 1); }
  }

  /** How a step changes the number of copies of a directed message. */
  ghost predicate CountsOneLess(s: System, a: Action, t: System, id: string)
    requires Enabled(s, a)
  {
    var now := InFlight(t.net, id) + if Delivers(s, a, id) then 1 else 0;
    if id in s.issued then
      now <= InFlight(s.net, id) && (!a.Lose? ==> now == InFlight(s.net, id))
    else now == 1
  }

  lemma OriginateCopies(s: System, a: Action, n: Ip, e: Effect, id: string)
    requires Safe(s) && n in s.hosts && FreshEffect(s, n, e) && Enabled(s, a) && (a.Submit? || a.Announce?)
    requires id in Originate(s, n, e).issued && Directed(Originate(s, n, e).issued[id].msg)
    ensures CountsOneLess(s, a, Originate(s, n, e), id)
  {
    if id in s.issued {
      var flights := Launch(s.hosts[n].daemon, e.relays, [n]);
      LaunchedIds(s.hosts[n].daemon, e.relays, [n], s.issued.Keys);
      InFlightSum(s.net, flights, id);
      InFlightRange(flights, id);
    } else {
      OneCopy(s, n, e, id);
    }
  }

  lemma CountStep(s: System, a: Action, id: string)
    requires Safe(s) && TrueLinks(s) && Enabled(s, a) && !a.Reconnect?
    requires id in s.issued ==> Straight(s, id)
    requires id in Apply(s, a).issued && Directed(Apply(s, a).issued[id].msg)
    ensures CountsOneLess(s, a, Apply(s, a), id)
  {
    match a {
      case Submit(n, msg, sender) =>
        FreshSubmit(s, n, msg, sender);
        OriginateCopies(s, a, n, Dispatch(s.hosts[n].daemon, s.hosts[n].clock, msg, sender), id);
      case Announce(n, msg) =>
        FreshAnnounce(s, n, msg);
        OriginateCopies(s, a, n, Broadcast(s.hosts[n].daemon, s.hosts[n].clock, msg, []), id);
      case Deliver(i, sender) =>
        if IdOf(s.net[i].msg) == id {
          DirectedDelivery(s, i, sender, id);
          InFlightWithout(s.net, i, id);
        } else {
          DeliveryCount(s, i, sender, id);
        }
      case Lose(i) => InFlightWithout(s.net, i, id);
      case Tick(n, now) =>
    }
  }

  lemma {:induction false} RunUndelivered(s: System, acts: seq<Action>, id: string)
    requires Init(s) && IsRun(s, acts) && id !in Exec(s, acts).issued
    ensures Deliveries(s, acts, id) == 0
  {
    if acts != [] {
      var before, a := acts[..|acts| - 1], acts[|acts| - 1];
      var p := Exec(s, before);
      RunSafe(s, before);
      StepSafe(p, a);
      RunUndelivered(s, before, id);
      if a.Deliver? { assert p.net[a.i] in p.net && GoodCopy(p, p.net[a.i].msg, p.net[a.i].path); }
    }
  }

  /** There is one copy of a directed message: delivered, in flight, or lost. */
  lemma {:induction false} DirectedCount(s: System, acts: seq<Action>, id: string)
    requires Init(s) && IsRun(s, acts) && Static(acts) && TrueLinks(s)
    requires id in Exec(s, acts).issued && Directed(Exec(s, acts).issued[id].msg)
    ensures Deliveries(s, acts, id) + InFlight(Exec(s, acts).net, id) <= 1
    ensures Reliable(acts) ==> Deliveries(s, acts, id) + InFlight(Exec(s, acts).net, id) == 1
  {
    var before, a := acts[..|acts| - 1], acts[|acts| - 1];
    assert a in acts;
    StateBefore(s, before, id);
    if id in Exec(s, before).issued {
      IssueStays(Exec(s, before), a, id);
      DirectedCount(s, before, id);
    } else {
      RunUndelivered(s, before, id);
    }
    CountStep(Exec(s, before), a, id);
  }

  lemma IssueStays(s: System, a: Action, id: string)
    requires Safe(s) && Enabled(s, a) && id in s.issued
    ensures id in Apply(s, a).issued && Apply(s, a).issued[id] == s.issued[id]
  {
    StepSafe(s, a);
  }

  // ---- what the services are handed ---------------------------------------

  /** Connection k of daemon n is the one the message is for. */
  ghost predicate IsFor(s: System, n: Ip, k: nat, msg: Message) {
    n in s.hosts && s.hosts[n].daemon.serverName == msg.server && IsReceiver(s.hosts[n].daemon, msg, k)
  }

  lemma SubmitHandsNothing(d: Daemon, now: int, msg: Message, sender: Option<nat>, k: nat)
    requires ValidSender(d, sender)
    requires var e := Dispatch(d, now, msg, sender); e.relays != [] && Directed(e.relays[0].msg)
    ensures Sends(Dispatch(d, now, msg, sender), k) == 0
  {
    var e := Dispatch(d, now, msg, sender);
    assert e.relays[0] in e.relays;
    DirectedRelay(d, now, msg, sender, e.relays[0]);
    DirectedOnce(d, now, msg, sender);
  }

  lemma SubmitHands(s: System, m: Ip, msg: Message, sender: Option<nat>, n: Ip, k: nat, id: string)
    requires Safe(s) && TrueLinks(s) && Enabled(s, Submit(m, msg, sender)) && n in s.hosts
    requires var t := Originate(s, m, Dispatch(s.hosts[m].daemon, s.hosts[m].clock, msg, sender));
             id in t.issued && Directed(t.issued[id].msg)
    ensures ServedIn(s, Submit(m, msg, sender), n, k, id) == 0
  {
    var e := Dispatch(s.hosts[m].daemon, s.hosts[m].clock, msg, sender);
    FreshSubmit(s, m, msg, sender);
    if m == n && e.relays != [] && IdOf(e.relays[0].msg) == id {
      assert e.relays[0] in e.relays;
      SubmitHandsNothing(s.hosts[m].daemon, s.hosts[m].clock, msg, sender, k);
    }
  }

  lemma AnnounceHands(s: System, m: Ip, msg: Message, n: Ip, k: nat, id: string)
    requires Safe(s) && Enabled(s, Announce(m, msg)) && n in s.hosts
    requires var t := Originate(s, m, Broadcast(s.hosts[m].daemon, s.hosts[m].clock, msg, []));
             id in t.issued && Directed(t.issued[id].msg)
    ensures ServedIn(s, Announce(m, msg), n, k, id) == 0
  {
    var e := Broadcast(s.hosts[m].daemon, s.hosts[m].clock, msg, []);
    FreshAnnounce(s, m, msg);
    if e.relays != [] { assert e.relays[0] in e.relays; }
  }

  /** A step hands a directed message only to the connection it is for, when it is delivered there. */
  lemma DirectedServes(s: System, a: Action, n: Ip, k: nat, id: string)
    requires Safe(s) && TrueLinks(s) && Enabled(s, a) && n in s.hosts && !a.Reconnect?
    requires id in s.issued ==> Straight(s, id)
    requires id in Apply(s, a).issued && Directed(Apply(s, a).issued[id].msg)
    ensures ServedIn(s, a, n, k, id)
         <= if Delivers(s, a, id) && IsFor(s, n, k, Apply(s, a).issued[id].msg) then 1 else 0
    ensures Delivers(s, a, id) && IsFor(s, n, k, Apply(s, a).issued[id].msg)
            && Passes(s.hosts[n].daemon, s.hosts[n].clock, Apply(s, a).issued[id].msg, a.sender, k)
            ==> ServedIn(s, a, n, k, id) == 1
  {
    match a {
      case Submit(m, msg, sender) => SubmitHands(s, m, msg, sender, n, k, id);
      case Announce(m, msg) => AnnounceHands(s, m, msg, n, k, id);
      case Deliver(i, sender) =>
        StraightDeliver(s, i, sender, id);
        DeliverHands(s, i, sender, n, k, id);
      case Lose(i) =>
      case Tick(m, now) =>
    }
  }

  lemma DeliverHands(s: System, i: nat, sender: Option<nat>, n: Ip, k: nat, id: string)
    requires Safe(s) && Enabled(s, Deliver(i, sender)) && n in s.hosts
    requires id in s.issued && Straight(s, id) && Directed(s.issued[id].msg)
    ensures var msg := s.issued[id].msg;
            var served := ServedIn(s, Deliver(i, sender), n, k, id);
            if IdOf(s.net[i].msg) == id && IsFor(s, n, k, msg) then
              served == if Passes(s.hosts[n].daemon, s.hosts[n].clock, msg, sender, k) then 1 else 0
            else served == 0
  {
    var f, msg := s.net[i], s.issued[id].msg;
    assert f in s.net;
    if IdOf(f.msg) == id {
      assert OnlyHop(s, id, f);
      DirectedSends(s.hosts[f.to].daemon, s.hosts[f.to].clock, msg, sender, k);
      if IsFor(s, n, k, msg) { assert n == f.to; }
    }
  }

  lemma ForSame(s: System, t: System, n: Ip, k: nat, msg: Message)
    requires SameLinks(s, t)
    ensures IsFor(t, n, k, msg) <==> IsFor(s, n, k, msg)
  {}

  /** In every run with links that stay as they are, a directed message is handed
      at most once, and only to the connection it is for. */
  lemma {:induction false} DirectedAtMostOnce(s: System, acts: seq<Action>, n: Ip, k: nat, id: string)
    requires Init(s) && IsRun(s, acts) && Static(acts) && TrueLinks(s) && n in s.hosts
    requires id in Exec(s, acts).issued && Directed(Exec(s, acts).issued[id].msg)
    ensures Served(s, acts, n, k, id)
         <= if IsFor(s, n, k, Exec(s, acts).issued[id].msg) then Deliveries(s, acts, id) else 0
    ensures Served(s, acts, n, k, id) <= 1
  {
    var before, a := acts[..|acts| - 1], acts[|acts| - 1];
    assert a in acts;
    StateBefore(s, before, id);
    if id in Exec(s, before).issued {
      IssueStays(Exec(s, before), a, id);
      DirectedAtMostOnce(s, before, n, k, id);
    } else {
      RunUnserved(s, before, n, k, id);
    }
    ForSame(s, Exec(s, before), n, k, Exec(s, acts).issued[id].msg);
    DirectedServes(Exec(s, before), a, n, k, id);
    DirectedCount(s, acts, id);
  }

  /** Connection k of daemon n takes the message. */
  ghost predicate Takes(s: System, n: Ip, k: nat, msg: Message) {
    && msg.service != "" && msg.service != COMMUNICATORD
    && IsFor(s, n, k, msg) && k < |s.hosts[n].daemon.connections|
    && CommandAllowed(s.hosts[n].daemon, s.hosts[n].daemon.connections[k], msg.command)
  }

  /** Nothing keeps the daemon of the server from taking the copy that is delivered. */
  lemma ArrivesInTime(s: System, a: Action, n: Ip, k: nat, id: string)
    requires Safe(s) && Remembered(s) && Enabled(s, a) && Delivers(s, a, id) && OnTime(s, id) && AllUp(s)
    requires id in s.issued && Straight(s, id) && Directed(s.issued[id].msg)
    requires Takes(s, n, k, s.issued[id].msg) && a.sender != Some(k)
    ensures Passes(s.hosts[n].daemon, s.hosts[n].clock, s.issued[id].msg, a.sender, k)
  {
    var f := s.net[a.i];
    assert f in s.net && OnlyHop(s, id, f) && f.to == n;
    assert GoodCopy(s, f.msg, f.path);
    assert !HasAccepted(s, n, id);
  }

  lemma UnissuedUndelivered(s: System, a: Action, id: string)
    requires Safe(s) && Enabled(s, a) && id !in s.issued
    ensures !Delivers(s, a, id)
  {
    if a.Deliver? { assert s.net[a.i] in s.net && GoodCopy(s, s.net[a.i].msg, s.net[a.i].path); }
  }

  /** A step hands the message to its service when it delivers the copy. */
  lemma ServesDelivered(s: System, a: Action, n: Ip, k: nat, id: string)
    requires Safe(s) && Remembered(s) && TrueLinks(s) && Enabled(s, a) && !a.Reconnect? && AllUp(s)
    requires OnTime(s, id) && (id in s.issued ==> Straight(s, id)) && (a.Deliver? ==> a.sender != Some(k))
    requires id in Apply(s, a).issued && Directed(Apply(s, a).issued[id].msg)
    requires Takes(s, n, k, Apply(s, a).issued[id].msg)
    ensures ServedIn(s, a, n, k, id) == if Delivers(s, a, id) then 1 else 0
  {
    DirectedServes(s, a, n, k, id);
    if id !in s.issued {
      UnissuedUndelivered(s, a, id);
    } else if Delivers(s, a, id) {
      StraightDeliver(s, a.i, a.sender, id);
      ArrivesInTime(s, a, n, k, id);
    }
  }

  /** No copy came in over connection k. */
  ghost predicate NotFrom(acts: seq<Action>, k: nat) {
    forall a :: a in acts && a.Deliver? ==> a.sender != Some(k)
  }

  /** The run of a directed message, in time and without losses, to a service that takes it. */
  ghost predicate GoesWell(s: System, acts: seq<Action>, n: Ip, k: nat, id: string) {
    && Init(s) && IsRun(s, acts) && Reliable(acts) && AllUp(s) && TrueLinks(s) && AlwaysOnTime(s, acts, id)
    && id in Exec(s, acts).issued && Directed(Exec(s, acts).issued[id].msg)
    && Takes(s, n, k, Exec(s, acts).issued[id].msg) && NotFrom(acts, k)
  }

  lemma GoesWellBefore(s: System, acts: seq<Action>, n: Ip, k: nat, id: string)
    requires GoesWell(s, acts, n, k, id) && acts != []
    requires id in Exec(s, acts[..|acts| - 1]).issued
    ensures GoesWell(s, acts[..|acts| - 1], n, k, id)
  {
    RunSafe(s, acts[..|acts| - 1]);
    StepSafe(Exec(s, acts[..|acts| - 1]), acts[|acts| - 1]);
  }

  /** What is known before the last step of such a run. */
  lemma BeforeLast(s: System, acts: seq<Action>, n: Ip, k: nat, id: string)
    requires GoesWell(s, acts, n, k, id) && acts != []
    ensures var p, a := Exec(s, acts[..|acts| - 1]), acts[|acts| - 1];
            && Safe(p) && Remembered(p) && TrueLinks(p) && AllUp(p) && OnTime(p, id)
            && Takes(p, n, k, Exec(s, acts).issued[id].msg)
            && !a.Reconnect? && (a.Deliver? ==> a.sender != Some(k))
            && (id in p.issued ==> Straight(p, id))
  {
    var before := acts[..|acts| - 1];
    assert acts[|acts| - 1] in acts;
    StateBefore(s, before, id);
    RunRemembers(s, before);
    TakesSame(s, Exec(s, before), n, k, Exec(s, acts).issued[id].msg);
    assert AlwaysOnTime(s, before, id);
  }

  /** The last step of such a run. */
  lemma LastStepServes(s: System, acts: seq<Action>, n: Ip, k: nat, id: string)
    requires GoesWell(s, acts, n, k, id) && acts != []
    ensures var p, a := Exec(s, acts[..|acts| - 1]), acts[|acts| - 1];
            ServedIn(p, a, n, k, id) == if Delivers(p, a, id) then 1 else 0
  {
    BeforeLast(s, acts, n, k, id);
    ServesDelivered(Exec(s, acts[..|acts| - 1]), acts[|acts| - 1], n, k, id);
  }

  lemma TakesSame(s: System, t: System, n: Ip, k: nat, msg: Message)
    requires SameLinks(s, t) && Takes(s, n, k, msg)
    ensures Takes(t, n, k, msg)
  {}

  /** Its service is handed it with every delivery. */
  lemma {:induction false} ServedWithDelivery(s: System, acts: seq<Action>, n: Ip, k: nat, id: string)
    requires GoesWell(s, acts, n, k, id)
    ensures Served(s, acts, n, k, id) == Deliveries(s, acts, id)
  {
    var before := acts[..|acts| - 1];
    LastStepServes(s, acts, n, k, id);
    if id in Exec(s, before).issued {
      GoesWellBefore(s, acts, n, k, id);
      ServedWithDelivery(s, before, n, k, id);
    } else {
      RunUnserved(s, before, n, k, id);
      RunUndelivered(s, before, id);
    }
  }

  /** When its copy has arrived, the service was handed a directed message exactly once. */
  lemma {:induction false} DirectedServedOnce(s: System, acts: seq<Action>, n: Ip, k: nat, id: string)
    requires GoesWell(s, acts, n, k, id) && Quiescent(Exec(s, acts), id)
    ensures Served(s, acts, n, k, id) == 1
    ensures forall m, j :: m in s.hosts && (m != n || j != k) ==> Served(s, acts, m, j, id) == 0
  {
    DirectedCount(s, acts, id);
    InFlightRange(Exec(s, acts).net, id);
    ServedWithDelivery(s, acts, n, k, id);
    forall m, j | m in s.hosts && (m != n || j != k) ensures Served(s, acts, m, j, id) == 0 {
      DirectedAtMostOnce(s, acts, m, j, id);
    }
  }
}
