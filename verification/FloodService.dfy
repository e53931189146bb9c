/** How often the services of the cluster are handed a broadcast over a whole run. */
module FloodService {
  import opened Basics
  import opened Messages
  import opened DaemonSpec
  import opened DaemonLaws
  import opened FloodSystem
  import opened FloodSafety
  import opened FloodTermination
  import opened FloodCoverage
  import opened FloodReach

  /** How often an effect hands the message to connection k. */
  function Sends(e: Effect, k: nat): nat {
    multiset(ServiceSends(e.outputs))[k]
  }

  /** How often a step hands the message with this identifier to connection k of
      daemon n.  A message that is only now given an identifier counts under it. */
  function ServedIn(s: System, a: Action, n: Ip, k: nat, id: string): nat
    requires Enabled(s, a)
  {
    match a
    case Submit(m, msg, sender) =>
      if m == n then ServedAs(Dispatch(s.hosts[n].daemon, s.hosts[n].clock, msg, sender), k, id) else 0
    case Announce(m, msg) =>
      if m == n then ServedAs(Broadcast(s.hosts[n].daemon, s.hosts[n].clock, msg, []), k, id) else 0
    case Deliver(i, sender) =>
      if s.net[i].to == n && IdOf(s.net[i].msg) == id then
        Sends(Dispatch(s.hosts[n].daemon, s.hosts[n].clock, s.net[i].msg, sender), k)
      else 0
    case _ => 0
  }

  function ServedAs(e: Effect, k: nat, id: string): nat {
    if e.relays != [] && IdOf(e.relays[0].msg) == id then Sends(e, k) else 0
  }

  /** How often a run hands it to connection k of daemon n. */
  function Served(s: System, acts: seq<Action>, n: Ip, k: nat, id: string): nat
    requires IsRun(s, acts)
  {
    if acts == [] then 0
    else
      var before := acts[..|acts| - 1];
      Served(s, before, n, k, id) + ServedIn(Exec(s, before), acts[|acts| - 1], n, k, id)
  }

  /** Connection k of daemon n is a local service that understands the command. */
  predicate Understands(d: Daemon, k: nat, command: string) {
    k < |d.connections| && IsLocalTarget(d.connections[k], command)
  }

  // ---- one effect ---------------------------------------------------------

  lemma {:induction false} IncreasingOnce(q: seq<nat>, k: nat)
    requires forall i, j :: 0 <= i < j < |q| ==> q[i] < q[j]
    ensures multiset(q)[k] == if k in q then 1 else 0
  {
    if q != [] {
      var front, last := q[..|q| - 1], q[|q| - 1];
      IncreasingOnce(front, k);
      assert q == front + [last];
      assert last !in front;
    }
  }

  /** A broadcast that passes the gate is handed once to the services that understand it. */
  lemma BroadcastSends(d: Daemon, now: int, msg: Message, k: nat)
    requires msg.tag.None? || !Stale(d, now, msg.tag.value)
    ensures Sends(Broadcast(d, now, msg, []), k) == if Understands(d, k, msg.command) then 1 else 0
  {
    BroadcastServes(d, now, msg);
    IncreasingOnce(ServiceSends(Broadcast(d, now, msg, []).outputs), k);
  }

  /** A copy of a broadcast is handed on exactly when its identifier is recorded. */
  lemma DispatchSends(d: Daemon, now: int, msg: Message, sender: Option<nat>, k: nat)
    requires ValidSender(d, sender) && IsBroadcast(msg.service) && msg.tag.Some?
    ensures var e := Dispatch(d, now, msg, sender);
            Sends(e, k) == if Recorded(d, e, IdOf(msg)) && Understands(d, k, msg.command) then 1 else 0
  {
    var e := Dispatch(d, now, msg, sender);
    assert msg.service != "" && msg.service != COMMUNICATORD;
    if Stale(d, now, msg.tag.value) || d.shutdown {
      assert e == Effect(d, [], []);
    } else if !AllServers(Server(d, msg)) && msg.service != LOCAL_BROADCAST {
      assert e == Effect(d, [], []);
    } else {
      assert e == Broadcast(d, now, msg, []);
      BroadcastSends(d, now, msg, k);
    }
  }

  /** A message that is given an identifier is handed on once. */
  lemma IssueSends(d: Daemon, now: int, msg: Message, sender: Option<nat>, k: nat)
    requires ValidSender(d, sender) && msg.tag.None?
    requires var e := Dispatch(d, now, msg, sender);
             e.relays != [] && IsBroadcast(e.relays[0].msg.service)
    ensures var e := Dispatch(d, now, msg, sender);
            && Sends(e, k) == (if Understands(d, k, msg.command) then 1 else 0)
            && e.relays[0].msg.command == msg.command
  {
    var e := Dispatch(d, now, msg, sender);
    DispatchShape(d, now, msg, sender);
    BroadcastCopies(d, now, Onward(d, msg), OnwardList(d, msg));
    assert e.relays[0] in e.relays;
    BroadcastSends(d, now, msg, k);
  }

  // ---- one step -----------------------------------------------------------

  /** How often daemon n should serve the identifier: when it accepted it, and when it issued it. */
  ghost function Times(s: System, n: Ip, id: string): nat {
    (if HasAccepted(s, n, id) then 1 else 0) + (if id in s.issued && s.issued[id].origin == n then 1 else 0)
  }

  lemma UnissuedTimes(s: System, n: Ip, id: string)
    requires Safe(s) && id !in s.issued
    ensures Times(s, n, id) == 0
  {
    forall a | a in s.accepted ensures a.id != id { assert GoodAcceptance(s, a); }
  }

  /** What a step hands out under an identifier that is issued afterwards. */
  ghost predicate StepServes(s: System, a: Action, t: System, n: Ip, k: nat, id: string)
    requires Enabled(s, a) && id in t.issued && n in s.hosts
  {
    && Times(s, n, id) <= Times(t, n, id)
    && ServedIn(s, a, n, k, id)
       == if Understands(s.hosts[n].daemon, k, t.issued[id].msg.command) then Times(t, n, id) - Times(s, n, id) else 0
  }

  lemma SameTimes(s: System, t: System, n: Ip, id: string)
    requires t.accepted == s.accepted
    requires (id in t.issued && t.issued[id].origin == n) == (id in s.issued && s.issued[id].origin == n)
    ensures Times(t, n, id) == Times(s, n, id)
  {
    assert HasAccepted(t, n, id) == HasAccepted(s, n, id);
  }

  lemma DeliverServes(s: System, i: nat, sender: Option<nat>, n: Ip, k: nat, id: string)
    requires Safe(s) && Enabled(s, Deliver(i, sender)) && n in s.hosts
    requires id in s.issued && IsBroadcast(s.issued[id].msg.service)
    ensures Receive(s, i, sender).issued == s.issued
    ensures StepServes(s, Deliver(i, sender), Receive(s, i, sender), n, k, id)
  {
    var f := s.net[i];
    var t := Receive(s, i, sender);
    DeliveryWaiting(s, i, sender, id);
    assert HasAccepted(s, n, id) <==> n !in Waiting(s, id);
    assert HasAccepted(t, n, id) <==> n !in Waiting(t, id);
    if IdOf(f.msg) == id && f.to == n {
      assert f in s.net && GoodCopy(s, f.msg, f.path);
      DispatchSends(s.hosts[n].daemon, s.hosts[n].clock, f.msg, sender, k);
    }
  }

  /** A new message, handled by daemon m. */
  lemma OriginateTimes(s: System, m: Ip, e: Effect, n: Ip, id: string)
    requires Safe(s) && m in s.hosts && LinksOf(s.hosts[m].daemon, e.relays)
    requires e.relays != [] ==> IdOf(e.relays[0].msg) !in s.issued
    requires id in Originate(s, m, e).issued
    ensures var t := Originate(s, m, e);
            var issued := e.relays != [] && IdOf(e.relays[0].msg) == id;
            && Times(t, n, id) == Times(s, n, id) + (if issued && m == n then 1 else 0)
            && (issued ==> t.issued[id].msg == e.relays[0].msg)
  {
    var t := Originate(s, m, e);
    assert HasAccepted(t, n, id) == HasAccepted(s, n, id);
    if id !in s.issued { UnissuedTimes(s, n, id); }
  }

  lemma SubmitServes(s: System, m: Ip, msg: Message, sender: Option<nat>, n: Ip, k: nat, id: string)
    requires Safe(s) && Enabled(s, Submit(m, msg, sender)) && n in s.hosts
    requires var t := Originate(s, m, Dispatch(s.hosts[m].daemon, s.hosts[m].clock, msg, sender));
             id in t.issued && IsBroadcast(t.issued[id].msg.service)
    ensures StepServes(s, Submit(m, msg, sender),
                       Originate(s, m, Dispatch(s.hosts[m].daemon, s.hosts[m].clock, msg, sender)), n, k, id)
  {
    var d, now := s.hosts[m].daemon, s.hosts[m].clock;
    var e := Dispatch(d, now, msg, sender);
    DispatchShape(d, now, msg, sender);
    NewIds(s, m, Onward(d, msg), OnwardList(d, msg));
    if e.relays != [] { assert e.relays[0] in e.relays; }
    OriginateTimes(s, m, e, n, id);
    if m == n && e.relays != [] && IdOf(e.relays[0].msg) == id {
      IssueSends(d, now, msg, sender, k);
    }
  }

  lemma AnnounceServes(s: System, m: Ip, msg: Message, n: Ip, k: nat, id: string)
    requires Safe(s) && Enabled(s, Announce(m, msg)) && n in s.hosts
    requires id in Originate(s, m, Broadcast(s.hosts[m].daemon, s.hosts[m].clock, msg, [])).issued
    ensures StepServes(s, Announce(m, msg),
                       Originate(s, m, Broadcast(s.hosts[m].daemon, s.hosts[m].clock, msg, [])), n, k, id)
  {
    var d, now := s.hosts[m].daemon, s.hosts[m].clock;
    var e := Broadcast(d, now, msg, []);
    NewIds(s, m, msg, []);
    BroadcastCopies(d, now, msg, []);
    if e.relays != [] { assert e.relays[0] in e.relays; }
    OriginateTimes(s, m, e, n, id);
    BroadcastSends(d, now, msg, k);
  }

  lemma ServesStep(s: System, a: Action, n: Ip, k: nat, id: string)
    requires Safe(s) && Enabled(s, a) && n in s.hosts
    requires id in Apply(s, a).issued && IsBroadcast(Apply(s, a).issued[id].msg.service)
    ensures StepServes(s, a, Apply(s, a), n, k, id)
  {
    match a
    case Submit(m, msg, sender) => SubmitServes(s, m, msg, sender, n, k, id);
    case Announce(m, msg) => AnnounceServes(s, m, msg, n, k, id);
    case Deliver(i, sender) => DeliverServes(s, i, sender, n, k, id);
    case _ => SameTimes(s, Apply(s, a), n, id);
  }

  /** Nothing is handed out under an identifier that is not issued yet. */
  lemma UnissuedUnserved(s: System, a: Action, n: Ip, k: nat, id: string)
    requires Safe(s) && Enabled(s, a) && id !in Apply(s, a).issued && id !in s.issued
    ensures ServedIn(s, a, n, k, id) == 0
  {
    if a.Deliver? {
      assert s.net[a.i] in s.net && GoodCopy(s, s.net[a.i].msg, s.net[a.i].path);
    }
  }

  // ---- whole runs ---------------------------------------------------------

  lemma {:induction false} RunUnserved(s: System, acts: seq<Action>, n: Ip, k: nat, id: string)
    requires Init(s) && IsRun(s, acts) && id !in Exec(s, acts).issued
    ensures Served(s, acts, n, k, id) == 0
  {
    if acts != [] {
      var before, a := acts[..|acts| - 1], acts[|acts| - 1];
      var p := Exec(s, before);
      RunSafe(s, before);
      StepSafe(p, a);
      RunUnserved(s, before, n, k, id);
      UnissuedUnserved(p, a, n, k, id);
    }
  }

  /** In every run, whatever is lost, delayed or reconnected, and although
      identifiers are forgotten: a connection is handed a broadcast at most once,
      or twice if it is one of the originator's. */
  lemma {:induction false} ServedAtMost(s: System, acts: seq<Action>, n: Ip, k: nat, id: string)
    requires Init(s) && IsRun(s, acts) && n in s.hosts
    requires id in Exec(s, acts).issued && IsBroadcast(Exec(s, acts).issued[id].msg.service)
    ensures Served(s, acts, n, k, id) <= Times(Exec(s, acts), n, id)
    ensures Served(s, acts, n, k, id) <= if Exec(s, acts).issued[id].origin == n then 2 else 1
  {
    if acts != [] {
      var before, a := acts[..|acts| - 1], acts[|acts| - 1];
      if id in Exec(s, before).issued {
        RunSafe(s, before);
        StepSafe(Exec(s, before), a);
        ServedAtMost(s, before, n, k, id);
      } else {
        RunUnserved(s, before, n, k, id);
      }
      HostsStay(s, before);
      RunSafe(s, before);
      ServesNoMore(Exec(s, before), a, n, k, id);
    }
  }

  lemma ServesNoMore(s: System, a: Action, n: Ip, k: nat, id: string)
    requires Safe(s) && Enabled(s, a) && n in s.hosts
    requires id in Apply(s, a).issued && IsBroadcast(Apply(s, a).issued[id].msg.service)
    ensures Times(s, n, id) + ServedIn(s, a, n, k, id) <= Times(Apply(s, a), n, id)
    ensures ServedIn(s, a, n, k, id) <= Times(Apply(s, a), n, id)
  {
    ServesStep(s, a, n, k, id);
  }

  lemma {:induction false} HostsStay(s: System, acts: seq<Action>)
    requires Init(s) && IsRun(s, acts)
    ensures Exec(s, acts).hosts.Keys == s.hosts.Keys
  {
    if acts != [] {
      HostsStay(s, acts[..|acts| - 1]);
      RunSafe(s, acts[..|acts| - 1]);
      StepSafe(Exec(s, acts[..|acts| - 1]), acts[|acts| - 1]);
    }
  }

  /** With links that stay as they are, exactly the services that understand the
      broadcast are handed it: once if their daemon accepted it, and once more if
      their daemon issued it. */
  lemma {:induction false} ServedExactly(s: System, acts: seq<Action>, n: Ip, k: nat, id: string)
    requires Init(s) && IsRun(s, acts) && Static(acts) && n in s.hosts
    requires id in Exec(s, acts).issued && IsBroadcast(Exec(s, acts).issued[id].msg.service)
    ensures Served(s, acts, n, k, id)
         == if Understands(s.hosts[n].daemon, k, Exec(s, acts).issued[id].msg.command)
            then Times(Exec(s, acts), n, id) else 0
  {
    if acts != [] {
      var before, a := acts[..|acts| - 1], acts[|acts| - 1];
      var p := Exec(s, before);
      RunSafe(s, before);
      StepSafe(p, a);
      RunLinks(s, before);
      if id in p.issued {
        ServedExactly(s, before, n, k, id);
      } else {
        RunUnserved(s, before, n, k, id);
        UnissuedTimes(p, n, id);
      }
      ServesStep(p, a, n, k, id);
    }
  }

  /** End to end: when a broadcast has come to rest on a connected cluster with
      two-way links and short chains, every service that understands it was handed
      it exactly once, except that the originator's own services got it twice. */
  lemma {:induction false} EveryServiceServed(s: System, acts: seq<Action>, id: string, n: Ip, k: nat)
    requires Settled(s, acts, id) && Connected(s, Exec(s, acts).issued[id].msg.service)
    requires ShortChains(s, Exec(s, acts).issued[id].msg.service, Exec(s, acts).issued[id].origin)
    requires Symmetric(s, Exec(s, acts).issued[id].msg.service) && |s.hosts.Keys| >= 2
    requires n in s.hosts && Understands(s.hosts[n].daemon, k, Exec(s, acts).issued[id].msg.command)
    ensures Served(s, acts, n, k, id) == if n == Exec(s, acts).issued[id].origin then 2 else 1
  {
    var t := Exec(s, acts);
    var origin := t.issued[id].origin;
    CoveredWhenShort(s, acts, id);
    ServedExactly(s, acts, n, k, id);
    if m :| m in s.hosts && m != origin {
      assert m in Reached(t, id);
      OriginatorHearsItself(s, acts, id, m);
    } else {
      SubsetSize(s.hosts.Keys, {origin});
    }
    assert n in Reached(t, id);
  }
}
