/** Which links messages take over whole runs, said with the names of the protocol. */
module FloodMeaning {
  import opened Basics
  import opened Messages
  import opened DaemonSpec
  import opened DaemonLaws
  import opened DaemonMeaning
  import opened FloodSystem
  import opened FloodSafety
  import opened FloodTermination
  import opened FloodCoverage
  import opened FloodReach

  /** The neighbours of the results on broadcasts: links to other daemons, on private
      networks, and for "*" on public ones too. */
  lemma NeighboursExactly(s: System, n: Ip, service: string)
    requires n in s.hosts && (service == "*" || service == "?")
    ensures Neighbours(s, n, service) == Reachable(s.hosts[n].daemon, service)
  {
    var cs := s.hosts[n].daemon.connections;
    forall a: Ip | a in Reachable(s.hosts[n].daemon, service) ensures a in Neighbours(s, n, service) {
      var c :| c in cs && Eligible(c, service == "*", true) && c.ip == a;
      var k :| 0 <= k < |cs| && cs[k] == c;
    }
  }

  // ---- messages that stay on their computer -------------------------------

  /** A daemon never sends on what is for the services of its own computer. */
  lemma RelaysTravel(d: Daemon, now: int, msg: Message, sender: Option<nat>)
    requires ValidSender(d, sender)
    ensures forall r :: r in Dispatch(d, now, msg, sender).relays ==> r.msg.service == msg.service != "."
  {
    DispatchShape(d, now, msg, sender);
    BroadcastCopies(d, now, Onward(d, msg), OnwardList(d, msg));
    if msg.service == "." { LocalStays(d, now, msg); }
  }

  ghost predicate NoneLocal(net: seq<Flight>) {
    forall f :: f in net ==> f.msg.service != "."
  }

  lemma LaunchTravels(d: Daemon, relays: seq<Relay>, path: seq<Ip>)
    requires LinksOf(d, relays) && forall r :: r in relays ==> r.msg.service != "."
    ensures NoneLocal(Launch(d, relays, path))
  {
    forall i | 0 <= i < |relays| ensures Launch(d, relays, path)[i].msg.service != "." {
      assert relays[i] in relays;
    }
  }

  lemma StepTravels(s: System, a: Action)
    requires NoneLocal(s.net) && Enabled(s, a)
    ensures NoneLocal(Apply(s, a).net)
  {
    match a
    case Submit(n, msg, sender) =>
      RelaysTravel(s.hosts[n].daemon, s.hosts[n].clock, msg, sender);
      LaunchTravels(s.hosts[n].daemon, Dispatch(s.hosts[n].daemon, s.hosts[n].clock, msg, sender).relays, [n]);
    case Announce(n, msg) =>
      BroadcastCopies(s.hosts[n].daemon, s.hosts[n].clock, msg, []);
      if msg.service == "." { LocalStays(s.hosts[n].daemon, s.hosts[n].clock, msg); }
      LaunchTravels(s.hosts[n].daemon, Broadcast(s.hosts[n].daemon, s.hosts[n].clock, msg, []).relays, [n]);
    case Deliver(i, sender) =>
      var f := s.net[i];
      var host := s.hosts[f.to];
      RelaysTravel(host.daemon, host.clock, f.msg, sender);
      LaunchTravels(host.daemon, Dispatch(host.daemon, host.clock, f.msg, sender).relays, f.path + [f.to]);
    case _ =>
  }

  /** In every run, whatever is lost or reconnected: no copy in flight is for service ".". */
  lemma {:induction false} LocalNeverTravels(s: System, acts: seq<Action>, f: Flight)
    requires Init(s) && IsRun(s, acts) && f in Exec(s, acts).net
    ensures f.msg.service != "."
  {
    RunTravels(s, acts);
  }

  lemma {:induction false} RunTravels(s: System, acts: seq<Action>)
    requires Init(s) && IsRun(s, acts)
    ensures NoneLocal(Exec(s, acts).net)
  {
    if acts != [] {
      RunTravels(s, acts[..|acts| - 1]);
      StepTravels(Exec(s, acts[..|acts| - 1]), acts[|acts| - 1]);
    }
  }

  // ---- which networks broadcasts cross ------------------------------------

  /** A copy of a broadcast came over a link of the last daemon of its chain: a private
      one, or for "*" possibly a public one. */
  lemma {:induction false} CopyCameOver(s: System, acts: seq<Action>, f: Flight)
    requires Init(s) && IsRun(s, acts) && Static(acts)
    requires f in Exec(s, acts).net && Travels(f.msg)
    ensures f.path != [] && f.path[|f.path| - 1] in s.hosts
    ensures exists c :: c in s.hosts[f.path[|f.path| - 1]].daemon.connections && c.ip == f.to
              && (c.network.Private? || (c.network.Public? && f.msg.service == "*"))
  {
    ChainIsTrue(s, acts, f);
    ChainNeverRepeats(s, acts, f);
    var w, k := f.path + [f.to], |f.path| - 1;
    assert w[k] in s.hosts && w[k + 1] in Neighbours(s, w[k], f.msg.service);
    NeighboursExactly(s, w[k], f.msg.service);
  }
}
