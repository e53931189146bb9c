/** What every step of the cluster keeps: identifiers and timeouts agree, no
    daemon accepts an identifier twice, and every copy carries a true hop count. */
module FloodSafety {
  import opened Basics
  import opened Messages
  import opened MessageId
  import opened DaemonSpec
  import opened DaemonLaws
  import opened FloodSystem

  // ---- the invariant, item by item ----------------------------------------

  ghost predicate GoodIssue(s: System, id: string)
    requires id in s.issued
  {
    var x := s.issued[id];
    && x.origin in s.hosts
    && 1 <= x.sequence <= s.hosts[x.origin].daemon.sequence
    && id == MsgId(s.hosts[x.origin].daemon.serverName, x.sequence)
    && x.timeout >= 10
  }

  /** A chain starts at the originator, and each later member accepted what the chain before it brought. */
  ghost predicate GoodPath(s: System, id: string, path: seq<Ip>) {
    && id in s.issued
    && |path| >= 1
    && path[0] == s.issued[id].origin
    && forall i :: 1 <= i < |path| ==> Acceptance(path[i], id, path[..i]) in s.accepted
  }

  ghost predicate GoodCopy(s: System, msg: Message, path: seq<Ip>) {
    && msg.tag.Some?
    && var tag := msg.tag.value;
    && GoodPath(s, tag.id, path)
    && tag.timeout == s.issued[tag.id].timeout
    && tag.hops == |path|
    && SameText(msg, s.issued[tag.id].msg)
    && (IsBroadcast(msg.service) ==> tag.hops <= 5)
  }

  ghost predicate GoodAcceptance(s: System, a: Acceptance) {
    && GoodPath(s, a.id, a.path)
    && a.node in s.hosts
    && (IsBroadcast(s.issued[a.id].msg.service) ==> |a.path| <= 5)
    && (a.id in s.hosts[a.node].daemon.received || s.issued[a.id].timeout < s.hosts[a.node].clock)
  }

  ghost predicate GoodHost(s: System, n: Ip)
    requires n in s.hosts
  {
    forall id :: id in s.hosts[n].daemon.received
      ==> id in s.issued && s.hosts[n].daemon.received[id] == s.issued[id].timeout
  }

  ghost predicate Once(accepted: seq<Acceptance>) {
    forall i, j :: 0 <= i < j < |accepted| ==> accepted[i].node != accepted[j].node || accepted[i].id != accepted[j].id
  }

  ghost predicate Safe(s: System) {
    && DistinctNames(s.hosts)
    && Once(s.accepted)
    && (forall id :: id in s.issued ==> GoodIssue(s, id))
    && (forall n :: n in s.hosts ==> GoodHost(s, n))
    && (forall f :: f in s.net ==> GoodCopy(s, f.msg, f.path))
    && (forall a :: a in s.accepted ==> GoodAcceptance(s, a))
  }

  // ---- nothing that was true of the past changes --------------------------

  ghost predicate HostGrows(h: Host, g: Host) {
    && g.daemon.serverName == h.daemon.serverName
    && g.daemon.sequence >= h.daemon.sequence
    && g.clock >= h.clock
    && forall id :: id in h.daemon.received ==> id in g.daemon.received || h.daemon.received[id] < g.clock
  }

  ghost predicate Grows(s: System, t: System) {
    && t.hosts.Keys == s.hosts.Keys
    && (forall n :: n in s.hosts ==> HostGrows(s.hosts[n], t.hosts[n]))
    && (forall id :: id in s.issued ==> id in t.issued && t.issued[id] == s.issued[id])
    && (forall a :: a in s.accepted ==> a in t.accepted)
  }

  lemma CopyStaysGood(s: System, t: System, msg: Message, path: seq<Ip>)
    requires Grows(s, t) && GoodCopy(s, msg, path)
    ensures GoodCopy(t, msg, path)
  {}

  lemma AcceptanceStaysGood(s: System, t: System, a: Acceptance)
    requires Grows(s, t) && GoodAcceptance(s, a) && forall n :: n in s.hosts ==> GoodHost(s, n)
    ensures GoodAcceptance(t, a)
  {
    assert HostGrows(s.hosts[a.node], t.hosts[a.node]);
  }

  lemma IssueStaysGood(s: System, t: System, id: string)
    requires Grows(s, t) && id in s.issued && GoodIssue(s, id)
    ensures GoodIssue(t, id)
  {
    assert HostGrows(s.hosts[s.issued[id].origin], t.hosts[s.issued[id].origin]);
  }

  /** A step keeps the invariant if it only adds good items. */
  lemma SafeStep(s: System, t: System)
    requires Safe(s) && Grows(s, t)
    requires Once(t.accepted)
    requires forall id :: id in t.issued && id !in s.issued ==> GoodIssue(t, id)
    requires forall n :: n in t.hosts ==> GoodHost(t, n)
    requires forall f :: f in t.net && f !in s.net ==> GoodCopy(t, f.msg, f.path)
    requires forall a :: a in t.accepted && a !in s.accepted ==> GoodAcceptance(t, a)
    ensures Safe(t)
  {
    forall m, n | m in t.hosts && n in t.hosts && t.hosts[m].daemon.serverName == t.hosts[n].daemon.serverName
      ensures m == n
    {
      assert HostGrows(s.hosts[m], t.hosts[m]) && HostGrows(s.hosts[n], t.hosts[n]);
    }
    forall id | id in t.issued ensures GoodIssue(t, id) {
      if id in s.issued { IssueStaysGood(s, t, id); }
    }
    forall f | f in t.net ensures GoodCopy(t, f.msg, f.path) {
      if f in s.net { CopyStaysGood(s, t, f.msg, f.path); }
    }
    forall a | a in t.accepted ensures GoodAcceptance(t, a) {
      if a in s.accepted { AcceptanceStaysGood(s, t, a); }
    }
  }

  // ---- what one effect does -----------------------------------------------

  /** At most one copy per connection, and none to a broadcast service once five hops were made. */
  lemma BroadcastLimits(d: Daemon, now: int, msg: Message, list: seq<nat>)
    requires ValidList(d.connections, list)
    ensures |Broadcast(d, now, msg, list).relays| <= |d.connections|
    ensures list == [] && Broadcast(d, now, msg, list).relays != [] ==> TagOf(msg).hops < 5
  {
    TargetsMeaning(d, msg, list);
    var s := Targets(d, msg, list);
    if list == [] && s.chosen != [] {
      var tag := TagOf(msg);
      var all, remote := ToAll(msg, tag.hops), ToRemote(msg, tag.hops);
      ScanAllChooses(d.connections, |d.connections|, msg.command, all, remote, tag.informed);
      assert s.chosen[0] in s.chosen;
    }
  }

  lemma BroadcastReceived(d: Daemon, now: int, msg: Message, list: seq<nat>)
    requires ValidList(d.connections, list)
    ensures var e := Broadcast(d, now, msg, list);
            && (msg.tag.None? || Stale(d, now, msg.tag.value) ==> e.daemon.received == d.received)
            && (msg.tag.Some? && !Stale(d, now, msg.tag.value) ==>
                 && Recorded(d, e, msg.tag.value.id)
                 && e.daemon.received == Purge(d.received, now)[msg.tag.value.id := msg.tag.value.timeout])
  {}

  // ---- one step -----------------------------------------------------------

  lemma FreshId(s: System, n: Ip)
    requires Safe(s) && n in s.hosts
    ensures MsgId(s.hosts[n].daemon.serverName, s.hosts[n].daemon.sequence + 1) !in s.issued
  {
    var d := s.hosts[n].daemon;
    var id := MsgId(d.serverName, d.sequence + 1);
    if id in s.issued {
      var x := s.issued[id];
      assert GoodIssue(s, id);
      MsgIdInjective(d.serverName, d.sequence + 1, s.hosts[x.origin].daemon.serverName, x.sequence);
    }
  }

  /** A daemon that only changed what the cluster does not look at. */
  lemma QuietSafe(s: System, n: Ip, e: Effect, path: seq<Ip>)
    requires Safe(s) && n in s.hosts && Quiet(s.hosts[n].daemon, e)
    requires e.daemon.serverName == s.hosts[n].daemon.serverName
    ensures Safe(Commit(s, n, e, path)) && Grows(s, Commit(s, n, e, path))
  {
    var t := Commit(s, n, e, path);
    assert t.net == s.net;
    forall m | m in t.hosts ensures GoodHost(t, m) {
      assert GoodHost(s, m);
    }
    SafeStep(s, t);
  }

  /** An effect that sends copies of one newly issued message and records nothing. */
  ghost predicate Issues(d: Daemon, now: nat, e: Effect, copy: Message) {
    && e.relays != [] && (forall r :: r in e.relays ==> r.msg == copy)
    && e.daemon.received == d.received && e.daemon.serverName == d.serverName
    && e.daemon.sequence == d.sequence + 1
    && copy.tag.Some?
    && copy.tag.value.id == MsgId(d.serverName, d.sequence + 1)
    && copy.tag.value.timeout == now + 10
    && copy.tag.value.hops == 1
  }

  lemma IssueGrows(s: System, n: Ip, e: Effect, copy: Message)
    requires Safe(s) && n in s.hosts && LinksOf(s.hosts[n].daemon, e.relays)
    requires Issues(s.hosts[n].daemon, s.hosts[n].clock, e, copy)
    ensures var t := Originate(s, n, e);
            Grows(s, t) && forall m :: m in t.hosts ==> GoodHost(t, m)
  {
    var t := Originate(s, n, e);
    assert e.relays[0] in e.relays;
    FreshId(s, n);
    assert Grows(s, t);
    forall m | m in t.hosts ensures GoodHost(t, m) {
      assert GoodHost(s, m);
    }
  }

  lemma IssueSafe(s: System, n: Ip, e: Effect, copy: Message)
    requires Safe(s) && n in s.hosts && LinksOf(s.hosts[n].daemon, e.relays)
    requires Issues(s.hosts[n].daemon, s.hosts[n].clock, e, copy)
    ensures Safe(Originate(s, n, e)) && Grows(s, Originate(s, n, e))
  {
    var t := Originate(s, n, e);
    assert e.relays[0] in e.relays;
    IssueGrows(s, n, e, copy);
    forall f | f in t.net && f !in s.net ensures GoodCopy(t, f.msg, f.path) {
      assert f in Launch(s.hosts[n].daemon, e.relays, [n]);
      LaunchedCopies(s.hosts[n].daemon, e.relays, [n], copy);
    }
    SafeStep(s, t);
  }

  lemma OriginateSafe(s: System, n: Ip, msg: Message, list: seq<nat>)
    requires Safe(s) && n in s.hosts && msg.tag.None? && ValidList(s.hosts[n].daemon.connections, list)
    ensures var t := Originate(s, n, Broadcast(s.hosts[n].daemon, s.hosts[n].clock, msg, list));
            Safe(t) && Grows(s, t)
  {
    var d, now := s.hosts[n].daemon, s.hosts[n].clock;
    var e := Broadcast(d, now, msg, list);
    BroadcastCopies(d, now, msg, list);
    BroadcastReceived(d, now, msg, list);
    BroadcastSetup(d, now, msg, list);
    if e.relays == [] {
      QuietSafe(s, n, e, [n]);
    } else {
      IssueSafe(s, n, e, Copy(d, now, msg, Targets(d, msg, list).informed));
    }
  }

  lemma LaunchedCopies(d: Daemon, relays: seq<Relay>, path: seq<Ip>, copy: Message)
    requires LinksOf(d, relays) && forall r :: r in relays ==> r.msg == copy
    ensures forall f :: f in Launch(d, relays, path) ==> f.msg == copy && f.path == path
  {
    forall i | 0 <= i < |relays| ensures Launch(d, relays, path)[i].msg == copy {
      assert relays[i] in relays;
    }
  }

  /** Handling a message without identifier, whatever the router decides. */
  lemma SubmitSafe(s: System, n: Ip, msg: Message, sender: Option<nat>)
    requires Safe(s) && n in s.hosts && msg.tag.None? && ValidSender(s.hosts[n].daemon, sender)
    ensures var t := Originate(s, n, Dispatch(s.hosts[n].daemon, s.hosts[n].clock, msg, sender));
            Safe(t) && Grows(s, t)
  {
    var d, now := s.hosts[n].daemon, s.hosts[n].clock;
    DispatchShape(d, now, msg, sender);
    var e := Dispatch(d, now, msg, sender);
    if Quiet(d, e) {
      QuietSafe(s, n, e, [n]);
    } else {
      OriginateSafe(s, n, Onward(d, msg), OnwardList(d, msg));
    }
  }

  lemma FewerFlights(s: System, i: nat)
    requires Safe(s) && i < |s.net|
    ensures Safe(s.(net := Without(s.net, i))) && Grows(s, s.(net := Without(s.net, i)))
  {
    var t := s.(net := Without(s.net, i));
    forall m | m in t.hosts ensures GoodHost(t, m) {
      assert GoodHost(s, m);
    }
    SafeStep(s, t);
  }

  /** The gate: an identifier that is neither out of date nor remembered was never accepted here. */
  lemma GateMeansNew(s: System, n: Ip, id: string)
    requires Safe(s) && n in s.hosts && id in s.issued
    requires s.issued[id].timeout >= s.hosts[n].clock && id !in s.hosts[n].daemon.received
    ensures forall a :: a in s.accepted ==> a.node != n || a.id != id
  {
    forall a | a in s.accepted ensures a.node != n || a.id != id {
      assert GoodAcceptance(s, a);
    }
  }

  lemma PathGrows(s: System, id: string, path: seq<Ip>, n: Ip)
    requires GoodPath(s, id, path) && Acceptance(n, id, path) in s.accepted
    ensures GoodPath(s, id, path + [n])
  {
    var longer := path + [n];
    forall i | 1 <= i < |longer| ensures Acceptance(longer[i], id, longer[..i]) in s.accepted {
      assert longer[..i] == path[..i];
      assert path[..|path|] == path;
    }
  }

  /** An effect that records the identifier of msg and sends it one hop further. */
  ghost predicate Accepts(d: Daemon, now: nat, e: Effect, msg: Message, copy: Message) {
    && msg.tag.Some? && !Stale(d, now, msg.tag.value)
    && e.daemon.received == Purge(d.received, now)[msg.tag.value.id := msg.tag.value.timeout]
    && e.daemon.serverName == d.serverName && e.daemon.sequence == d.sequence
    && (forall r :: r in e.relays ==> r.msg == copy)
    && SameText(copy, msg)
    && copy.tag.Some?
    && copy.tag.value.id == msg.tag.value.id
    && copy.tag.value.timeout == msg.tag.value.timeout
    && copy.tag.value.hops == msg.tag.value.hops + 1
    && (IsBroadcast(msg.service) && e.relays != [] ==> msg.tag.value.hops < 5)
  }

  function Accepted(s: System, n: Ip, e: Effect, id: string, path: seq<Ip>): System
    requires n in s.hosts && LinksOf(s.hosts[n].daemon, e.relays)
  {
    var t := Commit(s, n, e, path + [n]);
    t.(accepted := t.accepted + [Acceptance(n, id, path)])
  }

  lemma RecordGrows(d: Daemon, now: nat, e: Effect, msg: Message, copy: Message)
    requires Accepts(d, now, e, msg, copy)
    ensures HostGrows(Host(d, now), Host(e.daemon, now))
    ensures forall id :: id in e.daemon.received && id != msg.tag.value.id
              ==> id in d.received && e.daemon.received[id] == d.received[id]
    ensures msg.tag.value.id in e.daemon.received
    ensures e.daemon.received[msg.tag.value.id] == msg.tag.value.timeout
  {}

  lemma AcceptGrows(s: System, n: Ip, e: Effect, msg: Message, path: seq<Ip>, copy: Message)
    requires Safe(s) && n in s.hosts && GoodCopy(s, msg, path) && LinksOf(s.hosts[n].daemon, e.relays)
    requires Accepts(s.hosts[n].daemon, s.hosts[n].clock, e, msg, copy)
    ensures Grows(s, Accepted(s, n, e, msg.tag.value.id, path))
    ensures forall h :: h in s.hosts ==> GoodHost(Accepted(s, n, e, msg.tag.value.id, path), h)
  {
    var u := Accepted(s, n, e, msg.tag.value.id, path);
    var d, now := s.hosts[n].daemon, s.hosts[n].clock;
    RecordGrows(d, now, e, msg, copy);
    assert u.hosts == s.hosts[n := Host(e.daemon, now)];
    forall h | h in s.hosts ensures HostGrows(s.hosts[h], u.hosts[h]) {}
    forall h | h in u.hosts ensures GoodHost(u, h) {
      assert GoodHost(s, h);
    }
  }

  lemma AcceptOnce(s: System, n: Ip, id: string, path: seq<Ip>)
    requires Safe(s) && n in s.hosts && id in s.issued
    requires s.issued[id].timeout >= s.hosts[n].clock && id !in s.hosts[n].daemon.received
    ensures Once(s.accepted + [Acceptance(n, id, path)])
  {
    GateMeansNew(s, n, id);
    forall i | 0 <= i < |s.accepted| ensures s.accepted[i].node != n || s.accepted[i].id != id {
      assert s.accepted[i] in s.accepted;
    }
  }

  /** A copy passes the gate of daemon n and is broadcast. */
  lemma AcceptSafe(s: System, n: Ip, e: Effect, msg: Message, path: seq<Ip>, copy: Message)
    requires Safe(s) && n in s.hosts && GoodCopy(s, msg, path) && LinksOf(s.hosts[n].daemon, e.relays)
    requires Accepts(s.hosts[n].daemon, s.hosts[n].clock, e, msg, copy)
    ensures Safe(Accepted(s, n, e, msg.tag.value.id, path))
    ensures Grows(s, Accepted(s, n, e, msg.tag.value.id, path))
  {
    var id := msg.tag.value.id;
    var u := Accepted(s, n, e, id, path);
    AcceptGrows(s, n, e, msg, path, copy);
    AcceptOnce(s, n, id, path);
    CopyStaysGood(s, u, msg, path);
    assert Acceptance(n, id, path) in u.accepted;
    PathGrows(u, id, path, n);
    assert GoodAcceptance(u, Acceptance(n, id, path));
    forall f | f in u.net && f !in s.net ensures GoodCopy(u, f.msg, f.path) {
      assert f in Launch(s.hosts[n].daemon, e.relays, path + [n]);
      LaunchedCopies(s.hosts[n].daemon, e.relays, path + [n], copy);
    }
    SafeStep(s, u);
  }

  lemma BroadcastAccepts(d: Daemon, now: nat, msg: Message, m: Message, list: seq<nat>) returns (copy: Message)
    requires ValidList(d.connections, list)
    requires msg.tag.Some? && !Stale(d, now, msg.tag.value)
    requires msg.tag.value.id != "" && msg.tag.value.timeout != 0
    requires m.tag == msg.tag && SameText(m, msg) && (IsBroadcast(msg.service) ==> list == [])
    ensures Accepts(d, now, Broadcast(d, now, m, list), msg, copy)
    ensures copy.tag.value.informed == Targets(d, m, list).informed
  {
    copy := Copy(d, now, m, Targets(d, m, list).informed);
    BroadcastCopies(d, now, m, list);
    BroadcastLimits(d, now, m, list);
    BroadcastReceived(d, now, m, list);
    BroadcastSetup(d, now, m, list);
  }

  lemma DeliverSafe(s: System, i: nat, sender: Option<nat>)
    requires Safe(s) && i < |s.net| && s.net[i].to in s.hosts
    requires ValidSender(s.hosts[s.net[i].to].daemon, sender)
    ensures Safe(Receive(s, i, sender)) && Grows(s, Receive(s, i, sender))
  {
    var f := s.net[i];
    var d, now := s.hosts[f.to].daemon, s.hosts[f.to].clock;
    var e := Dispatch(d, now, f.msg, sender);
    var r := s.(net := Without(s.net, i));
    assert f in s.net && GoodCopy(s, f.msg, f.path);
    FewerFlights(s, i);
    CopyStaysGood(s, r, f.msg, f.path);
    DispatchShape(d, now, f.msg, sender);
    if Quiet(d, e) {
      QuietSafe(r, f.to, e, f.path + [f.to]);
    } else {
      var m, list := Onward(d, f.msg), OnwardList(d, f.msg);
      BroadcastCopies(d, now, m, list);
      BroadcastReceived(d, now, m, list);
      assert GoodIssue(s, f.msg.tag.value.id);
      var copy := BroadcastAccepts(d, now, f.msg, m, list);
      AcceptSafe(r, f.to, e, f.msg, f.path, copy);
    }
  }

  lemma {:induction false} StepSafe(s: System, a: Action)
    requires Safe(s) && Enabled(s, a)
    ensures Safe(Apply(s, a)) && Grows(s, Apply(s, a))
  {
    match a
    case Submit(n, msg, sender) => SubmitSafe(s, n, msg, sender);
    case Announce(n, msg) => OriginateSafe(s, n, msg, []);
    case Deliver(i, sender) => DeliverSafe(s, i, sender);
    case _ => IdleSafe(s, a);
  }

  lemma IdleSafe(s: System, a: Action)
    requires Safe(s) && Enabled(s, a) && (a.Lose? || a.Tick? || a.Reconnect?)
    ensures Safe(Apply(s, a)) && Grows(s, Apply(s, a))
  {
    match a
    case Lose(i) => FewerFlights(s, i);
    case Tick(n, now) => HostSafe(s, n, s.hosts[n].(clock := now));
    case Reconnect(n, connections, services, shutdown) =>
      HostSafe(s, n, s.hosts[n].(daemon :=
        s.hosts[n].daemon.(connections := connections, localServices := services, shutdown := shutdown)));
  }

  /** A host whose clock advanced, or whose links changed. */
  lemma HostSafe(s: System, n: Ip, h: Host)
    requires Safe(s) && n in s.hosts && h.clock >= s.hosts[n].clock
    requires h.daemon.serverName == s.hosts[n].daemon.serverName && h.daemon.sequence == s.hosts[n].daemon.sequence
    requires h.daemon.received == s.hosts[n].daemon.received
    ensures Safe(s.(hosts := s.hosts[n := h])) && Grows(s, s.(hosts := s.hosts[n := h]))
  {
    var t := s.(hosts := s.hosts[n := h]);
    forall m | m in t.hosts ensures GoodHost(t, m) { assert GoodHost(s, m); }
    SafeStep(s, t);
  }

  /** The invariant holds after every run, over any number of daemons and whatever the order of steps. */
  lemma {:induction false} RunSafe(s: System, acts: seq<Action>)
    requires Init(s) && IsRun(s, acts)
    ensures Safe(Exec(s, acts))
  {
    if acts != [] {
      RunSafe(s, acts[..|acts| - 1]);
      StepSafe(Exec(s, acts[..|acts| - 1]), acts[|acts| - 1]);
    }
  }

  // ---- the main results ---------------------------------------------------

  /** A daemon accepts a broadcast identifier at most once, although it forgets
      identifiers whose timeout passed and no two clocks agree. */
  lemma {:induction false} AcceptedAtMostOnce(s: System, acts: seq<Action>, i: nat, j: nat)
    requires Init(s) && IsRun(s, acts)
    requires i < |Exec(s, acts).accepted| && j < |Exec(s, acts).accepted|
    requires Exec(s, acts).accepted[i].node == Exec(s, acts).accepted[j].node
    requires Exec(s, acts).accepted[i].id == Exec(s, acts).accepted[j].id
    ensures i == j
  {
    RunSafe(s, acts);
  }

  /** Copies under one identifier come from one broadcast: same originator, timeout and text. */
  lemma {:induction false} CopiesAgree(s: System, acts: seq<Action>, f: Flight, g: Flight)
    requires Init(s) && IsRun(s, acts)
    requires f in Exec(s, acts).net && g in Exec(s, acts).net && IdOf(f.msg) == IdOf(g.msg)
    ensures f.msg.tag.Some? && g.msg.tag.Some?
    ensures f.msg.tag.value.timeout == g.msg.tag.value.timeout
    ensures SameText(f.msg, g.msg)
    ensures f.path != [] && g.path != [] && f.path[0] == g.path[0]
  {
    RunSafe(s, acts);
    var t := Exec(s, acts);
    assert GoodCopy(t, f.msg, f.path) && GoodCopy(t, g.msg, g.path);
  }

  /** The hop count of a copy is the length of its chain; it is at most five for a
      broadcast service; and the daemons that accepted along the chain are distinct. */
  lemma {:induction false} ChainIsTrue(s: System, acts: seq<Action>, f: Flight)
    requires Init(s) && IsRun(s, acts) && f in Exec(s, acts).net
    ensures f.msg.tag.Some? && f.msg.tag.value.hops == |f.path| >= 1
    ensures IsBroadcast(f.msg.service) ==> |f.path| <= 5
    ensures forall i, j :: 1 <= i < j < |f.path| ==> f.path[i] != f.path[j]
  {
    RunSafe(s, acts);
    var t := Exec(s, acts);
    assert GoodCopy(t, f.msg, f.path);
    DistinctForwarders(t, f.msg.tag.value.id, f.path);
  }

  lemma DistinctForwarders(s: System, id: string, path: seq<Ip>)
    requires Safe(s) && GoodPath(s, id, path)
    ensures forall i, j :: 1 <= i < j < |path| ==> path[i] != path[j]
  {
    forall i, j | 1 <= i < j < |path| ensures path[i] != path[j] {
      var a, b := Acceptance(path[i], id, path[..i]), Acceptance(path[j], id, path[..j]);
      assert a in s.accepted && b in s.accepted && |a.path| != |b.path|;
    }
  }
}
