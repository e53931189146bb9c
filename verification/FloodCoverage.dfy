/** Where the copies of one broadcast go while the links stay as they are, and
    whom they have reached when none is left in flight. */
module FloodCoverage {
  import opened Basics
  import opened Messages
  import opened MessageId
  import opened DaemonSpec
  import opened DaemonLaws
  import opened FloodSystem
  import opened FloodSafety
  import opened FloodTermination

  /** The daemons a daemon's links offer to a broadcast with this service. */
  ghost function Neighbours(s: System, n: Ip, service: string): set<Ip>
    requires n in s.hosts
  {
    var cs := s.hosts[n].daemon.connections;
    Addresses(cs, |cs|, service == PUBLIC_BROADCAST, true)
  }

  /** The broadcasts that travel: service "*" or "?", for no server in particular. */
  predicate Travels(msg: Message) {
    (msg.service == PUBLIC_BROADCAST || msg.service == PRIVATE_BROADCAST) && AllServers(msg.server)
  }

  ghost predicate SameLinks(s: System, t: System) {
    && t.hosts.Keys == s.hosts.Keys
    && forall n :: n in s.hosts ==>
         && t.hosts[n].daemon.serverName == s.hosts[n].daemon.serverName
         && t.hosts[n].daemon.debugAll == s.hosts[n].daemon.debugAll
         && t.hosts[n].daemon.connections == s.hosts[n].daemon.connections
         && t.hosts[n].daemon.shutdown == s.hosts[n].daemon.shutdown
  }

  ghost predicate Static(acts: seq<Action>) {
    forall a :: a in acts ==> !a.Reconnect?
  }

  // ---- the links one broadcast uses ---------------------------------------

  /** The addresses a fresh broadcast sends to are the neighbours that were not informed. */
  lemma LaunchedTo(d: Daemon, now: nat, msg: Message, path: seq<Ip>)
    requires msg.tag.None? || !Stale(d, now, msg.tag.value)
    requires msg.service == PUBLIC_BROADCAST || msg.service == PRIVATE_BROADCAST
    ensures var e := Broadcast(d, now, msg, []);
            var informed := TagOf(msg).informed;
            var added := if TagOf(msg).hops < 5 then
                           Addresses(d.connections, |d.connections|, msg.service == PUBLIC_BROADCAST, true)
                         else {};
            && Targets(d, msg, []).informed == informed + added
            && (set f | f in Launch(d, e.relays, path) :: f.to) == added - informed
  {
    var tag := TagOf(msg);
    var all, remote := ToAll(msg, tag.hops), ToRemote(msg, tag.hops);
    var cs := d.connections;
    var s := Targets(d, msg, []);
    ScanAllInforms(cs, |cs|, msg.command, all, remote, tag.informed);
    ScanAllChooses(cs, |cs|, msg.command, all, remote, tag.informed);
    ChosenAddresses(d, now, msg, path, s);
  }

  lemma ChosenAddresses(d: Daemon, now: nat, msg: Message, path: seq<Ip>, s: Scan)
    requires msg.tag.None? || !Stale(d, now, msg.tag.value)
    requires s == Targets(d, msg, [])
    requires OneCopyEach(d.connections, s.chosen, TagOf(msg).informed, s.informed)
    ensures (set f | f in Launch(d, Broadcast(d, now, msg, []).relays, path) :: f.to)
         == s.informed - TagOf(msg).informed
  {
    var relays := Broadcast(d, now, msg, []).relays;
    var flights := Launch(d, relays, path);
    assert |relays| == |s.chosen| && forall i :: 0 <= i < |relays| ==> relays[i].conn == s.chosen[i];
    var tos := set f | f in flights :: f.to;
    forall a: Ip ensures a in tos <==> a in s.informed && a !in TagOf(msg).informed {
      if a in tos {
        var i :| 0 <= i < |flights| && flights[i].to == a;
        assert d.connections[s.chosen[i]].ip == a;
      }
      if a in s.informed && a !in TagOf(msg).informed {
        var k :| k in s.chosen && k < |d.connections| && d.connections[k].ip == a;
        var i :| 0 <= i < |s.chosen| && s.chosen[i] == k;
        assert flights[i] in flights;
      }
    }
  }

  // ---- the invariant of one identifier ------------------------------------

  ghost predicate IsWalk(s: System, service: string, w: seq<Ip>) {
    && |w| >= 1
    && forall i :: 0 <= i < |w| - 1 ==> w[i] in s.hosts && w[i + 1] in Neighbours(s, w[i], service)
  }

  lemma WalkExtends(s: System, service: string, w: seq<Ip>, a: Ip)
    requires IsWalk(s, service, w) && w[|w| - 1] in s.hosts && a in Neighbours(s, w[|w| - 1], service)
    ensures IsWalk(s, service, w + [a])
  {
    var v := w + [a];
    forall i | 0 <= i < |v| - 1 ensures v[i] in s.hosts && v[i + 1] in Neighbours(s, v[i], service) {
      if i < |w| - 1 { assert w[i] in s.hosts && w[i + 1] in Neighbours(s, w[i], service); }
    }
  }

  /** No member offers a link to a later one, but for the next. */
  ghost predicate Chordless(s: System, service: string, w: seq<Ip>) {
    forall i, j :: 0 <= i && i + 1 < j < |w| && w[i] in s.hosts ==> w[j] !in Neighbours(s, w[i], service)
  }

  /** The links of all daemons of the path are known to the informed list. */
  ghost predicate Informs(s: System, service: string, path: seq<Ip>, informed: set<Ip>) {
    forall i :: 0 <= i < |path| && path[i] in s.hosts ==> Neighbours(s, path[i], service) <= informed
  }

  ghost predicate KnownFrom(s: System, service: string, path: seq<Ip>, a: Ip) {
    exists i :: 0 <= i < |path| && path[i] in s.hosts && a in Neighbours(s, path[i], service)
  }

  /** The informed list holds nothing else. */
  ghost predicate InformsOnly(s: System, service: string, path: seq<Ip>, informed: set<Ip>) {
    forall a :: a in informed ==> KnownFrom(s, service, path, a)
  }

  ghost predicate Forwarded(s: System, a: Acceptance, id: string) {
    a in s.accepted && a.id == id && a.node in s.hosts && |a.path| < 5
  }

  /** The originator never forwards its own message. */
  ghost predicate OriginFirst(path: seq<Ip>) {
    forall i :: 1 <= i < |path| ==> path[i] != path[0]
  }

  ghost predicate GoodSpread(s: System, id: string, f: Flight)
    requires id in s.issued && s.issued[id].origin in s.hosts
  {
    var service := s.issued[id].msg.service;
    && f.msg.tag.Some?
    && (forall a: Ip :: a in f.msg.tag.value.informed ==> (a, id) in s.sent)
    && Informs(s, service, f.path, f.msg.tag.value.informed)
    && InformsOnly(s, service, f.path, f.msg.tag.value.informed)
    && OriginFirst(f.path)
    && IsWalk(s, service, f.path + [f.to]) && Chordless(s, service, f.path + [f.to])
  }

  ghost predicate GoodChain(s: System, service: string, path: seq<Ip>, last: Ip) {
    OriginFirst(path) && IsWalk(s, service, path + [last]) && Chordless(s, service, path + [last])
  }

  ghost predicate IsTarget(s: System, id: string, a: Ip)
    requires id in s.issued && s.issued[id].origin in s.hosts
  {
    var service := s.issued[id].msg.service;
    || a in Neighbours(s, s.issued[id].origin, service)
    || exists x :: Forwarded(s, x, id) && a in Neighbours(s, x.node, service)
  }

  ghost predicate Spread(s: System, id: string) {
    && id in s.issued && s.issued[id].origin in s.hosts && Travels(s.issued[id].msg)
    && (forall f :: f in s.net && IdOf(f.msg) == id ==> GoodSpread(s, id, f))
    && (forall x :: x in s.accepted && x.id == id
          ==> GoodChain(s, s.issued[id].msg.service, x.path, x.node))
    && (forall a: Ip :: (a, id) in s.sent <==> IsTarget(s, id, a))
  }

  /** Nothing of the identifier moved, except that copies may have gone. */
  ghost predicate Unaffected(s: System, t: System, id: string) {
    && SameLinks(s, t)
    && id in s.issued && id in t.issued && t.issued[id] == s.issued[id]
    && (forall f :: f in t.net && IdOf(f.msg) == id ==> f in s.net)
    && (forall a: Ip :: (a, id) in t.sent <==> (a, id) in s.sent)
    && (forall x: Acceptance :: x.id == id ==> (x in t.accepted <==> x in s.accepted))
  }

  lemma NeighboursSame(s: System, t: System, n: Ip, service: string)
    requires SameLinks(s, t) && n in s.hosts
    ensures Neighbours(t, n, service) == Neighbours(s, n, service)
  {}

  lemma WalkSame(s: System, t: System, service: string, w: seq<Ip>)
    requires SameLinks(s, t) && IsWalk(s, service, w)
    ensures IsWalk(t, service, w)
  {
    forall i | 0 <= i < |w| - 1 ensures w[i] in t.hosts && w[i + 1] in Neighbours(t, w[i], service) {
      NeighboursSame(s, t, w[i], service);
    }
  }

  lemma ChordlessSame(s: System, t: System, service: string, w: seq<Ip>)
    requires SameLinks(s, t) && Chordless(s, service, w)
    ensures Chordless(t, service, w)
  {
    forall i, j | 0 <= i && i + 1 < j < |w| && w[i] in t.hosts ensures w[j] !in Neighbours(t, w[i], service) {
      NeighboursSame(s, t, w[i], service);
    }
  }

  lemma InformsSame(s: System, t: System, service: string, path: seq<Ip>, informed: set<Ip>)
    requires SameLinks(s, t) && Informs(s, service, path, informed)
    ensures Informs(t, service, path, informed)
  {
    forall i | 0 <= i < |path| && path[i] in t.hosts ensures Neighbours(t, path[i], service) <= informed {
      NeighboursSame(s, t, path[i], service);
    }
  }

  lemma InformsOnlySame(s: System, t: System, service: string, path: seq<Ip>, informed: set<Ip>)
    requires SameLinks(s, t) && InformsOnly(s, service, path, informed)
    ensures InformsOnly(t, service, path, informed)
  {
    forall a | a in informed ensures KnownFrom(t, service, path, a) {
      assert KnownFrom(s, service, path, a);
      var i :| 0 <= i < |path| && path[i] in s.hosts && a in Neighbours(s, path[i], service);
      NeighboursSame(s, t, path[i], service);
    }
  }

  lemma GoodSpreadSame(s: System, t: System, id: string, f: Flight)
    requires SameLinks(s, t) && id in s.issued && id in t.issued && t.issued[id] == s.issued[id]
    requires s.issued[id].origin in s.hosts && GoodSpread(s, id, f)
    requires forall a: Ip :: (a, id) in s.sent ==> (a, id) in t.sent
    ensures GoodSpread(t, id, f)
  {
    var service := s.issued[id].msg.service;
    InformsSame(s, t, service, f.path, f.msg.tag.value.informed);
    InformsOnlySame(s, t, service, f.path, f.msg.tag.value.informed);
    WalkSame(s, t, service, f.path + [f.to]);
    ChordlessSame(s, t, service, f.path + [f.to]);
  }

  lemma TargetSame(s: System, t: System, id: string, a: Ip)
    requires Unaffected(s, t, id) && s.issued[id].origin in s.hosts
    ensures IsTarget(t, id, a) <==> IsTarget(s, id, a)
  {
    var service := s.issued[id].msg.service;
    forall n | n in s.hosts ensures Neighbours(t, n, service) == Neighbours(s, n, service) {
      NeighboursSame(s, t, n, service);
    }
    assert forall x :: Forwarded(t, x, id) <==> Forwarded(s, x, id);
  }

  lemma SpreadSame(s: System, t: System, id: string)
    requires Spread(s, id) && Unaffected(s, t, id)
    ensures Spread(t, id)
  {
    forall f | f in t.net && IdOf(f.msg) == id ensures GoodSpread(t, id, f) {
      GoodSpreadSame(s, t, id, f);
    }
    forall x | x in t.accepted && x.id == id ensures GoodChain(t, t.issued[id].msg.service, x.path, x.node) {
      WalkSame(s, t, t.issued[id].msg.service, x.path + [x.node]);
      ChordlessSame(s, t, t.issued[id].msg.service, x.path + [x.node]);
    }
    forall a: Ip ensures (a, id) in t.sent <==> IsTarget(t, id, a) {
      TargetSame(s, t, id, a);
    }
  }

  // ---- what the history remembers -----------------------------------------

  /** Whatever was sent had been issued, and whatever a daemon remembers it had accepted. */
  ghost predicate Remembered(s: System) {
    && (forall p :: p in s.sent ==> p.1 in s.issued)
    && (forall n :: n in s.hosts ==> forall id :: id in s.hosts[n].daemon.received ==> HasAccepted(s, n, id))
  }

  lemma AcceptedStays(s: System, t: System, n: Ip, id: string)
    requires Grows(s, t) && HasAccepted(s, n, id)
    ensures HasAccepted(t, n, id)
  {}

  lemma RememberedOriginate(s: System, n: Ip, e: Effect)
    requires Remembered(s) && n in s.hosts && LinksOf(s.hosts[n].daemon, e.relays)
    requires Grows(s, Originate(s, n, e)) && e.daemon.received == s.hosts[n].daemon.received
    requires forall r, q :: r in e.relays && q in e.relays ==> r.msg == q.msg
    ensures Remembered(Originate(s, n, e))
  {
    var t := Originate(s, n, e);
    var flights := Launch(s.hosts[n].daemon, e.relays, [n]);
    forall f | f in flights ensures IdOf(f.msg) in t.issued {
      var i :| 0 <= i < |flights| && flights[i] == f;
      assert e.relays[i] in e.relays && e.relays[0] in e.relays;
    }
    forall m, id | m in t.hosts && id in t.hosts[m].daemon.received ensures HasAccepted(t, m, id) {
      AcceptedStays(s, t, m, id);
    }
  }

  /** Handling a message adds no other identifier than its own to the record. */
  ghost predicate RecordsOnly(d: Daemon, e: Effect, id: string) {
    forall x :: x in e.daemon.received ==> x in d.received || (x == id && Recorded(d, e, id))
  }

  lemma DispatchRecords(d: Daemon, now: nat, msg: Message, sender: Option<nat>)
    requires ValidSender(d, sender)
    ensures RecordsOnly(d, Dispatch(d, now, msg, sender), IdOf(msg))
  {
    DispatchShape(d, now, msg, sender);
    BroadcastReceived(d, now, Onward(d, msg), OnwardList(d, msg));
  }

  lemma RememberedReceive(s: System, i: nat, sender: Option<nat>)
    requires Safe(s) && Remembered(s) && Enabled(s, Deliver(i, sender))
    ensures Remembered(Receive(s, i, sender))
  {
    var f := s.net[i];
    var host := s.hosts[f.to];
    assert f in s.net && GoodCopy(s, f.msg, f.path);
    DeliverSafe(s, i, sender);
    DeliveredIds(s, i, sender);
    DispatchRecords(host.daemon, host.clock, f.msg, sender);
    RememberedHandled(s, i, Dispatch(host.daemon, host.clock, f.msg, sender));
  }

  lemma RememberedHandled(s: System, i: nat, e: Effect)
    requires Remembered(s) && i < |s.net| && s.net[i].to in s.hosts && IdOf(s.net[i].msg) in s.issued
    requires var f := s.net[i];
             var d := s.hosts[f.to].daemon;
             && LinksOf(d, e.relays) && RecordsOnly(d, e, IdOf(f.msg))
             && (forall g :: g in Launch(d, e.relays, f.path + [f.to]) ==> IdOf(g.msg) == IdOf(f.msg))
    requires Grows(s, Handled(s, i, e))
    ensures Remembered(Handled(s, i, e))
  {
    var f, t := s.net[i], Handled(s, i, e);
    var d := s.hosts[f.to].daemon;
    forall m, id | m in t.hosts && id in t.hosts[m].daemon.received ensures HasAccepted(t, m, id) {
      if m == f.to && id !in d.received {
        assert Acceptance(f.to, id, f.path) in t.accepted;
      } else {
        AcceptedStays(s, t, m, id);
      }
    }
  }

  lemma RememberedStep(s: System, a: Action)
    requires Safe(s) && Remembered(s) && Enabled(s, a)
    ensures Remembered(Apply(s, a))
  {
    match a
    case Submit(n, msg, sender) => RememberedSubmit(s, n, msg, sender);
    case Announce(n, msg) => RememberedAnnounce(s, n, msg);
    case Deliver(i, sender) => RememberedReceive(s, i, sender);
    case _ => RememberedIdle(s, a);
  }

  lemma RememberedIdle(s: System, a: Action)
    requires Remembered(s) && Enabled(s, a) && (a.Lose? || a.Tick? || a.Reconnect?)
    ensures Remembered(Apply(s, a))
  {
    match a
    case Lose(i) => RememberedSame(s, Apply(s, a));
    case Tick(n, now) => RememberedSame(s, Apply(s, a));
    case Reconnect(n, _, _, _) => RememberedSame(s, Apply(s, a));
  }

  lemma RememberedSubmit(s: System, n: Ip, msg: Message, sender: Option<nat>)
    requires Safe(s) && Remembered(s) && Enabled(s, Submit(n, msg, sender))
    ensures Remembered(Originate(s, n, Dispatch(s.hosts[n].daemon, s.hosts[n].clock, msg, sender)))
  {
    var d, now := s.hosts[n].daemon, s.hosts[n].clock;
    SubmitSafe(s, n, msg, sender);
    DispatchShape(d, now, msg, sender);
    BroadcastReceived(d, now, Onward(d, msg), OnwardList(d, msg));
    BroadcastCopies(d, now, Onward(d, msg), OnwardList(d, msg));
    RememberedOriginate(s, n, Dispatch(d, now, msg, sender));
  }

  lemma RememberedAnnounce(s: System, n: Ip, msg: Message)
    requires Safe(s) && Remembered(s) && Enabled(s, Announce(n, msg))
    ensures Remembered(Originate(s, n, Broadcast(s.hosts[n].daemon, s.hosts[n].clock, msg, [])))
  {
    var d, now := s.hosts[n].daemon, s.hosts[n].clock;
    OriginateSafe(s, n, msg, []);
    BroadcastReceived(d, now, msg, []);
    BroadcastCopies(d, now, msg, []);
    RememberedOriginate(s, n, Broadcast(d, now, msg, []));
  }

  lemma RememberedSame(s: System, t: System)
    requires Remembered(s) && t.hosts.Keys == s.hosts.Keys
    requires t.sent == s.sent && t.issued == s.issued && t.accepted == s.accepted
    requires forall n :: n in t.hosts ==> t.hosts[n].daemon.received == s.hosts[n].daemon.received
    ensures Remembered(t)
  {
    forall m, id | m in t.hosts && id in t.hosts[m].daemon.received ensures HasAccepted(t, m, id) {
      assert HasAccepted(s, m, id);
    }
  }

  lemma {:induction false} RunRemembers(s: System, acts: seq<Action>)
    requires Init(s) && IsRun(s, acts)
    ensures Remembered(Exec(s, acts))
  {
    if acts != [] {
      RunRemembers(s, acts[..|acts| - 1]);
      RunSafe(s, acts[..|acts| - 1]);
      RememberedStep(Exec(s, acts[..|acts| - 1]), acts[|acts| - 1]);
    }
  }

  // ---- how the links are used, step by step -------------------------------

  /** The daemon that issues a travelling broadcast sends it to all its neighbours. */
  lemma SpreadStart(s: System, n: Ip, msg: Message)
    requires Safe(s) && Remembered(s) && n in s.hosts && msg.tag.None? && Travels(msg)
    requires Broadcast(s.hosts[n].daemon, s.hosts[n].clock, msg, []).relays != []
    ensures var t := Originate(s, n, Broadcast(s.hosts[n].daemon, s.hosts[n].clock, msg, []));
            Spread(t, MsgId(s.hosts[n].daemon.serverName, s.hosts[n].daemon.sequence + 1))
  {
    var d, now := s.hosts[n].daemon, s.hosts[n].clock;
    var e := Broadcast(d, now, msg, []);
    var id := MsgId(d.serverName, d.sequence + 1);
    var t := Originate(s, n, e);
    var copy := Copy(d, now, msg, Targets(d, msg, []).informed);
    var flights := Launch(d, e.relays, [n]);
    BroadcastCopies(d, now, msg, []);
    BroadcastSetup(d, now, msg, []);
    FreshId(s, n);
    LaunchedTo(d, now, msg, [n]);
    LaunchedCopies(d, e.relays, [n], copy);
    assert e.relays[0] in e.relays;
    assert t.issued[id] == Issue(n, e.daemon.sequence, TagOf(copy).timeout, copy);
    assert Neighbours(t, n, msg.service) == Targets(d, msg, []).informed;
    UnissuedUnknown(s, id);
    FirstSent(s, t, id, flights);
    FirstCopies(t, id, flights);
  }

  lemma FirstSent(s: System, t: System, id: string, flights: seq<Flight>)
    requires forall p :: p in s.sent ==> p.1 != id
    requires forall f :: f in flights ==> IdOf(f.msg) == id
    requires t.sent == s.sent + set f | f in flights :: (f.to, IdOf(f.msg))
    ensures forall a: Ip :: (a, id) in t.sent <==> a in set f | f in flights :: f.to
  {}

  /** The first copies of an identifier, sent to exactly the neighbours of the daemon that issued it. */
  lemma FirstCopies(t: System, id: string, flights: seq<Flight>)
    requires id in t.issued && t.issued[id].origin in t.hosts && Travels(t.issued[id].msg)
    requires var n := t.issued[id].origin;
             var near := Neighbours(t, n, t.issued[id].msg.service);
             && (forall f :: f in flights ==> f.path == [n] && f.msg.tag.Some? && f.msg.tag.value.informed == near)
             && near == (set f | f in flights :: f.to)
    requires forall f :: f in t.net && IdOf(f.msg) == id ==> f in flights
    requires forall x :: x in t.accepted ==> x.id != id
    requires forall a: Ip :: (a, id) in t.sent <==> a in set f | f in flights :: f.to
    ensures Spread(t, id)
  {
    assert forall x :: !Forwarded(t, x, id);
    forall f | f in t.net && IdOf(f.msg) == id ensures GoodSpread(t, id, f) {
      assert f.to in set g | g in flights :: g.to;
      assert f.path[0] == t.issued[id].origin;
    }
  }

  lemma UnissuedUnknown(s: System, id: string)
    requires Safe(s) && Remembered(s) && id !in s.issued
    ensures forall f :: f in s.net ==> IdOf(f.msg) != id
    ensures forall x :: x in s.accepted ==> x.id != id
    ensures forall a: Ip :: (a, id) !in s.sent
  {
    forall f | f in s.net ensures IdOf(f.msg) != id { assert GoodCopy(s, f.msg, f.path); }
    forall x | x in s.accepted ensures x.id != id { assert GoodAcceptance(s, x); }
  }

  /** A new message under another identifier. */
  lemma OriginateUnaffected(s: System, n: Ip, e: Effect, id: string)
    requires Safe(s) && n in s.hosts && SameSetup(s.hosts[n].daemon, e) && id in s.issued
    requires LinksOf(s.hosts[n].daemon, e.relays)
    requires forall r :: r in e.relays ==> IdOf(r.msg) !in s.issued
    ensures Unaffected(s, Originate(s, n, e), id)
  {
    var flights := Launch(s.hosts[n].daemon, e.relays, [n]);
    forall f | f in flights ensures IdOf(f.msg) != id {
      var i :| 0 <= i < |flights| && flights[i] == f;
      assert e.relays[i] in e.relays;
    }
    if e.relays != [] { assert e.relays[0] in e.relays; }
  }

  /** A delivery that records nothing under this identifier. */
  lemma ReceiveUnaffected(s: System, i: nat, sender: Option<nat>, id: string)
    requires Safe(s) && Enabled(s, Deliver(i, sender)) && id in s.issued
    requires var f := s.net[i];
             var d := s.hosts[f.to].daemon;
             IdOf(f.msg) != id || !Recorded(d, Dispatch(d, s.hosts[f.to].clock, f.msg, sender), id)
    ensures Unaffected(s, Receive(s, i, sender), id)
  {
    var f := s.net[i];
    var d, now := s.hosts[f.to].daemon, s.hosts[f.to].clock;
    DispatchShape(d, now, f.msg, sender);
    DeliveredIds(s, i, sender);
    HandledUnaffected(s, i, Dispatch(d, now, f.msg, sender), id);
  }

  lemma HandledUnaffected(s: System, i: nat, e: Effect, id: string)
    requires i < |s.net| && s.net[i].to in s.hosts && id in s.issued
    requires var f := s.net[i];
             var d := s.hosts[f.to].daemon;
             && LinksOf(d, e.relays) && SameSetup(d, e)
             && (forall g :: g in Launch(d, e.relays, f.path + [f.to]) ==> IdOf(g.msg) == IdOf(f.msg))
             && (IdOf(f.msg) != id || (!Recorded(d, e, id) && e.relays == []))
    ensures Unaffected(s, Handled(s, i, e), id)
  {}

  /** The effect of a travelling copy that passes the gate. */
  lemma TravellerAccepted(s: System, i: nat, sender: Option<nat>)
    requires Safe(s) && Enabled(s, Deliver(i, sender))
    requires Travels(s.net[i].msg)
    requires var f := s.net[i];
             var d := s.hosts[f.to].daemon;
             Recorded(d, Dispatch(d, s.hosts[f.to].clock, f.msg, sender), IdOf(f.msg))
    ensures var f := s.net[i];
            var d, now := s.hosts[f.to].daemon, s.hosts[f.to].clock;
            && f.msg.tag.Some? && !Stale(d, now, f.msg.tag.value)
            && Dispatch(d, now, f.msg, sender) == Broadcast(d, now, f.msg, [])
  {
    var f := s.net[i];
    var d, now := s.hosts[f.to].daemon, s.hosts[f.to].clock;
    assert f in s.net && GoodCopy(s, f.msg, f.path);
    DispatchShape(d, now, f.msg, sender);
    DeliveredIds(s, i, sender);
  }

  /** The copies f goes on as: exactly to the neighbours that were not informed. */
  ghost predicate SentOn(s: System, f: Flight, id: string, flights: seq<Flight>)
    requires id in s.issued && f.to in s.hosts && f.msg.tag.Some?
  {
    var neighbours := Neighbours(s, f.to, s.issued[id].msg.service);
    && (forall g :: g in flights ==>
          && IdOf(g.msg) == id && g.path == f.path + [f.to] && g.msg.tag.Some?
          && |f.path| < 5
          && g.msg.tag.value.informed == f.msg.tag.value.informed + neighbours)
    && (set g | g in flights :: g.to) == (if |f.path| < 5 then neighbours else {}) - f.msg.tag.value.informed
  }

  ghost predicate GoesOn(s: System, t: System, f: Flight, id: string, flights: seq<Flight>)
    requires id in s.issued && f.to in s.hosts && f.msg.tag.Some?
  {
    && SameLinks(s, t) && id in t.issued && t.issued[id] == s.issued[id]
    && t.sent == s.sent + (set g | g in flights :: (g.to, IdOf(g.msg)))
    && t.accepted == s.accepted + [Acceptance(f.to, id, f.path)]
    && (forall g :: g in t.net && g !in s.net ==> g in flights)
    && SentOn(s, f, id, flights)
  }

  lemma SentByAccept(s: System, t: System, f: Flight, id: string, flights: seq<Flight>)
    requires Spread(s, id) && f in s.net && IdOf(f.msg) == id && f.to in s.hosts && GoodSpread(s, id, f)
    requires GoesOn(s, t, f, id, flights)
    ensures forall a: Ip :: (a, id) in t.sent <==> IsTarget(t, id, a)
    ensures forall a: Ip :: (a, id) in s.sent ==> (a, id) in t.sent
  {
    var service := s.issued[id].msg.service;
    var x := Acceptance(f.to, id, f.path);
    assert x in t.accepted;
    forall n | n in s.hosts ensures Neighbours(t, n, service) == Neighbours(s, n, service) {
      NeighboursSame(s, t, n, service);
    }
    assert forall y :: Forwarded(t, y, id) <==> Forwarded(s, y, id) || (y == x && |f.path| < 5);
    forall a: Ip ensures (a, id) in t.sent <==> IsTarget(t, id, a) {
      var tos := set g | g in flights :: g.to;
      assert (a, id) in t.sent <==> (a, id) in s.sent || a in tos;
      assert (a, id) in s.sent <==> IsTarget(s, id, a);
      if |f.path| < 5 && a in Neighbours(s, f.to, service) {
        assert Forwarded(t, x, id);
      }
    }
  }

  /** A copy sent on keeps what is known of the copy it comes from. */
  lemma OnwardSpread(s: System, t: System, id: string, f: Flight, g: Flight)
    requires Safe(s) && Spread(s, id) && f in s.net && IdOf(f.msg) == id && f.to in s.hosts
    requires GoodSpread(s, id, f) && GoodCopy(s, f.msg, f.path)
    requires SameLinks(s, t) && id in t.issued && t.issued[id] == s.issued[id]
    requires g.msg.tag.Some? && g.path == f.path + [f.to]
    requires var service := s.issued[id].msg.service;
             && g.to in Neighbours(s, f.to, service) && g.to !in f.msg.tag.value.informed
             && g.msg.tag.value.informed == f.msg.tag.value.informed + Neighbours(s, f.to, service)
    requires forall a: Ip :: (a, id) in s.sent ==> (a, id) in t.sent
    requires forall a: Ip :: a in Neighbours(s, f.to, s.issued[id].msg.service) ==> (a, id) in t.sent
    ensures GoodSpread(t, id, g)
  {
    var service := s.issued[id].msg.service;
    var informed := f.msg.tag.value.informed;
    assert f.path[0] == s.issued[id].origin && Neighbours(s, f.path[0], service) <= informed;
    assert f.to != f.path[0];
    WalkExtends(s, service, f.path + [f.to], g.to);
    LongerChordless(s, service, f.path, f.to, g.to);
    WalkSame(s, t, service, g.path + [g.to]);
    ChordlessSame(s, t, service, g.path + [g.to]);
    InformsMore(s, service, f.path, f.to, informed);
    InformsSame(s, t, service, g.path, g.msg.tag.value.informed);
    InformsOnlyMore(s, service, f.path, f.to, informed);
    InformsOnlySame(s, t, service, g.path, g.msg.tag.value.informed);
  }

  lemma InformsOnlyMore(s: System, service: string, path: seq<Ip>, last: Ip, informed: set<Ip>)
    requires InformsOnly(s, service, path, informed) && last in s.hosts
    ensures InformsOnly(s, service, path + [last], informed + Neighbours(s, last, service))
  {
    var longer := path + [last];
    forall a | a in informed + Neighbours(s, last, service) ensures KnownFrom(s, service, longer, a) {
      if a in informed {
        assert KnownFrom(s, service, path, a);
        var i :| 0 <= i < |path| && path[i] in s.hosts && a in Neighbours(s, path[i], service);
        assert longer[i] == path[i];
      } else {
        assert longer[|path|] == last;
      }
    }
  }

  lemma LongerChordless(s: System, service: string, path: seq<Ip>, last: Ip, next: Ip)
    requires Chordless(s, service, path + [last])
    requires forall i :: 0 <= i < |path| && path[i] in s.hosts ==> next !in Neighbours(s, path[i], service)
    ensures Chordless(s, service, path + [last] + [next])
  {
    var w, v := path + [last], path + [last] + [next];
    forall i, j | 0 <= i && i + 1 < j < |v| && v[i] in s.hosts ensures v[j] !in Neighbours(s, v[i], service) {
      if j < |w| { assert w[i] == v[i] && w[j] == v[j]; } else { assert v[i] == path[i]; }
    }
  }

  lemma InformsMore(s: System, service: string, path: seq<Ip>, last: Ip, informed: set<Ip>)
    requires Informs(s, service, path, informed) && last in s.hosts
    ensures Informs(s, service, path + [last], informed + Neighbours(s, last, service))
  {}

  /** The copies a daemon sends on when it accepts msg, seen from that daemon. */
  lemma CopiesOnward(d: Daemon, now: nat, msg: Message, path: seq<Ip>)
    requires Travels(msg) && msg.tag.Some? && !Stale(d, now, msg.tag.value)
    requires msg.tag.value.id != "" && msg.tag.value.timeout != 0
    ensures var flights := Launch(d, Broadcast(d, now, msg, []).relays, path);
            var neighbours := Addresses(d.connections, |d.connections|, msg.service == PUBLIC_BROADCAST, true);
            && (forall g :: g in flights ==>
                  && IdOf(g.msg) == msg.tag.value.id && g.path == path && g.msg.tag.Some?
                  && msg.tag.value.hops < 5
                  && g.msg.tag.value.informed == msg.tag.value.informed + neighbours)
            && (set g | g in flights :: g.to)
               == (if msg.tag.value.hops < 5 then neighbours else {}) - msg.tag.value.informed
  {
    var e := Broadcast(d, now, msg, []);
    var flights := Launch(d, e.relays, path);
    var copy := BroadcastAccepts(d, now, msg, msg, []);
    LaunchedTo(d, now, msg, path);
    LaunchedCopies(d, e.relays, path, copy);
    forall g | g in flights ensures msg.tag.value.hops < 5 {
      assert g.to in set h | h in flights :: h.to;
    }
  }

  lemma AcceptSentOn(s: System, i: nat, sender: Option<nat>, id: string)
    requires Safe(s) && Enabled(s, Deliver(i, sender)) && Spread(s, id) && IdOf(s.net[i].msg) == id
    requires var f := s.net[i];
             var d := s.hosts[f.to].daemon;
             Recorded(d, Dispatch(d, s.hosts[f.to].clock, f.msg, sender), id)
    ensures var f := s.net[i];
            var d := s.hosts[f.to].daemon;
            && f.msg.tag.Some?
            && SentOn(s, f, id, Launch(d, Dispatch(d, s.hosts[f.to].clock, f.msg, sender).relays, f.path + [f.to]))
  {
    var f := s.net[i];
    assert f in s.net && GoodCopy(s, f.msg, f.path) && GoodIssue(s, id);
    TravellerAccepted(s, i, sender);
    CopiesOnward(s.hosts[f.to].daemon, s.hosts[f.to].clock, f.msg, f.path + [f.to]);
  }

  lemma AcceptGoesOn(s: System, i: nat, sender: Option<nat>, id: string) returns (flights: seq<Flight>)
    requires Safe(s) && Enabled(s, Deliver(i, sender)) && Spread(s, id) && IdOf(s.net[i].msg) == id
    requires var f := s.net[i];
             var d := s.hosts[f.to].daemon;
             Recorded(d, Dispatch(d, s.hosts[f.to].clock, f.msg, sender), id)
    ensures s.net[i].msg.tag.Some?
    ensures GoesOn(s, Receive(s, i, sender), s.net[i], id, flights)
    ensures Receive(s, i, sender).net == Without(s.net, i) + flights
  {
    var f := s.net[i];
    var d, now := s.hosts[f.to].daemon, s.hosts[f.to].clock;
    AcceptSentOn(s, i, sender, id);
    LinksStep(s, Deliver(i, sender));
    flights := Launch(d, Dispatch(d, now, f.msg, sender).relays, f.path + [f.to]);
    AcceptedState(s, i, Dispatch(d, now, f.msg, sender), id);
  }

  /** The cluster after a copy was accepted. */
  lemma AcceptedState(s: System, i: nat, e: Effect, id: string)
    requires i < |s.net| && s.net[i].to in s.hosts && LinksOf(s.hosts[s.net[i].to].daemon, e.relays)
    requires IdOf(s.net[i].msg) == id && Recorded(s.hosts[s.net[i].to].daemon, e, id)
    ensures var f, t := s.net[i], Handled(s, i, e);
            var flights := Launch(s.hosts[f.to].daemon, e.relays, f.path + [f.to]);
            && t.issued == s.issued && t.net == Without(s.net, i) + flights
            && t.sent == s.sent + (set g | g in flights :: (g.to, IdOf(g.msg)))
            && t.accepted == s.accepted + [Acceptance(f.to, id, f.path)]
            && forall g :: g in t.net && g !in s.net ==> g in flights
  {}

  /** A copy of the identifier passes the gate: the neighbours of the daemon are
      sent one, unless five hops were made. */
  lemma {:induction false} SpreadAccept(s: System, i: nat, sender: Option<nat>, id: string)
    requires Safe(s) && Enabled(s, Deliver(i, sender)) && Spread(s, id) && IdOf(s.net[i].msg) == id
    requires var f := s.net[i];
             var d := s.hosts[f.to].daemon;
             Recorded(d, Dispatch(d, s.hosts[f.to].clock, f.msg, sender), id)
    ensures Spread(Receive(s, i, sender), id)
  {
    var flights := AcceptGoesOn(s, i, sender, id);
    var f, t := s.net[i], Receive(s, i, sender);
    var service := s.issued[id].msg.service;
    assert f in s.net && GoodCopy(s, f.msg, f.path) && GoodSpread(s, id, f);
    SentByAccept(s, t, f, id, flights);
    forall g | g in t.net && IdOf(g.msg) == id ensures GoodSpread(t, id, g) {
      if g in s.net {
        GoodSpreadSame(s, t, id, g);
      } else {
        SentOnward(s, t, id, f, g, flights);
      }
    }
    forall x | x in t.accepted && x.id == id ensures GoodChain(t, service, x.path, x.node) {
      WalkSame(s, t, service, x.path + [x.node]);
      ChordlessSame(s, t, service, x.path + [x.node]);
    }
  }

  lemma SentOnward(s: System, t: System, id: string, f: Flight, g: Flight, flights: seq<Flight>)
    requires Safe(s) && Spread(s, id) && f in s.net && IdOf(f.msg) == id && f.to in s.hosts
    requires GoodSpread(s, id, f) && GoodCopy(s, f.msg, f.path)
    requires GoesOn(s, t, f, id, flights) && g in flights
    requires forall a: Ip :: (a, id) in s.sent ==> (a, id) in t.sent
    ensures GoodSpread(t, id, g)
  {
    var tos := set h | h in flights :: h.to;
    assert g.to in tos;
    forall a: Ip | a in Neighbours(s, f.to, s.issued[id].msg.service) ensures (a, id) in t.sent {
      if a in f.msg.tag.value.informed {
        assert (a, id) in s.sent;
      } else {
        assert a in tos;
        var h :| h in flights && h.to == a;
      }
    }
    OnwardSpread(s, t, id, f, g);
  }

  lemma SpreadReceive(s: System, i: nat, sender: Option<nat>, id: string)
    requires Safe(s) && Enabled(s, Deliver(i, sender)) && Spread(s, id)
    ensures Spread(Receive(s, i, sender), id)
  {
    var f := s.net[i];
    var d := s.hosts[f.to].daemon;
    if IdOf(f.msg) == id && Recorded(d, Dispatch(d, s.hosts[f.to].clock, f.msg, sender), id) {
      SpreadAccept(s, i, sender, id);
    } else {
      ReceiveUnaffected(s, i, sender, id);
      SpreadSame(s, Receive(s, i, sender), id);
    }
  }

  lemma SpreadOriginate(s: System, n: Ip, e: Effect, m: Message, list: seq<nat>, id: string)
    requires Safe(s) && Remembered(s) && n in s.hosts && m.tag.None?
    requires ValidList(s.hosts[n].daemon.connections, list)
    requires e == Broadcast(s.hosts[n].daemon, s.hosts[n].clock, m, list)
    requires IsBroadcast(m.service) ==> list == []
    requires id in s.issued ==> Spread(s, id)
    requires id in Originate(s, n, e).issued && Travels(Originate(s, n, e).issued[id].msg)
    ensures Spread(Originate(s, n, e), id)
  {
    var d, now := s.hosts[n].daemon, s.hosts[n].clock;
    var t := Originate(s, n, e);
    BroadcastCopies(d, now, m, list);
    BroadcastSetup(d, now, m, list);
    if id in s.issued {
      NewIds(s, n, m, list);
      OriginateUnaffected(s, n, e, id);
      SpreadSame(s, t, id);
    } else {
      SpreadIssued(s, n, e, m, list, id);
    }
  }

  lemma SpreadIssued(s: System, n: Ip, e: Effect, m: Message, list: seq<nat>, id: string)
    requires Safe(s) && Remembered(s) && n in s.hosts && m.tag.None?
    requires ValidList(s.hosts[n].daemon.connections, list)
    requires e == Broadcast(s.hosts[n].daemon, s.hosts[n].clock, m, list)
    requires IsBroadcast(m.service) ==> list == []
    requires id !in s.issued && id in Originate(s, n, e).issued && Travels(Originate(s, n, e).issued[id].msg)
    ensures Spread(Originate(s, n, e), id)
  {
    IssuedTravels(s, n, e, m, list, id);
    SpreadStart(s, n, m);
  }

  lemma IssuedTravels(s: System, n: Ip, e: Effect, m: Message, list: seq<nat>, id: string)
    requires Safe(s) && n in s.hosts && m.tag.None?
    requires ValidList(s.hosts[n].daemon.connections, list)
    requires e == Broadcast(s.hosts[n].daemon, s.hosts[n].clock, m, list)
    requires id !in s.issued && id in Originate(s, n, e).issued && Travels(Originate(s, n, e).issued[id].msg)
    ensures e.relays != [] && Travels(m)
    ensures id == MsgId(s.hosts[n].daemon.serverName, s.hosts[n].daemon.sequence + 1)
  {
    BroadcastCopies(s.hosts[n].daemon, s.hosts[n].clock, m, list);
    assert e.relays != [] && e.relays[0] in e.relays;
    assert Originate(s, n, e).issued[id].msg == e.relays[0].msg;
  }

  lemma SpreadSubmit(s: System, n: Ip, msg: Message, sender: Option<nat>, id: string)
    requires Safe(s) && Remembered(s) && Enabled(s, Submit(n, msg, sender))
    requires id in s.issued && Travels(s.issued[id].msg) ==> Spread(s, id)
    requires id in Apply(s, Submit(n, msg, sender)).issued
    requires Travels(Apply(s, Submit(n, msg, sender)).issued[id].msg)
    requires id in s.issued ==> Apply(s, Submit(n, msg, sender)).issued[id] == s.issued[id]
    ensures Spread(Apply(s, Submit(n, msg, sender)), id)
  {
    var d, now := s.hosts[n].daemon, s.hosts[n].clock;
    var e := Dispatch(d, now, msg, sender);
    DispatchShape(d, now, msg, sender);
    if Quiet(d, e) {
      assert Launch(d, e.relays, [n]) == [];
      OriginateUnaffected(s, n, e, id);
      SpreadSame(s, Originate(s, n, e), id);
    } else {
      SpreadOriginate(s, n, e, Onward(d, msg), OnwardList(d, msg), id);
    }
  }

  lemma SpreadStep(s: System, a: Action, id: string)
    requires Safe(s) && Remembered(s) && Enabled(s, a) && !a.Reconnect?
    requires id in s.issued && Travels(s.issued[id].msg) ==> Spread(s, id)
    requires id in Apply(s, a).issued && Travels(Apply(s, a).issued[id].msg)
    requires id in s.issued ==> Apply(s, a).issued[id] == s.issued[id]
    ensures Spread(Apply(s, a), id)
  {
    match a {
      case Submit(n, msg, sender) => SpreadSubmit(s, n, msg, sender, id);
      case Announce(n, msg) =>
        SpreadOriginate(s, n, Broadcast(s.hosts[n].daemon, s.hosts[n].clock, msg, []), msg, [], id);
      case Deliver(i, sender) => SpreadReceive(s, i, sender, id);
      case Lose(i) => SpreadIdle(s, a, id);
      case Tick(n, now) => SpreadIdle(s, a, id);
    }
  }

  lemma SpreadIdle(s: System, a: Action, id: string)
    requires Spread(s, id) && Enabled(s, a) && (a.Lose? || a.Tick?)
    ensures Spread(Apply(s, a), id)
  {
    assert Unaffected(s, Apply(s, a), id);
    SpreadSame(s, Apply(s, a), id);
  }

  lemma LinksCommit(s: System, n: Ip, e: Effect, path: seq<Ip>)
    requires n in s.hosts && SameSetup(s.hosts[n].daemon, e) && LinksOf(s.hosts[n].daemon, e.relays)
    ensures SameLinks(s, Commit(s, n, e, path))
  {}

  lemma LinksStep(s: System, a: Action)
    requires Enabled(s, a) && !a.Reconnect?
    ensures SameLinks(s, Apply(s, a))
  {
    match a {
      case Submit(n, msg, sender) =>
        DispatchShape(s.hosts[n].daemon, s.hosts[n].clock, msg, sender);
        LinksCommit(s, n, Dispatch(s.hosts[n].daemon, s.hosts[n].clock, msg, sender), [n]);
      case Announce(n, msg) =>
        BroadcastSetup(s.hosts[n].daemon, s.hosts[n].clock, msg, []);
        LinksCommit(s, n, Broadcast(s.hosts[n].daemon, s.hosts[n].clock, msg, []), [n]);
      case Deliver(i, sender) =>
        var f := s.net[i];
        DispatchShape(s.hosts[f.to].daemon, s.hosts[f.to].clock, f.msg, sender);
        LinksCommit(s, f.to, Dispatch(s.hosts[f.to].daemon, s.hosts[f.to].clock, f.msg, sender), f.path + [f.to]);
      case Lose(i) => LinksIdle(s, a);
      case Tick(n, now) => LinksIdle(s, a);
    }
  }

  lemma LinksIdle(s: System, a: Action)
    requires Enabled(s, a) && (a.Lose? || a.Tick?)
    ensures SameLinks(s, Apply(s, a))
  {}

  lemma {:induction false} RunLinks(s: System, acts: seq<Action>)
    requires IsRun(s, acts) && Static(acts)
    ensures SameLinks(s, Exec(s, acts))
  {
    if acts != [] {
      var a := acts[|acts| - 1];
      assert a in acts;
      RunLinks(s, acts[..|acts| - 1]);
      LinksStep(Exec(s, acts[..|acts| - 1]), a);
    }
  }

  /** While the links stay as they are, every travelling broadcast spreads as Spread says. */
  lemma {:induction false} RunSpreads(s: System, acts: seq<Action>, id: string)
    requires Init(s) && IsRun(s, acts) && Static(acts)
    requires id in Exec(s, acts).issued && Travels(Exec(s, acts).issued[id].msg)
    ensures Spread(Exec(s, acts), id)
  {
    var before := acts[..|acts| - 1];
    var p, a := Exec(s, before), acts[|acts| - 1];
    assert a in acts;
    RunSafe(s, before);
    RunRemembers(s, before);
    StepSafe(p, a);
    if id in p.issued {
      RunSpreads(s, before, id);
    }
    SpreadStep(p, a, id);
  }
}
