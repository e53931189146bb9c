/** Whom a broadcast has reached when none of its copies is left in flight, and
    how far it can go at all. */
module FloodReach {
  import opened Basics
  import opened Messages
  import opened DaemonSpec
  import opened DaemonLaws
  import opened FloodSystem
  import opened FloodSafety
  import opened FloodTermination
  import opened FloodCoverage

  /** Links stay as they are and no copy is lost. */
  ghost predicate Reliable(acts: seq<Action>) {
    forall a :: a in acts ==> !a.Reconnect? && !a.Lose?
  }

  ghost predicate AllUp(s: System) {
    forall n :: n in s.hosts ==> !s.hosts[n].daemon.shutdown
  }

  /** No copy of the identifier is out of date for the clock of the daemon it goes to. */
  ghost predicate OnTime(s: System, id: string) {
    forall f :: f in s.net && IdOf(f.msg) == id && f.to in s.hosts ==> TagOf(f.msg).timeout >= s.hosts[f.to].clock
  }

  ghost predicate AlwaysOnTime(s: System, acts: seq<Action>, id: string)
    requires IsRun(s, acts)
    decreases |acts|
  {
    OnTime(Exec(s, acts), id) && (acts == [] || AlwaysOnTime(s, acts[..|acts| - 1], id))
  }

  ghost predicate Quiescent(s: System, id: string) {
    forall f :: f in s.net ==> IdOf(f.msg) != id
  }

  ghost predicate OnItsWay(s: System, a: Ip, id: string) {
    exists f :: f in s.net && f.to == a && IdOf(f.msg) == id
  }

  /** Whoever was sent a copy has accepted one or has one coming. */
  ghost predicate Carried(s: System, id: string) {
    forall a: Ip :: (a, id) in s.sent && a in s.hosts ==> HasAccepted(s, a, id) || OnItsWay(s, a, id)
  }

  // ---- reliable delivery --------------------------------------------------

  /** A travelling copy that is delivered in time leaves the identifier accepted. */
  lemma DeliveredMeansAccepted(s: System, i: nat, sender: Option<nat>)
    requires Safe(s) && Remembered(s) && Enabled(s, Deliver(i, sender)) && AllUp(s)
    requires OnTime(s, IdOf(s.net[i].msg))
    requires IdOf(s.net[i].msg) in s.issued && Travels(s.issued[IdOf(s.net[i].msg)].msg)
    ensures HasAccepted(Receive(s, i, sender), s.net[i].to, IdOf(s.net[i].msg))
  {
    var f := s.net[i];
    var d, now, id := s.hosts[f.to].daemon, s.hosts[f.to].clock, IdOf(f.msg);
    assert f in s.net && GoodCopy(s, f.msg, f.path);
    if Stale(d, now, f.msg.tag.value) {
      assert HasAccepted(s, f.to, id);
      DeliverSafe(s, i, sender);
      AcceptedStays(s, Receive(s, i, sender), f.to, id);
    } else {
      assert f.msg.service != COMMUNICATORD && f.msg.service != "";
      assert Dispatch(d, now, f.msg, sender) == Broadcast(d, now, f.msg, []);
      BroadcastReceived(d, now, f.msg, []);
      assert Acceptance(f.to, id, f.path) in Receive(s, i, sender).accepted;
    }
  }

  /** What a step adds to what was sent, it also puts in flight. */
  ghost predicate SentInFlight(s: System, t: System) {
    forall p :: p in t.sent && p !in s.sent ==> OnItsWay(t, p.0, p.1)
  }

  lemma CommitSends(s: System, n: Ip, e: Effect, path: seq<Ip>)
    requires n in s.hosts && LinksOf(s.hosts[n].daemon, e.relays)
    ensures SentInFlight(s, Commit(s, n, e, path))
  {
    var t := Commit(s, n, e, path);
    forall p | p in t.sent && p !in s.sent ensures OnItsWay(t, p.0, p.1) {
      var f :| f in Launch(s.hosts[n].daemon, e.relays, path) && p == (f.to, IdOf(f.msg));
      assert f in t.net;
    }
  }

  lemma CarriedForward(s: System, t: System, id: string)
    requires Carried(s, id) && Grows(s, t) && SentInFlight(s, t)
    requires forall f :: f in s.net && IdOf(f.msg) == id ==> f in t.net || HasAccepted(t, f.to, id)
    ensures Carried(t, id)
  {
    forall a: Ip | (a, id) in t.sent && a in t.hosts ensures HasAccepted(t, a, id) || OnItsWay(t, a, id) {
      if (a, id) in s.sent {
        if HasAccepted(s, a, id) {
          AcceptedStays(s, t, a, id);
        } else {
          var f :| f in s.net && f.to == a && IdOf(f.msg) == id;
          assert f in t.net || HasAccepted(t, f.to, id);
        }
      }
    }
  }

  lemma CarriedReceive(s: System, i: nat, sender: Option<nat>, id: string)
    requires Safe(s) && Remembered(s) && Enabled(s, Deliver(i, sender)) && AllUp(s) && OnTime(s, id)
    requires id in s.issued ==> Travels(s.issued[id].msg)
    requires Carried(s, id)
    ensures Carried(Receive(s, i, sender), id)
  {
    var f, t := s.net[i], Receive(s, i, sender);
    var d := s.hosts[f.to].daemon;
    var r := s.(net := Without(s.net, i));
    DeliverSafe(s, i, sender);
    CommitSends(r, f.to, Dispatch(d, s.hosts[f.to].clock, f.msg, sender), f.path + [f.to]);
    assert f in s.net && GoodCopy(s, f.msg, f.path);
    if IdOf(f.msg) == id {
      DeliveredMeansAccepted(s, i, sender);
    }
    forall g | g in s.net && IdOf(g.msg) == id ensures g in t.net || HasAccepted(t, g.to, id) {
      if g != f {
        assert g in r.net;
      }
    }
    assert SentInFlight(s, t) by {
      assert forall p :: p in t.sent && p !in s.sent ==> OnItsWay(t, p.0, p.1);
    }
    CarriedForward(s, t, id);
  }

  lemma CarriedOriginate(s: System, n: Ip, e: Effect, id: string)
    requires n in s.hosts && LinksOf(s.hosts[n].daemon, e.relays)
    requires Carried(s, id) && Grows(s, Originate(s, n, e))
    ensures Carried(Originate(s, n, e), id)
  {
    CommitSends(s, n, e, [n]);
    CarriedForward(s, Originate(s, n, e), id);
  }

  lemma CarriedStep(s: System, a: Action, id: string)
    requires Safe(s) && Remembered(s) && Enabled(s, a) && !a.Reconnect? && !a.Lose?
    requires AllUp(s) && OnTime(s, id)
    requires id in s.issued ==> Travels(s.issued[id].msg)
    requires Carried(s, id)
    ensures Carried(Apply(s, a), id)
  {
    var t := Apply(s, a);
    StepSafe(s, a);
    match a {
      case Submit(n, msg, sender) =>
        CarriedOriginate(s, n, Dispatch(s.hosts[n].daemon, s.hosts[n].clock, msg, sender), id);
      case Announce(n, msg) =>
        CarriedOriginate(s, n, Broadcast(s.hosts[n].daemon, s.hosts[n].clock, msg, []), id);
      case Deliver(i, sender) => CarriedReceive(s, i, sender, id);
      case Tick(n, now) => CarriedForward(s, t, id);
    }
  }

  lemma {:induction false} RunCarries(s: System, acts: seq<Action>, id: string)
    requires Init(s) && IsRun(s, acts) && Reliable(acts) && AllUp(s) && AlwaysOnTime(s, acts, id)
    requires id in Exec(s, acts).issued ==> Travels(Exec(s, acts).issued[id].msg)
    ensures Carried(Exec(s, acts), id)
  {
    if acts != [] {
      var before := acts[..|acts| - 1];
      var p, a := Exec(s, before), acts[|acts| - 1];
      assert a in acts;
      RunSafe(s, before);
      RunRemembers(s, before);
      StepSafe(p, a);
      RunCarries(s, before, id);
      RunLinks(s, before);
      CarriedStep(p, a, id);
    }
  }

  // ---- the main results ---------------------------------------------------

  /** Who was sent a copy, exactly: the neighbours of the originator and of every
      daemon that accepted the broadcast at fewer than five hops. */
  lemma {:induction false} SentExactly(s: System, acts: seq<Action>, id: string, a: Ip)
    requires Init(s) && IsRun(s, acts) && Static(acts)
    requires id in Exec(s, acts).issued && Travels(Exec(s, acts).issued[id].msg)
    ensures var t := Exec(s, acts);
            t.issued[id].origin in t.hosts && ((a, id) in t.sent <==> IsTarget(t, id, a))
  {
    RunSpreads(s, acts, id);
  }

  /** An address in the informed list of a copy was really sent a copy. */
  lemma {:induction false} InformedWereSent(s: System, acts: seq<Action>, f: Flight, a: Ip)
    requires Init(s) && IsRun(s, acts) && Static(acts)
    requires f in Exec(s, acts).net && Travels(f.msg) && a in TagOf(f.msg).informed
    ensures (a, IdOf(f.msg)) in Exec(s, acts).sent
  {
    var t := Exec(s, acts);
    RunSafe(s, acts);
    assert GoodCopy(t, f.msg, f.path);
    RunSpreads(s, acts, IdOf(f.msg));
    assert GoodSpread(t, IdOf(f.msg), f);
  }

  /** With static links no daemon is twice in the chain of a copy, the originator included. */
  lemma {:induction false} ChainNeverRepeats(s: System, acts: seq<Action>, f: Flight)
    requires Init(s) && IsRun(s, acts) && Static(acts)
    requires f in Exec(s, acts).net && Travels(f.msg)
    ensures forall i, j :: 0 <= i < j < |f.path| ==> f.path[i] != f.path[j]
    ensures IsWalk(s, f.msg.service, f.path + [f.to])
  {
    var t := Exec(s, acts);
    RunSafe(s, acts);
    RunLinks(s, acts);
    assert GoodCopy(t, f.msg, f.path);
    RunSpreads(s, acts, IdOf(f.msg));
    ChainInState(t, f);
    WalkSame(t, s, f.msg.service, f.path + [f.to]);
  }

  lemma ChainInState(s: System, f: Flight)
    requires Safe(s) && f in s.net && Spread(s, IdOf(f.msg))
    ensures forall i, j :: 0 <= i < j < |f.path| ==> f.path[i] != f.path[j]
    ensures IsWalk(s, f.msg.service, f.path + [f.to])
  {
    assert GoodCopy(s, f.msg, f.path) && GoodSpread(s, IdOf(f.msg), f);
    DistinctForwarders(s, IdOf(f.msg), f.path);
  }

  /** The setting of the results below: a travelling broadcast, in a run without
      losses, reconnections, shutdowns or timeouts, with none of its copies left in flight. */
  ghost predicate Settled(s: System, acts: seq<Action>, id: string) {
    && Init(s) && IsRun(s, acts) && Reliable(acts) && AllUp(s) && AlwaysOnTime(s, acts, id)
    && id in Exec(s, acts).issued && Travels(Exec(s, acts).issued[id].msg)
    && Quiescent(Exec(s, acts), id)
  }

  /** The whole of a daemon's links was offered: it accepted at fewer than five hops. */
  lemma AcceptedFrom(s: System, id: string, a: Acceptance)
    requires Safe(s) && Spread(s, id) && a in s.accepted && a.id == id
    ensures a.node in s.hosts && IsTarget(s, id, a.node)
  {
    assert GoodAcceptance(s, a);
    var w, k := a.path + [a.node], |a.path| - 1;
    assert w[k] in s.hosts && w[k + 1] in Neighbours(s, w[k], s.issued[id].msg.service);
    if k > 0 {
      assert Acceptance(a.path[k], id, a.path[..k]) in s.accepted;
      assert Forwarded(s, Acceptance(a.path[k], id, a.path[..k]), id);
    }
  }

  /** Reached, exactly: a daemon has accepted the broadcast if and only if it is a
      neighbour of the originator or of a daemon that accepted it at fewer than five hops. */
  lemma {:induction false} ReachedExactly(s: System, acts: seq<Action>, id: string, n: Ip)
    requires Settled(s, acts, id) && n in s.hosts
    ensures var t := Exec(s, acts);
            && t.issued[id].origin in t.hosts
            && (HasAccepted(t, n, id) <==> IsTarget(t, id, n))
  {
    var t := Exec(s, acts);
    RunSafe(s, acts);
    RunSpreads(s, acts, id);
    RunCarries(s, acts, id);
    RunLinks(s, acts);
    if IsTarget(t, id, n) {
      assert (n, id) in t.sent;
    }
    if HasAccepted(t, n, id) {
      var a :| a in t.accepted && a.node == n && a.id == id;
      AcceptedFrom(t, id, a);
    }
  }

  ghost predicate Connected(s: System, service: string) {
    forall m, n :: m in s.hosts && n in s.hosts ==> Joined(s, service, m, n)
  }

  ghost predicate Joined(s: System, service: string, m: Ip, n: Ip) {
    exists w :: IsWalk(s, service, w) && w[0] == m && w[|w| - 1] == n
  }

  ghost function Reached(s: System, id: string): set<Ip>
    requires id in s.issued
  {
    set n | n in s.hosts && (n == s.issued[id].origin || HasAccepted(s, n, id))
  }

  /** A set of daemons that keeps its neighbours holds every walk that starts in it. */
  lemma {:induction false} WalkStays(s: System, service: string, w: seq<Ip>, r: set<Ip>)
    requires IsWalk(s, service, w) && w[0] in r && w[|w| - 1] in s.hosts
    requires forall n, a :: n in r && n in s.hosts && a in s.hosts && a in Neighbours(s, n, service) ==> a in r
    ensures w[|w| - 1] in r
  {
    if |w| > 1 {
      assert w[0] in s.hosts && w[1] in Neighbours(s, w[0], service);
      if |w| > 2 {
        assert w[1] in s.hosts;
      }
      var v := w[1..];
      forall i | 0 <= i < |v| - 1 ensures v[i] in s.hosts && v[i + 1] in Neighbours(s, v[i], service) {
        assert w[i + 1] in s.hosts && w[i + 2] in Neighbours(s, w[i + 1], service);
      }
      WalkStays(s, service, v, r);
    }
  }

  /** On a connected cluster a set with the originator that keeps its neighbours is everybody. */
  lemma ClosedCovers(s: System, service: string, origin: Ip, r: set<Ip>)
    requires Connected(s, service) && origin in s.hosts && origin in r && r <= s.hosts.Keys
    requires forall n, a :: n in r && n in s.hosts && a in s.hosts && a in Neighbours(s, n, service) ==> a in r
    ensures r == s.hosts.Keys
  {
    forall n | n in s.hosts ensures n in r {
      assert Joined(s, service, origin, n);
      var w :| IsWalk(s, service, w) && w[0] == origin && w[|w| - 1] == n;
      WalkStays(s, service, w, r);
    }
  }

  /** Whom a copy was meant for has accepted one. */
  ghost predicate TargetsServed(s: System, id: string)
    requires id in s.issued && s.issued[id].origin in s.hosts
  {
    forall a :: a in s.hosts && IsTarget(s, id, a) ==> HasAccepted(s, a, id)
  }

  lemma SettledState(s: System, acts: seq<Action>, id: string)
    requires Settled(s, acts, id)
    ensures var t := Exec(s, acts);
            Safe(t) && Spread(t, id) && SameLinks(s, t) && TargetsServed(t, id)
  {
    var t := Exec(s, acts);
    RunSafe(s, acts);
    RunSpreads(s, acts, id);
    RunLinks(s, acts);
    forall a | a in t.hosts && IsTarget(t, id, a) ensures HasAccepted(t, a, id) {
      ReachedExactly(s, acts, id, a);
    }
  }

  lemma ConnectedSame(s: System, t: System, service: string)
    requires SameLinks(s, t) && Connected(s, service)
    ensures Connected(t, service)
  {
    forall m, n | m in t.hosts && n in t.hosts ensures Joined(t, service, m, n) {
      assert Joined(s, service, m, n);
      var w :| IsWalk(s, service, w) && w[0] == m && w[|w| - 1] == n;
      WalkSame(s, t, service, w);
    }
  }

  /** On a connected cluster of any size: unless some daemon first heard of it at
      the fifth hop, everybody has been reached. */
  lemma {:induction false} CoveredUnlessFar(s: System, acts: seq<Action>, id: string)
    requires Settled(s, acts, id) && Connected(s, Exec(s, acts).issued[id].msg.service)
    requires forall a :: a in Exec(s, acts).accepted && a.id == id && a.node != Exec(s, acts).issued[id].origin
               ==> |a.path| < 5
    ensures Reached(Exec(s, acts), id) == s.hosts.Keys
  {
    var t := Exec(s, acts);
    var service, origin := t.issued[id].msg.service, t.issued[id].origin;
    var r := Reached(t, id);
    SettledState(s, acts, id);
    ConnectedSame(s, t, service);
    forall n, a | n in r && n in t.hosts && a in t.hosts && a in Neighbours(t, n, service) ensures a in r {
      if n != origin {
        var x :| x in t.accepted && x.node == n && x.id == id;
        assert Forwarded(t, x, id);
      }
      assert IsTarget(t, id, a);
    }
    ClosedCovers(t, service, origin, r);
  }

  ghost predicate AllHosts(s: System, w: seq<Ip>) {
    forall i :: 0 <= i < |w| ==> w[i] in s.hosts
  }

  /** A chain that a broadcast of the originator can take: it never goes where an
      earlier daemon of the chain had a link to, nor back to the originator. */
  ghost predicate IsChain(s: System, service: string, origin: Ip, w: seq<Ip>) {
    && IsWalk(s, service, w) && AllHosts(s, w)
    && w[0] == origin && OriginFirst(w) && Chordless(s, service, w)
  }

  /** No chain makes more than five hops. */
  ghost predicate ShortChains(s: System, service: string, origin: Ip) {
    forall w :: IsChain(s, service, origin, w) ==> |w| <= 6
  }

  /** The neighbours of a daemon that accepted at the fifth hop: a chain of six
      hops would go there, unless an earlier daemon of the chain had the link. */
  lemma BeyondFifthHop(s: System, id: string, x: Acceptance, a: Ip)
    requires Safe(s) && Spread(s, id) && x in s.accepted && x.id == id && |x.path| >= 5
    requires var service, origin := s.issued[id].msg.service, s.issued[id].origin;
             && ShortChains(s, service, origin) && x.node != origin && a != origin
             && a in s.hosts && a in Neighbours(s, x.node, service)
    ensures IsTarget(s, id, a)
  {
    var service := s.issued[id].msg.service;
    assert GoodAcceptance(s, x) && GoodChain(s, service, x.path, x.node);
    if i :| 0 <= i < |x.path| && x.path[i] in s.hosts && a in Neighbours(s, x.path[i], service) {
      ForwarderTarget(s, id, x, i, a);
    } else {
      NextInChain(s, service, x.path, x.node, a);
    }
  }

  /** The neighbours of a daemon in the middle of a chain are sent the broadcast. */
  lemma ForwarderTarget(s: System, id: string, x: Acceptance, i: nat, a: Ip)
    requires Safe(s) && Spread(s, id) && x in s.accepted && x.id == id
    requires i < |x.path| && x.path[i] in s.hosts && a in Neighbours(s, x.path[i], s.issued[id].msg.service)
    ensures IsTarget(s, id, a)
  {
    assert GoodAcceptance(s, x);
    if i > 0 { assert Forwarded(s, Acceptance(x.path[i], id, x.path[..i]), id); }
  }

  /** A chain goes on to any neighbour that no earlier daemon of it has a link to. */
  lemma NextInChain(s: System, service: string, path: seq<Ip>, last: Ip, a: Ip)
    requires path != [] && GoodChain(s, service, path, last) && last in s.hosts && last != path[0]
    requires a in s.hosts && a != path[0] && a in Neighbours(s, last, service)
    requires forall i :: 0 <= i < |path| && path[i] in s.hosts ==> a !in Neighbours(s, path[i], service)
    ensures IsChain(s, service, path[0], path + [last] + [a])
  {
    var w, v := path + [last], path + [last] + [a];
    WalkExtends(s, service, w, a);
    LongerChordless(s, service, path, last, a);
    forall i | 0 <= i < |v| ensures v[i] in s.hosts {
      if i < |w| - 1 { assert w[i] in s.hosts; }
    }
  }

  /** Coverage from the links alone: on a connected cluster of any size where no
      chain from the originator makes more than five hops, everybody has been
      reached when no copy is in flight. */
  lemma {:induction false} CoveredWhenShort(s: System, acts: seq<Action>, id: string)
    requires Settled(s, acts, id) && Connected(s, Exec(s, acts).issued[id].msg.service)
    requires ShortChains(s, Exec(s, acts).issued[id].msg.service, Exec(s, acts).issued[id].origin)
    ensures Reached(Exec(s, acts), id) == s.hosts.Keys
  {
    var t := Exec(s, acts);
    var service, origin := t.issued[id].msg.service, t.issued[id].origin;
    SettledState(s, acts, id);
    ConnectedSame(s, t, service);
    ShortSame(s, t, service, origin);
    CoveredState(t, id);
  }

  lemma CoveredState(s: System, id: string)
    requires Safe(s) && Spread(s, id) && TargetsServed(s, id) && Connected(s, s.issued[id].msg.service)
    requires ShortChains(s, s.issued[id].msg.service, s.issued[id].origin)
    ensures Reached(s, id) == s.hosts.Keys
  {
    var service, origin := s.issued[id].msg.service, s.issued[id].origin;
    var r := Reached(s, id);
    forall n, a | n in r && n in s.hosts && a in s.hosts && a in Neighbours(s, n, service) ensures a in r {
      if n != origin && a != origin {
        var x :| x in s.accepted && x.node == n && x.id == id;
        if |x.path| < 5 {
          assert Forwarded(s, x, id);
        } else {
          BeyondFifthHop(s, id, x, a);
        }
      }
      assert a == origin || IsTarget(s, id, a);
    }
    ClosedCovers(s, service, origin, r);
  }

  lemma ShortSame(s: System, t: System, service: string, origin: Ip)
    requires SameLinks(s, t) && ShortChains(s, service, origin)
    ensures ShortChains(t, service, origin)
  {
    forall w | IsChain(t, service, origin, w) ensures |w| <= 6 {
      WalkSame(t, s, service, w);
      ChordlessSame(t, s, service, w);
      assert IsChain(s, service, origin, w);
    }
  }

  ghost predicate Simple(w: seq<Ip>) {
    forall i, j :: 0 <= i < j < |w| ==> w[i] != w[j]
  }

  /** A chain has no repetitions. */
  lemma ChainDistinct(s: System, service: string, origin: Ip, w: seq<Ip>)
    requires IsChain(s, service, origin, w)
    ensures Simple(w)
  {
    forall i, j | 0 <= i < j < |w| ensures w[i] != w[j] {
      if i > 0 { assert w[i - 1] in s.hosts && w[i - 1 + 1] in Neighbours(s, w[i - 1], service); }
    }
  }

  /** So it is enough that no walk without repetitions has more than six daemons. */
  lemma SimpleWalksSuffice(s: System, service: string, origin: Ip)
    requires forall w :: IsWalk(s, service, w) && AllHosts(s, w) && w[0] == origin && Simple(w) ==> |w| <= 6
    ensures ShortChains(s, service, origin)
  {
    forall w | IsChain(s, service, origin, w) ensures |w| <= 6 {
      ChainDistinct(s, service, origin, w);
    }
  }

  lemma SmallIsShort(s: System, service: string, origin: Ip)
    requires |s.hosts.Keys| <= 6
    ensures ShortChains(s, service, origin)
  {
    forall w | IsChain(s, service, origin, w) ensures |w| <= 6 {
      ChainDistinct(s, service, origin, w);
      DistinctMembers(w, s.hosts.Keys);
    }
  }

  /** Quiescent coverage: on a connected cluster of at most six daemons, every
      daemon has been reached when no copy of the broadcast is in flight. */
  lemma {:induction false} QuiescentCoverage(s: System, acts: seq<Action>, id: string)
    requires Settled(s, acts, id) && Connected(s, Exec(s, acts).issued[id].msg.service)
    requires |s.hosts.Keys| <= 6
    ensures Reached(Exec(s, acts), id) == s.hosts.Keys
  {
    var service, origin := Exec(s, acts).issued[id].msg.service, Exec(s, acts).issued[id].origin;
    SmallIsShort(s, service, origin);
    CoveredWhenShort(s, acts, id);
  }

  /** A walk of at most k links leads from m to n. */
  ghost predicate WithinLinks(s: System, service: string, k: nat, m: Ip, n: Ip) {
    exists w :: IsWalk(s, service, w) && |w| <= k + 1 && w[0] == m && w[|w| - 1] == n
  }

  lemma SentIsNear(s: System, id: string, a: Ip)
    requires Safe(s) && Spread(s, id) && (a, id) in s.sent
    ensures WithinLinks(s, s.issued[id].msg.service, 5, s.issued[id].origin, a)
  {
    var service, origin := s.issued[id].msg.service, s.issued[id].origin;
    if a in Neighbours(s, origin, service) {
      OneLinkMore(s, service, [origin], a);
    } else {
      var x :| Forwarded(s, x, id) && a in Neighbours(s, x.node, service);
      assert GoodAcceptance(s, x);
      OneLinkMore(s, service, x.path + [x.node], a);
    }
  }

  lemma OneLinkMore(s: System, service: string, w: seq<Ip>, a: Ip)
    requires IsWalk(s, service, w) && w[|w| - 1] in s.hosts && a in Neighbours(s, w[|w| - 1], service)
    ensures WithinLinks(s, service, |w|, w[0], a)
  {
    WalkExtends(s, service, w, a);
    assert (w + [a])[0] == w[0];
  }

  /** No broadcast goes further than five links from its originator. */
  lemma {:induction false} Horizon(s: System, acts: seq<Action>, id: string, a: Ip)
    requires Init(s) && IsRun(s, acts) && Static(acts)
    requires id in Exec(s, acts).issued && Travels(Exec(s, acts).issued[id].msg)
    requires (a, id) in Exec(s, acts).sent
    ensures WithinLinks(s, Exec(s, acts).issued[id].msg.service, 5, Exec(s, acts).issued[id].origin, a)
  {
    var t := Exec(s, acts);
    RunSafe(s, acts);
    RunSpreads(s, acts, id);
    RunLinks(s, acts);
    SentIsNear(t, id, a);
    NearSame(t, s, t.issued[id].msg.service, 5, t.issued[id].origin, a);
  }

  lemma NearSame(s: System, t: System, service: string, k: nat, m: Ip, n: Ip)
    requires SameLinks(s, t) && WithinLinks(s, service, k, m, n)
    ensures WithinLinks(t, service, k, m, n)
  {
    var w :| IsWalk(s, service, w) && |w| <= k + 1 && w[0] == m && w[|w| - 1] == n;
    WalkSame(s, t, service, w);
  }

  /** So a daemon that is further away is never reached, in any run. */
  lemma {:induction false} FarIsNotReached(s: System, acts: seq<Action>, id: string, n: Ip)
    requires Init(s) && IsRun(s, acts) && Static(acts)
    requires id in Exec(s, acts).issued && Travels(Exec(s, acts).issued[id].msg)
    requires n in s.hosts && n != Exec(s, acts).issued[id].origin
    requires !WithinLinks(s, Exec(s, acts).issued[id].msg.service, 5, Exec(s, acts).issued[id].origin, n)
    ensures n !in Reached(Exec(s, acts), id)
  {
    var t := Exec(s, acts);
    if HasAccepted(t, n, id) {
      RunSafe(s, acts);
      RunSpreads(s, acts, id);
      var a :| a in t.accepted && a.node == n && a.id == id;
      AcceptedFrom(t, id, a);
      Horizon(s, acts, id, n);
    }
  }

  /** The code means to keep a broadcast from coming back to its originator
      (communicatord.cpp:3599-3603).  It is sent back exactly when some daemon that
      accepted it at fewer than five hops has a link to the originator. */
  lemma {:induction false} SentBackExactly(s: System, acts: seq<Action>, id: string)
    requires Init(s) && IsRun(s, acts) && Static(acts)
    requires id in Exec(s, acts).issued && Travels(Exec(s, acts).issued[id].msg)
    requires Exec(s, acts).issued[id].origin in s.hosts
    requires var x := Exec(s, acts).issued[id]; x.origin !in Neighbours(s, x.origin, x.msg.service)
    ensures var t := Exec(s, acts);
            var x := t.issued[id];
            && t.hosts.Keys == s.hosts.Keys
            && ((x.origin, id) in t.sent
                <==> exists a :: Forwarded(t, a, id) && x.origin in Neighbours(t, a.node, x.msg.service))
  {
    var t := Exec(s, acts);
    RunSpreads(s, acts, id);
    RunLinks(s, acts);
    NeighboursSame(s, t, t.issued[id].origin, t.issued[id].msg.service);
  }

  ghost predicate Symmetric(s: System, service: string) {
    forall m, n :: m in s.hosts && n in s.hosts && n in Neighbours(s, m, service) ==> m in Neighbours(s, n, service)
  }

  /** The first daemon of any chain after the originator accepted after one hop, and has the originator as neighbour. */
  lemma FirstHop(s: System, id: string, a: Acceptance)
    requires Safe(s) && Spread(s, id) && a in s.accepted && a.id == id
    requires Symmetric(s, s.issued[id].msg.service)
    ensures IsTarget(s, id, s.issued[id].origin)
  {
    var service, origin := s.issued[id].msg.service, s.issued[id].origin;
    assert GoodAcceptance(s, a);
    var first := if |a.path| == 1 then a else Acceptance(a.path[1], id, a.path[..1]);
    assert first in s.accepted && GoodAcceptance(s, first) && first.path == [origin];
    var w := first.path + [first.node];
    assert IsWalk(s, service, w) && w[0] == origin && w[1] == first.node;
    assert Forwarded(s, first, id);
  }

  /** With links that work both ways, every broadcast that reaches anybody passes its originator's own gate. */
  lemma {:induction false} OriginatorHearsItself(s: System, acts: seq<Action>, id: string, n: Ip)
    requires Settled(s, acts, id) && Symmetric(s, Exec(s, acts).issued[id].msg.service)
    requires n in s.hosts && HasAccepted(Exec(s, acts), n, id)
    ensures HasAccepted(Exec(s, acts), Exec(s, acts).issued[id].origin, id)
  {
    var t := Exec(s, acts);
    RunSafe(s, acts);
    RunSpreads(s, acts, id);
    RunLinks(s, acts);
    assert GoodIssue(t, id);
    var a :| a in t.accepted && a.node == n && a.id == id;
    SymmetricSame(s, t, t.issued[id].msg.service);
    FirstHop(t, id, a);
    ReachedExactly(s, acts, id, t.issued[id].origin);
  }

  lemma SymmetricSame(s: System, t: System, service: string)
    requires SameLinks(s, t) && Symmetric(s, service)
    ensures Symmetric(t, service)
  {
    forall n | n in s.hosts ensures Neighbours(t, n, service) == Neighbours(s, n, service) {
      NeighboursSame(s, t, n, service);
    }
  }

  /** The echo, from the links alone: with links that work both ways, and an
      originator that has none to itself, it accepts its own broadcast if and only
      if it has a neighbour at all. */
  lemma {:induction false} EchoExactly(s: System, acts: seq<Action>, id: string)
    requires Settled(s, acts, id) && Symmetric(s, Exec(s, acts).issued[id].msg.service)
    requires Exec(s, acts).issued[id].origin in s.hosts
    requires var x := Exec(s, acts).issued[id]; x.origin !in Neighbours(s, x.origin, x.msg.service)
    ensures var x := Exec(s, acts).issued[id];
            HasAccepted(Exec(s, acts), x.origin, id)
            <==> exists a :: a in s.hosts && a in Neighbours(s, x.origin, x.msg.service)
  {
    var t := Exec(s, acts);
    var service, origin := t.issued[id].msg.service, t.issued[id].origin;
    SettledState(s, acts, id);
    NeighboursSame(s, t, origin, service);
    if HasAccepted(t, origin, id) {
      var x :| x in t.accepted && x.node == origin && x.id == id;
      FirstOfChain(t, id, x);
    }
    if a :| a in s.hosts && a in Neighbours(s, origin, service) {
      assert IsTarget(t, id, a);
      OriginatorHearsItself(s, acts, id, a);
    }
  }

  /** The daemon after the originator in a chain is one of its neighbours. */
  lemma FirstOfChain(s: System, id: string, x: Acceptance)
    requires Safe(s) && Spread(s, id) && x in s.accepted && x.id == id && x.node == s.issued[id].origin
    requires x.node !in Neighbours(s, x.node, s.issued[id].msg.service)
    ensures exists a :: a in s.hosts && a in Neighbours(s, x.node, s.issued[id].msg.service)
  {
    var service := s.issued[id].msg.service;
    assert GoodAcceptance(s, x) && GoodChain(s, service, x.path, x.node);
    var w := x.path + [x.node];
    assert w[0] in s.hosts && w[0 + 1] in Neighbours(s, w[0], service);
    assert w[1] in s.hosts;
  }

  /** No daemon within four links of the originator, itself included, has a link to it. */
  ghost predicate NoWayBack(s: System, service: string, origin: Ip) {
    forall m :: m in s.hosts && WithinLinks(s, service, 4, origin, m) ==> origin !in Neighbours(s, m, service)
  }

  /** Then no copy is ever sent back, in any run. */
  lemma {:induction false} NeverSentBack(s: System, acts: seq<Action>, id: string)
    requires Init(s) && IsRun(s, acts) && Static(acts)
    requires id in Exec(s, acts).issued && Travels(Exec(s, acts).issued[id].msg)
    requires NoWayBack(s, Exec(s, acts).issued[id].msg.service, Exec(s, acts).issued[id].origin)
    ensures (Exec(s, acts).issued[id].origin, id) !in Exec(s, acts).sent
  {
    var t := Exec(s, acts);
    RunSafe(s, acts);
    RunSpreads(s, acts, id);
    RunLinks(s, acts);
    var service, origin := t.issued[id].msg.service, t.issued[id].origin;
    forall m | m in t.hosts && WithinLinks(t, service, 4, origin, m) ensures origin !in Neighbours(t, m, service) {
      NearSame(t, s, service, 4, origin, m);
      NeighboursSame(s, t, m, service);
    }
    NotTarget(t, id);
  }

  lemma NotTarget(s: System, id: string)
    requires Safe(s) && Spread(s, id) && NoWayBack(s, s.issued[id].msg.service, s.issued[id].origin)
    ensures !IsTarget(s, id, s.issued[id].origin)
  {
    var service, origin := s.issued[id].msg.service, s.issued[id].origin;
    assert IsWalk(s, service, [origin]) && WithinLinks(s, service, 4, origin, origin);
    forall x | Forwarded(s, x, id) ensures origin !in Neighbours(s, x.node, service) {
      assert GoodAcceptance(s, x) && GoodChain(s, service, x.path, x.node);
      var w := x.path + [x.node];
      assert IsWalk(s, service, w) && w[0] == origin && w[|w| - 1] == x.node;
    }
  }
}
