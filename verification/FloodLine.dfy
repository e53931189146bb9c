/** Daemons in a line, the originator at its end: runs that have the setting of
    FloodReach, and what the hop limit and the echo do in them. */
module FloodLine {
  import opened Basics
  import opened Messages
  import opened MessageId
  import opened MessageCache
  import opened DaemonSpec
  import opened DaemonLaws
  import opened FloodSystem
  import opened FloodSafety
  import opened FloodTermination
  import opened FloodCoverage
  import opened FloodReach
  import opened FloodSettles
  import opened FloodService
  import opened FloodDirected

  function LinkTo(ip: Ip): Connection {
    Connection(Remote, "", MsgId("n", ip), RemoteType, ip, Private, {})
  }

  function Reader(i: nat): Connection {
    Connection(UnixSocket, "reader", MsgId("n", i), LocalType, 0, Loopback, {"NEWS"})
  }

  /** Daemon i of k has a local service and links to the daemons next to it. */
  function LinksAt(i: nat, k: nat): seq<Connection> {
    [Reader(i)] + (if i > 0 then [LinkTo(i - 1)] else []) + (if i + 1 < k then [LinkTo(i + 1)] else [])
  }

  function HostAt(i: nat, k: nat): Host {
    Host(Daemon(MsgId("n", i), i, LinksAt(i, k), {}, map[], 0, [], false, false), 0)
  }

  function Line(k: nat): System {
    System(map i: nat | i < k :: HostAt(i, k), [], [], map[], {})
  }

  const TEXT := Message("NEWS", "", "*", CacheRequest(false, false, NoTtl), false, None)

  lemma LineIsFresh(k: nat)
    ensures Init(Line(k)) && AllUp(Line(k))
  {
    var s := Line(k);
    forall m, n | m in s.hosts && n in s.hosts && s.hosts[m].daemon.serverName == s.hosts[n].daemon.serverName
      ensures m == n
    {
      MsgIdInjective("n", m, "n", n);
    }
  }

  lemma LineNeighbours(k: nat, n: Ip, service: string)
    requires n < k
    ensures forall a: Ip :: a in Neighbours(Line(k), n, service) <==> a < k && (a == n + 1 || a + 1 == n)
  {
    forall a: Ip ensures a in Neighbours(Line(k), n, service) <==> a < k && (a == n + 1 || a + 1 == n) {
      LinkedExactly(k, n, a, service == PUBLIC_BROADCAST);
    }
  }

  lemma LinkedExactly(k: nat, n: Ip, a: Ip, all: bool)
    requires n < k
    ensures var cs := LinksAt(n, k);
            a in Addresses(cs, |cs|, all, true) <==> a < k && (a == n + 1 || a + 1 == n)
  {
    var cs := LinksAt(n, k);
    forall i | 1 <= i < |cs| ensures cs[i] == LinkTo(cs[i].ip) && Eligible(cs[i], all, true) {}
    assert !Eligible(cs[0], all, true);
    if a < k && (a == n + 1 || a + 1 == n) {
      var i := if a == n + 1 then |cs| - 1 else 1;
      assert cs[i].ip == a;
    }
  }

  function Up(m: Ip, n: Ip): seq<Ip>
    requires m <= n
  {
    seq(n - m + 1, i requires 0 <= i => m + i)
  }

  function Down(m: Ip, n: Ip): seq<Ip>
    requires m >= n
  {
    seq(m - n + 1, i requires 0 <= i <= m - n => m - i)
  }

  lemma LineConnected(k: nat, service: string)
    ensures Connected(Line(k), service)
  {
    forall m, n | m in Line(k).hosts && n in Line(k).hosts ensures Joined(Line(k), service, m, n) {
      LineJoined(k, service, m, n);
    }
  }

  lemma LineJoined(k: nat, service: string, m: Ip, n: Ip)
    requires m < k && n < k
    ensures Joined(Line(k), service, m, n)
  {
    var w := if m <= n then Up(m, n) else Down(m, n);
    WalksAlong(k, service, w);
    assert w[0] == m && w[|w| - 1] == n;
  }

  lemma WalksAlong(k: nat, service: string, w: seq<Ip>)
    requires w != [] && forall i :: 0 <= i < |w| ==> w[i] < k
    requires forall i :: 0 <= i < |w| - 1 ==> w[i + 1] == w[i] + 1 || w[i + 1] + 1 == w[i]
    ensures IsWalk(Line(k), service, w)
  {
    forall i | 0 <= i < |w| - 1 ensures w[i] in Line(k).hosts && w[i + 1] in Neighbours(Line(k), w[i], service) {
      LineNeighbours(k, w[i], service);
    }
  }

  lemma LineInside(k: nat, service: string)
    ensures Inside(Line(k), service)
  {
    forall n | n in Line(k).hosts ensures Neighbours(Line(k), n, service) <= Line(k).hosts.Keys {
      LineNeighbours(k, n, service);
    }
  }

  /** A walk from the end of the line gets one daemon further with each link. */
  lemma {:induction false} WalkInLine(k: nat, service: string, w: seq<Ip>, i: nat)
    requires IsWalk(Line(k), service, w) && w[0] == 0 && i < |w|
    ensures w[i] <= i
  {
    if i > 0 {
      WalkInLine(k, service, w, i - 1);
      assert w[i - 1] in Line(k).hosts && w[i - 1 + 1] in Neighbours(Line(k), w[i - 1], service);
      LineNeighbours(k, w[i - 1], service);
    }
  }

  /** In a line every settled broadcast of the daemon at its end has reached
      everybody if and only if there are at most six daemons. */
  lemma {:induction false} LineCoveredExactly(k: nat, acts: seq<Action>, id: string)
    requires Settled(Line(k), acts, id) && Exec(Line(k), acts).issued[id].origin == 0
    ensures Reached(Exec(Line(k), acts), id) == Line(k).hosts.Keys <==> k <= 6
  {
    var s, t := Line(k), Exec(Line(k), acts);
    var service := t.issued[id].msg.service;
    if k <= 6 {
      LineConnected(k, service);
      LineSize(k);
      QuiescentCoverage(s, acts, id);
    } else {
      var last: Ip := k - 1;
      if WithinLinks(s, service, 5, 0, last) {
        var w :| IsWalk(s, service, w) && |w| <= 6 && w[0] == 0 && w[|w| - 1] == last;
        WalkInLine(k, service, w, |w| - 1);
      }
      FarIsNotReached(s, acts, id, last);
      assert last in s.hosts;
    }
  }

  function Below(k: nat): set<Ip> {
    if k == 0 then {} else Below(k - 1) + {k - 1}
  }

  lemma {:induction false} BelowSize(k: nat)
    ensures |Below(k)| == k && forall n: Ip :: n in Below(k) <==> n < k
  {
    if k == 0 {
      assert Below(k) == {};
    } else {
      BelowSize(k - 1);
      assert k - 1 !in Below(k - 1) && Below(k) == Below(k - 1) + {k - 1};
    }
  }

  lemma LineSize(k: nat)
    ensures |Line(k).hosts.Keys| == k
  {
    var keys := Line(k).hosts.Keys;
    BelowSize(k);
    LineKeys(k);
    forall n: Ip ensures n in keys <==> n in Below(k) {}
    assert keys == Below(k);
  }

  lemma LineKeys(k: nat)
    ensures forall n: Ip :: n in Line(k).hosts.Keys <==> n < k
  {}

  function Id(): string {
    MsgId(MsgId("n", 0), 1)
  }

  lemma FirstReaches(d: Daemon, service: string, k: nat)
    requires k >= 2 && d == HostAt(0, k).daemon
    ensures 1 in Addresses(d.connections, |d.connections|, service == PUBLIC_BROADCAST, true)
  {
    LineNeighbours(k, 0, service);
    assert 1 in Neighbours(Line(k), 0, service);
  }

  /** A daemon with a neighbour sends a new broadcast on. */
  lemma SendsToSomebody(d: Daemon, now: nat, msg: Message, a: Ip)
    requires msg.tag.None? && Travels(msg)
    requires a in Addresses(d.connections, |d.connections|, msg.service == PUBLIC_BROADCAST, true)
    ensures Broadcast(d, now, msg, []).relays != []
  {
    LaunchedTo(d, now, msg, []);
    var flights := Launch(d, Broadcast(d, now, msg, []).relays, []);
    assert TagOf(msg) == Tag("", 0, 0, {});
    assert (set f | f in flights :: f.to)
        == Addresses(d.connections, |d.connections|, msg.service == PUBLIC_BROADCAST, true);
    assert a in set f | f in flights :: f.to;
  }

  lemma FirstCopy(d: Daemon, now: nat, msg: Message)
    requires msg.tag.None? && Travels(msg) && Broadcast(d, now, msg, []).relays != []
    ensures var copy := Broadcast(d, now, msg, []).relays[0].msg;
            && copy.tag.Some? && Travels(copy) && copy.command == msg.command
            && copy.tag.value.id == MsgId(d.serverName, d.sequence + 1) && copy.tag.value.timeout == now + 10
  {
    BroadcastCopies(d, now, msg, []);
    assert Broadcast(d, now, msg, []).relays[0] in Broadcast(d, now, msg, []).relays;
    assert TagOf(msg) == Tag("", 0, 0, {});
  }

  /** The first daemon sends the broadcast on. */
  lemma FirstSends(k: nat)
    requires k >= 2
    ensures var e := Broadcast(HostAt(0, k).daemon, 0, TEXT, []);
            && e.relays != [] && e.relays[0].msg.tag.Some? && Travels(e.relays[0].msg)
            && e.relays[0].msg.tag.value.id == Id() && e.relays[0].msg.tag.value.timeout == 10
            && e.relays[0].msg.command == TEXT.command
  {
    var d := HostAt(0, k).daemon;
    FirstReaches(d, TEXT.service, k);
    SendsToSomebody(d, 0, TEXT, 1);
    FirstCopy(d, 0, TEXT);
  }

  lemma FirstIssues(k: nat)
    requires k >= 2
    ensures var t := Apply(Line(k), Announce(0, TEXT));
            && Id() in t.issued && t.issued[Id()].origin == 0 && t.issued[Id()].timeout == 10
            && Travels(t.issued[Id()].msg) && t.issued[Id()].msg.command == TEXT.command
            && forall n :: n in t.hosts ==> t.hosts[n].clock == 0
  {
    FirstSends(k);
    assert Line(k).hosts[0] == HostAt(0, k);
  }

  lemma OneStepRun(s: System, a: Action)
    requires Enabled(s, a)
    ensures IsRun(s, [a]) && Exec(s, [a]) == Apply(s, a)
  {
    assert [a][..|[a]| - 1] == [] && Exec(s, []) == s;
  }

  lemma OneStepOnTime(s: System, a: Action, id: string)
    requires Init(s) && Enabled(s, a) && OnTime(Apply(s, a), id)
    ensures IsRun(s, [a]) && AlwaysOnTime(s, [a], id)
  {
    OneStepRun(s, a);
    assert [a][..|[a]| - 1] == [] && OnTime(Exec(s, []), id);
  }

  lemma LineStarts(k: nat)
    requires k >= 2
    ensures Underway(Line(k), [Announce(0, TEXT)], Id())
    ensures var x := Exec(Line(k), [Announce(0, TEXT)]).issued[Id()];
            x.origin == 0 && x.msg.command == TEXT.command
  {
    var s, a := Line(k), Announce(0, TEXT);
    LineIsFresh(k);
    FirstIssues(k);
    OneStepRun(s, a);
    RunSafe(s, [a]);
    TimeLeftIsOnTime(Apply(s, a), Id());
    OneStepOnTime(s, a, Id());
    LineInside(k, Apply(s, a).issued[Id()].msg.service);
  }

  /** Every line of seven daemons or more has a run without losses or timeouts that
      comes to rest, and the daemon at the far end never hears of the broadcast. */
  lemma {:induction false} LongLineMissed(k: nat) returns (acts: seq<Action>, id: string)
    requires k >= 7
    ensures Settled(Line(k), acts, id) && Connected(Line(k), Exec(Line(k), acts).issued[id].msg.service)
    ensures Exec(Line(k), acts).issued[id].origin == 0
    ensures Reached(Exec(Line(k), acts), id) != Line(k).hosts.Keys
  {
    id := Id();
    LineStarts(k);
    acts := Settles(Line(k), [Announce(0, TEXT)], id);
    LineConnected(k, Exec(Line(k), acts).issued[id].msg.service);
    LineCoveredExactly(k, acts, id);
  }

  lemma LineSymmetric(k: nat, service: string)
    ensures Symmetric(Line(k), service)
  {
    forall m, n | m in Line(k).hosts && n in Line(k).hosts && n in Neighbours(Line(k), m, service)
      ensures m in Neighbours(Line(k), n, service)
    {
      LineNeighbours(k, m, service);
      LineNeighbours(k, n, service);
    }
  }

  lemma ShortLine(k: nat, service: string)
    requires k <= 6
    ensures ShortChains(Line(k), service, 0)
  {
    LineSize(k);
    SmallIsShort(Line(k), service, 0);
  }

  /** The setting of EveryServiceServed. */
  lemma {:induction false} LineServed(k: nat, acts: seq<Action>, id: string)
    requires 2 <= k <= 6 && Settled(Line(k), acts, id)
    requires var x := Exec(Line(k), acts).issued[id]; x.origin == 0 && x.msg.command == TEXT.command
    ensures Reached(Exec(Line(k), acts), id) == Line(k).hosts.Keys
    ensures HasAccepted(Exec(Line(k), acts), 0, id)
    ensures forall n :: n in Line(k).hosts ==> Served(Line(k), acts, n, 0, id) == if n == 0 then 2 else 1
  {
    var s, t := Line(k), Exec(Line(k), acts);
    var service := t.issued[id].msg.service;
    LineConnected(k, service);
    LineSymmetric(k, service);
    ShortLine(k, service);
    LineSize(k);
    CoveredWhenShort(s, acts, id);
    assert 1 in Reached(t, id);
    OriginatorHearsItself(s, acts, id, 1);
    forall n | n in s.hosts ensures Served(s, acts, n, 0, id) == if n == 0 then 2 else 1 {
      assert Understands(s.hosts[n].daemon, 0, TEXT.command);
      EveryServiceServed(s, acts, id, n, 0);
    }
  }

  /** Every line of two to six daemons has a run in which the broadcast comes to
      rest with everybody reached and every reader served once, except that the
      originator accepts its own broadcast and serves its reader twice. */
  lemma {:induction false} EchoHappens(k: nat) returns (acts: seq<Action>, id: string)
    requires 2 <= k <= 6
    ensures Settled(Line(k), acts, id)
    ensures var x := Exec(Line(k), acts).issued[id];
            && x.origin == 0
            && Connected(Line(k), x.msg.service) && Symmetric(Line(k), x.msg.service)
            && ShortChains(Line(k), x.msg.service, 0)
    ensures Reached(Exec(Line(k), acts), id) == Line(k).hosts.Keys
    ensures HasAccepted(Exec(Line(k), acts), 0, id)
    ensures forall n :: n in Line(k).hosts ==> Served(Line(k), acts, n, 0, id) == if n == 0 then 2 else 1
  {
    id := Id();
    LineStarts(k);
    acts := Settles(Line(k), [Announce(0, TEXT)], id);
    LineServed(k, acts, id);
    var service := Exec(Line(k), acts).issued[id].msg.service;
    LineConnected(k, service);
    LineSymmetric(k, service);
    ShortLine(k, service);
  }

  // ---- a directed message -------------------------------------------------

  /** A message for the reader of the second daemon. */
  function Letter(): Message {
    Message("NEWS", MsgId("n", 1), "reader", CacheRequest(false, false, NoTtl), false, None)
  }

  lemma LineTrueLinks(k: nat)
    ensures TrueLinks(Line(k))
  {
    forall n, c | n in Line(k).hosts && c in Line(k).hosts[n].daemon.connections && c.ctype.RemoteType?
      ensures c.ip in Line(k).hosts && Line(k).hosts[c.ip].daemon.serverName == c.serverName
    {
      assert c == LinkTo(c.ip) && c.ip < k;
    }
  }

  lemma LetterIsDirected()
    ensures Directed(Letter())
    ensures MsgId("n", 0) != MsgId("n", 1)
  {
    MsgIdInjective("n", 0, "n", 1);
    assert Letter().server[0] == 'n';
  }

  /** The first daemon has one link for the message. */
  lemma LetterRoute(k: nat, d: Daemon)
    requires k >= 2 && d == HostAt(0, k).daemon
    ensures Dispatch(d, 0, Letter(), None) == Broadcast(d, 0, Letter(), [1])
  {
    var cs, msg := d.connections, Letter();
    LetterIsDirected();
    assert cs == [Reader(0), LinkTo(1)];
    NoneNamed(cs, msg.server, msg.service);
    RemotesNext(cs, msg.server, 0);
    RemotesNext(cs, msg.server, 1);
    assert RemotesFor(cs, msg.server, 2) == [1];
    assert Dispatch(d, 0, msg, None) == RouteDirected(d, 0, msg, None);
  }

  lemma LetterCopy(k: nat, d: Daemon)
    requires k >= 2 && d == HostAt(0, k).daemon
    ensures var e := Dispatch(d, 0, Letter(), None);
            && e.relays == [Relay(1, Letter().(tag := Some(Tag(Id(), 10, 1, {1}))))]
            && e.daemon.sequence == 1
  {
    LetterRoute(k, d);
    assert d.connections == [Reader(0), LinkTo(1)];
    OverOneLink(d, Letter());
  }

  /** A new message sent over the second of two links. */
  lemma OverOneLink(d: Daemon, msg: Message)
    requires |d.connections| == 2 && IsDaemonLink(d.connections[1]) && msg.tag.None?
    ensures var e, ip := Broadcast(d, 0, msg, [1]), d.connections[1].ip;
            && e.relays == [Relay(1, msg.(tag := Some(Tag(MsgId(d.serverName, d.sequence + 1), 10, 1, {ip}))))]
            && e.daemon.sequence == d.sequence + 1
  {
    var cs, ip := d.connections, d.connections[1].ip;
    assert ScanList(cs, [1], 0, {}) == Scan([], [], {});
    assert Targets(d, msg, [1]) == Scan([], [1], {ip});
  }

  lemma LetterIssued(k: nat)
    requires k >= 2
    ensures var t := Apply(Line(k), Submit(0, Letter(), None));
            var copy := Letter().(tag := Some(Tag(Id(), 10, 1, {1})));
            && t.net == [Flight(1, copy, [0])] && t.issued == map[Id() := Issue(0, 1, 10, copy)]
            && t.hosts.Keys == Line(k).hosts.Keys && forall n :: n in t.hosts ==> t.hosts[n].clock == 0
  {
    var d := Line(k).hosts[0].daemon;
    LetterCopy(k, d);
    var e := Dispatch(d, 0, Letter(), None);
    assert d.connections == [Reader(0), LinkTo(1)];
    assert Launch(d, e.relays, [0]) == [Flight(1, e.relays[0].msg, [0])];
  }

  lemma LetterTaken(k: nat)
    requires k >= 2
    ensures Takes(Line(k), 1, 0, Letter().(tag := Some(Tag(Id(), 10, 1, {1}))))
  {
    var d := Line(k).hosts[1].daemon;
    assert d.connections[0] == Reader(1);
    FirstNamedAt(d.connections, Letter().server, "reader", 0);
  }

  /** The letter is on its way. */
  lemma LetterOnItsWay(k: nat)
    requires k >= 2
    ensures var s, acts := Line(k), [Submit(0, Letter(), None)];
            && Init(s) && IsRun(s, acts) && AlwaysOnTime(s, acts, Id())
            && var p := Exec(s, acts);
            && Safe(p) && |p.net| == 1 && Enabled(p, Deliver(0, None)) && IdOf(p.net[0].msg) == Id()
            && Id() in p.issued && p.issued[Id()].msg == Letter().(tag := Some(Tag(Id(), 10, 1, {1})))
            && Straight(p, Id())
  {
    var s, a := Line(k), Submit(0, Letter(), None);
    LineIsFresh(k);
    LineTrueLinks(k);
    LetterIssued(k);
    OneStepRun(s, a);
    OneStepOnTime(s, a, Id());
    RunStraight(s, [a], Id());
    RunSafe(s, [a]);
  }

  lemma LetterDelivered(k: nat)
    requires k >= 2
    ensures var s, acts := Line(k), [Submit(0, Letter(), None)] + [Deliver(0, None)];
            && Init(s) && IsRun(s, acts) && AlwaysOnTime(s, acts, Id())
            && Exec(s, acts).net == []
            && Id() in Exec(s, acts).issued
            && Exec(s, acts).issued[Id()].msg == Letter().(tag := Some(Tag(Id(), 10, 1, {1})))
  {
    var s, first := Line(k), [Submit(0, Letter(), None)];
    LetterOnItsWay(k);
    LetterIsDirected();
    DirectedDelivery(Exec(s, first), 0, None, Id());
    var acts := first + [Deliver(0, None)];
    assert acts[..|acts| - 1] == first;
  }

  /** The setting of DirectedServedOnce: the letter is sent, delivered, and read once. */
  lemma LetterIsRead(k: nat) returns (acts: seq<Action>, id: string)
    requires k >= 2
    ensures GoesWell(Line(k), acts, 1, 0, id) && Quiescent(Exec(Line(k), acts), id)
    ensures Served(Line(k), acts, 1, 0, id) == 1
  {
    id, acts := Id(), [Submit(0, Letter(), None)] + [Deliver(0, None)];
    LetterGoesWell(k);
    LetterDelivered(k);
    DirectedServedOnce(Line(k), acts, 1, 0, id);
  }

  lemma LetterGoesWell(k: nat)
    requires k >= 2
    ensures GoesWell(Line(k), [Submit(0, Letter(), None)] + [Deliver(0, None)], 1, 0, Id())
  {
    LineIsFresh(k);
    LineTrueLinks(k);
    LetterIsDirected();
    LetterTaken(k);
    LetterDelivered(k);
    TwoSteps(Submit(0, Letter(), None), Deliver(0, None), 0);
  }

  lemma TwoSteps(a: Action, b: Action, k: nat)
    requires a.Submit? && b.Deliver? && b.sender.None?
    ensures Reliable([a] + [b]) && NotFrom([a] + [b], k)
  {
    assert [a] + [b] == [a, b];
  }
}
