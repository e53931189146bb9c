/** What a daemon does with a message, said with the names and numbers of the
    protocol and with nothing of the router's own vocabulary. */
module DaemonMeaning {
  import opened Basics
  import opened Messages
  import opened MessageId
  import opened MessageCache
  import opened DaemonSpec
  import opened DaemonLaws

  // ---- the gate -----------------------------------------------------------

  /** No broadcast parameters, or an identifier that is neither out of date nor remembered. */
  predicate IsFresh(d: Daemon, now: int, msg: Message) {
    msg.tag.Some? ==> now <= msg.tag.value.timeout && msg.tag.value.id !in d.received
  }

  /** A message that is not fresh, or any message while shutting down, does nothing. */
  lemma RefusedExactly(d: Daemon, now: int, msg: Message, sender: Option<nat>, list: seq<nat>)
    requires (sender.Some? ==> sender.value < |d.connections|) && ValidList(d.connections, list)
    ensures !IsFresh(d, now, msg) || d.shutdown ==> Dispatch(d, now, msg, sender) == Effect(d, [], [])
    ensures !IsFresh(d, now, msg) ==> Broadcast(d, now, msg, list) == Effect(d, [], [])
  {}

  // ---- messages for the daemon itself -------------------------------------

  predicate IsForDaemon(d: Daemon, msg: Message) {
    && (msg.server == "" || msg.server == "." || msg.server == "*" || msg.server == d.serverName)
    && (msg.service == "" || msg.service == "communicatord")
  }

  /** The daemon handles exactly the messages with these servers and services itself. */
  lemma ForDaemonExactly(d: Daemon, now: int, msg: Message, sender: Option<nat>)
    requires sender.Some? ==> sender.value < |d.connections|
    ensures var e := Dispatch(d, now, msg, sender);
            if IsFresh(d, now, msg) && !d.shutdown && IsForDaemon(d, msg) then e == Effect(d, [ForUs(msg)], [])
            else forall o :: o in e.outputs ==> !o.ForUs?
  {
    var e := Dispatch(d, now, msg, sender);
    if IsFresh(d, now, msg) && !d.shutdown && !IsForDaemon(d, msg) {
      assert e == Forward(d, now, msg, sender);
      ForwardKeeps(d, now, msg, sender);
    }
  }

  /** The router itself hands nothing to the daemon. */
  lemma ForwardKeeps(d: Daemon, now: int, msg: Message, sender: Option<nat>)
    requires sender.Some? ==> sender.value < |d.connections|
    ensures forall o :: o in Forward(d, now, msg, sender).outputs ==> !o.ForUs?
  {
    if IsBroadcast(msg.service) {
      BroadcastKeeps(d, now, msg, []);
    } else {
      var e := RouteDirected(d, now, msg, sender);
      assert Forward(d, now, msg, sender) == e;
      if !KnownHere(d, Server(d, msg), msg.service) && Server(d, msg) != d.serverName {
        var list := RemotesFor(d.connections, Server(d, msg), |d.connections|);
        BroadcastKeeps(d, now, Onward(d, msg), list);
      }
    }
  }

  lemma BroadcastKeeps(d: Daemon, now: int, msg: Message, list: seq<nat>)
    requires ValidList(d.connections, list)
    ensures forall o :: o in Broadcast(d, now, msg, list).outputs ==> o.ToService?
  {}

  // ---- messages for one service -------------------------------------------

  predicate IsForService(msg: Message) {
    msg.service != "*" && msg.service != "?" && msg.service != "."
  }

  /** The server the message is for, with this one's name for ".". */
  function Target(d: Daemon, msg: Message): string {
    if msg.server == "." then d.serverName else msg.server
  }

  predicate AnyServer(server: string) {
    server == "" || server == "*" || server == "?"
  }

  /** A local connection of the service, on the server the message is for. */
  predicate Offers(d: Daemon, msg: Message, c: Connection) {
    && (c.kind.Service? || c.kind.UnixSocket?)
    && c.name == msg.service && c.serverName != ""
    && (AnyServer(Target(d, msg)) || c.serverName == Target(d, msg))
  }

  ghost predicate NobodyOffers(d: Daemon, msg: Message) {
    forall c :: c in d.connections ==> !Offers(d, msg, c)
  }

  /** The message can be for a service of this computer. */
  predicate MayBeHere(d: Daemon, msg: Message) {
    || msg.server == "" || msg.server == "*" || msg.server == "?" || msg.server == "."
    || msg.server == d.serverName
  }

  predicate Routed(d: Daemon, now: int, msg: Message, sender: Option<nat>) {
    && (sender.Some? ==> sender.value < |d.connections|)
    && IsFresh(d, now, msg) && !d.shutdown && !IsForDaemon(d, msg) && IsForService(msg)
  }

  predicate MayGet(d: Daemon, c: Connection, command: string) {
    d.debugAll ==> c.commands == {} || command in c.commands
  }

  lemma NamedMeans(d: Daemon, msg: Message, c: Connection)
    ensures NamedHere(c, Server(d, msg), msg.service) <==> Offers(d, msg, c)
  {}

  lemma ReachesRouter(d: Daemon, now: int, msg: Message, sender: Option<nat>)
    requires Routed(d, now, msg, sender)
    ensures Dispatch(d, now, msg, sender) == Forward(d, now, msg, sender) == RouteDirected(d, now, msg, sender)
  {}

  /** The first connection that offers the service is handed the message, and that is all. */
  lemma HandedExactly(d: Daemon, now: int, msg: Message, sender: Option<nat>, k: nat)
    requires Routed(d, now, msg, sender)
    requires k < |d.connections| && Offers(d, msg, d.connections[k])
    requires forall j :: 0 <= j < k ==> !Offers(d, msg, d.connections[j])
    ensures var allowed := sender != Some(k) && MayGet(d, d.connections[k], msg.command);
            Dispatch(d, now, msg, sender) == Effect(d, if allowed then [ToService(k, msg)] else [], [])
  {
    ReachesRouter(d, now, msg, sender);
    forall j | 0 <= j <= k ensures NamedHere(d.connections[j], Server(d, msg), msg.service) <==> j == k {
      NamedMeans(d, msg, d.connections[j]);
    }
    FirstNamedAt(d.connections, Server(d, msg), msg.service, k);
  }

  lemma NobodyNamed(d: Daemon, msg: Message)
    requires NobodyOffers(d, msg)
    ensures FirstNamed(d.connections, Server(d, msg), msg.service, 0) == None
  {
    forall j | 0 <= j < |d.connections| ensures !NamedHere(d.connections[j], Server(d, msg), msg.service) {
      assert d.connections[j] in d.connections;
      NamedMeans(d, msg, d.connections[j]);
    }
    NoneNamed(d.connections, Server(d, msg), msg.service);
  }

  /** What a sender that asked for it is told of a message that was not handed over. */
  function Told(msg: Message, sender: Option<nat>, cached: bool): seq<Output> {
    if sender.Some? && msg.report then [Report(sender.value, msg.command, cached)] else []
  }

  /** A message for a service of this computer that is not there is cached, unless
      it asks not to be: then the sender is told so if it asked for that. */
  lemma CachedExactly(d: Daemon, now: int, msg: Message, sender: Option<nat>)
    requires Routed(d, now, msg, sender) && NobodyOffers(d, msg)
    requires MayBeHere(d, msg) && msg.service in d.localServices
    ensures var e := Dispatch(d, now, msg, sender);
            && e.relays == []
            && e.daemon == d.(cache := if msg.cache.no then d.cache
                                       else d.cache + [Cached(now + Lifetime(msg.cache.ttl), msg)])
            && e.outputs
               == (if msg.cache.no && msg.cache.reply && sender.Some?
                      && MayGet(d, d.connections[sender.value], "SERVICE_UNAVAILABLE")
                   then [Unavailable(sender.value, msg.command, msg.service)] else [])
                  + Told(msg, sender, !msg.cache.no)
  {
    ReachesRouter(d, now, msg, sender);
    NobodyNamed(d, msg);
  }

  /** A message for a service of this server that is not known here is dropped. */
  lemma DroppedExactly(d: Daemon, now: int, msg: Message, sender: Option<nat>)
    requires Routed(d, now, msg, sender) && NobodyOffers(d, msg)
    requires Target(d, msg) == d.serverName && msg.service !in d.localServices
    ensures Dispatch(d, now, msg, sender) == Effect(d, Told(msg, sender, false), [])
  {
    ReachesRouter(d, now, msg, sender);
    NobodyNamed(d, msg);
  }

  /** A link to another daemon, of the server the message is for. */
  predicate Carries(d: Daemon, msg: Message, c: Connection) {
    && c.ctype.RemoteType? && c.serverName != "" && (c.kind.Service? || c.kind.Remote?)
    && (AnyServer(Target(d, msg)) || c.serverName == Target(d, msg))
  }

  ghost function Ends(d: Daemon, relays: seq<Relay>): set<Ip>
    requires LinksOf(d, relays)
  {
    set i | 0 <= i < |relays| :: d.connections[relays[i].conn].ip
  }

  ghost function Carriers(d: Daemon, msg: Message): set<Ip> {
    set c | c in d.connections && Carries(d, msg, c) :: c.ip
  }

  /** Everything else goes to the daemons of the server, one copy to each that is not informed. */
  lemma SentOutExactly(d: Daemon, now: int, msg: Message, sender: Option<nat>)
    requires Routed(d, now, msg, sender) && NobodyOffers(d, msg)
    requires !(MayBeHere(d, msg) && msg.service in d.localServices) && Target(d, msg) != d.serverName
    ensures var e := Dispatch(d, now, msg, sender);
            && e.outputs == [] && e.daemon.cache == d.cache
            && Ends(d, e.relays) == Carriers(d, msg) - TagOf(msg).informed
            && (forall r :: r in e.relays ==> r.conn < |d.connections| && Carries(d, msg, d.connections[r.conn]))
            && (forall r :: r in e.relays ==>
                  r.msg.(tag := None) == msg.(server := if msg.server == "?" then "*" else msg.server, tag := None))
  {
    ReachesRouter(d, now, msg, sender);
    NobodyNamed(d, msg);
    var server := Server(d, msg);
    var list := RemotesFor(d.connections, server, |d.connections|);
    forall k | 0 <= k < |d.connections| && IsDaemonLink(d.connections[k])
      ensures k in list <==> Carries(d, msg, d.connections[k])
    {
      CarriesMeans(d, msg, d.connections[k]);
    }
    if list == [] {
      forall c | c in d.connections ensures !Carries(d, msg, c) {
        var k :| 0 <= k < |d.connections| && d.connections[k] == c;
        CarriesMeans(d, msg, c);
      }
      assert Carriers(d, msg) == {};
    } else {
      SentOverList(d, now, msg, Onward(d, msg), list);
    }
  }

  lemma CarriesMeans(d: Daemon, msg: Message, c: Connection)
    ensures Carries(d, msg, c) <==> RemoteFor(c, Server(d, msg)) && IsDaemonLink(c)
  {}

  lemma SentOverList(d: Daemon, now: int, msg: Message, onward: Message, list: seq<nat>)
    requires ValidList(d.connections, list) && list != [] && IsFresh(d, now, msg)
    requires onward == msg.(server := onward.server)
    requires forall k :: 0 <= k < |d.connections| && IsDaemonLink(d.connections[k])
               ==> (k in list <==> Carries(d, msg, d.connections[k]))
    ensures var e := Broadcast(d, now, onward, list);
            && e.outputs == [] && e.daemon.cache == d.cache
            && Ends(d, e.relays) == Carriers(d, msg) - TagOf(msg).informed
            && (forall r :: r in e.relays ==> r.conn < |d.connections| && Carries(d, msg, d.connections[r.conn]))
            && (forall r :: r in e.relays ==> r.msg.(tag := None) == onward.(tag := None))
  {
    ScanListMeaning(d.connections, list, |list|, TagOf(msg).informed);
    RelayEnds(d, now, onward, list);
    ListReaches(d, msg, list, ScanList(d.connections, list, |list|, TagOf(msg).informed), TagOf(msg).informed);
  }

  /** The addresses a pass over the list adds are those of the links that carry the message. */
  lemma ListReaches(d: Daemon, msg: Message, list: seq<nat>, s: Scan, informed: set<Ip>)
    requires ValidList(d.connections, list) && OneCopyEach(d.connections, s.chosen, informed, s.informed)
    requires forall k :: k in s.chosen ==> k < |d.connections| && k in list && IsDaemonLink(d.connections[k])
    requires forall i :: 0 <= i < |list| && list[i] < |d.connections| && IsDaemonLink(d.connections[list[i]])
               ==> d.connections[list[i]].ip in s.informed
    requires forall k :: 0 <= k < |d.connections| && IsDaemonLink(d.connections[k])
               ==> (k in list <==> Carries(d, msg, d.connections[k]))
    ensures s.informed - informed == Carriers(d, msg) - informed
    ensures forall k :: k in s.chosen ==> Carries(d, msg, d.connections[k])
  {
    forall a: Ip ensures a in s.informed && a !in informed <==> a in Carriers(d, msg) && a !in informed {
      if a in s.informed && a !in informed {
        var k :| k in s.chosen && k < |d.connections| && d.connections[k].ip == a;
        assert d.connections[k] in d.connections && Carries(d, msg, d.connections[k]);
      }
      if a in Carriers(d, msg) {
        var c :| c in d.connections && Carries(d, msg, c) && c.ip == a;
        ListedInformed(d, msg, list, s.informed, c);
      }
    }
  }

  lemma ListedInformed(d: Daemon, msg: Message, list: seq<nat>, informed: set<Ip>, c: Connection)
    requires ValidList(d.connections, list) && c in d.connections && Carries(d, msg, c)
    requires forall k :: 0 <= k < |d.connections| && IsDaemonLink(d.connections[k])
               ==> (k in list <==> Carries(d, msg, d.connections[k]))
    requires forall i :: 0 <= i < |list| && list[i] < |d.connections| && IsDaemonLink(d.connections[list[i]])
               ==> d.connections[list[i]].ip in informed
    ensures c.ip in informed
  {
    var k :| 0 <= k < |d.connections| && d.connections[k] == c;
    assert k in list;
    var i :| 0 <= i < |list| && list[i] == k;
  }

  /** The ends of the copies are the addresses that were added to the informed list. */
  lemma RelayEnds(d: Daemon, now: int, msg: Message, list: seq<nat>)
    requires ValidList(d.connections, list) && IsFresh(d, now, msg)
    ensures var e, s := Broadcast(d, now, msg, list), Targets(d, msg, list);
            && Ends(d, e.relays) == s.informed - TagOf(msg).informed
            && (forall r :: r in e.relays ==> r.conn in s.chosen)
  {
    TargetsMeaning(d, msg, list);
    var e, s := Broadcast(d, now, msg, list), Targets(d, msg, list);
    assert |e.relays| == |s.chosen| && forall i :: 0 <= i < |s.chosen| ==> e.relays[i].conn == s.chosen[i];
    forall a: Ip ensures a in Ends(d, e.relays) <==> a in s.informed && a !in TagOf(msg).informed {
      if a in Ends(d, e.relays) {
        var i :| 0 <= i < |e.relays| && d.connections[e.relays[i].conn].ip == a;
        assert d.connections[s.chosen[i]].ip == a;
      }
      if a in s.informed && a !in TagOf(msg).informed {
        var k :| k in s.chosen && k < |d.connections| && d.connections[k].ip == a;
        var i :| 0 <= i < |s.chosen| && s.chosen[i] == k;
        assert e.relays[i].conn == k;
      }
    }
  }

  /** The cache of a daemon changes in no other case. */
  lemma CacheUntouched(d: Daemon, now: int, msg: Message, sender: Option<nat>)
    requires sender.Some? ==> sender.value < |d.connections|
    requires !MayBeHere(d, msg) || msg.service !in d.localServices || !IsForService(msg) || !NobodyOffers(d, msg)
    ensures Dispatch(d, now, msg, sender).daemon.cache == d.cache
  {
    if IsFresh(d, now, msg) && !d.shutdown && !IsForDaemon(d, msg) && IsForService(msg) {
      if !NobodyOffers(d, msg) {
        var c :| c in d.connections && Offers(d, msg, c);
        var i: nat :| i < |d.connections| && d.connections[i] == c;
        var k := FirstOffer(d, msg, i);
        HandedExactly(d, now, msg, sender, k);
      } else if Target(d, msg) == d.serverName {
        DroppedExactly(d, now, msg, sender);
      } else {
        SentOutExactly(d, now, msg, sender);
      }
    }
  }

  lemma {:induction false} FirstOffer(d: Daemon, msg: Message, i: nat) returns (k: nat)
    requires i < |d.connections| && Offers(d, msg, d.connections[i])
    ensures k < |d.connections| && Offers(d, msg, d.connections[k])
    ensures forall j :: 0 <= j < k ==> !Offers(d, msg, d.connections[j])
  {
    if j: nat :| j < i && Offers(d, msg, d.connections[j]) {
      k := FirstOffer(d, msg, j);
    } else {
      k := i;
    }
  }

  /** What the router tells its caller: that the message was cached or sent out. */
  lemma ResultExactly(d: Daemon, msg: Message)
    ensures RouteResult(d, msg) <==>
              if !IsForService(msg) then msg.service == "." || Target(d, msg) == "" || Target(d, msg) == "*"
              else NobodyOffers(d, msg)
                   && (Target(d, msg) != d.serverName || (MayBeHere(d, msg) && msg.service in d.localServices))
  {
    if NobodyOffers(d, msg) {
      NobodyNamed(d, msg);
    } else {
      var c :| c in d.connections && Offers(d, msg, c);
      NamedMeans(d, msg, c);
    }
  }

  // ---- broadcasts ---------------------------------------------------------

  /** Where a message goes when no list of connections is given: the broadcast
      service, or else the server, or else every private link. */
  function Audience(msg: Message): string {
    if !IsForService(msg) then msg.service
    else if msg.server == "" then "?"
    else msg.server
  }

  /** The addresses behind the links to other daemons, on private networks for "?" and on public ones too for "*". */
  ghost function Reachable(d: Daemon, to: string): set<Ip> {
    set c | c in d.connections && (c.kind.Service? || c.kind.Remote?)
            && ((c.network.Private? && (to == "*" || to == "?")) || (c.network.Public? && to == "*")) :: c.ip
  }

  predicate IsLocal(c: Connection, command: string) {
    (c.kind.UnixSocket? || (c.kind.Service? && c.network.Loopback?)) && command in c.commands
  }

  /** Whom a broadcast is sent to, exactly: nobody after five hops, nobody who is
      informed, and each of the others once. */
  lemma BroadcastReaches(d: Daemon, now: int, msg: Message)
    requires IsFresh(d, now, msg)
    ensures var e := Broadcast(d, now, msg, []);
            && Ends(d, e.relays)
               == (if TagOf(msg).hops < 5 then Reachable(d, Audience(msg)) else {}) - TagOf(msg).informed
            && (forall i, j :: 0 <= i < j < |e.relays| ==>
                  d.connections[e.relays[i].conn].ip != d.connections[e.relays[j].conn].ip)
  {
    var all, remote := ToAll(msg, TagOf(msg).hops), ToRemote(msg, TagOf(msg).hops);
    var cs := d.connections;
    ScanAllInforms(cs, |cs|, msg.command, all, remote, TagOf(msg).informed);
    RelayEnds(d, now, msg, []);
    TargetsMeaning(d, msg, []);
    AudienceMeans(d, msg);
  }

  lemma AudienceMeans(d: Daemon, msg: Message)
    ensures var hops := TagOf(msg).hops;
            Addresses(d.connections, |d.connections|, ToAll(msg, hops), ToRemote(msg, hops))
            == if hops < 5 then Reachable(d, Audience(msg)) else {}
  {
    var cs, all, remote := d.connections, ToAll(msg, TagOf(msg).hops), ToRemote(msg, TagOf(msg).hops);
    var to := if TagOf(msg).hops < 5 then Reachable(d, Audience(msg)) else {};
    forall a: Ip ensures a in Addresses(cs, |cs|, all, remote) <==> a in to {
      if a in to {
        var c :| c in cs && Eligible(c, all, remote) && c.ip == a;
        var k :| 0 <= k < |cs| && cs[k] == c;
      }
    }
  }

  lemma {:induction false} FirstLinks(
    cs: seq<Connection>, n: nat, command: string, all: bool, remote: bool, informed: set<Ip>)
    requires n <= |cs|
    ensures var s := ScanAll(cs, n, command, all, remote, informed);
            && (forall i, j :: 0 <= i < j < |s.chosen| ==> s.chosen[i] < s.chosen[j])
            && (forall j, k :: 0 <= j < k && k in s.chosen && Eligible(cs[j], all, remote) ==> cs[j].ip != cs[k].ip)
            && (forall j :: 0 <= j < n && Eligible(cs[j], all, remote) ==> cs[j].ip in s.informed)
            && informed <= s.informed
  {
    if n > 0 {
      FirstLinks(cs, n - 1, command, all, remote, informed);
      var p := ScanAll(cs, n - 1, command, all, remote, informed);
      forall i | 0 <= i < |p.chosen| ensures p.chosen[i] < n - 1 { assert p.chosen[i] in p.chosen; }
    }
  }

  /** The copies leave in the order of the connections, over the first link to each address. */
  lemma RelaysInOrder(d: Daemon, now: int, msg: Message, k: nat, j: nat)
    requires IsFresh(d, now, msg)
    ensures var relays := Broadcast(d, now, msg, []).relays;
            && (forall i, m :: 0 <= i < m < |relays| ==> relays[i].conn < relays[m].conn)
            && (forall r :: r in relays && r.conn == k && j < k < |d.connections|
                  && (d.connections[j].kind.Service? || d.connections[j].kind.Remote?)
                  && d.connections[j].network == d.connections[k].network
                  ==> d.connections[j].ip != d.connections[k].ip)
  {
    var all, remote := ToAll(msg, TagOf(msg).hops), ToRemote(msg, TagOf(msg).hops);
    var cs, informed := d.connections, TagOf(msg).informed;
    FirstLinks(cs, |cs|, msg.command, all, remote, informed);
    ScanAllChooses(cs, |cs|, msg.command, all, remote, informed);
    var e, s := Broadcast(d, now, msg, []), Targets(d, msg, []);
    assert |e.relays| == |s.chosen| && forall i :: 0 <= i < |s.chosen| ==> e.relays[i].conn == s.chosen[i];
    RelayEnds(d, now, msg, []);
  }

  /** And which local services get it: those that understand the command, once each, in order. */
  lemma BroadcastServesExactly(d: Daemon, now: int, msg: Message)
    requires IsFresh(d, now, msg)
    ensures var e := Broadcast(d, now, msg, []);
            && (forall o :: o in e.outputs ==> o.ToService? && o.msg == msg)
            && (forall k: nat :: ToService(k, msg) in e.outputs
                  <==> k < |d.connections| && IsLocal(d.connections[k], msg.command))
            && (forall i, j :: 0 <= i < j < |e.outputs| ==> e.outputs[i].conn < e.outputs[j].conn)
  {
    var s := Targets(d, msg, []);
    var all, remote := ToAll(msg, TagOf(msg).hops), ToRemote(msg, TagOf(msg).hops);
    ScanAllServes(d.connections, |d.connections|, msg.command, all, remote, TagOf(msg).informed);
    var e := Broadcast(d, now, msg, []);
    assert e.outputs == ToServices(s.local, msg);
    forall k: nat ensures ToService(k, msg) in e.outputs <==> k in s.local {
      if k in s.local {
        var i :| 0 <= i < |s.local| && s.local[i] == k;
        assert e.outputs[i] == ToService(k, msg);
      }
    }
  }

  /** The message for service "." never leaves the computer. */
  lemma LocalStays(d: Daemon, now: int, msg: Message)
    requires msg.service == "."
    ensures Broadcast(d, now, msg, []).relays == []
  {
    if IsFresh(d, now, msg) {
      BroadcastReaches(d, now, msg);
      var relays := Broadcast(d, now, msg, []).relays;
      assert Ends(d, relays) == {};
      NoEnds(d, relays);
    } else {
      RefusedExactly(d, now, msg, None, []);
    }
  }

  lemma NoEnds(d: Daemon, relays: seq<Relay>)
    requires LinksOf(d, relays)
    ensures Ends(d, relays) == {} <==> relays == []
  {
    if relays != [] { assert d.connections[relays[0].conn].ip in Ends(d, relays); }
  }

  /** What a broadcast service makes of a message: nothing when "*" or "?" names a
      server, a broadcast otherwise. */
  lemma BroadcastExactly(d: Daemon, now: int, msg: Message, sender: Option<nat>)
    requires sender.Some? ==> sender.value < |d.connections|
    requires IsFresh(d, now, msg) && !d.shutdown && !IsForService(msg)
    ensures Dispatch(d, now, msg, sender)
         == if msg.service != "." && Target(d, msg) != "" && Target(d, msg) != "*" then Effect(d, [], [])
            else Broadcast(d, now, msg, [])
  {
    assert !IsForDaemon(d, msg);
  }

  /** What is sent on: the text as it was, one hop more, and everybody informed who
      was before or is sent a copy; a new message gets its number and ten seconds. */
  lemma CopyExactly(d: Daemon, now: int, msg: Message, list: seq<nat>)
    requires ValidList(d.connections, list) && IsFresh(d, now, msg)
    ensures var e, tag := Broadcast(d, now, msg, list), TagOf(msg);
            && (forall r :: r in e.relays ==>
                  r.msg == msg.(tag := Some(Tag(
                    if tag.id == "" then d.serverName + "-" + Decimal(d.sequence + 1) else tag.id,
                    if tag.timeout == 0 then now + 10 else tag.timeout,
                    tag.hops + 1,
                    tag.informed + Ends(d, e.relays)))))
            && e.daemon.sequence == d.sequence + (if e.relays != [] && tag.id == "" then 1 else 0)
  {
    InformedNow(d, now, msg, list);
    BroadcastCopies(d, now, msg, list);
  }

  lemma InformedNow(d: Daemon, now: int, msg: Message, list: seq<nat>)
    requires ValidList(d.connections, list) && IsFresh(d, now, msg)
    ensures Targets(d, msg, list).informed == TagOf(msg).informed + Ends(d, Broadcast(d, now, msg, list).relays)
  {
    TargetsMeaning(d, msg, list);
    RelayEnds(d, now, msg, list);
  }

  /** What is remembered after it: the identifier with its timeout, and of the others those still in time. */
  lemma RecordExactly(d: Daemon, now: int, msg: Message, list: seq<nat>, id: string)
    requires ValidList(d.connections, list) && IsFresh(d, now, msg)
    ensures var after := Broadcast(d, now, msg, list).daemon.received;
            match msg.tag
            case None => after == d.received
            case Some(tag) =>
              if id == tag.id then id in after && after[id] == tag.timeout
              else
                && (id in after <==> id in d.received && now <= d.received[id])
                && (id in after ==> after[id] == d.received[id])
  {}
}
