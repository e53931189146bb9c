/** What the choices of one daemon mean: which links a broadcast takes, where a
    directed message goes, and what a dispatch can change. */
module DaemonLaws {
  import opened Basics
  import opened Messages
  import opened MessageId
  import opened MessageCache
  import opened DaemonSpec

  // ---- the links a broadcast takes ----------------------------------------

  /** The addresses of the first n connections that qualify. */
  ghost function Addresses(cs: seq<Connection>, n: nat, all: bool, remote: bool): set<Ip>
    requires n <= |cs|
  {
    set i | 0 <= i < n && Eligible(cs[i], all, remote) :: cs[i].ip
  }

  /** Exactly one copy to every qualifying address that was not informed, and they are informed now. */
  ghost predicate OneCopyEach(cs: seq<Connection>, chosen: seq<nat>, before: set<Ip>, after: set<Ip>) {
    && (forall i :: 0 <= i < |chosen| ==> chosen[i] < |cs| && cs[chosen[i]].ip in after && cs[chosen[i]].ip !in before)
    && (forall i, j :: 0 <= i < j < |chosen| && chosen[i] < |cs| && chosen[j] < |cs|
                       ==> cs[chosen[i]].ip != cs[chosen[j]].ip)
    && (forall a :: a in after && a !in before ==> exists k :: k in chosen && k < |cs| && cs[k].ip == a)
  }

  lemma OneMoreCopy(cs: seq<Connection>, chosen: seq<nat>, before: set<Ip>, after: set<Ip>, k: nat)
    requires OneCopyEach(cs, chosen, before, after) && before <= after
    requires k < |cs| && cs[k].ip !in after
    ensures OneCopyEach(cs, chosen + [k], before, after + {cs[k].ip})
  {
    var more := chosen + [k];
    forall a | a in after + {cs[k].ip} && a !in before
      ensures exists j :: j in more && j < |cs| && cs[j].ip == a
    {
      if a == cs[k].ip {
        assert k in more;
      } else {
        var j :| j in chosen && j < |cs| && cs[j].ip == a;
        assert j in more;
      }
    }
  }

  lemma {:induction false} ScanAllInforms(
    cs: seq<Connection>, n: nat, command: string, all: bool, remote: bool, informed: set<Ip>)
    requires n <= |cs|
    ensures ScanAll(cs, n, command, all, remote, informed).informed == informed + Addresses(cs, n, all, remote)
  {
    if n > 0 {
      ScanAllInforms(cs, n - 1, command, all, remote, informed);
      assert Addresses(cs, n, all, remote)
          == Addresses(cs, n - 1, all, remote) + if Eligible(cs[n - 1], all, remote) then {cs[n - 1].ip} else {};
    }
  }

  lemma {:induction false} ScanAllChooses(
    cs: seq<Connection>, n: nat, command: string, all: bool, remote: bool, informed: set<Ip>)
    requires n <= |cs|
    ensures var s := ScanAll(cs, n, command, all, remote, informed);
            && informed <= s.informed
            && OneCopyEach(cs, s.chosen, informed, s.informed)
            && |s.chosen| <= n
            && (forall k :: k in s.chosen ==> k < |cs| && Eligible(cs[k], all, remote))
  {
    if n > 0 {
      ScanAllChooses(cs, n - 1, command, all, remote, informed);
      var p := ScanAll(cs, n - 1, command, all, remote, informed);
      var c := cs[n - 1];
      var s := ScanAll(cs, n, command, all, remote, informed);
      if !IsLocalTarget(c, command) && Eligible(c, all, remote) && c.ip !in p.informed {
        OneMoreCopy(cs, p.chosen, informed, p.informed, n - 1);
        assert s.chosen == p.chosen + [n - 1] && s.informed == p.informed + {c.ip};
      } else {
        assert s.chosen == p.chosen && s.informed == p.informed;
      }
    }
  }

  /** Every local service that understands the command gets the message once, and nothing else does. */
  lemma {:induction false} ScanAllServes(
    cs: seq<Connection>, n: nat, command: string, all: bool, remote: bool, informed: set<Ip>)
    requires n <= |cs|
    ensures var local := ScanAll(cs, n, command, all, remote, informed).local;
            && (forall i :: 0 <= i < n ==> (IsLocalTarget(cs[i], command) <==> i in local))
            && (forall i, j :: 0 <= i < j < |local| ==> local[i] < local[j])
  {
    if n > 0 {
      ScanAllServes(cs, n - 1, command, all, remote, informed);
      var p := ScanAll(cs, n - 1, command, all, remote, informed);
      assert forall i :: 0 <= i < |p.local| ==> p.local[i] in p.local;
    }
  }

  lemma {:induction false} ScanListMeaning(cs: seq<Connection>, list: seq<nat>, n: nat, informed: set<Ip>)
    requires n <= |list| && ValidList(cs, list)
    ensures var s := ScanList(cs, list, n, informed);
            && informed <= s.informed
            && OneCopyEach(cs, s.chosen, informed, s.informed)
            && |s.chosen| <= n
            && (forall k :: k in s.chosen ==> k < |cs| && k in list && IsDaemonLink(cs[k]))
            && (forall i :: 0 <= i < n && list[i] < |cs| && IsDaemonLink(cs[list[i]]) ==> cs[list[i]].ip in s.informed)
  {
    if n > 0 {
      ScanListMeaning(cs, list, n - 1, informed);
      var p := ScanList(cs, list, n - 1, informed);
      assert list[n - 1] in list;
      var c := cs[list[n - 1]];
      var s := ScanList(cs, list, n, informed);
      if IsDaemonLink(c) && c.ip !in p.informed {
        OneMoreCopy(cs, p.chosen, informed, p.informed, list[n - 1]);
        assert s.chosen == p.chosen + [list[n - 1]] && s.informed == p.informed + {c.ip};
      } else {
        assert s.chosen == p.chosen && s.informed == p.informed;
      }
    }
  }

  lemma TargetsMeaning(d: Daemon, msg: Message, list: seq<nat>)
    requires ValidList(d.connections, list)
    ensures var s := Targets(d, msg, list);
            && TagOf(msg).informed <= s.informed
            && OneCopyEach(d.connections, s.chosen, TagOf(msg).informed, s.informed)
            && |s.chosen| <= |d.connections|
  {
    var tag := TagOf(msg);
    if list == [] {
      var all, remote := ToAll(msg, tag.hops), ToRemote(msg, tag.hops);
      ScanAllChooses(d.connections, |d.connections|, msg.command, all, remote, tag.informed);
    } else {
      ScanListMeaning(d.connections, list, |list|, tag.informed);
    }
  }

  /** The copies of one broadcast are all alike, and it numbers the message only if it sends some. */
  lemma BroadcastCopies(d: Daemon, now: int, msg: Message, list: seq<nat>)
    requires ValidList(d.connections, list)
    ensures var e := Broadcast(d, now, msg, list);
            && (forall r :: r in e.relays ==> r.msg == Copy(d, now, msg, Targets(d, msg, list).informed))
            && (e.relays != [] && msg.tag.Some? ==> !Stale(d, now, msg.tag.value))
            && e.daemon.sequence == d.sequence + if e.relays != [] && TagOf(msg).id == "" then 1 else 0
  {}

  // ---- where a directed message goes --------------------------------------

  function ServiceSends(outputs: seq<Output>): seq<nat> {
    if outputs == [] then []
    else
      var o := outputs[|outputs| - 1];
      ServiceSends(outputs[..|outputs| - 1]) + if o.ToService? then [o.conn] else []
  }

  /** The router's decision, said without its loop. */
  datatype Decision = HandTo(conn: nat) | Hold | Drop | SendOut(links: set<nat>)

  ghost predicate Decides(d: Daemon, msg: Message, decision: Decision) {
    var server := Server(d, msg);
    var cs := d.connections;
    var someNamed := exists i :: 0 <= i < |cs| && NamedHere(cs[i], server, msg.service);
    match decision
    case HandTo(k) => IsFirstNamed(cs, server, msg.service, k)
    case Hold => !someNamed && KnownHere(d, server, msg.service)
    case Drop => !someNamed && !KnownHere(d, server, msg.service) && server == d.serverName
    case SendOut(links) =>
      && !someNamed && !KnownHere(d, server, msg.service) && server != d.serverName
      && links == set k | 0 <= k < |cs| && RemoteFor(cs[k], server)
  }

  /** Exactly one decision applies to a message. */
  lemma DecisionUnique(d: Daemon, msg: Message, a: Decision, b: Decision)
    requires Decides(d, msg, a) && Decides(d, msg, b)
    ensures a == b
  {}

  /** e is the broadcast of the message over a list of exactly these links. */
  ghost predicate CopiesOver(d: Daemon, now: int, msg: Message, e: Effect, links: set<nat>) {
    exists list ::
      && ValidList(d.connections, list) && (forall k :: k in list <==> k in links)
      && e == Broadcast(d, now, msg, list)
  }

  ghost predicate Obeys(d: Daemon, now: int, msg: Message, sender: Option<nat>, e: Effect, decision: Decision) {
    match decision
    case HandTo(k) =>
      && k < |d.connections|
      && e.daemon == d && e.relays == []
      && ServiceSends(e.outputs)
         == if sender == Some(k) || !CommandAllowed(d, d.connections[k], msg.command) then [] else [k]
    case Hold =>
      && e.daemon == d.(cache := Put(d.cache, msg, now)) && e.relays == [] && ServiceSends(e.outputs) == []
    case Drop =>
      e.daemon == d && e.relays == [] && ServiceSends(e.outputs) == []
    case SendOut(links) =>
      && ServiceSends(e.outputs) == []
      && (forall r :: r in e.relays ==> r.conn in links)
      && (links == {} ==> e.daemon == d && e.relays == [])
      && (links != {} ==>
            CopiesOver(d, now, if Server(d, msg) == SERVER_REMOTE then msg.(server := SERVER_ANY) else msg, e, links))
  }

  /** For every connection list the router takes the one decision that applies, and does what it says. */
  lemma RoutingRefinesDecision(d: Daemon, now: int, msg: Message, sender: Option<nat>) returns (decision: Decision)
    requires sender.Some? ==> sender.value < |d.connections|
    requires !IsBroadcast(msg.service)
    ensures Decides(d, msg, decision)
    ensures Obeys(d, now, msg, sender, Forward(d, now, msg, sender), decision)
    ensures RouteResult(d, msg) <==> decision.Hold? || decision.SendOut?
  {
    var server := Server(d, msg);
    var named := FirstNamed(d.connections, server, msg.service, 0);
    assert Forward(d, now, msg, sender) == RouteDirected(d, now, msg, sender);
    if named.Some? {
      decision := HandTo(named.value);
      HandToObeys(d, now, msg, sender, named.value);
    } else if KnownHere(d, server, msg.service) {
      decision := Hold;
      StaysHereObeys(d, now, msg, sender);
    } else if server == d.serverName {
      decision := Drop;
      StaysHereObeys(d, now, msg, sender);
    } else {
      var remotes := RemotesFor(d.connections, server, |d.connections|);
      decision := SendOut(set k | 0 <= k < |d.connections| && RemoteFor(d.connections[k], server));
      SendOutObeys(d, now, msg, sender, remotes, decision.links);
    }
  }

  lemma HandToObeys(d: Daemon, now: int, msg: Message, sender: Option<nat>, k: nat)
    requires sender.Some? ==> sender.value < |d.connections|
    requires FirstNamed(d.connections, Server(d, msg), msg.service, 0) == Some(k)
    ensures Obeys(d, now, msg, sender, RouteDirected(d, now, msg, sender), HandTo(k))
  {
    OneServiceSend(k, msg);
  }

  lemma OneServiceSend(k: nat, msg: Message)
    ensures ServiceSends([ToService(k, msg)]) == [k]
  {
    assert [ToService(k, msg)][..0] == [];
  }

  lemma StaysHereObeys(d: Daemon, now: int, msg: Message, sender: Option<nat>)
    requires sender.Some? ==> sender.value < |d.connections|
    requires FirstNamed(d.connections, Server(d, msg), msg.service, 0).None?
    requires KnownHere(d, Server(d, msg), msg.service) || Server(d, msg) == d.serverName
    ensures Obeys(d, now, msg, sender, RouteDirected(d, now, msg, sender),
                  if KnownHere(d, Server(d, msg), msg.service) then Hold else Drop)
  {
    NoServiceSends(RouteDirected(d, now, msg, sender).outputs);
  }

  lemma SendOutObeys(d: Daemon, now: int, msg: Message, sender: Option<nat>, remotes: seq<nat>, links: set<nat>)
    requires remotes == RemotesFor(d.connections, Server(d, msg), |d.connections|)
    requires links == set k | 0 <= k < |d.connections| && RemoteFor(d.connections[k], Server(d, msg))
    requires var server := Server(d, msg);
             && FirstNamed(d.connections, server, msg.service, 0).None?
             && !KnownHere(d, server, msg.service) && server != d.serverName
    requires sender.Some? ==> sender.value < |d.connections|
    ensures Obeys(d, now, msg, sender, RouteDirected(d, now, msg, sender), SendOut(links))
  {
    var server := Server(d, msg);
    var e := RouteDirected(d, now, msg, sender);
    forall k ensures k in remotes <==> k in links {}
    if remotes == [] {
      assert links == {};
    } else {
      assert remotes[0] in links;
      var onward := if server == SERVER_REMOTE then msg.(server := SERVER_ANY) else msg;
      assert e == Broadcast(d, now, onward, remotes);
      ListedOnly(d, now, onward, remotes, links);
    }
  }

  /** A broadcast over a list reaches no local service and uses no other link. */
  lemma ListedOnly(d: Daemon, now: int, msg: Message, list: seq<nat>, links: set<nat>)
    requires list != [] && ValidList(d.connections, list) && forall k :: k in list <==> k in links
    ensures var e := Broadcast(d, now, msg, list);
            && CopiesOver(d, now, msg, e, links)
            && ServiceSends(e.outputs) == [] && forall r :: r in e.relays ==> r.conn in links
  {
    ScanListMeaning(d.connections, list, |list|, TagOf(msg).informed);
    assert Broadcast(d, now, msg, list).outputs == [];
  }

  lemma {:induction false} NoServiceSends(outputs: seq<Output>)
    requires forall o :: o in outputs ==> !o.ToService?
    ensures ServiceSends(outputs) == []
  {
    if outputs != [] { NoServiceSends(outputs[..|outputs| - 1]); }
  }

  /** A directed message never reaches two services, nor a service here and another daemon. */
  lemma DirectedOnce(d: Daemon, now: int, msg: Message, sender: Option<nat>)
    requires sender.Some? ==> sender.value < |d.connections|
    requires !IsBroadcast(msg.service)
    ensures var e := Dispatch(d, now, msg, sender);
            && |ServiceSends(e.outputs)| <= 1
            && (ServiceSends(e.outputs) == [] || e.relays == [])
  {
    if (msg.tag.Some? && Stale(d, now, msg.tag.value)) || d.shutdown {
    } else if ForThisDaemon(d, msg) {
      NoServiceSends([ForUs(msg)]);
    } else {
      var _ := RoutingRefinesDecision(d, now, msg, sender);
    }
  }

  // ---- what a dispatch can change -----------------------------------------

  /** A dispatch that neither records an identifier nor sends a copy. */
  predicate Quiet(d: Daemon, e: Effect) {
    && e.relays == []
    && e.daemon.received == d.received
    && e.daemon.sequence == d.sequence
  }

  /** What no dispatch touches. */
  predicate SameSetup(d: Daemon, e: Effect) {
    && e.daemon.serverName == d.serverName
    && e.daemon.connections == d.connections
    && e.daemon.shutdown == d.shutdown
    && e.daemon.debugAll == d.debugAll
  }

  ghost predicate SameText(a: Message, b: Message) {
    && a.command == b.command && a.service == b.service && a.cache == b.cache && a.report == b.report
    && (IsBroadcast(a.service) ==> a.server == b.server)
  }

  lemma BroadcastSetup(d: Daemon, now: int, msg: Message, list: seq<nat>)
    requires ValidList(d.connections, list)
    ensures SameSetup(d, Broadcast(d, now, msg, list))
  {}

  /** What the router passes on to the broadcast, if anything. */
  function Onward(d: Daemon, msg: Message): Message {
    if !IsBroadcast(msg.service) && Server(d, msg) == SERVER_REMOTE then msg.(server := SERVER_ANY) else msg
  }

  function OnwardList(d: Daemon, msg: Message): (list: seq<nat>)
    ensures ValidList(d.connections, list)
  {
    if IsBroadcast(msg.service) then [] else RemotesFor(d.connections, Server(d, msg), |d.connections|)
  }

  lemma DirectedShape(d: Daemon, now: int, msg: Message, sender: Option<nat>)
    requires sender.Some? ==> sender.value < |d.connections|
    requires !IsBroadcast(msg.service)
    ensures var e := RouteDirected(d, now, msg, sender);
            || (Quiet(d, e) && SameSetup(d, e))
            || e == Broadcast(d, now, Onward(d, msg), OnwardList(d, msg))
  {
    var server := Server(d, msg);
    var named := FirstNamed(d.connections, server, msg.service, 0);
    if named.Some? {
    } else if KnownHere(d, server, msg.service) {
    } else if server == d.serverName {
    } else if OnwardList(d, msg) == [] {
    } else {
      var e := Broadcast(d, now, Onward(d, msg), OnwardList(d, msg));
      assert RouteDirected(d, now, msg, sender) == e;
    }
  }

  /** Every dispatch is quiet or one call of the broadcast, for the same text and tag. */
  lemma {:induction false} DispatchShape(d: Daemon, now: int, msg: Message, sender: Option<nat>)
    requires sender.Some? ==> sender.value < |d.connections|
    ensures var e := Dispatch(d, now, msg, sender);
            SameSetup(d, e) && (Quiet(d, e) || e == Broadcast(d, now, Onward(d, msg), OnwardList(d, msg)))
    ensures Onward(d, msg).tag == msg.tag && SameText(Onward(d, msg), msg)
  {
    BroadcastSetup(d, now, Onward(d, msg), OnwardList(d, msg));
    if (msg.tag.Some? && Stale(d, now, msg.tag.value)) || d.shutdown || ForThisDaemon(d, msg) {
      assert Dispatch(d, now, msg, sender).daemon == d && Dispatch(d, now, msg, sender).relays == [];
    } else {
      ForwardShape(d, now, msg, sender);
    }
  }

  lemma ForwardShape(d: Daemon, now: int, msg: Message, sender: Option<nat>)
    requires sender.Some? ==> sender.value < |d.connections|
    ensures var e := Forward(d, now, msg, sender);
            || (Quiet(d, e) && SameSetup(d, e))
            || e == Broadcast(d, now, Onward(d, msg), OnwardList(d, msg))
  {
    if !IsBroadcast(msg.service) {
      DirectedShape(d, now, msg, sender);
    }
  }

  // ---- when a second copy of a message is handled again -------------------

  /** The message reaches the record of received identifiers only by way of the broadcast. */
  ghost predicate ReachesBroadcast(d: Daemon, msg: Message) {
    && !d.shutdown && !ForThisDaemon(d, msg)
    && if IsBroadcast(msg.service) then AllServers(Server(d, msg)) || msg.service == LOCAL_BROADCAST
       else
         && FirstNamed(d.connections, Server(d, msg), msg.service, 0).None?
         && !KnownHere(d, Server(d, msg), msg.service)
         && Server(d, msg) != d.serverName
         && OnwardList(d, msg) != []
  }

  /** The gate stops a repeated copy exactly when the first one reached the
      broadcast; otherwise the daemon does all over again what it did. */
  lemma {:induction false} RepeatedCopy(d: Daemon, now: int, msg: Message, sender: Option<nat>)
    requires sender.Some? ==> sender.value < |d.connections|
    requires msg.tag.Some? && !Stale(d, now, msg.tag.value)
    ensures var e := Dispatch(d, now, msg, sender);
            var again := Dispatch(e.daemon, now, msg, sender);
            && (msg.tag.value.id in e.daemon.received <==> ReachesBroadcast(d, msg))
            && (ReachesBroadcast(d, msg) ==> again == Effect(e.daemon, [], []))
            && (!ReachesBroadcast(d, msg) ==> again.outputs == e.outputs && again.relays == e.relays == [])
  {
    if ReachesBroadcast(d, msg) {
      RecordsWhenBroadcast(d, now, msg, sender);
    } else {
      HandledAgain(d, now, msg, sender);
    }
  }

  lemma RecordsWhenBroadcast(d: Daemon, now: int, msg: Message, sender: Option<nat>)
    requires sender.Some? ==> sender.value < |d.connections|
    requires msg.tag.Some? && !Stale(d, now, msg.tag.value) && ReachesBroadcast(d, msg)
    ensures Dispatch(d, now, msg, sender) == Broadcast(d, now, Onward(d, msg), OnwardList(d, msg))
    ensures msg.tag.value.id in Dispatch(d, now, msg, sender).daemon.received
  {
    if !IsBroadcast(msg.service) {
      assert Dispatch(d, now, msg, sender) == RouteDirected(d, now, msg, sender);
    }
  }

  lemma HandledAgain(d: Daemon, now: int, msg: Message, sender: Option<nat>)
    requires sender.Some? ==> sender.value < |d.connections|
    requires msg.tag.Some? && !Stale(d, now, msg.tag.value) && !ReachesBroadcast(d, msg)
    ensures var e := Dispatch(d, now, msg, sender);
            var again := Dispatch(e.daemon, now, msg, sender);
            && e.daemon == d.(cache := e.daemon.cache)
            && again.outputs == e.outputs && again.relays == e.relays == []
  {
    if !d.shutdown && !ForThisDaemon(d, msg) && !IsBroadcast(msg.service) {
      var named := FirstNamed(d.connections, Server(d, msg), msg.service, 0);
      var e := RouteDirected(d, now, msg, sender);
      assert Dispatch(d, now, msg, sender) == e;
      if named.None? && KnownHere(d, Server(d, msg), msg.service) {
        assert e == CacheStep(d, now, msg, sender);
        assert RouteDirected(e.daemon, now, msg, sender) == CacheStep(e.daemon, now, msg, sender);
      } else {
        assert e.daemon == d;
      }
    }
  }

  // ---- what is remembered, and whom a broadcast serves --------------------

  /** After a recorded broadcast the daemon remembers that identifier and, of the
      others, exactly those whose timeout has not passed. */
  lemma RemembersLiveOnly(d: Daemon, now: int, msg: Message, list: seq<nat>, id: string)
    requires ValidList(d.connections, list)
    requires msg.tag.Some? && !Stale(d, now, msg.tag.value)
    ensures var after := Broadcast(d, now, msg, list).daemon.received;
            && (id in after <==> id == msg.tag.value.id || (id in d.received && d.received[id] >= now))
            && (id in after ==> after[id] >= now)
  {}

  lemma {:induction false} SendsToServices(local: seq<nat>, msg: Message)
    ensures ServiceSends(ToServices(local, msg)) == local
  {
    if local == [] {
      assert ToServices(local, msg) == [];
    } else {
      SendsToServices(local[..|local| - 1], msg);
      assert ToServices(local, msg)[..|local| - 1] == ToServices(local[..|local| - 1], msg);
    }
  }

  /** A broadcast that passes the gate serves every local service that understands
      it exactly once, whatever the number of hops, and no other connection. */
  lemma BroadcastServes(d: Daemon, now: int, msg: Message)
    requires msg.tag.None? || !Stale(d, now, msg.tag.value)
    ensures var served := ServiceSends(Broadcast(d, now, msg, []).outputs);
            && (forall i, j :: 0 <= i < j < |served| ==> served[i] < served[j])
            && (forall i :: 0 <= i < |d.connections| ==>
                  (i in served <==> IsLocalTarget(d.connections[i], msg.command)))
            && (forall i :: 0 <= i < |served| ==> served[i] < |d.connections|)
  {
    var s := Targets(d, msg, []);
    SendsToServices(s.local, msg);
    var tag := TagOf(msg);
    var all, remote := ToAll(msg, tag.hops), ToRemote(msg, tag.hops);
    ScanAllServes(d.connections, |d.connections|, msg.command, all, remote, tag.informed);
    assert ServiceSends(Broadcast(d, now, msg, []).outputs) == s.local;
    assert forall i :: 0 <= i < |s.local| ==> s.local[i] in s.local;
  }
}
