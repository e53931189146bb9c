/** The daemon itself: the methods of communicatord that handle one message,
    working on the daemon's fields, each proved against DaemonSpec. */
module CommunicatordDaemon {
  import opened Basics
  import opened Messages
  import opened MessageId
  import opened MessageCache
  import opened DaemonSpec

  class Communicatord {
    var serverName: string
    var address: Ip
    var connections: seq<Connection>
    var localServices: set<string>
    var received: map<string, int>
    var broadcastSequence: nat
    const localCache: Cache
    var shutdown: bool
    var debugAll: bool
    // what was handed to the sockets so far
    var outputs: seq<Output>
    var relays: seq<Relay>

    constructor (serverName: string, address: Ip)
      ensures fresh(localCache)
      ensures State() == Daemon(serverName, address, [], {}, map[], 0, [], false, false)
      ensures outputs == [] && relays == []
    {
      this.serverName, this.address := serverName, address;
      connections, localServices, received, broadcastSequence := [], {}, map[], 0;
      localCache := new Cache();
      shutdown, debugAll := false, false;
      outputs, relays := [], [];
    }

    ghost function State(): Daemon
      reads this, localCache
    {
      Daemon(serverName, address, connections, localServices, received, broadcastSequence,
             localCache.held, shutdown, debugAll)
    }

    /** Whether the message timed out or was already received. */
    method CheckBroadcastMessage(msg: Message, now: int) returns (processed: bool)
      ensures processed <==> msg.tag.Some? && Stale(State(), now, msg.tag.value)
    {
      if msg.tag.None? {
        return false;
      }
      if msg.tag.value.timeout < now {
        return true;
      }
      return msg.tag.value.id in received;
    }

    /** Forget the identifiers whose timeout has passed. */
    method PurgeReceived(now: int)
      modifies this`received
      ensures received == Purge(old(received), now)
    {
      var left := received.Keys;
      while left != {}
        invariant left <= old(received).Keys
        invariant received
               == map id | id in old(received) && (id in left || !(old(received)[id] < now)) :: old(received)[id]
        decreases left
      {
        var id :| id in left;
        if received[id] < now {
          received := received - {id};
        }
        left := left - {id};
      }
    }

    method SendToService(conn: nat, msg: Message)
      modifies this`outputs
      ensures outputs == old(outputs) + [ToService(conn, msg)]
    {
      outputs := outputs + [ToService(conn, msg)];
    }

    /** The pass over every connection: local services get the message at once,
        links to other daemons are collected unless their address is informed. */
    method ScanConnections(msg: Message, hops: int, known: set<Ip>) returns (chosen: seq<nat>, informed: set<Ip>)
      modifies this`outputs
      ensures var s := ScanAll(connections, |connections|, msg.command, ToAll(msg, hops), ToRemote(msg, hops), known);
              && chosen == s.chosen && informed == s.informed
              && outputs == old(outputs) + ToServices(s.local, msg)
    {
      chosen, informed := [], known;
      var destination := PRIVATE_BROADCAST;
      if msg.service != LOCAL_BROADCAST && msg.service != PRIVATE_BROADCAST && msg.service != PUBLIC_BROADCAST {
        destination := msg.server;
        if destination == "" {
          destination := PRIVATE_BROADCAST;
        }
      } else {
        destination := msg.service;
      }
      var all := hops < 5 && destination == PUBLIC_BROADCAST;
      var remote := hops < 5 && (all || destination == PRIVATE_BROADCAST);
      var i := 0;
      assert ToServices([], msg) == [];
      while i < |connections|
        invariant 0 <= i <= |connections|
        invariant chosen == ScanAll(connections, i, msg.command, all, remote, known).chosen
        invariant informed == ScanAll(connections, i, msg.command, all, remote, known).informed
        invariant outputs
               == old(outputs) + ToServices(ScanAll(connections, i, msg.command, all, remote, known).local, msg)
      {
        var c := connections[i];
        ghost var local := ScanAll(connections, i, msg.command, all, remote, known).local;
        assert ToServices(local + [i], msg) == ToServices(local, msg) + [ToService(i, msg)];
        var broadcast := false;
        match c.kind {
          case UnixSocket =>
            if msg.command in c.commands {
              SendToService(i, msg);
            }
          case Service =>
            match c.network {
              case Loopback =>
                if msg.command in c.commands {
                  SendToService(i, msg);
                }
              case Private => broadcast := remote;
              case Public => broadcast := all;
              case OtherNetwork =>
            }
          case Remote =>
            match c.network {
              case Loopback =>
              case Private => broadcast := remote;
              case Public => broadcast := all;
              case OtherNetwork =>
            }
          case _ =>
        }
        if broadcast {
          if c.ip !in informed {
            informed := informed + {c.ip};
            chosen := chosen + [i];
          }
        }
        i := i + 1;
      }
    }

    /** The pass over an explicit list of connections. */
    method ScanGiven(list: seq<nat>, known: set<Ip>) returns (chosen: seq<nat>, informed: set<Ip>)
      requires ValidList(connections, list)
      ensures chosen == ScanList(connections, list, |list|, known).chosen
      ensures informed == ScanList(connections, list, |list|, known).informed
    {
      chosen, informed := [], known;
      var i := 0;
      while i < |list|
        invariant 0 <= i <= |list|
        invariant chosen == ScanList(connections, list, i, known).chosen
        invariant informed == ScanList(connections, list, i, known).informed
      {
        assert list[i] in list;
        var c := connections[list[i]];
        if c.kind.Service? || c.kind.Remote? {
          if c.ip !in informed {
            informed := informed + {c.ip};
            chosen := chosen + [list[i]];
          }
        }
        i := i + 1;
      }
    }

    /** The first part of broadcast_message: the gate again, then the record of the identifier. */
    method RecordBroadcast(msg: Message, now: int) returns (dropped: bool)
      modifies this`received
      ensures dropped <==> msg.tag.Some? && Stale(old(State()), now, msg.tag.value)
      ensures State() == if dropped then old(State()) else Record(old(State()), now, msg)
    {
      if msg.tag.None? {
        return false;
      }
      if msg.tag.value.timeout < now {
        return true;
      }
      if msg.tag.value.id in received {
        return true;
      }
      PurgeReceived(now);
      received := received[msg.tag.value.id := msg.tag.value.timeout];
      return false;
    }

    /** The last part: build the copy and hand it to every connection that was chosen. */
    method SendCopies(msg: Message, chosen: seq<nat>, known: set<Ip>, now: int)
      requires chosen != []
      modifies this`broadcastSequence, this`relays
      ensures relays == old(relays) + Relays(chosen, Copy(old(State()), now, msg, known))
      ensures broadcastSequence == old(broadcastSequence) + if TagOf(msg).id == "" then 1 else 0
    {
      var informed := known;
      if address in informed {
        // the daemon means to add itself here
        informed := informed + {address};
      }
      assert informed == known;
      var msgid, hops, timeout := "", 0, 0;
      if msg.tag.Some? {
        msgid, hops, timeout := msg.tag.value.id, msg.tag.value.hops, msg.tag.value.timeout;
      }
      if msgid == "" {
        broadcastSequence := broadcastSequence + 1;
        msgid := MsgId(serverName, broadcastSequence);
      }
      if timeout == 0 {
        timeout := now + 10;
      }
      var copy := msg.(tag := Some(Tag(msgid, timeout, hops + 1, informed)));
      assert copy == Copy(old(State()), now, msg, known);
      var i := 0;
      while i < |chosen|
        invariant 0 <= i <= |chosen|
        invariant relays == old(relays) + Relays(chosen[..i], copy)
        invariant broadcastSequence == old(broadcastSequence) + if TagOf(msg).id == "" then 1 else 0
      {
        relays := relays + [Relay(chosen[i], copy)];
        assert Relays(chosen[..i + 1], copy) == Relays(chosen[..i], copy) + [Relay(chosen[i], copy)];
        i := i + 1;
      }
      assert chosen[..i] == chosen;
    }

    /** The middle part: local services get the message, the links to send copies to are chosen. */
    method CollectTargets(msg: Message, list: seq<nat>) returns (chosen: seq<nat>, informed: set<Ip>)
      requires ValidList(connections, list)
      modifies this`outputs
      ensures var s := Targets(State(), msg, list);
              && chosen == s.chosen && informed == s.informed
              && outputs == old(outputs) + ToServices(s.local, msg)
    {
      var known, hops := {}, 0;
      if msg.tag.Some? {
        known, hops := msg.tag.value.informed, msg.tag.value.hops;
      }
      if list == [] {
        chosen, informed := ScanConnections(msg, hops, known);
      } else {
        chosen, informed := ScanGiven(list, known);
        assert ToServices([], msg) == [];
      }
    }

    method BroadcastMessage(msg: Message, list: seq<nat>, now: int)
      requires ValidList(connections, list)
      modifies this
      ensures var e := Broadcast(old(State()), now, msg, list);
              && State() == e.daemon
              && outputs == old(outputs) + e.outputs
              && relays == old(relays) + e.relays
    {
      BroadcastParts(State(), now, msg, list);
      var dropped := RecordBroadcast(msg, now);
      if dropped {
        return;
      }
      var chosen, informed := CollectTargets(msg, list);
      if chosen != [] {
        SendCopies(msg, chosen, informed, now);
      }
    }

    method TransmissionReport(msg: Message, sender: Option<nat>, cached: bool)
      modifies this`outputs
      ensures outputs == old(outputs) + ReportOutputs(msg, sender, cached)
    {
      if sender.None? {
        return;
      }
      if !msg.report {
        return;
      }
      outputs := outputs + [Report(sender.value, msg.command, cached)];
    }

    method VerifyCommand(conn: nat, command: string) returns (valid: bool)
      requires conn < |connections|
      ensures valid <==> CommandAllowed(State(), connections[conn], command)
    {
      if !debugAll {
        return true;
      }
      if connections[conn].commands == {} {
        return true;
      }
      return command in connections[conn].commands;
    }

    /** The loop of forward_message: it stops at the first local connection with
        the service's name and collects the remote connections it passes. */
    method SearchConnections(server: string, service: string) returns (named: Option<nat>, remotes: seq<nat>)
      ensures named == FirstNamed(connections, server, service, 0)
      ensures named.None? ==> remotes == RemotesFor(connections, server, |connections|)
    {
      named, remotes := None, [];
      var allServers := server == "" || server == SERVER_ANY;
      var remoteServers := server == SERVER_REMOTE;
      var i := 0;
      while i < |connections|
        invariant 0 <= i <= |connections|
        invariant forall j :: 0 <= j < i ==> !NamedHere(connections[j], server, service)
        invariant remotes == RemotesFor(connections, server, i)
        invariant named == None
      {
        var c := connections[i];
        RemotesNext(connections, server, i);
        ConsideredFor(c, server, service);
        if !c.kind.NotBase? && c.serverName != "" {
          var tryRemote := true;
          if allServers || server == PRIVATE_BROADCAST || server == c.serverName {
            if c.kind.Service? || c.kind.UnixSocket? {
              if c.name == service {
                FirstNamedAt(connections, server, service, i);
                return Some(i), remotes;
              }
            }
          } else {
            tryRemote := remoteServers;
          }
          if tryRemote {
            if c.ctype.RemoteType? {
              remotes := remotes + [i];
            }
          }
        }
        assert remotes == RemotesFor(connections, server, i + 1);
        i := i + 1;
      }
      NoneNamed(connections, server, service);
    }

    /** The message is for a service of this computer that is not registered. */
    method CacheLocally(msg: Message, sender: Option<nat>, now: int)
      requires sender.Some? ==> sender.value < |connections|
      modifies this`outputs, localCache
      ensures var e := CacheStep(old(State()), now, msg, sender);
              State() == e.daemon && outputs == old(outputs) + e.outputs
    {
      var cached := localCache.CacheMessage(msg, now);
      if cached.ReplyWanted? && sender.Some? {
        var valid := VerifyCommand(sender.value, "SERVICE_UNAVAILABLE");
        if valid {
          outputs := outputs + [Unavailable(sender.value, msg.command, msg.service)];
        }
      }
      TransmissionReport(msg, sender, cached.Stored?);
    }

    /** The part of forward_message for a message sent to one service. */
    method ForwardToService(msg: Message, server: string, sender: Option<nat>, now: int) returns (result: bool)
      requires sender.Some? ==> sender.value < |connections|
      requires server == Server(State(), msg) && !IsBroadcast(msg.service)
      modifies this, localCache
      ensures var e := RouteDirected(old(State()), now, msg, sender);
              && State() == e.daemon
              && outputs == old(outputs) + e.outputs
              && relays == old(relays) + e.relays
      ensures result <==> RouteResult(old(State()), msg)
    {
      var service := msg.service;
      var named, remotes := SearchConnections(server, service);
      if named.Some? {
        if sender == named {
          return false;
        }
        var valid := VerifyCommand(named.value, msg.command);
        if valid {
          SendToService(named.value, msg);
        }
        return false;
      }
      if (server == "" || server == SERVER_ANY || server == serverName || server == PRIVATE_BROADCAST)
         && service in localServices {
        CacheLocally(msg, sender, now);
        return true;
      }
      if server == serverName {
        TransmissionReport(msg, sender, false);
        return false;
      }
      if remotes != [] {
        var onward := msg;
        if server == SERVER_REMOTE {
          onward := msg.(server := SERVER_ANY);
        }
        BroadcastMessage(onward, remotes, now);
      }
      return true;
    }

    method ForwardMessage(msg: Message, sender: Option<nat>, now: int) returns (result: bool)
      requires sender.Some? ==> sender.value < |connections|
      modifies this, localCache
      ensures var e := Forward(old(State()), now, msg, sender);
              && State() == e.daemon
              && outputs == old(outputs) + e.outputs
              && relays == old(relays) + e.relays
      ensures result <==> RouteResult(old(State()), msg)
    {
      var server := if msg.server == SERVER_ME then serverName else msg.server;
      var service := msg.service;
      if service == PUBLIC_BROADCAST || service == PRIVATE_BROADCAST || service == LOCAL_BROADCAST {
        if server != "" && server != SERVER_ANY && (service == PUBLIC_BROADCAST || service == PRIVATE_BROADCAST) {
          return false;
        }
        BroadcastMessage(msg, [], now);
        return true;
      }
      result := ForwardToService(msg, server, sender, now);
    }

    method DispatchMessage(msg: Message, sender: Option<nat>, now: int)
      requires sender.Some? ==> sender.value < |connections|
      modifies this, localCache
      ensures var e := Dispatch(old(State()), now, msg, sender);
              && State() == e.daemon
              && outputs == old(outputs) + e.outputs
              && relays == old(relays) + e.relays
    {
      var processed := CheckBroadcastMessage(msg, now);
      if processed {
        return;
      }
      if shutdown {
        return;
      }
      if (msg.server == "" || msg.server == SERVER_ME || msg.server == SERVER_ANY || msg.server == serverName)
         && (msg.service == "" || msg.service == COMMUNICATORD) {
        outputs := outputs + [ForUs(msg)];
        return;
      }
      var _ := ForwardMessage(msg, sender, now);
    }

    /** A service registers: what was cached for it is sent to its connection. */
    method Register(conn: nat, service: string, now: int)
      requires conn < |connections|
      modifies this`outputs, localCache
      ensures State() == old(State()).(cache := Kept(old(State()).cache, Some(service), now))
      ensures var sent := HandedOver(old(State()).cache, Some(service));
              outputs == old(outputs) + seq(|sent|, i requires 0 <= i < |sent| => ToService(conn, sent[i]))
    {
      var sent := localCache.ProcessMessages(service, now);
      outputs := outputs + seq(|sent|, i requires 0 <= i < |sent| => ToService(conn, sent[i]));
    }
  }
}
