/** A cluster of daemons as a step system: any number of daemons, each with its
    own clock, and the copies that travel between them in any order. */
module FloodSystem {
  import opened Basics
  import opened Messages
  import opened DaemonSpec

  datatype Host = Host(daemon: Daemon, clock: nat)

  /** A copy on its way; path is the chain of daemons that sent it on, the originator first. */
  datatype Flight = Flight(to: Ip, msg: Message, path: seq<Ip>)

  /** A daemon recorded the identifier of a copy that had come along path. */
  datatype Acceptance = Acceptance(node: Ip, id: string, path: seq<Ip>)

  /** A daemon gave a message its identifier and timeout. */
  datatype Issue = Issue(origin: Ip, sequence: nat, timeout: int, msg: Message)

  /** hosts and net are the cluster; accepted, issued and sent only remember what happened. */
  datatype System = System(
    hosts: map<Ip, Host>,
    net: seq<Flight>,
    accepted: seq<Acceptance>,
    issued: map<string, Issue>,
    sent: set<(Ip, string)>)

  datatype Action =
    | Submit(node: Ip, msg: Message, sender: Option<nat>)  // a local service hands in a message
    | Announce(node: Ip, msg: Message)                     // the daemon broadcasts a message of its own
    | Deliver(i: nat, sender: Option<nat>)
    | Lose(i: nat)
    | Tick(node: Ip, now: nat)
    | Reconnect(node: Ip, connections: seq<Connection>, services: set<string>, shutdown: bool)

  function IdOf(msg: Message): string {
    TagOf(msg).id
  }

  function Launch(d: Daemon, relays: seq<Relay>, path: seq<Ip>): (flights: seq<Flight>)
    requires LinksOf(d, relays)
    ensures |flights| == |relays|
  {
    seq(|relays|, i requires 0 <= i < |relays| => Flight(d.connections[relays[i].conn].ip, relays[i].msg, path))
  }

  predicate ValidSender(d: Daemon, sender: Option<nat>) {
    sender.Some? ==> sender.value < |d.connections|
  }

  predicate Enabled(s: System, a: Action) {
    match a
    case Submit(n, msg, sender) => n in s.hosts && msg.tag.None? && ValidSender(s.hosts[n].daemon, sender)
    case Announce(n, msg) => n in s.hosts && msg.tag.None?
    case Deliver(i, sender) =>
      i < |s.net| && s.net[i].to in s.hosts && ValidSender(s.hosts[s.net[i].to].daemon, sender)
    case Lose(i) => i < |s.net|
    case Tick(n, now) => n in s.hosts && now >= s.hosts[n].clock
    case Reconnect(n, _, _, _) => n in s.hosts
  }

  /** Daemon n did e; the copies it sends have travelled path, which ends with n. */
  function Commit(s: System, n: Ip, e: Effect, path: seq<Ip>): System
    requires n in s.hosts && LinksOf(s.hosts[n].daemon, e.relays)
  {
    var flights := Launch(s.hosts[n].daemon, e.relays, path);
    s.(hosts := s.hosts[n := s.hosts[n].(daemon := e.daemon)],
       net := s.net + flights,
       sent := s.sent + set f | f in flights :: (f.to, IdOf(f.msg)))
  }

  /** A message without identifier is handled: it is issued if any copy leaves. */
  function Originate(s: System, n: Ip, e: Effect): System
    requires n in s.hosts && LinksOf(s.hosts[n].daemon, e.relays)
  {
    var t := Commit(s, n, e, [n]);
    if e.relays == [] then t
    else
      var msg := e.relays[0].msg;
      t.(issued := t.issued[IdOf(msg) := Issue(n, e.daemon.sequence, TagOf(msg).timeout, msg)])
  }

  function Without(net: seq<Flight>, i: nat): seq<Flight>
    requires i < |net|
  {
    net[..i] + net[i + 1..]
  }

  predicate Recorded(d: Daemon, e: Effect, id: string) {
    id !in d.received && id in e.daemon.received
  }

  /** The copy is gone from the network, and its receiver did e about it. */
  function Handled(s: System, i: nat, e: Effect): System
    requires i < |s.net| && s.net[i].to in s.hosts && LinksOf(s.hosts[s.net[i].to].daemon, e.relays)
  {
    var f := s.net[i];
    var t := Commit(s.(net := Without(s.net, i)), f.to, e, f.path + [f.to]);
    if Recorded(s.hosts[f.to].daemon, e, IdOf(f.msg)) then
      t.(accepted := t.accepted + [Acceptance(f.to, IdOf(f.msg), f.path)])
    else t
  }

  function Receive(s: System, i: nat, sender: Option<nat>): System
    requires i < |s.net| && s.net[i].to in s.hosts && ValidSender(s.hosts[s.net[i].to].daemon, sender)
  {
    var host := s.hosts[s.net[i].to];
    Handled(s, i, Dispatch(host.daemon, host.clock, s.net[i].msg, sender))
  }

  function Apply(s: System, a: Action): System
    requires Enabled(s, a)
  {
    match a
    case Submit(n, msg, sender) => Originate(s, n, Dispatch(s.hosts[n].daemon, s.hosts[n].clock, msg, sender))
    case Announce(n, msg) => Originate(s, n, Broadcast(s.hosts[n].daemon, s.hosts[n].clock, msg, []))
    case Deliver(i, sender) => Receive(s, i, sender)
    case Lose(i) => s.(net := Without(s.net, i))
    case Tick(n, now) => s.(hosts := s.hosts[n := s.hosts[n].(clock := now)])
    case Reconnect(n, connections, services, shutdown) =>
      s.(hosts := s.hosts[n := s.hosts[n].(daemon :=
        s.hosts[n].daemon.(connections := connections, localServices := services, shutdown := shutdown))])
  }

  predicate IsRun(s: System, acts: seq<Action>)
    decreases |acts|, 0
  {
    acts == []
    || (IsRun(s, acts[..|acts| - 1]) && Enabled(Exec(s, acts[..|acts| - 1]), acts[|acts| - 1]))
  }

  function Exec(s: System, acts: seq<Action>): System
    requires IsRun(s, acts)
    decreases |acts|, 1
  {
    if acts == [] then s else Apply(Exec(s, acts[..|acts| - 1]), acts[|acts| - 1])
  }

  ghost predicate DistinctNames(hosts: map<Ip, Host>) {
    forall m, n :: m in hosts && n in hosts && hosts[m].daemon.serverName == hosts[n].daemon.serverName ==> m == n
  }

  /** A cluster that just started: nothing sent, nothing received, counters at zero. */
  ghost predicate Init(s: System) {
    && DistinctNames(s.hosts)
    && (forall n :: n in s.hosts ==> s.hosts[n].daemon.received == map[] && s.hosts[n].daemon.sequence == 0)
    && s.net == [] && s.accepted == [] && s.issued == map[] && s.sent == {}
  }
}
