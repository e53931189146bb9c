/** What one communicator daemon does with one message: the duplicate gate,
    the routing of messages to services and the broadcast, as functions on
    the daemon's state. */
module DaemonSpec {
  import opened Basics
  import opened Messages
  import opened MessageId
  import opened MessageCache

  datatype Network = Loopback | Private | Public | OtherNetwork

  /** What a dispatcher entry is: a service on a Unix socket, the TCP end of a
      local service or of a daemon that dialled us, a daemon we dialled, another
      base connection (the UDP port), or something else (listener, gossip, timer). */
  datatype Kind = UnixSocket | Service | Remote | OtherBase | NotBase

  datatype ConnectionType = Down | LocalType | RemoteType

  datatype Connection = Connection(
    kind: Kind,
    name: string,
    serverName: string,
    ctype: ConnectionType,
    ip: Ip,
    network: Network,
    commands: set<string>)

  datatype Daemon = Daemon(
    serverName: string,
    address: Ip,
    connections: seq<Connection>,
    localServices: set<string>,
    received: map<string, int>,
    sequence: nat,
    cache: seq<Cached>,
    shutdown: bool,
    debugAll: bool)

  /** What leaves the daemon towards something that is not another daemon;
      connections are named by their place in the dispatcher's list. */
  datatype Output =
    | ToService(conn: nat, msg: Message)
    | Unavailable(conn: nat, command: string, service: string)
    | Report(conn: nat, command: string, cached: bool)
    | ForUs(msg: Message)

  /** A copy sent to another daemon. */
  datatype Relay = Relay(conn: nat, msg: Message)

  datatype Effect = Effect(daemon: Daemon, outputs: seq<Output>, relays: seq<Relay>)

  // ---- the duplicate gate -------------------------------------------------

  predicate Stale(d: Daemon, now: int, tag: Tag) {
    tag.timeout < now || tag.id in d.received
  }

  function Purge(received: map<string, int>, now: int): map<string, int> {
    map id | id in received && !(received[id] < now) :: received[id]
  }

  // ---- the broadcast ------------------------------------------------------

  /** Which connections and addresses a pass over the connection list retained. */
  datatype Scan = Scan(local: seq<nat>, chosen: seq<nat>, informed: set<Ip>)

  predicate IsDaemonLink(c: Connection) {
    c.kind.Service? || c.kind.Remote?
  }

  predicate IsLocalTarget(c: Connection, command: string) {
    && (c.kind.UnixSocket? || (c.kind.Service? && c.network.Loopback?))
    && command in c.commands
  }

  predicate Eligible(c: Connection, all: bool, remote: bool) {
    && IsDaemonLink(c)
    && ((c.network.Private? && remote) || (c.network.Public? && all))
  }

  function ScanAll(cs: seq<Connection>, n: nat, command: string, all: bool, remote: bool, informed: set<Ip>): (s: Scan)
    requires n <= |cs|
    ensures forall k :: k in s.local || k in s.chosen ==> k < n
  {
    if n == 0 then Scan([], [], informed)
    else
      var s := ScanAll(cs, n - 1, command, all, remote, informed);
      var c := cs[n - 1];
      if IsLocalTarget(c, command) then s.(local := s.local + [n - 1])
      else if Eligible(c, all, remote) && c.ip !in s.informed then
        s.(chosen := s.chosen + [n - 1], informed := s.informed + {c.ip})
      else s
  }

  predicate ValidList(cs: seq<Connection>, list: seq<nat>) {
    |list| <= |cs| && forall k :: k in list ==> k < |cs|
  }

  function ScanList(cs: seq<Connection>, list: seq<nat>, n: nat, informed: set<Ip>): (s: Scan)
    requires n <= |list| && ValidList(cs, list)
    ensures forall k :: k in s.chosen ==> k < |cs|
    ensures s.local == []
  {
    if n == 0 then Scan([], [], informed)
    else
      var s := ScanList(cs, list, n - 1, informed);
      assert list[n - 1] in list;
      var c := cs[list[n - 1]];
      if IsDaemonLink(c) && c.ip !in s.informed then
        s.(chosen := s.chosen + [list[n - 1]], informed := s.informed + {c.ip})
      else s
  }

  function Destination(msg: Message): string {
    if IsBroadcast(msg.service) then msg.service
    else if msg.server == "" then PRIVATE_BROADCAST
    else msg.server
  }

  predicate ToAll(msg: Message, hops: int) {
    hops < 5 && Destination(msg) == PUBLIC_BROADCAST
  }

  predicate ToRemote(msg: Message, hops: int) {
    hops < 5 && (ToAll(msg, hops) || Destination(msg) == PRIVATE_BROADCAST)
  }

  const NO_TAG := Tag("", 0, 0, {})

  function TagOf(msg: Message): Tag {
    if msg.tag.Some? then msg.tag.value else NO_TAG
  }

  /** The pass over the connections: an explicit list is taken as it is, whatever the number of hops. */
  function Targets(d: Daemon, msg: Message, list: seq<nat>): (s: Scan)
    requires ValidList(d.connections, list)
    ensures forall k :: k in s.local || k in s.chosen ==> k < |d.connections|
  {
    var tag := TagOf(msg);
    if list == [] then
      ScanAll(d.connections, |d.connections|, msg.command, ToAll(msg, tag.hops), ToRemote(msg, tag.hops), tag.informed)
    else
      ScanList(d.connections, list, |list|, tag.informed)
  }

  /** The copy sent on, given the tag it came with and the informed list that was built. */
  function Copy(d: Daemon, now: int, msg: Message, informed: set<Ip>): Message {
    var tag := TagOf(msg);
    msg.(tag := Some(Tag(
      if tag.id == "" then MsgId(d.serverName, d.sequence + 1) else tag.id,
      if tag.timeout == 0 then now + 10 else tag.timeout,
      tag.hops + 1,
      informed)))
  }

  function ToServices(local: seq<nat>, msg: Message): seq<Output> {
    seq(|local|, i requires 0 <= i < |local| => ToService(local[i], msg))
  }

  function Relays(chosen: seq<nat>, msg: Message): (r: seq<Relay>)
    ensures |r| == |chosen|
    ensures forall i :: 0 <= i < |r| ==> r[i] == Relay(chosen[i], msg)
  {
    seq(|chosen|, i requires 0 <= i < |chosen| => Relay(chosen[i], msg))
  }

  function Record(d: Daemon, now: int, msg: Message): Daemon {
    if msg.tag.None? then d
    else d.(received := Purge(d.received, now)[msg.tag.value.id := msg.tag.value.timeout])
  }

  ghost predicate LinksOf(d: Daemon, relays: seq<Relay>) {
    forall i :: 0 <= i < |relays| ==> relays[i].conn < |d.connections|
  }

  function Broadcast(d: Daemon, now: int, msg: Message, list: seq<nat>): (e: Effect)
    requires ValidList(d.connections, list)
    ensures LinksOf(d, e.relays) && e.daemon.connections == d.connections
  {
    if msg.tag.Some? && Stale(d, now, msg.tag.value) then Effect(d, [], [])
    else
      var d1 := Record(d, now, msg);
      var s := Targets(d, msg, list);
      if s.chosen == [] then Effect(d1, ToServices(s.local, msg), [])
      else
        assert forall i :: 0 <= i < |s.chosen| ==> s.chosen[i] in s.chosen;
        Effect(
          if TagOf(msg).id == "" then d1.(sequence := d1.sequence + 1) else d1,
          ToServices(s.local, msg),
          Relays(s.chosen, Copy(d, now, msg, s.informed)))
  }

  /** The broadcast as the daemon does it: after the record was made. */
  lemma BroadcastParts(d: Daemon, now: int, msg: Message, list: seq<nat>)
    requires ValidList(d.connections, list)
    ensures var e, d1 := Broadcast(d, now, msg, list), Record(d, now, msg);
            && d1.connections == d.connections
            && if msg.tag.Some? && Stale(d, now, msg.tag.value) then e == Effect(d, [], [])
               else
                 var s := Targets(d1, msg, list);
                 && e.outputs == ToServices(s.local, msg)
                 && e.relays == Relays(s.chosen, Copy(d1, now, msg, s.informed))
                 && e.daemon == d1.(sequence := d1.sequence + if s.chosen != [] && TagOf(msg).id == "" then 1 else 0)
  {}

  lemma RemotesNext(cs: seq<Connection>, server: string, n: nat)
    requires n < |cs|
    ensures RemotesFor(cs, server, n + 1) == RemotesFor(cs, server, n) + if RemoteFor(cs[n], server) then [n] else []
  {}

  // ---- routing ------------------------------------------------------------

  function Server(d: Daemon, msg: Message): string {
    if msg.server == SERVER_ME then d.serverName else msg.server
  }

  predicate AllServers(server: string) {
    server == "" || server == SERVER_ANY
  }

  /** A connection the router considers: it must know its server's name, and that must be the one asked for. */
  predicate Reaches(c: Connection, server: string) {
    && !c.kind.NotBase?
    && c.serverName != ""
    && (AllServers(server) || server == PRIVATE_BROADCAST || server == c.serverName)
  }

  predicate NamedHere(c: Connection, server: string, service: string) {
    Reaches(c, server) && (c.kind.Service? || c.kind.UnixSocket?) && c.name == service
  }

  predicate RemoteFor(c: Connection, server: string) {
    Reaches(c, server) && c.ctype.RemoteType?
  }

  ghost predicate IsFirstNamed(cs: seq<Connection>, server: string, service: string, k: nat) {
    && k < |cs|
    && NamedHere(cs[k], server, service)
    && forall j :: 0 <= j < k ==> !NamedHere(cs[j], server, service)
  }

  function FirstNamed(cs: seq<Connection>, server: string, service: string, from: nat): (r: Option<nat>)
    requires from <= |cs|
    requires forall j :: 0 <= j < from ==> !NamedHere(cs[j], server, service)
    ensures r.Some? ==> IsFirstNamed(cs, server, service, r.value)
    ensures r.None? ==> forall j :: 0 <= j < |cs| ==> !NamedHere(cs[j], server, service)
    decreases |cs| - from
  {
    if from == |cs| then None
    else if NamedHere(cs[from], server, service) then Some(from)
    else FirstNamed(cs, server, service, from + 1)
  }

  function RemotesFor(cs: seq<Connection>, server: string, n: nat): (r: seq<nat>)
    requires n <= |cs|
    ensures |r| <= n
    ensures forall k :: k in r ==> k < n
    ensures forall i :: 0 <= i < n ==> (RemoteFor(cs[i], server) <==> i in r)
    ensures forall i, j :: 0 <= i < j < |r| ==> r[i] < r[j]
  {
    if n == 0 then []
    else
      var front := RemotesFor(cs, server, n - 1);
      assert forall i :: 0 <= i < |front| ==> front[i] in front;
      if RemoteFor(cs[n - 1], server) then front + [n - 1] else front
  }

  lemma FirstNamedAt(cs: seq<Connection>, server: string, service: string, k: nat)
    requires IsFirstNamed(cs, server, service, k)
    ensures FirstNamed(cs, server, service, 0) == Some(k)
  {}

  lemma NoneNamed(cs: seq<Connection>, server: string, service: string)
    requires forall j :: 0 <= j < |cs| ==> !NamedHere(cs[j], server, service)
    ensures FirstNamed(cs, server, service, 0) == None
  {}

  /** What the loop of the router asks of a connection, one test after the other. */
  lemma ConsideredFor(c: Connection, server: string, service: string)
    ensures var known := !c.kind.NotBase? && c.serverName != "";
            var here := AllServers(server) || server == PRIVATE_BROADCAST || server == c.serverName;
            && (NamedHere(c, server, service)
                <==> known && here && (c.kind.Service? || c.kind.UnixSocket?) && c.name == service)
            && (RemoteFor(c, server) <==> known && (here || server == SERVER_REMOTE) && c.ctype.RemoteType?)
  {}

  predicate CommandAllowed(d: Daemon, c: Connection, command: string) {
    !d.debugAll || c.commands == {} || command in c.commands
  }

  predicate KnownHere(d: Daemon, server: string, service: string) {
    (AllServers(server) || server == d.serverName || server == PRIVATE_BROADCAST) && service in d.localServices
  }

  function ReportOutputs(msg: Message, sender: Option<nat>, cached: bool): seq<Output> {
    if sender.Some? && msg.report then [Report(sender.value, msg.command, cached)] else []
  }

  function CacheStep(d: Daemon, now: int, msg: Message, sender: Option<nat>): Effect
    requires sender.Some? ==> sender.value < |d.connections|
  {
    var outcome := PutOutcome(msg);
    Effect(
      d.(cache := Put(d.cache, msg, now)),
      (if outcome.ReplyWanted? && sender.Some?
          && CommandAllowed(d, d.connections[sender.value], "SERVICE_UNAVAILABLE")
       then [Unavailable(sender.value, msg.command, msg.service)] else [])
      + ReportOutputs(msg, sender, outcome.Stored?),
      [])
  }

  /** The routing of a message that is not a broadcast, as a list of priorities. */
  function RouteDirected(d: Daemon, now: int, msg: Message, sender: Option<nat>): (e: Effect)
    requires sender.Some? ==> sender.value < |d.connections|
    ensures LinksOf(d, e.relays) && e.daemon.connections == d.connections
  {
    var server := Server(d, msg);
    var named := FirstNamed(d.connections, server, msg.service, 0);
    if named.Some? then
      Effect(d,
             if sender == named || !CommandAllowed(d, d.connections[named.value], msg.command) then []
             else [ToService(named.value, msg)],
             [])
    else if KnownHere(d, server, msg.service) then CacheStep(d, now, msg, sender)
    else if server == d.serverName then Effect(d, ReportOutputs(msg, sender, false), [])
    else
      var remotes := RemotesFor(d.connections, server, |d.connections|);
      if remotes == [] then Effect(d, [], [])
      else Broadcast(d, now, if server == SERVER_REMOTE then msg.(server := SERVER_ANY) else msg, remotes)
  }

  /** Whether the message was taken care of, as the router tells its caller. */
  predicate RouteResult(d: Daemon, msg: Message) {
    var server := Server(d, msg);
    if IsBroadcast(msg.service) then AllServers(server) || msg.service == LOCAL_BROADCAST
    else
      && FirstNamed(d.connections, server, msg.service, 0).None?
      && (KnownHere(d, server, msg.service) || server != d.serverName)
  }

  function Forward(d: Daemon, now: int, msg: Message, sender: Option<nat>): (e: Effect)
    requires sender.Some? ==> sender.value < |d.connections|
    ensures LinksOf(d, e.relays) && e.daemon.connections == d.connections
  {
    if IsBroadcast(msg.service) then
      if !AllServers(Server(d, msg)) && msg.service != LOCAL_BROADCAST then Effect(d, [], [])
      else Broadcast(d, now, msg, [])
    else RouteDirected(d, now, msg, sender)
  }

  predicate ForThisDaemon(d: Daemon, msg: Message) {
    && (msg.server == "" || msg.server == SERVER_ME || msg.server == SERVER_ANY || msg.server == d.serverName)
    && (msg.service == "" || msg.service == COMMUNICATORD)
  }

  /** Everything a daemon does when a message reaches it. */
  function Dispatch(d: Daemon, now: int, msg: Message, sender: Option<nat>): (e: Effect)
    requires sender.Some? ==> sender.value < |d.connections|
    ensures LinksOf(d, e.relays) && e.daemon.connections == d.connections
  {
    if msg.tag.Some? && Stale(d, now, msg.tag.value) then Effect(d, [], [])
    else if d.shutdown then Effect(d, [], [])
    else if ForThisDaemon(d, msg) then Effect(d, [ForUs(msg)], [])
    else Forward(d, now, msg, sender)
  }
}
