/** The failures of one permanent connection and the flag that tells the
    administrator about them (communicator/daemon/remote_connection.cpp). */
module RemoteConnectionState {

  const MAX_INT := 0x7fff_ffff
  const ENOUGH := 20
  const HOUR := 60 * 60

  datatype Signal = HangUp | FlagUp | FlagDown

  datatype Peer = Peer(failures: int, since: int, flagged: bool, connected: bool)

  const NEW := Peer(-1, 0, false, false)

  /** named is whether the peer ever said who it is. */
  function Failed(p: Peer, named: bool, now: int): (Peer, seq<Signal>) {
    var hangs := p.connected && named;
    var failures := if p.failures <= 0 then 1 else if p.failures < MAX_INT then p.failures + 1 else p.failures;
    var since := if p.failures <= 0 then now else p.since;
    var raises := !p.flagged && failures >= ENOUGH && now - since > HOUR;
    (Peer(failures, since, p.flagged || raises, p.connected && !hangs),
     (if hangs then [HangUp] else []) + (if raises then [FlagUp] else []))
  }

  function Connected(p: Peer): (Peer, seq<Signal>) {
    if p.failures != 0 || p.since != 0 || p.flagged then (Peer(0, 0, false, true), [FlagDown])
    else (p.(connected := true), [])
  }
}

module RemoteConnectionClass {
  import opened RemoteConnectionState

  class RemoteConnection {
    var failures: int
    var failureStartTime: int
    var flagged: bool
    var connected: bool
    var serverName: string
    var signals: seq<Signal>   // what was broadcast and flagged so far

    constructor ()
      ensures State() == NEW && signals == [] && serverName == ""
    {
      failures, failureStartTime, flagged, connected := -1, 0, false, false;
      serverName, signals := "", [];
    }

    ghost function State(): Peer
      reads this
    {
      Peer(failures, failureStartTime, flagged, connected)
    }

    method ProcessMessage(sentFrom: string)
      modifies this`serverName
      ensures serverName == if old(serverName) == "" then sentFrom else old(serverName)
    {
      if serverName == "" {
        serverName := sentFrom;
      }
    }

    method ProcessConnectionFailed(now: int)
      modifies this
      ensures State() == Failed(old(State()), old(serverName) != "", now).0
      ensures signals == old(signals) + Failed(old(State()), old(serverName) != "", now).1
      ensures serverName == old(serverName)
    {
      if connected && serverName != "" {
        connected := false;
        signals := signals + [HangUp];
      }
      if failures <= 0 {
        failureStartTime := now;
        failures := 1;
      } else if failures < MAX_INT {
        failures := failures + 1;
      }
      var elapsed := now - failureStartTime;
      if !flagged && failures >= 20 && elapsed > 60 * 60 {
        flagged := true;
        signals := signals + [FlagUp];
      }
    }

    method ProcessConnected()
      modifies this
      ensures State() == Connected(old(State())).0
      ensures signals == old(signals) + Connected(old(State())).1
      ensures serverName == old(serverName)
    {
      connected := true;
      if failures != 0 || failureStartTime != 0 || flagged {
        failureStartTime := 0;
        failures := 0;
        flagged := false;
        signals := signals + [FlagDown];
      }
    }
  }
}

/** Whole runs of one connection. */
module RemoteConnectionRuns {
  import opened RemoteConnectionState

  datatype Event = Fail(named: bool, at: int) | Connect

  function After(events: seq<Event>): Peer {
    if events == [] then NEW
    else
      match events[|events| - 1]
      case Fail(named, at) => Failed(After(events[..|events| - 1]), named, at).0
      case Connect => Connected(After(events[..|events| - 1])).0
  }

  /** What the last event of a run signals. */
  function LastSignals(events: seq<Event>): seq<Signal>
    requires events != []
  {
    match events[|events| - 1]
    case Fail(named, at) => Failed(After(events[..|events| - 1]), named, at).1
    case Connect => Connected(After(events[..|events| - 1])).1
  }

  // what the events alone say

  /** When the failures since the last connection happened. */
  function Outage(events: seq<Event>): seq<int> {
    if events == [] then []
    else
      match events[|events| - 1]
      case Fail(_, at) => Outage(events[..|events| - 1]) + [at]
      case Connect => []
  }

  predicate EverConnected(events: seq<Event>) {
    exists i :: 0 <= i < |events| && events[i].Connect?
  }

  /** The i-th failure of an outage is reason enough for the flag. */
  predicate Alarming(outage: seq<int>, i: nat)
    requires i < |outage|
  {
    i + 1 >= 20 && outage[i] - outage[0] > 3600
  }

  ghost predicate AnyAlarm(outage: seq<int>) {
    exists i :: 0 <= i < |outage| && Alarming(outage, i)
  }

  function Saturated(n: nat): int {
    if n < 0x7fff_ffff then n else 0x7fff_ffff
  }

  ghost predicate Describes(p: Peer, events: seq<Event>) {
    var outage := Outage(events);
    && (outage != [] ==> p.failures == Saturated(|outage|) && p.since == outage[0])
    && (outage == [] ==> p.since == 0 && p.failures == if EverConnected(events) then 0 else -1)
    && (p.flagged <==> AnyAlarm(outage))
  }

  lemma AlarmStep(outage: seq<int>, at: int)
    ensures AnyAlarm(outage + [at]) <==> AnyAlarm(outage) || Alarming(outage + [at], |outage|)
  {
    var longer := outage + [at];
    if AnyAlarm(outage) {
      var i :| 0 <= i < |outage| && Alarming(outage, i);
      assert Alarming(longer, i);
    }
    if AnyAlarm(longer) && !Alarming(longer, |outage|) {
      var i :| 0 <= i < |longer| && Alarming(longer, i);
      assert Alarming(outage, i);
    }
  }

  lemma EverConnectedStep(events: seq<Event>, e: Event)
    ensures EverConnected(events + [e]) <==> EverConnected(events) || e.Connect?
  {
    var all := events + [e];
    if EverConnected(events) {
      var i :| 0 <= i < |events| && events[i].Connect?;
      assert all[i].Connect?;
    }
    if e.Connect? { assert all[|events|].Connect?; }
  }

  /** In every run: the counter is the saturated number of failures since the last
      connection, and the flag is up exactly when one of them was alarming. */
  lemma {:induction false} StateDescribesRun(events: seq<Event>)
    ensures Describes(After(events), events)
  {
    if events != [] {
      var before, e := events[..|events| - 1], events[|events| - 1];
      StateDescribesRun(before);
      EverConnectedStep(before, e);
      assert events == before + [e];
      if e.Fail? { AlarmStep(Outage(before), e.at); }
    }
  }

  /** The flag is raised exactly at the first alarming failure of an outage. */
  lemma RaisedExactly(events: seq<Event>, named: bool, at: int)
    ensures var all := events + [Fail(named, at)];
            var outage := Outage(events) + [at];
            && all != []
            && (FlagUp in LastSignals(all) <==> Alarming(outage, |outage| - 1) && !AnyAlarm(Outage(events)))
  {
    var all := events + [Fail(named, at)];
    assert all[..|all| - 1] == events;
    StateDescribesRun(events);
  }

  /** The flag is taken down at the first connection ever and at every connection
      that ends an outage, whether the flag was raised in it or not. */
  lemma TakenDownExactly(events: seq<Event>)
    ensures var all := events + [Connect];
            all != [] && (FlagDown in LastSignals(all) <==> Outage(events) != [] || !EverConnected(events))
  {
    var all := events + [Connect];
    assert all[..|all| - 1] == events;
    StateDescribesRun(events);
  }

  ghost predicate Raises(events: seq<Event>, i: nat) {
    i < |events| && FlagUp in LastSignals(events[..i + 1])
  }

  ghost predicate TakesDown(events: seq<Event>, i: nat) {
    i < |events| && FlagDown in LastSignals(events[..i + 1])
  }

  /** Between two raises there is a take-down; so an outage raises the flag at most once. */
  lemma RaisesAreSeparated(events: seq<Event>, i: nat, j: nat)
    requires i < j && Raises(events, i) && Raises(events, j)
    ensures exists k :: i < k < j && TakesDown(events, k)
  {
    UpMeansFlagged(events, i);
    UpMeansFlagged(events, j);
    FlaggedUntilDown(events, i + 1, j);
  }

  /** A flag that is up stays up, unless it is taken down. */
  lemma {:induction false} FlaggedUntilDown(events: seq<Event>, i: nat, j: nat)
    requires i <= j <= |events| && FlaggedAt(events, i) && !FlaggedAt(events, j)
    ensures exists k :: i <= k < j && TakesDown(events, k)
    decreases j - i
  {
    if FlaggedAt(events, i + 1) {
      FlaggedUntilDown(events, i + 1, j);
    } else {
      OnlyDownLowers(events, i);
    }
  }

  /** Whether the flag is up after n events. */
  predicate FlaggedAt(events: seq<Event>, n: nat)
    requires n <= |events|
  {
    After(events[..n]).flagged
  }

  lemma UpMeansFlagged(events: seq<Event>, i: nat)
    requires Raises(events, i)
    ensures !FlaggedAt(events, i) && FlaggedAt(events, i + 1)
  {
    assert events[..i + 1][..|events[..i + 1]| - 1] == events[..i];
  }

  lemma OnlyDownLowers(events: seq<Event>, j: nat)
    requires j < |events| && FlaggedAt(events, j) && !FlaggedAt(events, j + 1)
    ensures TakesDown(events, j)
  {
    assert events[..j + 1][..|events[..j + 1]| - 1] == events[..j];
  }

  // ---- hang-ups -----------------------------------------------------------

  ghost predicate HangsUp(events: seq<Event>, i: nat) {
    i < |events| && HangUp in LastSignals(events[..i + 1])
  }

  predicate ConnectedAt(events: seq<Event>, n: nat)
    requires n <= |events|
  {
    After(events[..n]).connected
  }

  /** A hang-up is signalled at most once per connection: between two of them the peer connected again. */
  lemma HangUpOnce(events: seq<Event>, i: nat, j: nat)
    requires i < j && HangsUp(events, i) && HangsUp(events, j)
    ensures exists k :: i < k < j && events[k].Connect?
  {
    HangUpDisconnects(events, i);
    HangUpDisconnects(events, j);
    DownUntilConnect(events, i + 1, j);
  }

  lemma HangUpDisconnects(events: seq<Event>, i: nat)
    requires HangsUp(events, i)
    ensures ConnectedAt(events, i) && !ConnectedAt(events, i + 1)
  {
    assert events[..i + 1][..|events[..i + 1]| - 1] == events[..i];
  }

  lemma {:induction false} DownUntilConnect(events: seq<Event>, i: nat, j: nat)
    requires i <= j <= |events| && !ConnectedAt(events, i) && ConnectedAt(events, j)
    ensures exists k :: i <= k < j && events[k].Connect?
    decreases j - i
  {
    assert events[..i + 1][..|events[..i + 1]| - 1] == events[..i];
    if !events[i].Connect? { DownUntilConnect(events, i + 1, j); }
  }

  /** The peer connected, and no failure after it had named itself broke that connection yet. */
  ghost predicate Connecting(events: seq<Event>) {
    exists i :: 0 <= i < |events| && events[i].Connect?
                && forall j :: i < j < |events| ==> !(events[j].Fail? && events[j].named)
  }

  lemma ConnectingStep(events: seq<Event>, e: Event)
    ensures Connecting(events + [e]) <==> e.Connect? || (Connecting(events) && !(e.Fail? && e.named))
  {
    var all, n := events + [e], |events|;
    if e.Connect? { assert all[n].Connect?; }
    if Connecting(events) && !(e.Fail? && e.named) {
      var i :| 0 <= i < n && events[i].Connect? && forall j :: i < j < n ==> !(events[j].Fail? && events[j].named);
      assert all[i].Connect? && forall j :: i < j < |all| ==> !(all[j].Fail? && all[j].named);
    }
    if Connecting(all) && !e.Connect? {
      var i :| 0 <= i < |all| && all[i].Connect? && forall j :: i < j < |all| ==> !(all[j].Fail? && all[j].named);
      assert i < n && all[n] == e;
      assert events[i].Connect? && forall j :: i < j < n ==> events[j] == all[j];
    }
  }

  lemma {:induction false} ConnectedExactly(events: seq<Event>)
    ensures After(events).connected <==> Connecting(events)
  {
    if events != [] {
      var before, e := events[..|events| - 1], events[|events| - 1];
      ConnectedExactly(before);
      ConnectingStep(before, e);
      assert events == before + [e];
    }
  }

  /** A failure is signalled as a hang-up exactly when the peer had named itself and its connection was up. */
  lemma HangUpExactly(events: seq<Event>, named: bool, at: int)
    ensures var all := events + [Fail(named, at)];
            all != [] && (HangUp in LastSignals(all) <==> named && Connecting(events))
  {
    var all := events + [Fail(named, at)];
    assert all[..|all| - 1] == events;
    ConnectedExactly(events);
  }
}
