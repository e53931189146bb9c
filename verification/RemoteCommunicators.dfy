/** The connections a daemon opens to the other daemons it knows: it dials the
    smaller addresses for good and gossips to the others
    (communicator/daemon/remote_communicators.cpp). */
module RemoteCommunicatorsState {

  /** An address with its port; only the order of addresses matters. */
  type Addr = nat

  const SECOND := 1_000_000
  const DEFAULT_TIMEOUT := 60 * SECOND
  const RECONNECT_TIMEOUT := 5 * 60 * SECOND
  const TOO_BUSY_TIMEOUT := 24 * 60 * 60 * SECOND

  /** A permanent connection: handle stands for the object, dates are microseconds. */
  datatype Dial = Dial(handle: nat, date: int, delay: int, enabled: bool)

  /** registered holds the handles this class put in the dispatcher's list;
      next is the handle of the next object that is created. */
  datatype Links = Links(
    me: Addr,
    lastStart: int,
    all: set<Addr>,
    smaller: map<Addr, Dial>,
    gossip: map<Addr, nat>,
    registered: set<nat>,
    next: nat)

  function Later(a: int, b: int): int {
    if a > b then a else b
  }

  function DialNew(l: Links, a: Addr, now: int, ok: bool): Links {
    var start := Later(now, l.lastStart);
    l.(lastStart := start + 1,
       smaller := if ok then l.smaller[a := Dial(l.next, start * SECOND, DEFAULT_TIMEOUT, true)] else l.smaller - {a},
       registered := if ok then l.registered + {l.next} else l.registered,
       next := l.next + 1)
  }

  function Lost(l: Links, a: Addr, ok: bool): Links {
    if a in l.gossip then l
    else if ok then l.(gossip := l.gossip[a := l.next], registered := l.registered + {l.next}, next := l.next + 1)
    else l.(next := l.next + 1)
  }

  /** connected is whether the connection to a is up; ok is whether the dispatcher takes the new one. */
  function Add(l: Links, a: Addr, now: int, connected: bool, ok: bool): Links {
    if a == l.me then l
    else if a in l.all then
      if a < l.me && a in l.smaller && !connected then
        l.(smaller := l.smaller[a := l.smaller[a].(delay := TOO_BUSY_TIMEOUT, date := now * SECOND, enabled := true)])
      else l
    else if a < l.me then DialNew(l.(all := l.all + {a}), a, now, ok)
    else Lost(l.(all := l.all + {a}), a, ok)
  }

  function GossipReceived(l: Links, a: Addr): Links {
    if a in l.gossip then l.(gossip := l.gossip - {a}, registered := l.registered - {l.gossip[a]}) else l
  }

  function StopGossip(l: Links): Links {
    l.(gossip := map[], registered := l.registered - l.gossip.Values)
  }

  function Pause(l: Links, a: Addr, delay: int): Links {
    if a in l.smaller then l.(smaller := l.smaller[a := l.smaller[a].(delay := delay, enabled := true)]) else l
  }

  function Forget(l: Links, a: Addr): Links {
    var k :=
      if a in l.smaller then l.(smaller := l.smaller - {a}, registered := l.registered - {l.smaller[a].handle}) else l;
    k.(gossip := k.gossip - {a})
  }

  function Fresh(me: Addr): Links {
    Links(me, 0, {}, map[], map[], {}, 0)
  }
}

module RemoteCommunicatorsClass {
  import opened RemoteCommunicatorsState

  class RemoteCommunicators {
    const connectionAddress: Addr
    var lastStartDate: int
    var allIps: set<Addr>
    var smallerIps: map<Addr, Dial>
    var gossipIps: map<Addr, nat>
    var registered: set<nat>
    var nextHandle: nat

    constructor (me: Addr)
      ensures State() == Fresh(me)
    {
      connectionAddress := me;
      lastStartDate, allIps, smallerIps, gossipIps := 0, {}, map[], map[];
      registered, nextHandle := {}, 0;
    }

    ghost function State(): Links
      reads this
    {
      Links(connectionAddress, lastStartDate, allIps, smallerIps, gossipIps, registered, nextHandle)
    }

    method AddRemoteCommunicator(remote: Addr, now: int, connected: bool, ok: bool)
      modifies this
      ensures State() == Add(old(State()), remote, now, connected, ok)
    {
      if remote == connectionAddress {
        return;
      }
      if remote in allIps {
        if remote < connectionAddress {
          if remote in smallerIps {
            if !connected {
              var dial := smallerIps[remote];
              dial := dial.(delay := TOO_BUSY_TIMEOUT);
              dial := dial.(date := now * SECOND);
              dial := dial.(enabled := true);
              smallerIps := smallerIps[remote := dial];
            }
          }
        }
        return;
      }
      allIps := allIps + {remote};
      if remote < connectionAddress {
        var handle := nextHandle;
        nextHandle := nextHandle + 1;
        if now > lastStartDate {
          lastStartDate := now;
        }
        smallerIps := smallerIps[remote := Dial(handle, lastStartDate * SECOND, DEFAULT_TIMEOUT, true)];
        lastStartDate := lastStartDate + 1;
        if ok {
          registered := registered + {handle};
        } else {
          smallerIps := smallerIps - {remote};
        }
        assert !ok ==> smallerIps == old(smallerIps) - {remote};
      } else {
        ConnectionLost(remote, ok);
      }
    }

    method ConnectionLost(remote: Addr, ok: bool)
      modifies this
      ensures State() == Lost(old(State()), remote, ok)
    {
      if remote in gossipIps {
        return;
      }
      gossipIps := gossipIps[remote := nextHandle];
      nextHandle := nextHandle + 1;
      if ok {
        registered := registered + {gossipIps[remote]};
      } else {
        gossipIps := gossipIps - {remote};
        assert gossipIps == old(gossipIps);
      }
    }

    method GossipWasReceived(remote: Addr)
      modifies this
      ensures State() == GossipReceived(old(State()), remote)
    {
      if remote in gossipIps {
        registered := registered - {gossipIps[remote]};
        gossipIps := gossipIps - {remote};
      }
    }

    method StopGossiping()
      modifies this
      ensures State() == StopGossip(old(State()))
    {
      while gossipIps != map[]
        invariant gossipIps.Keys <= old(gossipIps).Keys
        invariant forall a :: a in gossipIps ==> gossipIps[a] == old(gossipIps)[a]
        invariant registered == old(registered)
                  - set a | a in old(gossipIps) && a !in gossipIps :: old(gossipIps)[a]
        invariant unchanged(`lastStartDate) && unchanged(`allIps) && unchanged(`smallerIps) && unchanged(`nextHandle)
        decreases gossipIps.Keys
      {
        assert exists a :: a in gossipIps;
        var remote :| remote in gossipIps;
        registered := registered - {gossipIps[remote]};
        gossipIps := gossipIps - {remote};
      }
      assert old(gossipIps).Values == set a | a in old(gossipIps) :: old(gossipIps)[a];
    }

    method TooBusy(remote: Addr)
      modifies this
      ensures State() == Pause(old(State()), remote, TOO_BUSY_TIMEOUT)
    {
      if remote in smallerIps {
        smallerIps := smallerIps[remote := smallerIps[remote].(delay := TOO_BUSY_TIMEOUT, enabled := true)];
      }
    }

    method ShuttingDown(remote: Addr)
      modifies this
      ensures State() == Pause(old(State()), remote, RECONNECT_TIMEOUT)
    {
      if remote in smallerIps {
        smallerIps := smallerIps[remote := smallerIps[remote].(delay := RECONNECT_TIMEOUT, enabled := true)];
      }
    }

    method ForgetRemoteConnection(remote: Addr)
      modifies this
      ensures State() == Forget(old(State()), remote)
    {
      if remote in smallerIps {
        registered := registered - {smallerIps[remote].handle};
        smallerIps := smallerIps - {remote};
      }
      if remote in gossipIps {
        gossipIps := gossipIps - {remote};
      }
      assert gossipIps == old(gossipIps) - {remote};
    }
  }
}
