/** Whether the cluster has a quorum and is complete, and when that is announced. */
module ClusterStatusState {
  import opened Basics

  /** An entry of the dispatcher's list: a daemon we dial, any other base
      connection (marked remote when the far end is another computer), or something else. */
  datatype Link = Dialled(peer: nat, connected: bool) | Incoming(peer: nat, remote: bool, open: bool) | OtherLink

  predicate Live(l: Link) {
    match l
    case Dialled(_, connected) => connected
    case Incoming(_, remote, open) => remote && open
    case OtherLink => false
  }

  function LiveCount(links: seq<Link>): nat {
    if links == [] then 0 else LiveCount(links[..|links| - 1]) + if Live(links[|links| - 1]) then 1 else 0
  }

  function Total(neighbors: set<nat>): nat {
    if |neighbors| == 0 then 1 else |neighbors|
  }

  predicate IsUp(count: nat, total: nat) {
    count >= total / 2 + 1
  }

  predicate IsComplete(count: nat, total: nat) {
    count == total
  }

  /** A status message: the status and the number of neighbors it was computed for. */
  datatype Announcement = Announcement(holds: bool, total: nat)

  /** Who asked for the status: a service on TCP, a service on a Unix socket, or
      something that is no base connection; with the commands it understands. */
  datatype Asker = Tcp(commands: set<string>) | Unix(commands: set<string>) | NotBase

  datatype Reply = StatusReply(text: Announcement) | CompleteReply(text: Announcement)

  function StatusCommand(up: bool): string {
    if up then "CLUSTER_UP" else "CLUSTER_DOWN"
  }

  function CompleteCommand(complete: bool): string {
    if complete then "CLUSTER_COMPLETE" else "CLUSTER_INCOMPLETE"
  }

  function Replies(asker: Asker, count: nat, total: nat): seq<Reply> {
    var up, complete := IsUp(count, total), IsComplete(count, total);
    (if !asker.NotBase? && StatusCommand(up) in asker.commands then [StatusReply(Announcement(up, total))] else [])
    + (if asker.Tcp? && CompleteCommand(complete) in asker.commands
       then [CompleteReply(Announcement(complete, total))] else [])
  }

  /** What was computed last, and what was broadcast on each of the two streams. */
  datatype Monitor = Monitor(
    status: Option<bool>,
    complete: Option<bool>,
    totalSent: nat,
    statusSent: seq<Announcement>,
    completeSent: seq<Announcement>,
    file: Option<(Option<bool>, Option<bool>)>)

  const START := Monitor(None, None, 0, [], [], None)

  function Update(m: Monitor, count: nat, total: nat): Monitor {
    var up, complete := IsUp(count, total), IsComplete(count, total);
    var tellStatus := m.status != Some(up) || m.totalSent != total;
    var tellComplete := m.complete != Some(complete) || m.totalSent != total;
    Monitor(
      if tellStatus then Some(up) else m.status,
      if tellComplete then Some(complete) else m.complete,
      total,
      m.statusSent + if tellStatus then [Announcement(up, total)] else [],
      m.completeSent + if tellComplete then [Announcement(complete, total)] else [],
      if tellStatus || tellComplete then
        Some((if tellStatus then Some(up) else m.status, if tellComplete then Some(complete) else m.complete))
      else m.file)
  }
}

module ClusterStatusClass {
  import opened Basics
  import opened ClusterStatusState

  class ClusterMonitor {
    var neighbors: set<nat>
    var connections: seq<Link>
    var status: Option<bool>
    var complete: Option<bool>
    var totalCountSent: nat
    var statusSent: seq<Announcement>
    var completeSent: seq<Announcement>
    var file: Option<(Option<bool>, Option<bool>)>

    constructor ()
      ensures State() == START && neighbors == {} && connections == []
    {
      neighbors, connections := {}, [];
      status, complete, totalCountSent := None, None, 0;
      statusSent, completeSent, file := [], [], None;
    }

    ghost function State(): Monitor
      reads this
    {
      Monitor(status, complete, totalCountSent, statusSent, completeSent, file)
    }

    method CountLiveConnections() returns (count: nat)
      ensures count == LiveCount(connections)
    {
      count := 0;
      var i := 0;
      while i < |connections|
        invariant 0 <= i <= |connections|
        invariant count == LiveCount(connections[..i])
      {
        assert connections[..i + 1][..i] == connections[..i];
        match connections[i] {
          case Dialled(_, connected) =>
            if connected {
              count := count + 1;
            }
          case Incoming(_, remote, open) =>
            if remote && open {
              count := count + 1;
            }
          case OtherLink =>
        }
        i := i + 1;
      }
      assert connections[..i] == connections;
    }

    /** With an asker this only replies; without one the change, if any, is stored and broadcast. */
    method ClusterStatus(asker: Option<Asker>) returns (replies: seq<Reply>)
      modifies this`status, this`complete, this`totalCountSent, this`statusSent, this`completeSent, this`file
      ensures var count, total := LiveCount(connections) + 1, Total(neighbors);
              if asker.None? then State() == Update(old(State()), count, total) && replies == []
              else State() == old(State()) && replies == Replies(asker.value, count, total)
    {
      replies := [];
      ghost var was := State();
      var live := CountLiveConnections();
      var count := live + 1;
      var totalCount := if 1 > |neighbors| then 1 else |neighbors|;
      var quorum := totalCount / 2 + 1;
      var modified := false;
      var up := count >= quorum;
      assert totalCount == Total(neighbors) && up == IsUp(count, totalCount);
      if status != Some(up) || totalCountSent != totalCount || asker.Some? {
        if asker.None? {
          status := Some(up);
          modified := true;
        }
        if asker.Some? {
          if !asker.value.NotBase? && StatusCommand(up) in asker.value.commands {
            replies := replies + [StatusReply(Announcement(up, totalCount))];
          }
        } else {
          statusSent := statusSent + [Announcement(up, totalCount)];
        }
      }
      ghost var told := Update(was, count, totalCount);
      assert asker.None? ==> status == told.status && statusSent == told.statusSent;
      var whole := count == totalCount || (totalCount == 0 && count == 1);
      if complete != Some(whole) || totalCountSent != totalCount || asker.Some? {
        if asker.None? {
          complete := Some(whole);
          modified := true;
        }
        if asker.Some? {
          if asker.value.Tcp? && CompleteCommand(whole) in asker.value.commands {
            replies := replies + [CompleteReply(Announcement(whole, totalCount))];
          }
        } else {
          completeSent := completeSent + [Announcement(whole, totalCount)];
        }
      }
      assert asker.None? ==> complete == told.complete && completeSent == told.completeSent;
      if asker.None? {
        totalCountSent := totalCount;
      }
      if modified {
        file := Some((status, complete));
      }
    }
  }
}

/** Whole runs of updates and queries. */
module ClusterStatusRuns {
  import opened Basics
  import opened ClusterStatusState

  /** A query is a CLUSTER_STATUS message; a hang-up of a remote peer is also
      handled as one, from the lost connection. */
  datatype Op = UpdateOp(count: nat, total: nat) | QueryOp(count: nat, total: nat, asker: Asker)

  function Run(ops: seq<Op>): Monitor {
    if ops == [] then START
    else
      var m, op := Run(ops[..|ops| - 1]), ops[|ops| - 1];
      if op.UpdateOp? then Update(m, op.count, op.total) else m
  }

  function Updates(ops: seq<Op>): seq<Op> {
    if ops == [] then []
    else Updates(ops[..|ops| - 1]) + if ops[|ops| - 1].UpdateOp? then [ops[|ops| - 1]] else []
  }

  // what each update would say, had it no memory

  function StatusTexts(ops: seq<Op>): seq<Announcement> {
    if ops == [] then []
    else
      var op := ops[|ops| - 1];
      StatusTexts(ops[..|ops| - 1])
      + if op.UpdateOp? then [Announcement(IsUp(op.count, op.total), op.total)] else []
  }

  function CompleteTexts(ops: seq<Op>): seq<Announcement> {
    if ops == [] then []
    else
      var op := ops[|ops| - 1];
      CompleteTexts(ops[..|ops| - 1])
      + if op.UpdateOp? then [Announcement(IsComplete(op.count, op.total), op.total)] else []
  }

  /** A stream without its immediate repetitions. */
  function Changes(s: seq<Announcement>): seq<Announcement> {
    if s == [] then []
    else if |s| > 1 && s[|s| - 1] == s[|s| - 2] then Changes(s[..|s| - 1])
    else Changes(s[..|s| - 1]) + [s[|s| - 1]]
  }

  lemma {:induction false} ChangesMeaning(s: seq<Announcement>)
    ensures s != [] ==> Changes(s) != [] && Changes(s)[|Changes(s)| - 1] == s[|s| - 1]
    ensures forall i :: 0 < i < |Changes(s)| ==> Changes(s)[i] != Changes(s)[i - 1]
  {
    if s != [] {
      ChangesMeaning(s[..|s| - 1]);
    }
  }

  /** What is stored is what the last update computed, and nothing before the first. */
  ghost predicate StoresLast(m: Monitor, statuses: seq<Announcement>, completes: seq<Announcement>) {
    && |statuses| == |completes|
    && if statuses == [] then m.status == None && m.complete == None && m.file == None
       else
         && m.status == Some(statuses[|statuses| - 1].holds)
         && m.complete == Some(completes[|completes| - 1].holds)
         && m.totalSent == statuses[|statuses| - 1].total == completes[|completes| - 1].total
         && m.file == Some((m.status, m.complete))
  }

  /** Over any interleaving of updates and queries each stream is exactly the
      changes of what the updates computed; so its last message is the stored
      status, and no two messages in a row are equal (see ChangesMeaning). */
  lemma {:induction false} StreamsAreChanges(ops: seq<Op>)
    ensures Run(ops).statusSent == Changes(StatusTexts(ops))
    ensures Run(ops).completeSent == Changes(CompleteTexts(ops))
    ensures StoresLast(Run(ops), StatusTexts(ops), CompleteTexts(ops))
  {
    if ops != [] {
      var before, op := ops[..|ops| - 1], ops[|ops| - 1];
      StreamsAreChanges(before);
      if op.UpdateOp? {
        UpdateStreams(Run(before), StatusTexts(before), CompleteTexts(before), op.count, op.total);
      } else {
        assert StatusTexts(ops) == StatusTexts(before) && CompleteTexts(ops) == CompleteTexts(before);
      }
    }
  }

  lemma UpdateStreams(m: Monitor, statuses: seq<Announcement>, completes: seq<Announcement>, count: nat, total: nat)
    requires m.statusSent == Changes(statuses) && m.completeSent == Changes(completes)
    requires StoresLast(m, statuses, completes)
    ensures var next := Update(m, count, total);
            var up, whole := Announcement(IsUp(count, total), total), Announcement(IsComplete(count, total), total);
            && next.statusSent == Changes(statuses + [up]) && next.completeSent == Changes(completes + [whole])
            && StoresLast(next, statuses + [up], completes + [whole])
  {
    ChangesNext(statuses, Announcement(IsUp(count, total), total));
    ChangesNext(completes, Announcement(IsComplete(count, total), total));
  }

  lemma ChangesNext(s: seq<Announcement>, a: Announcement)
    ensures Changes(s + [a]) == if s != [] && s[|s| - 1] == a then Changes(s) else Changes(s) + [a]
  {
    assert (s + [a])[..|s + [a]| - 1] == s;
  }

  /** The last broadcast of each stream says what is stored. */
  lemma AnnouncementsTrackState(ops: seq<Op>)
    requires Updates(ops) != []
    ensures var m := Run(ops);
            && m.statusSent != [] && m.completeSent != [] && m.status.Some? && m.complete.Some?
            && m.statusSent[|m.statusSent| - 1] == Announcement(m.status.value, m.totalSent)
            && m.completeSent[|m.completeSent| - 1] == Announcement(m.complete.value, m.totalSent)
            && (forall i :: 0 < i < |m.statusSent| ==> m.statusSent[i] != m.statusSent[i - 1])
            && (forall i :: 0 < i < |m.completeSent| ==> m.completeSent[i] != m.completeSent[i - 1])
            && m.file == Some((m.status, m.complete))
  {
    StreamsAreChanges(ops);
    UpdatesSay(ops);
    ChangesMeaning(StatusTexts(ops));
    ChangesMeaning(CompleteTexts(ops));
  }

  lemma {:induction false} UpdatesSay(ops: seq<Op>)
    ensures |StatusTexts(ops)| == |CompleteTexts(ops)| == |Updates(ops)|
  {
    if ops != [] { UpdatesSay(ops[..|ops| - 1]); }
  }

  /** A query never suppresses, delays or causes an announcement: without the queries the run is the same. */
  lemma {:induction false} QueriesChangeNothing(ops: seq<Op>)
    ensures Run(Updates(ops)) == Run(ops)
  {
    if ops != [] {
      QueriesChangeNothing(ops[..|ops| - 1]);
      if ops[|ops| - 1].UpdateOp? {
        assert Updates(ops)[..|Updates(ops)| - 1] == Updates(ops[..|ops| - 1]);
      } else {
        assert Updates(ops) == Updates(ops[..|ops| - 1]);
      }
    }
  }

  lemma {:induction false} QueriesAddNothing(ops: seq<Op>, queries: seq<Op>)
    requires forall q :: q in queries ==> q.QueryOp?
    ensures Run(ops + queries) == Run(ops)
  {
    if queries == [] {
      assert ops + queries == ops;
    } else {
      var front := queries[..|queries| - 1];
      QueriesAddNothing(ops, front);
      assert (ops + queries)[..|ops + queries| - 1] == ops + front;
      assert queries[|queries| - 1] in queries;
    }
  }

  /** Hang-ups are handled as queries, and the loss of a daemon that this one had
      dialled is not handled at all.  When they leave `left` of the daemons that the
      last update counted, the status announced then is wrong exactly when the
      quorum lies between, and the completeness exactly when one of the two
      numbers, and not the other, is the total. */
  lemma HangUpsGoUnannounced(ops: seq<Op>, count: nat, total: nat, queries: seq<Op>, left: nat)
    requires left <= count && forall q :: q in queries ==> q.QueryOp?
    ensures var m := Run(ops + [UpdateOp(count, total)] + queries);
            && m.statusSent != [] && m.completeSent != []
            && (m.statusSent[|m.statusSent| - 1] == Announcement(IsUp(left, total), total)
                <==> !(left <= total / 2 < count))
            && (m.completeSent[|m.completeSent| - 1] == Announcement(IsComplete(left, total), total)
                <==> left == count || (left != total && count != total))
  {
    var updated := ops + [UpdateOp(count, total)];
    QueriesAddNothing(updated, queries);
    assert updated[..|updated| - 1] == ops;
    StreamsAreChanges(updated);
    ChangesMeaning(StatusTexts(updated));
    ChangesMeaning(CompleteTexts(updated));
  }

  /** One hang-up: what was announced is right afterwards exactly when the daemon
      lost was not the last one needed for the quorum, and, for completeness, when
      the cluster neither was complete nor counted one too many. */
  lemma HangUpGoesUnannounced(ops: seq<Op>, count: nat, total: nat, asker: Asker)
    requires count >= 1
    ensures var m := Run(ops + [UpdateOp(count, total)] + [QueryOp(count - 1, total, asker)]);
            && m.statusSent != [] && m.completeSent != []
            && (m.statusSent[|m.statusSent| - 1] == Announcement(IsUp(count - 1, total), total)
                <==> count != total / 2 + 1)
            && (m.completeSent[|m.completeSent| - 1] == Announcement(IsComplete(count - 1, total), total)
                <==> count != total && count != total + 1)
  {
    HangUpsGoUnannounced(ops, count, total, [QueryOp(count - 1, total, asker)], count - 1);
  }

  /** Two daemons: the other one hangs up, and the cluster stays announced as up and complete. */
  lemma HangUpMisleads(asker: Asker)
    ensures var m := Run([UpdateOp(2, 2), QueryOp(1, 2, asker)]);
            && m.statusSent == [Announcement(true, 2)] && !IsUp(1, 2)
            && m.completeSent == [Announcement(true, 2)] && !IsComplete(1, 2)
  {
    assert [UpdateOp(2, 2), QueryOp(1, 2, asker)][..1] == [UpdateOp(2, 2)];
    assert [UpdateOp(2, 2)][..0] == [];
    assert Run([UpdateOp(2, 2)]) == Update(START, 2, 2);
  }

  lemma CompleteIsUp(count: nat, total: nat)
    requires total >= 1 && IsComplete(count, total)
    ensures IsUp(count, total)
  {}

  // ---- what is counted, and what a query is answered ----------------------

  /** The places of the list that count: a dialled daemon that is connected, or an
      open connection of another computer. */
  ghost function Counted(links: seq<Link>): set<int> {
    set i | 0 <= i < |links| && match links[i]
                                case Dialled(_, connected) => connected
                                case Incoming(_, remote, open) => remote && open
                                case OtherLink => false
  }

  lemma {:induction false} LiveExactly(links: seq<Link>)
    ensures LiveCount(links) == |Counted(links)|
  {
    if links == [] {
      assert Counted(links) == {};
    } else {
      var front, n := links[..|links| - 1], |links| - 1;
      LiveExactly(front);
      assert Counted(links) == Counted(front) + if Live(links[n]) then {n} else {};
    }
  }

  /** The quorum is the strict majority of the neighbors. */
  lemma QuorumIsMajority(count: nat, neighbors: set<nat>)
    ensures neighbors != {} ==>
              && (IsUp(count, Total(neighbors)) <==> 2 * count > |neighbors|)
              && (IsComplete(count, Total(neighbors)) <==> count == |neighbors|)
    ensures neighbors == {} ==> Total(neighbors) == 1 && (IsUp(count, 1) <==> count >= 1)
  {}

  predicate Knows(asker: Asker, command: string) {
    !asker.NotBase? && command in asker.commands
  }

  /** A query is answered with the status, if the asker understands it, and, on a TCP
      connection only, with the completeness; the replies say what an update with the
      same numbers would have broadcast last. */
  lemma QueryAnswered(ops: seq<Op>, count: nat, total: nat, asker: Asker)
    ensures var m := Run(ops + [UpdateOp(count, total)]);
            var replies := Replies(asker, count, total);
            && m.statusSent != [] && m.completeSent != []
            && replies
               == (if Knows(asker, if count >= total / 2 + 1 then "CLUSTER_UP" else "CLUSTER_DOWN")
                   then [StatusReply(m.statusSent[|m.statusSent| - 1])] else [])
                + (if asker.Tcp? && Knows(asker, if count == total then "CLUSTER_COMPLETE" else "CLUSTER_INCOMPLETE")
                   then [CompleteReply(m.completeSent[|m.completeSent| - 1])] else [])
  {
    var updated := ops + [UpdateOp(count, total)];
    assert updated[..|updated| - 1] == ops;
    StreamsAreChanges(updated);
    ChangesMeaning(StatusTexts(updated));
    ChangesMeaning(CompleteTexts(updated));
  }
}
