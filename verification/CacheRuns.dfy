/** Whole runs of the message cache.  Every message put in the cache becomes an
    entry with a ticket, its arrival number, so that its fate can be followed
    through any interleaving of arrivals, registrations and purges. */
module CacheRuns {
  import opened Basics
  import opened Messages
  import opened MessageCache

  datatype Op = Arrive(msg: Message, now: int) | Register(service: string, now: int) | Purge(now: int)

  datatype Entry = Entry(ticket: nat, item: Cached, at: int)

  /** erasedAt[i] is when erased[i] was thrown away. */
  datatype History = History(
    arrivals: seq<Entry>, held: seq<Entry>, delivered: seq<Entry>, erased: seq<Entry>, erasedAt: seq<int>)

  /** The contents of the cache after a run, as class Cache computes them. */
  function Contents(ops: seq<Op>): seq<Cached> {
    if ops == [] then []
    else
      var before := Contents(ops[..|ops| - 1]);
      match ops[|ops| - 1]
      case Arrive(msg, now) => Put(before, msg, now)
      case Register(service, now) => Kept(before, Some(service), now)
      case Purge(now) => Kept(before, None, now)
  }

  /** The messages the run sent, in order. */
  function SentBy(ops: seq<Op>): seq<Message> {
    if ops == [] then []
    else
      var op := ops[|ops| - 1];
      SentBy(ops[..|ops| - 1])
      + if op.Register? then HandedOver(Contents(ops[..|ops| - 1]), Some(op.service)) else []
  }

  // the same on entries: what stays, what is handed over and what is erased

  function Staying(held: seq<Entry>, service: Option<string>, now: int): seq<Entry> {
    if held == [] then []
    else
      var e := held[|held| - 1];
      Staying(held[..|held| - 1], service, now)
      + if Wanted(e.item, service) || now > e.item.deadline then [] else [e]
  }

  function Taken(held: seq<Entry>, service: Option<string>): seq<Entry> {
    if held == [] then []
    else
      var e := held[|held| - 1];
      Taken(held[..|held| - 1], service) + if Wanted(e.item, service) then [e] else []
  }

  function Late(held: seq<Entry>, service: Option<string>, now: int): seq<Entry> {
    if held == [] then []
    else
      var e := held[|held| - 1];
      Late(held[..|held| - 1], service, now)
      + if !Wanted(e.item, service) && now > e.item.deadline then [e] else []
  }

  function Flush(h: History, service: Option<string>, now: int): History {
    var late := Late(h.held, service, now);
    h.(held := Staying(h.held, service, now),
       delivered := h.delivered + Taken(h.held, service),
       erased := h.erased + late,
       erasedAt := h.erasedAt + seq(|late|, i => now))
  }

  function Admit(h: History, msg: Message, now: int): History {
    if msg.cache.no then h
    else
      var e := Entry(|h.arrivals|, Cached(now + Lifetime(msg.cache.ttl), msg), now);
      h.(arrivals := h.arrivals + [e], held := h.held + [e])
  }

  function Replay(ops: seq<Op>): History {
    if ops == [] then History([], [], [], [], [])
    else
      var h := Replay(ops[..|ops| - 1]);
      match ops[|ops| - 1]
      case Arrive(msg, now) => Admit(h, msg, now)
      case Register(service, now) => Flush(h, Some(service), now)
      case Purge(now) => Flush(h, None, now)
  }

  /** The parts hold the same entries as the whole, each as often. */
  ghost predicate Splits(all: seq<Entry>, a: seq<Entry>, b: seq<Entry>, c: seq<Entry>) {
    multiset(all) == multiset(a) + multiset(b) + multiset(c)
  }

  lemma PutInOne(all: seq<Entry>, a: seq<Entry>, b: seq<Entry>, c: seq<Entry>)
    requires all != [] && Splits(all[..|all| - 1], a, b, c)
    ensures var e := all[|all| - 1];
            Splits(all, a + [e], b, c) && Splits(all, a, b + [e], c) && Splits(all, a, b, c + [e])
  {
    assert all == all[..|all| - 1] + [all[|all| - 1]];
  }

  /** A flush loses nothing and invents nothing. */
  lemma {:induction false} FlushConserves(held: seq<Entry>, service: Option<string>, now: int)
    ensures Splits(held, Staying(held, service, now), Taken(held, service), Late(held, service, now))
  {
    if held != [] {
      var front, e := held[..|held| - 1], held[|held| - 1];
      FlushConserves(front, service, now);
      var s, t, l := Staying(front, service, now), Taken(front, service), Late(front, service, now);
      PutInOne(held, s, t, l);
      if Wanted(e.item, service) {
        assert Taken(held, service) == t + [e] && Staying(held, service, now) == s && Late(held, service, now) == l;
      } else if now > e.item.deadline {
        assert Taken(held, service) == t && Staying(held, service, now) == s && Late(held, service, now) == l + [e];
      } else {
        assert Taken(held, service) == t && Staying(held, service, now) == s + [e] && Late(held, service, now) == l;
      }
    }
  }

  /** What a flush keeps and hands over comes from the cache; what it erases is past its deadline. */
  lemma {:induction false} FlushMembers(held: seq<Entry>, service: Option<string>, now: int)
    ensures forall e :: e in Staying(held, service, now) ==> e in held && !Wanted(e.item, service)
    ensures forall e :: e in Taken(held, service) ==> e in held && Wanted(e.item, service)
    ensures forall e :: e in Late(held, service, now) ==> now > e.item.deadline
  {
    if held != [] { FlushMembers(held[..|held| - 1], service, now); }
  }

  predicate Before(a: Entry, b: Entry) {
    a.ticket < b.ticket
  }

  ghost predicate Increasing(s: seq<Entry>) {
    forall i, j :: 0 <= i < j < |s| ==> Before(s[i], s[j])
  }

  lemma IncreasingAppend(s: seq<Entry>, e: Entry)
    requires Increasing(s) && forall x :: x in s ==> Before(x, e)
    ensures Increasing(s + [e])
  {}

  lemma {:induction false} FlushKeepsOrder(held: seq<Entry>, service: Option<string>, now: int)
    requires Increasing(held)
    ensures Increasing(Staying(held, service, now))
    ensures Increasing(Taken(held, service))
  {
    if held != [] {
      var front, e := held[..|held| - 1], held[|held| - 1];
      FlushKeepsOrder(front, service, now);
      FlushMembers(front, service, now);
      forall x | x in front ensures Before(x, e) {}
      IncreasingAppend(Staying(front, service, now), e);
      IncreasingAppend(Taken(front, service), e);
    }
  }

  /** Each arrival exactly once: delivered, erased undelivered, or still held. */
  ghost predicate Conserved(h: History) {
    && (forall i :: 0 <= i < |h.arrivals| ==> h.arrivals[i].ticket == i)
    && multiset(h.held) + multiset(h.delivered) + multiset(h.erased) == multiset(h.arrivals)
  }

  /** Nothing is erased before or at its deadline, which lies 10 to 86400 seconds after the arrival. */
  ghost predicate Timely(h: History) {
    && |h.erasedAt| == |h.erased|
    && (forall i :: 0 <= i < |h.erased| ==> h.erasedAt[i] > h.erased[i].item.deadline)
    && (forall e :: e in h.arrivals ==> 10 <= e.item.deadline - e.at <= 86400)
  }

  predicate SameService(a: Entry, b: Entry) {
    a.item.msg.service == b.item.msg.service
  }

  /** The messages a service gets reach it in the order they arrived. */
  ghost predicate InOrder(delivered: seq<Entry>) {
    forall i, j :: 0 <= i < j < |delivered| && SameService(delivered[i], delivered[j])
                   ==> Before(delivered[i], delivered[j])
  }

  /** What is still held arrived after everything its service already got. */
  ghost predicate Pending(h: History) {
    && Increasing(h.held)
    && (forall e :: e in h.held ==> e.ticket < |h.arrivals|)
    && (forall d :: d in h.delivered ==> d.ticket < |h.arrivals|)
    && (forall d, e :: d in h.delivered && e in h.held && SameService(d, e) ==> Before(d, e))
  }

  lemma FlushInOrder(h: History, service: Option<string>, now: int)
    requires InOrder(h.delivered) && Pending(h)
    ensures InOrder(Flush(h, service, now).delivered) && Pending(Flush(h, service, now))
  {
    FlushMembers(h.held, service, now);
    FlushKeepsOrder(h.held, service, now);
    var taken, delivered := Taken(h.held, service), Flush(h, service, now).delivered;
    forall i, j | 0 <= i < j < |delivered| && SameService(delivered[i], delivered[j])
      ensures Before(delivered[i], delivered[j])
    {
      if i < |h.delivered| <= j {
        assert taken[j - |h.delivered|] in h.held;
      }
    }
  }

  /** The fate of every message, over every run of the cache. */
  lemma {:induction false} EveryMessageOnce(ops: seq<Op>)
    ensures Conserved(Replay(ops)) && Timely(Replay(ops))
  {
    if ops != [] {
      var b := Replay(ops[..|ops| - 1]);
      EveryMessageOnce(ops[..|ops| - 1]);
      match ops[|ops| - 1] {
        case Arrive(msg, now) => AdmitFate(b, msg, now);
        case Register(service, now) => FlushFate(b, Some(service), now);
        case Purge(now) => FlushFate(b, None, now);
      }
    }
  }

  lemma AdmitFate(h: History, msg: Message, now: int)
    requires Conserved(h) && Timely(h)
    ensures Conserved(Admit(h, msg, now)) && Timely(Admit(h, msg, now))
  {}

  lemma FlushFate(h: History, service: Option<string>, now: int)
    requires Conserved(h) && Timely(h)
    ensures Conserved(Flush(h, service, now)) && Timely(Flush(h, service, now))
  {
    FlushConserves(h.held, service, now);
    FlushMembers(h.held, service, now);
  }

  lemma {:induction false} DeliveriesInOrder(ops: seq<Op>)
    ensures InOrder(Replay(ops).delivered) && Pending(Replay(ops))
  {
    if ops != [] {
      var b := Replay(ops[..|ops| - 1]);
      DeliveriesInOrder(ops[..|ops| - 1]);
      match ops[|ops| - 1] {
        case Arrive(msg, now) =>
        case Register(service, now) => FlushInOrder(b, Some(service), now);
        case Purge(now) => FlushInOrder(b, None, now);
      }
    }
  }

  function Items(s: seq<Entry>): (r: seq<Cached>)
    ensures |r| == |s|
  {
    seq(|s|, i requires 0 <= i < |s| => s[i].item)
  }

  function Texts(s: seq<Entry>): (r: seq<Message>)
    ensures |r| == |s|
  {
    seq(|s|, i requires 0 <= i < |s| => s[i].item.msg)
  }

  lemma ItemsAppend(s: seq<Entry>, t: seq<Entry>)
    ensures Items(s + t) == Items(s) + Items(t)
    ensures Texts(s + t) == Texts(s) + Texts(t)
  {}

  lemma {:induction false} FlushMatches(held: seq<Entry>, service: Option<string>, now: int)
    ensures Items(Staying(held, service, now)) == Kept(Items(held), service, now)
    ensures Texts(Taken(held, service)) == HandedOver(Items(held), service)
  {
    if held != [] {
      var front, e := held[..|held| - 1], held[|held| - 1];
      FlushMatches(front, service, now);
      assert Items(held)[..|held| - 1] == Items(front);
      ItemsAppend(Staying(front, service, now), [e]);
      ItemsAppend(Taken(front, service), [e]);
      assert Items([e]) == [e.item] && Texts([e]) == [e.item.msg];
    }
  }

  lemma {:induction false} NothingTaken(held: seq<Entry>)
    ensures Taken(held, None) == []
  {
    if held != [] { NothingTaken(held[..|held| - 1]); }
  }

  /** The entries that are followed are the cache: same contents, and the same messages sent in the same order. */
  lemma {:induction false} ReplayMatchesCache(ops: seq<Op>)
    ensures Items(Replay(ops).held) == Contents(ops)
    ensures Texts(Replay(ops).delivered) == SentBy(ops)
  {
    if ops != [] {
      var b := Replay(ops[..|ops| - 1]);
      ReplayMatchesCache(ops[..|ops| - 1]);
      match ops[|ops| - 1] {
        case Arrive(msg, now) =>
        case Register(service, now) =>
          FlushMatches(b.held, Some(service), now);
          ItemsAppend(b.delivered, Taken(b.held, Some(service)));
        case Purge(now) =>
          FlushMatches(b.held, None, now);
          NothingTaken(b.held);
      }
    }
  }

  /** A registration, at the end of any run: its service is sent exactly what was
      cached for it and nothing else, none of that stays, and what is for the other
      services stays unless it is past its deadline. */
  lemma RegisterSendsExactly(ops: seq<Op>, service: string, now: int)
    ensures var after := ops + [Register(service, now)];
            var sent := SentBy(after)[|SentBy(ops)|..];
            && SentBy(ops) <= SentBy(after)
            && (forall m :: m in sent <==> m.service == service && exists c :: c in Contents(ops) && c.msg == m)
            && (forall c :: c in Contents(after)
                  <==> c in Contents(ops) && c.msg.service != service && now <= c.deadline)
  {
    var after := ops + [Register(service, now)];
    assert after[..|after| - 1] == ops;
    var sent := SentBy(after)[|SentBy(ops)|..];
    assert sent == HandedOver(Contents(ops), Some(service));
    forall m ensures m in sent <==> m.service == service && exists c :: c in Contents(ops) && c.msg == m {
      HandedOverExactly(Contents(ops), Some(service), m);
    }
    forall c ensures c in Contents(after)
                <==> c in Contents(ops) && c.msg.service != service && now <= c.deadline {
      KeptExactly(Contents(ops), Some(service), now, c);
    }
  }

  /** The timer removes exactly what is past its deadline and sends nothing. */
  lemma PurgeExactly(ops: seq<Op>, now: int)
    ensures var after := ops + [Purge(now)];
            && SentBy(after) == SentBy(ops)
            && forall c :: c in Contents(after) <==> c in Contents(ops) && now <= c.deadline
  {
    var after := ops + [Purge(now)];
    assert after[..|after| - 1] == ops;
    forall c ensures c in Contents(after) <==> c in Contents(ops) && now <= c.deadline {
      KeptExactly(Contents(ops), None, now, c);
    }
  }
}
