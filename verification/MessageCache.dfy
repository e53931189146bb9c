/** The cache of messages for services of this computer that are not
    registered at the moment (communicator/daemon/cache.cpp). */
module MessageCache {
  import opened Basics
  import opened Messages

  datatype Cached = Cached(deadline: int, msg: Message)

  datatype Outcome = Ignored | ReplyWanted | Stored

  function Ceil(x: real): int {
    -((-x).Floor)
  }

  /** Seconds a message is kept: the requested duration rounded up, or a minute
      when none was given or it is malformed or out of range. */
  function Lifetime(ttl: Ttl): (t: int)
    ensures 10 <= t <= 86400
    ensures if ttl.Seconds? && 10.0 <= ttl.value <= 86400.0 then t as real - 1.0 < ttl.value <= t as real else t == 60
  {
    match ttl
    case Seconds(v) => if v < 10.0 || v > 86400.0 then 60 else Ceil(v)
    case _ => 60
  }

  function PutOutcome(msg: Message): Outcome {
    if !msg.cache.no then Stored
    else if msg.cache.reply then ReplyWanted
    else Ignored
  }

  function Put(held: seq<Cached>, msg: Message, now: int): seq<Cached> {
    if msg.cache.no then held else held + [Cached(now + Lifetime(msg.cache.ttl), msg)]
  }

  /** Whether a flush hands the message over; the deadline plays no part in it. */
  predicate Wanted(c: Cached, service: Option<string>) {
    service.Some? && c.msg.service == service.value
  }

  /** What a flush for a service (or a purge, for None) leaves in the cache. */
  function Kept(held: seq<Cached>, service: Option<string>, now: int): seq<Cached> {
    if held == [] then []
    else
      var c := held[|held| - 1];
      Kept(held[..|held| - 1], service, now)
      + if Wanted(c, service) || now > c.deadline then [] else [c]
  }

  function HandedOver(held: seq<Cached>, service: Option<string>): seq<Message> {
    if held == [] then []
    else
      var c := held[|held| - 1];
      HandedOver(held[..|held| - 1], service) + if Wanted(c, service) then [c.msg] else []
  }

  /** One step of an iterator over the list: `held` is what the loop made of the
      first n elements followed by the others, and the iterator stands on element n. */
  lemma FlushStep(was: seq<Cached>, service: Option<string>, now: int, n: nat, held: seq<Cached>)
    requires n < |was| && held == Kept(was[..n], service, now) + was[n..]
    ensures var i := |Kept(was[..n], service, now)|;
            var gone := Wanted(was[n], service) || now > was[n].deadline;
            && i < |held| && held[i] == was[n]
            && Kept(was[..n + 1], service, now) == Kept(was[..n], service, now) + (if gone then [] else [was[n]])
            && (if gone then held[..i] + held[i + 1..] else held) == Kept(was[..n + 1], service, now) + was[n + 1..]
    ensures HandedOver(was[..n + 1], service)
            == HandedOver(was[..n], service) + if Wanted(was[n], service) then [was[n].msg] else []
  {
    assert was[..n + 1][..n] == was[..n];
    assert was[n..] == [was[n]] + was[n + 1..];
  }

  // ---- what these mean, message by message --------------------------------

  /** A service is handed exactly the messages that are for it, late or not; a purge hands over nothing. */
  lemma {:induction false} HandedOverExactly(held: seq<Cached>, service: Option<string>, m: Message)
    ensures m in HandedOver(held, service)
       <==> service.Some? && m.service == service.value && exists c :: c in held && c.msg == m
  {
    if held != [] {
      var front, last := held[..|held| - 1], held[|held| - 1];
      HandedOverExactly(front, service, m);
      assert held == front + [last];
      if last.msg == m { assert last in held; }
    }
  }

  /** What stays is exactly what is for another service and not past its deadline. */
  lemma {:induction false} KeptExactly(held: seq<Cached>, service: Option<string>, now: int, c: Cached)
    ensures c in Kept(held, service, now)
       <==> c in held && now <= c.deadline && (service.Some? ==> c.msg.service != service.value)
  {
    if held != [] {
      KeptExactly(held[..|held| - 1], service, now, c);
      assert held == held[..|held| - 1] + [held[|held| - 1]];
    }
  }

  /** A message that does not ask otherwise is stored last; the sender of one that
      does may ask to be told. */
  lemma PutExactly(held: seq<Cached>, msg: Message, now: int)
    ensures if msg.cache.no then Put(held, msg, now) == held
            else exists deadline :: now + 10 <= deadline <= now + 86400
                                    && Put(held, msg, now) == held + [Cached(deadline, msg)]
    ensures PutOutcome(msg).Stored? <==> !msg.cache.no
    ensures PutOutcome(msg).ReplyWanted? <==> msg.cache.no && msg.cache.reply
  {
    if !msg.cache.no {
      assert Put(held, msg, now) == held + [Cached(now + Lifetime(msg.cache.ttl), msg)];
    }
  }

  class Cache {
    var held: seq<Cached>

    constructor ()
      ensures held == []
    {
      held := [];
    }

    method CacheMessage(msg: Message, now: int) returns (outcome: Outcome)
      modifies this
      ensures outcome == PutOutcome(msg)
      ensures held == Put(old(held), msg, now)
    {
      var response := Ignored;
      if msg.cache.reply {
        response := ReplyWanted;
      }
      if msg.cache.no {
        return response;
      }
      var ttl := 60;
      match msg.cache.ttl {
        case NoTtl =>
        case BadTtl =>
        case Seconds(value) =>
          if !(value < 10.0 || value > 86400.0) {
            ttl := Ceil(value);
          }
      }
      held := held + [Cached(now + ttl, msg)];
      return Stored;
    }

    method RemoveOldMessages(now: int)
      modifies this
      ensures held == Kept(old(held), None, now)
    {
      ghost var was := held;
      ghost var seen := 0;
      var i := 0;
      while i < |held|
        invariant 0 <= seen <= |was|
        invariant held == Kept(was[..seen], None, now) + was[seen..]
        invariant i == |Kept(was[..seen], None, now)|
        decreases |held| - i
      {
        FlushStep(was, None, now, seen, held);
        if now > held[i].deadline {
          held := held[..i] + held[i + 1..];
        } else {
          i := i + 1;
        }
        seen := seen + 1;
      }
      assert was[..seen] == was;
    }

    /** The flush run when a service registers: the callback is tried first, the
        deadline is looked at only for a message the callback did not take. */
    method ProcessMessages(service: string, now: int) returns (sent: seq<Message>)
      modifies this
      ensures held == Kept(old(held), Some(service), now)
      ensures sent == HandedOver(old(held), Some(service))
    {
      ghost var was := held;
      ghost var seen := 0;
      sent := [];
      var i := 0;
      while i < |held|
        invariant 0 <= seen <= |was|
        invariant held == Kept(was[..seen], Some(service), now) + was[seen..]
        invariant i == |Kept(was[..seen], Some(service), now)|
        invariant sent == HandedOver(was[..seen], Some(service))
        decreases |held| - i
      {
        FlushStep(was, Some(service), now, seen, held);
        var wanted := held[i].msg.service == service;
        if wanted {
          sent := sent + [held[i].msg];
        }
        if wanted || now > held[i].deadline {
          held := held[..i] + held[i + 1..];
        } else {
          i := i + 1;
        }
        seen := seen + 1;
      }
      assert was[..seen] == was;
    }
  }
}
