/**
 The in-process event bus: a global sequence number and one bounded queue per
 subscriber.  A full queue loses the event and, in a second step, raises the
 subscriber's flag.
 */
module Bus {
  import opened Members

  // Anything published: a membership change, or an event of another type
  // (locks, leases, custom topics).
  datatype Payload = Change(e: Event) | Other(typ: string)

  datatype Item = Item(what: Payload, seqNo: nat)

  datatype Sub = Sub(buf: seq<Item>, cap: nat, dropped: bool)

  // What a publish does to one subscriber: with room, the item goes to the end of its
  // queue; with none, the queue stays and the flag goes up.
  predicate Offered(before: Sub, item: Item, after: Sub) {
    && after.cap == before.cap
    && (|before.buf| < before.cap ==> after.buf == before.buf + [item] && after.dropped == before.dropped)
    && (|before.buf| >= before.cap ==> after.buf == before.buf && after.dropped)
  }

  // What a subscriber holds.  It outlives its place on the bus.
  class Subscription {
    const id: nat
    const cap: nat
    var buf: seq<Item>
    var dropped: bool
    var done: bool

    function Value(): Sub
      reads this
    {
      Sub(buf, cap, dropped)
    }

    constructor (id: nat, cap: nat)
      ensures this.id == id && Value() == Sub([], cap, false) && !done
    {
      this.id, this.cap := id, cap;
      buf, dropped, done := [], false, false;
    }

    method Send(item: Item) returns (ok: bool)
      modifies this`buf
      ensures ok <==> |old(buf)| < cap
      ensures buf == if ok then old(buf) + [item] else old(buf)
    {
      if |buf| < cap {
        buf := buf + [item];
        return true;
      }
      return false;
    }

    method Raise()
      modifies this`dropped
      ensures dropped
    {
      dropped := true;
    }

    method TakeDropped() returns (was: bool)
      modifies this`dropped
      ensures was == old(dropped) && !dropped
    {
      was := dropped;
      dropped := false;
    }

    // Everything queued, oldest first, without blocking.
    method Drain() returns (out: seq<Item>)
      modifies this`buf
      ensures out == old(buf) && buf == []
    {
      out := [];
      while buf != []
        invariant out + buf == old(buf)
        decreases |buf|
      {
        out := out + [buf[0]];
        buf := buf[1..];
      }
    }
  }

  class EventBus {
    var seqNo: nat           // last sequence number assigned
    var next: nat            // last subscription id assigned
    var subs: map<nat, Subscription>

    // Each subscription sits under its own id, is open, and its id is spent.
    ghost predicate Valid()
      reads this, subs.Values
    {
      forall k :: k in subs ==> subs[k].id == k && k <= next && !subs[k].done
    }

    constructor ()
      ensures Valid() && seqNo == 0 && next == 0 && subs == map[]
    {
      seqNo, next, subs := 0, 0, map[];
    }

    // First half of Publish: the number is taken before the lock.
    method Assign(what: Payload) returns (item: Item)
      modifies this`seqNo
      ensures seqNo == old(seqNo) + 1 && item == Item(what, seqNo)
    {
      seqNo := seqNo + 1;
      return Item(what, seqNo);
    }

    // Second half: under the lock the item is offered to every subscriber, once.
    method Deliver(item: Item)
      requires Valid()
      modifies subs.Values
      ensures Valid()
      ensures forall k :: k in subs ==> Offered(old(subs[k].Value()), item, subs[k].Value())
    {
      var rest := subs.Keys;
      while rest != {}
        invariant rest <= subs.Keys && Valid()
        invariant forall k :: k in rest ==> subs[k].Value() == old(subs[k].Value())
        invariant forall k :: k in subs && k !in rest ==> Offered(old(subs[k].Value()), item, subs[k].Value())
        decreases rest
      {
        var k :| k in rest;
        rest := rest - {k};
        var ok := subs[k].Send(item);
        if !ok {
          subs[k].Raise();
        }
      }
    }

    method Publish(what: Payload)
      requires Valid()
      modifies this`seqNo, subs.Values
      ensures Valid() && seqNo == old(seqNo) + 1
      ensures forall k :: k in subs ==> Offered(old(subs[k].Value()), Item(what, seqNo), subs[k].Value())
    {
      var item := Assign(what);
      Deliver(item);
    }

    method Subscribe(bufSize: int) returns (sub: Subscription)
      requires Valid()
      modifies this`next, this`subs
      ensures Valid() && fresh(sub) && next == old(next) + 1 && next !in old(subs)
      ensures sub.Value() == Sub([], if bufSize <= 0 then 16 else bufSize, false)
      ensures subs == old(subs)[next := sub]
    {
      var size := bufSize;
      if size <= 0 {
        size := 16;
      }
      next := next + 1;
      sub := new Subscription(next, size);
      subs := subs[next := sub];
    }

    // The first call takes the subscription off the bus and closes Done; later calls
    // do nothing.
    method Unsubscribe(sub: Subscription)
      requires Valid()
      modifies this`subs, sub`done
      ensures Valid() && sub.done
      ensures subs == if old(sub.done) then old(subs) else old(subs) - {sub.id}
    {
      if !sub.done {
        subs := subs - {sub.id};
        sub.done := true;
      }
    }
  }
}
