/**
 * The subscriber lifecycle of `Group` (group.go): channels are acquired into
 * the registry list, released at most once each, released all together by
 * `ReleaseAll`, and targeted by `Send` and `SendAsync` in registry order.
 *
 * A subscriber's Go channel is modelled as the values it has received
 * (`received`) plus the hand-offs that are still blocked waiting for a
 * reader (`inFlight`, one per goroutine counted by the channel's `send`
 * wait group). The goroutines, the `select` race and the fast path that
 * hands a value over without a goroutine are not modelled: `Send` waits
 * until every target has its value, so it is modelled as delivering to each
 * target, and `SendAsync` leaves one hand-off in flight per target, which
 * `Handoff` later completes or a release abandons.
 */
module Groups {
  import opened LinkedList

  /** The per-subscriber record (`channel` in group.go). */
  class Channel<E> {
    /** The values the subscriber has read from `ch`, in order. */
    var received: seq<E>
    /** Values whose hand-off goroutine is still blocked on `ch`. */
    var inFlight: seq<E>
    /** `done` has been closed. */
    var done: bool
    /** `ch` has been closed. */
    var closed: bool
    /** The `once` guarding the release function has fired. */
    var released: bool
    /** The registry node returned by `Insert`. */
    var handle: Node?<Channel<E>>

    /** A fresh, open channel, not yet registered. */
    constructor ()
      ensures received == [] && inFlight == [] && handle == null
      ensures !done && !closed && !released
    {
      received, inFlight := [], [];
      done, closed, released := false, false, false;
      handle := null;
    }

    /** The states a channel goes through: open until its release, and
      * afterwards with both `done` and `ch` closed. */
    ghost predicate Lifecycle()
      reads this`released, this`done, this`closed
    {
      if released then done && closed else !done && !closed
    }

    /** `close(ch.elem.done)`; closing it twice would panic. */
    method SignalDone()
      requires !done
      modifies this
      ensures done
      ensures received == old(received) && inFlight == old(inFlight)
      ensures closed == old(closed) && released == old(released) && handle == old(handle)
    {
      done := true;
    }

    /** `ch.elem.send.Wait()`: with `done` closed, every blocked hand-off
      * takes its `<-ch.done` branch and gives up its value. */
    method AwaitHandoffs()
      requires done
      modifies this
      ensures inFlight == []
      ensures received == old(received) && done == old(done)
      ensures closed == old(closed) && released == old(released) && handle == old(handle)
    {
      inFlight := [];
    }

    /** `close(ch.elem.ch)`. Closing twice would panic, and so would a
      * hand-off still trying to send on it. */
    method CloseQueue()
      requires !closed && inFlight == []
      modifies this
      ensures closed
      ensures received == old(received) && inFlight == old(inFlight)
      ensures done == old(done) && released == old(released) && handle == old(handle)
    {
      closed := true;
    }

    /** The body of the release function after the registry removal:
      * close `done`, wait for the blocked hand-offs, close `ch`. */
    method Shut()
      requires !done && !closed
      modifies this
      ensures done && closed && inFlight == []
      ensures received == old(received) && released == old(released) && handle == old(handle)
    {
      SignalDone();
      AwaitHandoffs();
      CloseQueue();
    }

    /** A value handed over on `ch` (`ch.ch <- value`). */
    method Deliver(value: E)
      requires !closed
      modifies this
      ensures received == old(received) + [value]
      ensures inFlight == old(inFlight) && done == old(done)
      ensures closed == old(closed) && released == old(released) && handle == old(handle)
    {
      received := received + [value];
    }

    /** A hand-off goroutine started for `value` (`ch.send.Add(1)` and
      * `go func() { ... }`). */
    method StartHandoff(value: E)
      requires !done
      modifies this
      ensures inFlight == old(inFlight) + [value]
      ensures received == old(received) && done == old(done)
      ensures closed == old(closed) && released == old(released) && handle == old(handle)
    {
      inFlight := inFlight + [value];
    }

    /** The subscriber reads the value of blocked hand-off `j`: that
      * goroutine's `case ch.ch <- value` wins its `select`. */
    method Handoff(j: nat)
      requires j < |inFlight| && !closed
      modifies this
      ensures received == old(received) + [old(inFlight)[j]]
      ensures inFlight == old(inFlight)[..j] + old(inFlight)[j + 1..]
      ensures done == old(done) && closed == old(closed)
      ensures released == old(released) && handle == old(handle)
    {
      received := received + [inFlight[j]];
      inFlight := inFlight[..j] + inFlight[j + 1..];
    }
  }

  /** The registry's nodes and the channels ever acquired belong to each
    * other one to one; a channel is in the chain exactly until it is
    * released, and every channel is in a state of its lifecycle. Shared by
    * `Group` and `AckableGroup`. */
  ghost predicate Registry<E>(channels: List<Channel<E>>, all: set<Channel<E>>)
    reads channels, channels.members, all`handle, all`released, all`done, all`closed
  {
    && channels.Valid()
    && (forall n {:trigger n in channels.members} :: n in channels.members ==> n.elem in all && n.elem.handle == n)
    && (forall c {:trigger c in all} :: c in all ==>
          && c.handle != null && c.handle in channels.members && c.handle.elem == c
          && (c.released <==> c.handle !in channels.nodes)
          && c.Lifecycle())
  }

  /** A released channel has no hand-off left in flight: `send.Wait()`
    * returned before `ch` was closed. */
  ghost predicate Drained<E>(all: set<Channel<E>>)
    reads all`released, all`inFlight
  {
    forall c {:trigger c in all} :: c in all && c.released ==> c.inFlight == []
  }

  /** An acquired channel whose release function has not run. */
  ghost predicate Open<E>(c: Channel<E>, all: set<Channel<E>>)
    reads c`released, c`done, c`closed
  {
    c in all && !c.released && !c.done && !c.closed
  }

  /** The channels in registry order: the ones `ForEach` visits. */
  ghost function RegisteredIn<E>(channels: List<Channel<E>>): seq<Channel<E>>
    reads channels
  {
    channels.Elems()
  }

  /** Every registered channel was acquired and is still open, and none is
    * registered twice. */
  lemma RegisteredOpen<E>(channels: List<Channel<E>>, all: set<Channel<E>>)
    requires Registry(channels, all)
    ensures Distinct(RegisteredIn(channels))
    ensures forall i :: 0 <= i < |RegisteredIn(channels)| ==> Open(RegisteredIn(channels)[i], all)
  {
    var ns := channels.nodes;
    forall i | 0 <= i < |ns|
      ensures Open(ns[i].elem, all)
    {
      assert channels.LinkedAt(i);
    }
    forall i, j | 0 <= i < |ns| && 0 <= j < |ns| && ns[i].elem == ns[j].elem
      ensures i == j
    {
      assert channels.LinkedAt(i) && channels.LinkedAt(j);
      if i != j {
        DistinctAt(ns, i, j);
      }
    }
    ElemsOfDistinct(ns);
  }

  /** A channel is registered exactly when it was acquired and has not been
    * released. */
  lemma RegisteredIffOpen<E>(channels: List<Channel<E>>, all: set<Channel<E>>, c: Channel<E>)
    requires Registry(channels, all) && c in all
    ensures c in RegisteredIn(channels) <==> !c.released
  {
    var ns := channels.nodes;
    if c in RegisteredIn(channels) {
      RegisteredOpen(channels, all);
    }
    if !c.released {
      var k :| 0 <= k < |ns| && ns[k] == c.handle;
      assert RegisteredIn(channels)[k] == c;
    }
  }

  /** `Group`: a registry of subscriber channels. */
  class Group<E> {
    const channels: List<Channel<E>>
    /** Every channel this group has handed out. */
    ghost var all: set<Channel<E>>

    ghost predicate Valid()
      reads this, channels, channels.members
      reads all`handle, all`released, all`done, all`closed, all`inFlight
    {
      Registry(channels, all) && Drained(all)
    }

    /** The channels in registry order. */
    ghost function Registered(): seq<Channel<E>>
      reads this, channels
    {
      RegisteredIn(channels)
    }

    /** `NewGroup`: an empty registry. */
    constructor ()
      ensures Valid() && fresh(channels) && all == {} && Registered() == []
    {
      channels := new List();
      all := {};
    }

    /** `Acquire`: registers a new, open channel at the tail. */
    method Acquire() returns (c: Channel<E>)
      requires Valid()
      modifies this, channels, channels.members
      ensures Valid() && fresh(c)
      ensures all == old(all) + {c}
      ensures Registered() == old(Registered()) + [c]
      ensures c.received == [] && c.inFlight == []
      ensures !c.done && !c.closed && !c.released
    {
      c := AcquireIn(channels, all);
      all := all + {c};
    }

    /** The release function `Acquire` returns. Its first call removes the
      * channel from the registry, closes `done`, waits for the blocked
      * hand-offs and closes `ch`; later calls do nothing (`once.Do`). */
    method Release(c: Channel<E>)
      requires Valid() && c in all
      modifies channels, channels.members, c
      ensures Valid() && channels.members == old(channels.members)
      ensures Registered() == Without(old(Registered()), c)
      ensures c.released && c.done && c.closed && c.inFlight == []
      ensures c.received == old(c.received)
      ensures old(c.released) ==> c.inFlight == old(c.inFlight) && Registered() == old(Registered())
    {
      ReleaseIn(channels, all, c);
    }

    /** `ReleaseAll`: snapshots the registry with `ForEach`, then releases
      * each channel of the snapshot. Afterwards no channel is registered
      * and every channel ever acquired is closed. */
    method ReleaseAll()
      requires Valid()
      modifies channels, channels.members, all
      ensures Valid() && Registered() == [] && channels.members == old(channels.members)
      ensures forall c {:trigger c in all} :: c in all ==> c.released && c.closed
      ensures forall c {:trigger c in all} :: c in all ==> c.received == old(c.received)
    {
      ReleaseAllIn(channels, all);
    }

    /** `Send`: every registered channel receives `value`; channels that
      * are not registered receive nothing. */
    method Send(value: E)
      requires Valid()
      modifies all
      ensures Valid() && Registered() == old(Registered())
      ensures forall c {:trigger c in all} :: c in all ==>
        c.received == (if c in old(Registered()) then old(c.received) + [value] else old(c.received))
      ensures forall c {:trigger c in all} :: c in all ==> c.inFlight == old(c.inFlight)
    {
      var targets := channels.ForEach();
      RegisteredOpen(channels, all);
      var i := 0;
      while i < |targets|
        invariant 0 <= i <= |targets|
        invariant forall j :: 0 <= j < |targets| ==> targets[j] in all && !old(targets[j].closed)
        invariant forall j :: 0 <= j < i ==> targets[j].received == old(targets[j].received) + [value]
        invariant forall j :: i <= j < |targets| ==> targets[j].received == old(targets[j].received)
        invariant forall c {:trigger c in all} :: c in all && c !in targets ==> c.received == old(c.received)
        invariant forall c {:trigger c in all} :: c in all ==>
          c.handle == old(c.handle) && c.inFlight == old(c.inFlight) && c.done == old(c.done)
          && c.closed == old(c.closed) && c.released == old(c.released)
      {
        var c := targets[i];
        DistinctOthers(targets, i);
        c.Deliver(value);
        i := i + 1;
      }
      PayloadOnly(this);
    }

    /** `SendAsync`: every registered channel gets a hand-off of `value`
      * in flight; `Send`'s wait for them is not made. */
    method SendAsync(value: E)
      requires Valid()
      modifies all
      ensures Valid() && Registered() == old(Registered())
      ensures forall c {:trigger c in all} :: c in all ==>
        c.inFlight == (if c in old(Registered()) then old(c.inFlight) + [value] else old(c.inFlight))
      ensures forall c {:trigger c in all} :: c in all ==> c.received == old(c.received)
    {
      var targets := channels.ForEach();
      RegisteredOpen(channels, all);
      var i := 0;
      while i < |targets|
        invariant 0 <= i <= |targets|
        invariant forall j :: 0 <= j < |targets| ==> targets[j] in all && !old(targets[j].done) && !old(targets[j].released)
        invariant forall j :: 0 <= j < i ==> targets[j].inFlight == old(targets[j].inFlight) + [value]
        invariant forall j :: i <= j < |targets| ==> targets[j].inFlight == old(targets[j].inFlight)
        invariant forall c {:trigger c in all} :: c in all && c !in targets ==> c.inFlight == old(c.inFlight)
        invariant forall c {:trigger c in all} :: c in all ==>
          c.handle == old(c.handle) && c.received == old(c.received) && c.done == old(c.done)
          && c.closed == old(c.closed) && c.released == old(c.released)
      {
        var c := targets[i];
        DistinctOthers(targets, i);
        c.StartHandoff(value);
        i := i + 1;
      }
      PayloadOnly(this);
    }

    /** The subscriber of `c` reads the value of its blocked hand-off `j`,
      * started by `SendAsync` (`case ch.ch <- value` wins the `select`). */
    method Handoff(c: Channel<E>, j: nat)
      requires Valid() && c in all && j < |c.inFlight|
      modifies c
      ensures Valid() && Registered() == old(Registered())
      ensures c.received == old(c.received) + [old(c.inFlight)[j]]
      ensures c.inFlight == old(c.inFlight)[..j] + old(c.inFlight)[j + 1..]
      ensures !c.released && !c.closed
    {
      assert !c.released && c.Lifecycle();
      c.Handoff(j);
      PayloadOnly(this);
    }
  }

  /** Changing only what channels have received or have in flight keeps a
    * group valid, as long as no released channel gains a hand-off. */
  twostate lemma PayloadOnly<E>(g: Group<E>)
    requires old(g.Valid()) && unchanged(g, g.channels) && unchanged(g.channels.members)
    requires forall c {:trigger c in g.all} :: c in g.all ==>
      && c.handle == old(c.handle) && c.done == old(c.done)
      && c.closed == old(c.closed) && c.released == old(c.released)
      && (c.released ==> c.inFlight == old(c.inFlight))
    ensures g.Valid() && g.Registered() == old(g.Registered())
  {
  }

  /** An element of a sequence without repetitions occurs at no other
    * position. */
  lemma DistinctOthers<X>(s: seq<X>, i: nat)
    requires Distinct(s) && i < |s|
    ensures forall j :: 0 <= j < |s| && j != i ==> s[j] != s[i]
  {
    forall j | 0 <= j < |s| && j != i
      ensures s[j] != s[i]
    {
      DistinctAt(s, j, i);
    }
  }

  /** `Acquire` on registry `channels`: a new channel, its node inserted at
    * the tail; shared by `Group.Acquire` and `AckableGroup.Acquire`. */
  method AcquireIn<E>(channels: List<Channel<E>>, ghost all: set<Channel<E>>) returns (c: Channel<E>)
    requires Registry(channels, all) && Drained(all)
    modifies channels, channels.members
    ensures fresh(c) && Registry(channels, all + {c}) && Drained(all + {c})
    ensures RegisteredIn(channels) == old(RegisteredIn(channels)) + [c]
    ensures c.received == [] && c.inFlight == []
    ensures !c.done && !c.closed && !c.released
  {
    c := new Channel();
    ghost var ns := channels.nodes;
    var h := channels.Insert(c);
    c.handle := h;
    forall n {:trigger n in channels.members} | n in channels.members
      ensures n.elem in all + {c} && n.elem.handle == n
    {
      if n != h {
        assert old(n.elem in all && n.elem.handle == n);
      }
    }
    forall d {:trigger d in all + {c}} | d in all + {c}
      ensures d.handle != null && d.handle in channels.members && d.handle.elem == d
      ensures (d.released <==> d.handle !in channels.nodes) && d.Lifecycle()
    {
      if d != c {
        assert old(d.handle in channels.members && (d.released <==> d.handle !in channels.nodes) && d.Lifecycle());
        var dh: Node<Channel<E>> := d.handle;
        assert dh != h && (dh in ns + [h] <==> dh in ns);
      } else {
        assert channels.nodes[|ns|] == h;
      }
    }
  }

  /** The release function of a channel of registry `channels`; the body
    * `Group.Release` and `AckableGroup.Release` share. */
  method ReleaseIn<E>(channels: List<Channel<E>>, ghost all: set<Channel<E>>, c: Channel<E>)
    requires Registry(channels, all) && Drained(all) && c in all
    modifies channels, channels.members, c
    ensures Registry(channels, all) && Drained(all) && channels.members == old(channels.members)
    ensures RegisteredIn(channels) == Without(old(RegisteredIn(channels)), c)
    ensures c.released && c.done && c.closed && c.inFlight == []
    ensures c.received == old(c.received)
    ensures old(c.released) ==> c.inFlight == old(c.inFlight) && RegisteredIn(channels) == old(RegisteredIn(channels))
  {
    RegisteredIffOpen(channels, all, c);
    if c.released {
      WithoutAbsent(RegisteredIn(channels), c);
      return;
    }
    c.released := true;
    var h: Node<Channel<E>> := c.handle;
    ghost var ns := channels.nodes;
    assert h.list == channels;
    h.Delete();
    c.Shut();
    forall i | 0 <= i < |ns| && ns[i].elem == h.elem
      ensures ns[i] == h
    {
      assert old(channels.LinkedAt(i));
    }
    ElemsOfWithout(ns, h);
    forall d {:trigger d in all} | d in all
      ensures d.released <==> d.handle !in channels.nodes
    {
      var dh: Node<Channel<E>> := d.handle;
      WithoutMembers(ns, h, dh);
    }
  }

  /** `ReleaseAll` over registry `channels`: the snapshot taken by
    * `ForEach`, then one release per snapshot entry. */
  method ReleaseAllIn<E>(channels: List<Channel<E>>, ghost all: set<Channel<E>>)
    requires Registry(channels, all) && Drained(all)
    modifies channels, channels.members, all
    ensures Registry(channels, all) && Drained(all) && RegisteredIn(channels) == []
    ensures channels.members == old(channels.members)
    ensures forall c {:trigger c in all} :: c in all ==> c.released && c.closed
    ensures forall c {:trigger c in all} :: c in all ==> c.received == old(c.received)
  {
    var snapshot := channels.ForEach();
    RegisteredOpen(channels, all);
    var i := 0;
    while i < |snapshot|
      invariant 0 <= i <= |snapshot| && Registry(channels, all) && Drained(all)
      invariant channels.members == old(channels.members)
      invariant RegisteredIn(channels) == snapshot[i..]
      invariant forall c {:trigger c in all} :: c in all ==> c.received == old(c.received)
    {
      var c := snapshot[i];
      assert c == RegisteredIn(channels)[0];
      RegisteredOpen(channels, all);
      ReleaseIn(channels, all, c);
      WithoutAt(snapshot[i..], 0);
      assert snapshot[i..][1..] == snapshot[i + 1..];
      i := i + 1;
    }
    forall c {:trigger c in all} | c in all
      ensures c.released && c.closed
    {
      RegisteredIffOpen(channels, all, c);
    }
  }
}
