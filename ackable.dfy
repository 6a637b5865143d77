/**
 * Acknowledgement aggregation of `AckableGroup` (ackable.go). The registry
 * and the release lifecycle are those of `Group` (group.dfy); what is new is
 * that every `Send` or `SendAsync` hands each registered subscriber a copy of
 * the value with an `Ack` of its own, and calls the original `Ack` once every
 * copy has been acked or abandoned.
 *
 * One call of `Send` or `SendAsync` is a `Publication`: its `ack` wait group
 * (`pending`), the `once` of each copy (`states`) and the goroutine that
 * waits on `ack` and then calls the original `Ack` (`armed`,
 * `originalAcks`). Waiting on a wait group is modelled as the moment its
 * counter is zero: the original `Ack` runs as soon as the waiter has started
 * and nothing is pending.
 */
module Ackables {
  import opened LinkedList
  import opened Groups

  /** What has become of one copy. */
  datatype CopyState =
    | InFlight   // its hand-off goroutine is blocked sending on the subscriber's `ch`
    | Delivered  // the subscriber has read it and has not called its `Ack`
    | Acked      // the subscriber has called its `Ack`
    | Abandoned  // the channel was released first: the goroutine took `<-ch.done`

  /** A copy that no longer holds up the original `Ack`. */
  predicate Settled(s: CopyState) {
    s == Acked || s == Abandoned
  }

  /** A copy the subscriber has read. */
  predicate Received(s: CopyState) {
    s == Delivered || s == Acked
  }

  /** An `Ack` function: one the caller supplied (a `Callback`, told apart
    * by a number), or the `once.Do(ack.Done)` of copy `index` of
    * publication `pub`. */
  datatype AckFunc<T> = Callback(id: nat) | CopyAck(pub: Publication<T>, index: nat)

  /** `Ackable`: a value and the `Ack` its consumer must call. */
  datatype Ackable<T> = Ackable(value: T, ack: AckFunc<T>)

  /** `NewAckable`: the record of the value and the ack function. */
  function NewAckable<T>(value: T, ack: AckFunc<T>): (r: Ackable<T>)
    ensures r.value == value && r.ack == ack
  {
    Ackable(value, ack)
  }

  /** Copy `i` of publication `p`: the original value with that copy's own
    * `Ack` (`NewAckable(value.Value, func() { once.Do(ack.Done) })`). */
  function CopyOf<T>(p: Publication<T>, i: nat): (r: Ackable<T>)
    ensures r.value == p.value && r.ack.CopyAck? && r.ack.pub == p && r.ack.index == i
  {
    NewAckable(p.value, CopyAck(p, i))
  }

  /** The number of copies that still hold up the original `Ack`. */
  function Unsettled(states: seq<CopyState>): nat {
    if states == [] then 0
    else (if Settled(states[0]) then 0 else 1) + Unsettled(states[1..])
  }

  /** A new copy counts as unsettled exactly when its state is. */
  lemma {:induction false} UnsettledAppend(states: seq<CopyState>, s: CopyState)
    ensures Unsettled(states + [s]) == Unsettled(states) + (if Settled(s) then 0 else 1)
  {
    if states != [] {
      assert (states + [s])[1..] == states[1..] + [s];
      UnsettledAppend(states[1..], s);
    }
  }

  /** Changing the state of one copy changes the count by that copy alone. */
  lemma {:induction false} UnsettledUpdate(states: seq<CopyState>, i: nat, s: CopyState)
    requires i < |states|
    ensures Unsettled(states[i := s]) ==
      Unsettled(states) - (if Settled(states[i]) then 0 else 1) + (if Settled(s) then 0 else 1)
  {
    if i > 0 {
      assert states[i := s][1..] == states[1..][i - 1 := s];
      UnsettledUpdate(states[1..], i - 1, s);
    }
  }

  /** Nothing is unsettled exactly when every copy is settled. */
  lemma {:induction false} UnsettledZero(states: seq<CopyState>)
    ensures Unsettled(states) == 0 <==> forall i :: 0 <= i < |states| ==> Settled(states[i])
  {
    if states != [] {
      UnsettledZero(states[1..]);
      assert forall i :: 0 < i < |states| ==> states[i] == states[1..][i - 1];
    }
  }

  /** One call of `Send` or `SendAsync`: the `ack` wait group that counts
    * the copies not yet acked or abandoned, the `once` of each copy, and
    * the goroutine that calls the original `Ack` after `ack.Wait()`. */
  class Publication<T> {
    /** `value.Value`, carried by every copy. */
    const value: T
    /** `value.Ack`, the original ack function. */
    const original: AckFunc<T>
    /** The state of each copy, in the order the copies were made. */
    var states: seq<CopyState>
    /** The channel each copy was made for. */
    ghost var targets: seq<Channel<Ackable<T>>>
    /** The counter of the `ack` wait group. */
    var pending: nat
    /** The goroutine running `ack.Wait(); value.Ack()` has been started. */
    var armed: bool
    /** How many times the original `Ack` has been called. */
    var originalAcks: nat

    /** The wait group counts the unsettled copies, and the original `Ack`
      * has run once exactly when the waiter has started and nothing is
      * pending. */
    ghost predicate Valid()
      reads this
    {
      && |targets| == |states|
      && pending == Unsettled(states)
      && originalAcks == (if armed && pending == 0 then 1 else 0)
    }

    /** `ack := sync.WaitGroup{}` for a `Send` of `value` with `original`
      * as its `Ack`. */
    constructor (value: T, original: AckFunc<T>)
      ensures Valid() && this.value == value && this.original == original
      ensures states == [] && targets == [] && pending == 0
      ensures !armed && originalAcks == 0
    {
      this.value, this.original := value, original;
      states, targets := [], [];
      pending, armed, originalAcks := 0, false, 0;
    }

    /** `ack.Add(1)` and a fresh `once` for a copy made for `target`; the
      * copy starts on its way to the subscriber. */
    method AddCopy(ghost target: Channel<Ackable<T>>) returns (index: nat)
      requires Valid() && !armed
      modifies this
      ensures Valid() && index == |old(states)|
      ensures states == old(states) + [InFlight] && targets == old(targets) + [target]
      ensures pending == old(pending) + 1
      ensures armed == old(armed) && originalAcks == old(originalAcks)
    {
      index := |states|;
      UnsettledAppend(states, InFlight);
      states := states + [InFlight];
      targets := targets + [target];
      pending := pending + 1;
    }

    /** The subscriber reads copy `i` (`case ch.ch <- v`, on the fast path
      * or in the hand-off goroutine). */
    method Handed(i: nat)
      requires Valid() && i < |states| && states[i] == InFlight
      modifies this
      ensures Valid() && states == old(states)[i := Delivered]
      ensures targets == old(targets) && pending == old(pending)
      ensures armed == old(armed) && originalAcks == old(originalAcks)
    {
      UnsettledUpdate(states, i, Delivered);
      states := states[i := Delivered];
    }

    /** `ack.Done()`; the waiter wakes when the counter reaches zero. */
    method Done()
      requires pending > 0
      modifies this
      ensures pending == old(pending) - 1
      ensures originalAcks == old(originalAcks) + (if armed && pending == 0 then 1 else 0)
      ensures states == old(states) && targets == old(targets) && armed == old(armed)
    {
      pending := pending - 1;
      if armed && pending == 0 {
        originalAcks := originalAcks + 1;
      }
    }

    /** The `Ack` of copy `i`, called by the subscriber that read it:
      * `once.Do(ack.Done)`, so only its first call counts. */
    method AckCopy(i: nat)
      requires Valid() && i < |states| && Received(states[i])
      modifies this
      ensures Valid() && states == old(states)[i := Acked]
      ensures pending == old(pending) - (if old(states[i]) == Delivered then 1 else 0)
      ensures old(states[i]) == Acked ==> pending == old(pending) && originalAcks == old(originalAcks)
      ensures targets == old(targets) && armed == old(armed)
    {
      if states[i] == Delivered {
        UnsettledUpdate(states, i, Acked);
        states := states[i := Acked];
        Done();
      } else {
        assert states[i := Acked] == states;
      }
    }

    /** Copy `i`'s channel was released while its hand-off was blocked:
      * the goroutine takes `<-ch.done` and calls `ack.Done()` itself. */
    method Abandon(i: nat)
      requires Valid() && i < |states| && states[i] == InFlight
      modifies this
      ensures Valid() && states == old(states)[i := Abandoned]
      ensures pending == old(pending) - 1
      ensures targets == old(targets) && armed == old(armed)
    {
      UnsettledUpdate(states, i, Abandoned);
      states := states[i := Abandoned];
      Done();
    }

    /** `go func() { ack.Wait(); value.Ack() }()`: with nothing pending the
      * original `Ack` runs at once. */
    method Arm()
      requires Valid() && !armed
      modifies this
      ensures Valid() && armed
      ensures states == old(states) && targets == old(targets) && pending == old(pending)
      ensures originalAcks == (if pending == 0 then 1 else 0)
    {
      armed := true;
      if pending == 0 {
        originalAcks := originalAcks + 1;
      }
    }

    /** The original `Ack` has run, and then exactly once, precisely when
      * the waiter has started and every copy is acked or abandoned. */
    lemma FiresIffSettled()
      requires Valid()
      ensures originalAcks <= 1
      ensures originalAcks == 1 <==> armed && forall i :: 0 <= i < |states| ==> Settled(states[i])
    {
      UnsettledZero(states);
    }
  }


  /** What a channel holds, as a value: its blocked hand-offs and what its
    * subscriber has read. */
  datatype Queues<T> = Queues(inFlight: seq<Ackable<T>>, received: seq<Ackable<T>>)

  /** What became of the copies of a publication, as a value: their states
    * and the channels they were made for. */
  datatype Copies<T> = Copies(states: seq<CopyState>, targets: seq<Channel<Ackable<T>>>)

  /** Position `j` of the hand-offs `c` has in flight. */
  datatype Slot<T> = Slot(c: Channel<Ackable<T>>, j: nat)

  /** The queues of every channel of `all`. */
  ghost function ChanView<T>(all: set<Channel<Ackable<T>>>): map<Channel<Ackable<T>>, Queues<T>>
    reads all`inFlight, all`received
  {
    map c | c in all :: Queues(c.inFlight, c.received)
  }

  /** The copies of every publication of `pubs`. */
  ghost function PubView<T>(pubs: set<Publication<T>>): map<Publication<T>, Copies<T>>
    reads pubs
  {
    map p | p in pubs :: Copies(p.states, p.targets)
  }

  /** `v` is copy `v.ack.index` of a publication of `pv`, made for `c`, and
    * in flight or read by `c`'s subscriber, as `inFlight` says. */
  ghost predicate HeldIn<T>(v: Ackable<T>, c: Channel<Ackable<T>>, inFlight: bool, pv: map<Publication<T>, Copies<T>>) {
    && v.ack.CopyAck? && v.ack.pub in pv
    && v == CopyOf(v.ack.pub, v.ack.index)
    && v.ack.index < |pv[v.ack.pub].states| && v.ack.index < |pv[v.ack.pub].targets|
    && pv[v.ack.pub].targets[v.ack.index] == c
    && (if inFlight then pv[v.ack.pub].states[v.ack.index] == InFlight
        else Received(pv[v.ack.pub].states[v.ack.index]))
  }

  /** Everything channel `c` holds is a copy in the matching state, and no
    * copy is in flight twice. */
  ghost predicate QueuesTracked<T>(c: Channel<Ackable<T>>, q: Queues<T>, pv: map<Publication<T>, Copies<T>>) {
    && Distinct(q.inFlight)
    && (forall j :: 0 <= j < |q.inFlight| ==> HeldIn(q.inFlight[j], c, true, pv))
    && (forall j :: 0 <= j < |q.received| ==> HeldIn(q.received[j], c, false, pv))
  }

  /** Every copy of publication `p` was made for a channel of `cv` and sits
    * where its state says: in flight on that channel, or read by its
    * subscriber. */
  ghost predicate CopiesTracked<T>(p: Publication<T>, cs: Copies<T>, cv: map<Channel<Ackable<T>>, Queues<T>>) {
    && |cs.states| == |cs.targets|
    && forall i :: 0 <= i < |cs.targets| ==>
         && cs.targets[i] in cv
         && (cs.states[i] == InFlight ==> CopyOf(p, i) in cv[cs.targets[i]].inFlight)
         && (Received(cs.states[i]) ==> CopyOf(p, i) in cv[cs.targets[i]].received)
  }

  /** The channels' queues and the publications' copies agree. */
  ghost predicate TrackedV<T>(cv: map<Channel<Ackable<T>>, Queues<T>>, pv: map<Publication<T>, Copies<T>>) {
    && (forall c {:trigger c in cv} :: c in cv ==> QueuesTracked(c, cv[c], pv))
    && (forall p {:trigger p in pv} :: p in pv ==> CopiesTracked(p, pv[p], cv))
  }

  /** A copy stays held when its own entry in its publication's copies is
    * kept. */
  lemma HeldKept<T>(v: Ackable<T>, d: Channel<Ackable<T>>, b: bool, pv: map<Publication<T>, Copies<T>>,
                    p: Publication<T>, cs: Copies<T>)
    requires HeldIn(v, d, b, pv)
    requires v.ack.pub == p ==>
      && v.ack.index < |cs.states| && v.ack.index < |cs.targets|
      && cs.states[v.ack.index] == pv[p].states[v.ack.index]
      && cs.targets[v.ack.index] == pv[p].targets[v.ack.index]
    ensures HeldIn(v, d, b, pv[p := cs])
  {
  }

  /** A publication's copies stay where they were when the one channel
    * that changes still holds those made for it. */
  lemma CopiesKept<T>(r: Publication<T>, cs: Copies<T>, cv: map<Channel<Ackable<T>>, Queues<T>>,
                      c: Channel<Ackable<T>>, q: Queues<T>)
    requires CopiesTracked(r, cs, cv) && c in cv
    requires forall i :: 0 <= i < |cs.targets| && cs.targets[i] == c ==>
      && (cs.states[i] == InFlight ==> CopyOf(r, i) in q.inFlight)
      && (Received(cs.states[i]) ==> CopyOf(r, i) in q.received)
    ensures CopiesTracked(r, cs, cv[c := q])
  {
  }

  /** A channel's queues stay tracked when a publication only gains
    * copies. */
  lemma QueuesExtended<T>(d: Channel<Ackable<T>>, q: Queues<T>, pv: map<Publication<T>, Copies<T>>,
                          p: Publication<T>, cs: Copies<T>)
    requires QueuesTracked(d, q, pv) && p in pv
    requires |pv[p].states| <= |cs.states| && |pv[p].targets| <= |cs.targets|
    requires cs.states[..|pv[p].states|] == pv[p].states && cs.targets[..|pv[p].targets|] == pv[p].targets
    ensures QueuesTracked(d, q, pv[p := cs])
  {
    forall j | 0 <= j < |q.inFlight|
      ensures HeldIn(q.inFlight[j], d, true, pv[p := cs])
    {
      var v := q.inFlight[j];
      if v.ack.pub == p {
        assert cs.states[v.ack.index] == cs.states[..|pv[p].states|][v.ack.index];
        assert cs.targets[v.ack.index] == cs.targets[..|pv[p].targets|][v.ack.index];
      }
      HeldKept(v, d, true, pv, p, cs);
    }
    forall j | 0 <= j < |q.received|
      ensures HeldIn(q.received[j], d, false, pv[p := cs])
    {
      var v := q.received[j];
      if v.ack.pub == p {
        assert cs.states[v.ack.index] == cs.states[..|pv[p].states|][v.ack.index];
        assert cs.targets[v.ack.index] == cs.targets[..|pv[p].targets|][v.ack.index];
      }
      HeldKept(v, d, false, pv, p, cs);
    }
  }

  /** A new copy made for `c` and put where its state says keeps its
    * publication's copies tracked. */
  lemma CopiesAppended<T>(p: Publication<T>, cs: Copies<T>, cv: map<Channel<Ackable<T>>, Queues<T>>,
                          c: Channel<Ackable<T>>, s: CopyState)
    requires CopiesTracked(p, cs, cv) && c in cv
    requires s == InFlight ==> CopyOf(p, |cs.states|) in cv[c].inFlight
    requires Received(s) ==> CopyOf(p, |cs.states|) in cv[c].received
    ensures CopiesTracked(p, Copies(cs.states + [s], cs.targets + [c]), cv)
  {
    var cs' := Copies(cs.states + [s], cs.targets + [c]);
    forall i | 0 <= i < |cs'.targets|
      ensures cs'.targets[i] in cv
      ensures cs'.states[i] == InFlight ==> CopyOf(p, i) in cv[cs'.targets[i]].inFlight
      ensures Received(cs'.states[i]) ==> CopyOf(p, i) in cv[cs'.targets[i]].received
    {
      if i < |cs.states| {
        assert cs'.targets[i] == cs.targets[i] && cs'.states[i] == cs.states[i];
      }
    }
  }

  /** A new channel with empty queues keeps every copy tracked. */
  lemma AcquiredV<T>(cv: map<Channel<Ackable<T>>, Queues<T>>, pv: map<Publication<T>, Copies<T>>, c: Channel<Ackable<T>>)
    requires TrackedV(cv, pv) && c !in cv
    ensures TrackedV(cv[c := Queues([], [])], pv)
  {
    var cv' := cv[c := Queues([], [])];
    forall p {:trigger p in pv} | p in pv
      ensures CopiesTracked(p, pv[p], cv')
    {
      forall i | 0 <= i < |pv[p].targets|
        ensures pv[p].targets[i] != c
      {
        assert pv[p].targets[i] in cv;
      }
    }
  }

  /** A new publication without copies keeps every copy tracked. */
  lemma PublishedV<T>(cv: map<Channel<Ackable<T>>, Queues<T>>, pv: map<Publication<T>, Copies<T>>, p: Publication<T>)
    requires TrackedV(cv, pv) && p !in pv
    ensures TrackedV(cv, pv[p := Copies([], [])])
  {
    var pv' := pv[p := Copies([], [])];
    forall c {:trigger c in cv} | c in cv
      ensures QueuesTracked(c, cv[c], pv')
    {
      assert QueuesTracked(c, cv[c], pv);
    }
  }

  /** A copy of `p` made for `c` is tracked once `c` holds it in the state
    * the new copy starts in: in flight, or read (`Send`'s hand-off). */
  lemma CopiedV<T>(cv: map<Channel<Ackable<T>>, Queues<T>>, pv: map<Publication<T>, Copies<T>>,
                   p: Publication<T>, c: Channel<Ackable<T>>, s: CopyState)
    requires TrackedV(cv, pv) && p in pv && c in cv && (s == InFlight || s == Delivered)
    requires |pv[p].states| == |pv[p].targets|
    ensures var k := |pv[p].states|;
      var q := if s == InFlight then Queues(cv[c].inFlight + [CopyOf(p, k)], cv[c].received)
               else Queues(cv[c].inFlight, cv[c].received + [CopyOf(p, k)]);
      TrackedV(cv[c := q], pv[p := Copies(pv[p].states + [s], pv[p].targets + [c])])
  {
    var k := |pv[p].states|;
    var v := CopyOf(p, k);
    var q := if s == InFlight then Queues(cv[c].inFlight + [v], cv[c].received)
             else Queues(cv[c].inFlight, cv[c].received + [v]);
    var cs := Copies(pv[p].states + [s], pv[p].targets + [c]);
    var cv', pv' := cv[c := q], pv[p := cs];
    assert cs.states[..k] == pv[p].states && cs.targets[..k] == pv[p].targets;
    forall d {:trigger d in cv'} | d in cv'
      ensures QueuesTracked(d, cv'[d], pv')
    {
      QueuesExtended(d, cv[d], pv, p, cs);
      if d == c && s == InFlight {
        assert v !in cv[c].inFlight;
        DistinctAppend(cv[c].inFlight, v);
        assert HeldIn(v, c, true, pv');
      }
    }
    forall r {:trigger r in pv'} | r in pv'
      ensures CopiesTracked(r, pv'[r], cv')
    {
      CopiesKept(r, pv[r], cv, c, q);
      if r == p {
        CopiesAppended(p, pv[p], cv', c, s);
      }
    }
  }

  /** `CopiedV` for a publication whose copies so far are `cs`. */
  lemma CopiedOver<T>(cv: map<Channel<Ackable<T>>, Queues<T>>, pv: map<Publication<T>, Copies<T>>,
                      p: Publication<T>, cs: Copies<T>, c: Channel<Ackable<T>>, s: CopyState)
    requires TrackedV(cv, pv[p := cs]) && c in cv && (s == InFlight || s == Delivered)
    requires |cs.states| == |cs.targets|
    ensures var k := |cs.states|;
      var q := if s == InFlight then Queues(cv[c].inFlight + [CopyOf(p, k)], cv[c].received)
               else Queues(cv[c].inFlight, cv[c].received + [CopyOf(p, k)]);
      TrackedV(cv[c := q], pv[p := Copies(cs.states + [s], cs.targets + [c])])
  {
    CopiedV(cv, pv[p := cs], p, c, s);
    assert pv[p := cs][p := Copies(cs.states + [s], cs.targets + [c])] == pv[p := Copies(cs.states + [s], cs.targets + [c])];
  }

  /** `AbandonedV` for a channel whose hand-offs still in flight are `left`
    * and whose reads are those of `cv`. */
  lemma AbandonedOver<T>(cv: map<Channel<Ackable<T>>, Queues<T>>, pv: map<Publication<T>, Copies<T>>,
                         c: Channel<Ackable<T>>, left: seq<Ackable<T>>)
    requires c in cv && left != [] && TrackedV(cv[c := Queues(left, cv[c].received)], pv)
    ensures var v := left[0];
      && HeldIn(v, c, true, pv)
      && TrackedV(cv[c := Queues(left[1..], cv[c].received)],
                  pv[v.ack.pub := Copies(pv[v.ack.pub].states[v.ack.index := Abandoned], pv[v.ack.pub].targets)])
  {
    var q := Queues(left, cv[c].received);
    AbandonedV(cv[c := q], pv, c);
    assert cv[c := q][c := Queues(left[1..], cv[c].received)] == cv[c := Queues(left[1..], cv[c].received)];
  }

  /** Writing back what a map already holds leaves it as it is. */
  lemma UpdateSame<K, V>(m: map<K, V>, k: K)
    requires k in m
    ensures m[k := m[k]] == m
  {
  }

  /** A second write to the same key overrides the first. */
  lemma UpdateTwice<K, V>(m: map<K, V>, k: K, a: V, b: V)
    ensures m[k := a][k := b] == m[k := b]
  {
  }

  /** A channel's queues stay tracked when they only lose entries. */
  lemma QueuesSub<T>(d: Channel<Ackable<T>>, q: Queues<T>, q': Queues<T>, pv: map<Publication<T>, Copies<T>>)
    requires QueuesTracked(d, q, pv) && Distinct(q'.inFlight)
    requires forall w :: w in q'.inFlight ==> w in q.inFlight
    requires forall w :: w in q'.received ==> w in q.received
    ensures QueuesTracked(d, q', pv)
  {
    forall j | 0 <= j < |q'.inFlight|
      ensures HeldIn(q'.inFlight[j], d, true, pv)
    {
      assert q'.inFlight[j] in q.inFlight;
      var m :| 0 <= m < |q.inFlight| && q.inFlight[m] == q'.inFlight[j];
    }
    forall j | 0 <= j < |q'.received|
      ensures HeldIn(q'.received[j], d, false, pv)
    {
      assert q'.received[j] in q.received;
      var m :| 0 <= m < |q.received| && q.received[m] == q'.received[j];
    }
  }

  /** A channel's queues stay tracked when copy `i` of `p` takes a state
    * that matches where the channel holds it. */
  lemma QueuesRestated<T>(d: Channel<Ackable<T>>, q: Queues<T>, pv: map<Publication<T>, Copies<T>>,
                          p: Publication<T>, i: nat, s: CopyState)
    requires QueuesTracked(d, q, pv) && p in pv && i < |pv[p].states|
    requires CopyOf(p, i) in q.inFlight ==> s == InFlight
    requires CopyOf(p, i) in q.received ==> Received(s)
    ensures QueuesTracked(d, q, pv[p := Copies(pv[p].states[i := s], pv[p].targets)])
  {
    var cs := Copies(pv[p].states[i := s], pv[p].targets);
    forall j | 0 <= j < |q.inFlight|
      ensures HeldIn(q.inFlight[j], d, true, pv[p := cs])
    {
      var v := q.inFlight[j];
      if v.ack.pub == p && v.ack.index == i {
        assert v == CopyOf(p, i);
      } else {
        HeldKept(v, d, true, pv, p, cs);
      }
    }
    forall j | 0 <= j < |q.received|
      ensures HeldIn(q.received[j], d, false, pv[p := cs])
    {
      var v := q.received[j];
      if v.ack.pub == p && v.ack.index == i {
        assert v == CopyOf(p, i);
      } else {
        HeldKept(v, d, false, pv, p, cs);
      }
    }
  }

  /** Publication `p` stays tracked when channel `c` changes and copy `i`
    * takes state `s`, as long as every copy sits where its state says. */
  lemma CopiesMoved<T>(p: Publication<T>, cs: Copies<T>, cv: map<Channel<Ackable<T>>, Queues<T>>,
                       c: Channel<Ackable<T>>, q: Queues<T>, i: nat, s: CopyState)
    requires CopiesTracked(p, cs, cv) && c in cv && i < |cs.states|
    requires forall k :: 0 <= k < |cs.targets| && k != i && cs.targets[k] == c ==>
      && (cs.states[k] == InFlight ==> CopyOf(p, k) in q.inFlight)
      && (Received(cs.states[k]) ==> CopyOf(p, k) in q.received)
    requires s == InFlight ==> CopyOf(p, i) in cv[c := q][cs.targets[i]].inFlight
    requires Received(s) ==> CopyOf(p, i) in cv[c := q][cs.targets[i]].received
    ensures CopiesTracked(p, Copies(cs.states[i := s], cs.targets), cv[c := q])
  {
  }

  /** The subscriber of `c` reading its blocked hand-off `j` delivers that
    * copy and keeps every copy tracked. */
  lemma HandedV<T>(cv: map<Channel<Ackable<T>>, Queues<T>>, pv: map<Publication<T>, Copies<T>>,
                   c: Channel<Ackable<T>>, j: nat)
    requires TrackedV(cv, pv) && c in cv && j < |cv[c].inFlight|
    ensures var v := cv[c].inFlight[j];
      && HeldIn(v, c, true, pv)
      && TrackedV(cv[c := Queues(cv[c].inFlight[..j] + cv[c].inFlight[j + 1..], cv[c].received + [v])],
                  pv[v.ack.pub := Copies(pv[v.ack.pub].states[v.ack.index := Delivered], pv[v.ack.pub].targets)])
  {
    var inF, rec := cv[c].inFlight, cv[c].received;
    var v := inF[j];
    assert QueuesTracked(c, cv[c], pv) && HeldIn(v, c, true, pv);
    var p, i := v.ack.pub, v.ack.index;
    var cut := inF[..j] + inF[j + 1..];
    WithoutAt(inF, j);
    WithoutDistinct(inF, v);
    var q := Queues(cut, rec + [v]);
    var cs := Copies(pv[p].states[i := Delivered], pv[p].targets);
    var cv', pv' := cv[c := q], pv[p := cs];
    assert v !in rec;
    forall w | w in cut
      ensures w in inF && w != v
    {
      WithoutMembers(inF, v, w);
    }
    forall d {:trigger d in cv'} | d in cv'
      ensures QueuesTracked(d, cv'[d], pv')
    {
      if d == c {
        QueuesSub(c, cv[c], Queues(cut, rec), pv);
        QueuesRestated(c, Queues(cut, rec), pv, p, i, Delivered);
        assert HeldIn(v, c, false, pv');
      } else {
        assert QueuesTracked(d, cv[d], pv);
        assert CopyOf(p, i) !in cv[d].inFlight && CopyOf(p, i) !in cv[d].received;
        QueuesRestated(d, cv[d], pv, p, i, Delivered);
      }
    }
    forall r {:trigger r in pv'} | r in pv'
      ensures CopiesTracked(r, pv'[r], cv')
    {
      if r == p {
        CopiesMoved(p, pv[p], cv, c, q, i, Delivered);
      } else {
        CopiesKept(r, pv[r], cv, c, q);
      }
    }
  }

  /** Acking a read copy keeps every copy tracked. */
  lemma AckedV<T>(cv: map<Channel<Ackable<T>>, Queues<T>>, pv: map<Publication<T>, Copies<T>>,
                  p: Publication<T>, i: nat)
    requires TrackedV(cv, pv) && p in pv && i < |pv[p].states| && Received(pv[p].states[i])
    ensures TrackedV(cv, pv[p := Copies(pv[p].states[i := Acked], pv[p].targets)])
  {
    var cs := Copies(pv[p].states[i := Acked], pv[p].targets);
    var pv' := pv[p := cs];
    forall d {:trigger d in cv} | d in cv
      ensures QueuesTracked(d, cv[d], pv')
    {
      assert QueuesTracked(d, cv[d], pv);
      assert CopyOf(p, i) !in cv[d].inFlight;
      QueuesRestated(d, cv[d], pv, p, i, Acked);
    }
    forall r {:trigger r in pv'} | r in pv'
      ensures CopiesTracked(r, pv'[r], cv)
    {
      if r == p {
        var c := pv[p].targets[i];
        assert cv[c := cv[c]] == cv;
        CopiesMoved(p, pv[p], cv, c, cv[c], i, Acked);
      }
    }
  }

  /** The first blocked hand-off of a released channel `c` takes
    * `<-ch.done`: that copy is abandoned and leaves the queue, and every
    * copy stays tracked. */
  lemma AbandonedV<T>(cv: map<Channel<Ackable<T>>, Queues<T>>, pv: map<Publication<T>, Copies<T>>,
                      c: Channel<Ackable<T>>)
    requires TrackedV(cv, pv) && c in cv && cv[c].inFlight != []
    ensures var v := cv[c].inFlight[0];
      && HeldIn(v, c, true, pv)
      && TrackedV(cv[c := Queues(cv[c].inFlight[1..], cv[c].received)],
                  pv[v.ack.pub := Copies(pv[v.ack.pub].states[v.ack.index := Abandoned], pv[v.ack.pub].targets)])
  {
    var inF, rec := cv[c].inFlight, cv[c].received;
    var v := inF[0];
    assert QueuesTracked(c, cv[c], pv) && HeldIn(v, c, true, pv);
    var p, i := v.ack.pub, v.ack.index;
    var q := Queues(inF[1..], rec);
    var cs := Copies(pv[p].states[i := Abandoned], pv[p].targets);
    var cv', pv' := cv[c := q], pv[p := cs];
    assert v !in rec;
    assert forall w :: w in inF && w != v ==> w in inF[1..];
    forall d {:trigger d in cv'} | d in cv'
      ensures QueuesTracked(d, cv'[d], pv')
    {
      if d == c {
        QueuesSub(c, cv[c], q, pv);
        QueuesRestated(c, q, pv, p, i, Abandoned);
      } else {
        assert QueuesTracked(d, cv[d], pv);
        assert CopyOf(p, i) !in cv[d].inFlight && CopyOf(p, i) !in cv[d].received;
        QueuesRestated(d, cv[d], pv, p, i, Abandoned);
      }
    }
    forall r {:trigger r in pv'} | r in pv'
      ensures CopiesTracked(r, pv'[r], cv')
    {
      if r == p {
        CopiesMoved(p, pv[p], cv, c, q, i, Abandoned);
      } else {
        CopiesKept(r, pv[r], cv, c, q);
      }
    }
  }

  /** A copy `i` of `p` is among the hand-offs channel `c` has in flight
    * exactly when that copy is in flight and was made for `c`. */
  lemma StrandedIff<T>(cv: map<Channel<Ackable<T>>, Queues<T>>, pv: map<Publication<T>, Copies<T>>,
                       c: Channel<Ackable<T>>, p: Publication<T>, i: nat)
    requires TrackedV(cv, pv) && c in cv && p in pv && i < |pv[p].states|
    ensures CopyOf(p, i) in cv[c].inFlight <==> pv[p].states[i] == InFlight && pv[p].targets[i] == c
  {
    assert QueuesTracked(c, cv[c], pv) && CopiesTracked(p, pv[p], cv);
    if CopyOf(p, i) in cv[c].inFlight {
      var m :| 0 <= m < |cv[c].inFlight| && cv[c].inFlight[m] == CopyOf(p, i);
      assert HeldIn(cv[c].inFlight[m], c, true, pv);
    }
  }

  /** Every publication's consistency holds and its waiter has started. */
  ghost predicate Armed<T>(pubs: set<Publication<T>>)
    reads pubs
  {
    forall p {:trigger p in pubs} :: p in pubs ==> p.Valid() && p.armed
  }

  /** The copies the channels of `all` hold and those of the publications
    * of `pubs` agree. */
  ghost predicate Tracked<T>(all: set<Channel<Ackable<T>>>, pubs: set<Publication<T>>)
    reads all`inFlight, all`received, pubs
  {
    TrackedV(ChanView(all), PubView(pubs)) && Armed(pubs)
  }

  /** `AckableGroup`: a registry of subscriber channels of `Ackable`
    * values, and the publications made so far. */
  class AckableGroup<T> {
    const channels: List<Channel<Ackable<T>>>
    /** Every channel this group has handed out. */
    ghost var all: set<Channel<Ackable<T>>>
    /** Every call of `Send` and `SendAsync` so far. */
    ghost var pubs: set<Publication<T>>

    /** The registry of `Group`, plus the tracking of every copy. */
    ghost predicate Valid()
      reads this, channels, channels.members
      reads all`handle, all`released, all`done, all`closed, all`inFlight, all`received, pubs
    {
      Registry(channels, all) && Drained(all) && Tracked(all, pubs)
    }

    /** The channels in registry order. */
    ghost function Registered(): seq<Channel<Ackable<T>>>
      reads this, channels
    {
      RegisteredIn(channels)
    }

    /** `NewAckableGroup`: an empty registry. */
    constructor ()
      ensures Valid() && fresh(channels) && all == {} && pubs == {} && Registered() == []
    {
      channels := new List();
      all, pubs := {}, {};
    }

    /** `Acquire`, as in `Group`, with `Append` for `Insert`. */
    method Acquire() returns (c: Channel<Ackable<T>>)
      requires Valid()
      modifies this, channels, channels.members
      ensures Valid() && fresh(c)
      ensures all == old(all) + {c} && pubs == old(pubs)
      ensures Registered() == old(Registered()) + [c]
      ensures c.received == [] && c.inFlight == []
      ensures !c.done && !c.closed && !c.released
    {
      ghost var cv, pv := ChanView(all), PubView(pubs);
      c := AcquireIn(channels, all);
      all := all + {c};
      ChanViewStep(c);
      PubsKept();
      AcquiredV(cv, pv, c);
    }

    /** The subscriber of `c` calls the `Ack` of the `j`-th value it read:
      * that copy's `once.Do(ack.Done)`. Only the first call of a copy's
      * `Ack` counts. */
    method Ack(c: Channel<Ackable<T>>, j: nat)
      requires Valid() && c in all && j < |c.received|
      modifies if c.received[j].ack.CopyAck? then {c.received[j].ack.pub} else {}
      ensures Valid() && c.received[j].ack.CopyAck?
      ensures c.received[j].ack.index < |old(c.received[j].ack.pub.states)|
      ensures var p, i := c.received[j].ack.pub, c.received[j].ack.index;
        && p.states == old(p.states)[i := Acked] && p.targets == old(p.targets)
        && p.pending == old(p.pending) - (if old(p.states[i]) == Delivered then 1 else 0)
        && (old(p.states[i]) == Acked ==> p.pending == old(p.pending) && p.originalAcks == old(p.originalAcks))
    {
      var v := c.received[j];
      assert QueuesTracked(c, ChanView(all)[c], PubView(pubs));
      assert HeldIn(v, c, false, PubView(pubs));
      var p, i := v.ack.pub, v.ack.index;
      p.AckCopy(i);
      AckedValid(v.ack);
    }

    /** Acking a read copy keeps the group valid. */
    twostate lemma AckedValid(a: AckFunc<T>)
      requires old(Valid()) && unchanged(this) && unchanged(channels) && unchanged(channels.members)
      requires a.CopyAck? && a.pub in pubs
      requires old(a.index < |a.pub.states| && Received(a.pub.states[a.index]))
      requires a.pub.states == old(a.pub.states)[a.index := Acked] && a.pub.targets == old(a.pub.targets)
      requires a.pub.Valid() && a.pub.armed
      requires forall q {:trigger q in pubs} :: q in pubs && q != a.pub ==> unchanged(q)
      requires forall d {:trigger d in all} :: d in all ==> unchanged(d)
      ensures Valid()
    {
      PubViewStep(a.pub);
      AckedV(old(ChanView(all)), old(PubView(pubs)), a.pub, a.index);
    }

    /** The subscriber of `c` reads the value of its blocked hand-off `j`
      * (`case ch.ch <- v` in a hand-off goroutine of `Send` or
      * `SendAsync`): that copy is now delivered. */
    method Handoff(c: Channel<Ackable<T>>, j: nat)
      requires Valid() && c in all && j < |c.inFlight|
      modifies c, if c.inFlight[j].ack.CopyAck? then {c.inFlight[j].ack.pub} else {}
      ensures Valid() && old(c.inFlight[j]).ack.CopyAck?
      ensures old(c.inFlight[j]).ack.index < |old(c.inFlight[j].ack.pub.states)|
      ensures c.received == old(c.received) + [old(c.inFlight[j])]
      ensures c.inFlight == old(c.inFlight[..j] + c.inFlight[j + 1..])
      ensures var a := old(c.inFlight[j]).ack;
        && a.pub.states == old(a.pub.states)[a.index := Delivered] && a.pub.targets == old(a.pub.targets)
        && a.pub.pending == old(a.pub.pending) && a.pub.originalAcks == old(a.pub.originalAcks)
    {
      var v := c.inFlight[j];
      assert QueuesTracked(c, ChanView(all)[c], PubView(pubs));
      assert HeldIn(v, c, true, PubView(pubs));
      assert !c.released && c.Lifecycle();
      var p, i := v.ack.pub, v.ack.index;
      c.Handoff(j);
      p.Handed(i);
      HandedValid(Slot(c, j));
    }

    /** A hand-off on an open channel leaves the registry as it was. */
    twostate lemma HandedRegistry(new c: Channel<Ackable<T>>)
      requires old(Valid()) && unchanged(this)
      requires unchanged(channels) && unchanged(channels.members)
      requires c in all && old(!c.released)
      requires c.handle == old(c.handle) && c.released == old(c.released)
      requires c.done == old(c.done) && c.closed == old(c.closed)
      requires forall d {:trigger d in all} :: d in all && d != c ==>
        && d.handle == old(d.handle) && d.done == old(d.done) && d.closed == old(d.closed)
        && d.released == old(d.released) && d.inFlight == old(d.inFlight)
      ensures Registry(channels, all) && Drained(all)
    {
      RegistryKept();
    }

    /** The copy in flight at `s` has moved to the values `s.c` read,
      * that copy is delivered, and nothing else has changed. */
    twostate predicate HandedOver(s: Slot<T>)
      reads this, all, pubs
    {
      && all == old(all) && pubs == old(pubs)
      && s.c in all && old(!s.c.released && s.j < |s.c.inFlight| && s.c.inFlight[s.j].ack.CopyAck?)
      && (var v := old(s.c.inFlight[s.j]);
        && s.c.received == old(s.c.received) + [v]
        && s.c.inFlight == old(s.c.inFlight[..s.j] + s.c.inFlight[s.j + 1..])
        && s.c.handle == old(s.c.handle) && s.c.released == old(s.c.released)
        && s.c.done == old(s.c.done) && s.c.closed == old(s.c.closed)
        && v.ack.pub in pubs && old(v.ack.index < |v.ack.pub.states|)
        && v.ack.pub.states == old(v.ack.pub.states)[v.ack.index := Delivered]
        && v.ack.pub.targets == old(v.ack.pub.targets)
        && v.ack.pub.Valid() && v.ack.pub.armed
        && forall q {:trigger q in pubs} :: q in pubs && q != v.ack.pub ==> unchanged(q))
      && forall d {:trigger d in all} :: d in all && d != s.c ==> unchanged(d)
    }

    /** Delivering the copy in flight at `s` keeps the group valid. */
    twostate lemma HandedValid(s: Slot<T>)
      requires old(Valid()) && unchanged(this) && unchanged(channels) && unchanged(channels.members)
      requires HandedOver(s)
      ensures Valid()
    {
      HandedTracked(s);
      HandedRegistry(s.c);
    }

    /** Delivering the copy in flight at `s` keeps the copies tracked. */
    twostate lemma HandedTracked(s: Slot<T>)
      requires old(Valid()) && unchanged(this)
      requires HandedOver(s)
      ensures Tracked(all, pubs)
    {
      HandedV(old(ChanView(all)), old(PubView(pubs)), s.c, s.j);
      ChanViewStep(s.c);
      PubViewStep(old(s.c.inFlight[s.j]).ack.pub);
    }

    /** The release function of `c`: `Group`'s release, after which every
      * hand-off still blocked on `c` takes `<-ch.done` and abandons its
      * copy. A second call changes nothing. */
    method Release(c: Channel<Ackable<T>>)
      requires Valid() && c in all
      modifies channels, channels.members, c, pubs
      ensures Valid() && all == old(all) && pubs == old(pubs) && channels.members == old(channels.members)
      ensures Registered() == Without(old(Registered()), c)
      ensures c.released && c.done && c.closed && c.inFlight == [] && c.received == old(c.received)
      ensures old(c.released) ==> Registered() == old(Registered())
      ensures forall p {:trigger p in pubs} :: p in pubs ==>
        p.targets == old(p.targets) && |p.states| == |old(p.states)|
      ensures forall p, i {:trigger p.states[i]} :: p in pubs && 0 <= i < |p.states| ==>
        p.states[i] == (if old(p.states[i]) == InFlight && p.targets[i] == c then Abandoned else old(p.states[i]))
      ensures old(c.released) ==> forall p {:trigger p in pubs} :: p in pubs ==> p.states == old(p.states)
    {
      InFlightListed();
      RegisteredIffOpen(channels, all, c);
      var stranded := Close(c);
      AbandonStranded(c, stranded);
    }

    /** `Group`'s release function on `c`: `c` leaves the registry, its
      * `done` channel and its queue are closed. `stranded` is what `c` had
      * in flight, still to be abandoned. */
    method Close(c: Channel<Ackable<T>>) returns (stranded: seq<Ackable<T>>)
      requires Valid() && c in all
      modifies channels, channels.members, c
      ensures stranded == old(c.inFlight) && channels.members == old(channels.members)
      ensures Registry(channels, all) && Drained(all)
      ensures Registered() == Without(old(Registered()), c)
      ensures old(c.released) ==> Registered() == old(Registered())
      ensures c.released && c.done && c.closed && c.inFlight == [] && c.received == old(c.received)
      ensures Armed(pubs) && TrackedV(ChanView(all)[c := Queues(stranded, c.received)], PubView(pubs))
      ensures forall p, i {:trigger p.states[i]} :: p in pubs && 0 <= i < |p.states| ==>
        (CopyOf(p, i) in stranded <==> p.states[i] == InFlight && p.targets[i] == c)
    {
      ghost var cv0, pv0 := ChanView(all), PubView(pubs);
      forall p, i | p in pv0 && 0 <= i < |pv0[p].states|
        ensures CopyOf(p, i) in c.inFlight <==> pv0[p].states[i] == InFlight && pv0[p].targets[i] == c
      {
        StrandedIff(cv0, pv0, c, p, i);
      }
      stranded := c.inFlight;
      ReleaseIn(channels, all, c);
      PubsKept();
      ChanViewStep(c);
      UpdateTwice(cv0, c, Queues([], c.received), Queues(stranded, c.received));
      UpdateSame(cv0, c);
    }

    /** `close(ch.elem.done)` wakes every hand-off goroutine still blocked
      * on `c`: each takes `<-ch.done` and calls `ack.Done()`, abandoning
      * its copy. `stranded` is what `c` had in flight. */
    method AbandonStranded(c: Channel<Ackable<T>>, stranded: seq<Ackable<T>>)
      requires Registry(channels, all) && Drained(all) && c in all && c.inFlight == []
      requires TrackedV(ChanView(all)[c := Queues(stranded, c.received)], PubView(pubs)) && Armed(pubs)
      modifies pubs
      ensures Valid()
      ensures forall p {:trigger p in pubs} :: p in pubs ==>
        p.targets == old(p.targets) && |p.states| == |old(p.states)|
      ensures forall p, i {:trigger p.states[i]} :: p in pubs && 0 <= i < |p.states| ==>
        p.states[i] == (if CopyOf(p, i) in stranded then Abandoned else old(p.states[i]))
    {
      ghost var cv, pv0 := ChanView(all), PubView(pubs);
      assert stranded[0..] == stranded && stranded[..0] == [];
      var k := 0;
      while k < |stranded|
        invariant AbandonedUpTo(c, stranded, k, cv, pv0)
      {
        AbandonNext(c, stranded, k, cv, pv0);
        k := k + 1;
      }
      assert stranded[k..] == [] && stranded[..k] == stranded && cv[c] == Queues([], c.received);
      UpdateSame(cv, c);
      ChannelsKept();
      RegistryKept();
    }

    /** The first `k` hand-offs of `stranded` are abandoned: in `cv`, the
      * queue of `c` holds the rest, and every other copy keeps its state
      * of `pv0`. */
    ghost predicate AbandonedUpTo(c: Channel<Ackable<T>>, stranded: seq<Ackable<T>>, k: nat,
                                  cv: map<Channel<Ackable<T>>, Queues<T>>, pv0: map<Publication<T>, Copies<T>>)
      reads this, pubs
    {
      && k <= |stranded| && c in cv
      && TrackedV(cv[c := Queues(stranded[k..], cv[c].received)], PubView(pubs)) && Armed(pubs)
      && (forall p {:trigger p in pubs} :: p in pubs ==>
           p in pv0 && p.targets == pv0[p].targets && |p.states| == |pv0[p].states|)
      && (forall p, i {:trigger p.states[i]} :: p in pubs && 0 <= i < |p.states| ==>
           p.states[i] == (if CopyOf(p, i) in stranded[..k] then Abandoned else pv0[p].states[i]))
    }

    /** One round of `AbandonStranded`: the `k`-th hand-off gives up. */
    method AbandonNext(c: Channel<Ackable<T>>, stranded: seq<Ackable<T>>, k: nat,
                       ghost cv: map<Channel<Ackable<T>>, Queues<T>>, ghost pv0: map<Publication<T>, Copies<T>>)
      requires k < |stranded| && AbandonedUpTo(c, stranded, k, cv, pv0)
      modifies pubs
      ensures AbandonedUpTo(c, stranded, k + 1, cv, pv0)
    {
      AbandonFirst(c, stranded[k..], cv);
      assert stranded[k..][1..] == stranded[k + 1..];
      forall p, i | p in pubs && 0 <= i < |p.states|
        ensures p.states[i] == (if CopyOf(p, i) in stranded[..k + 1] then Abandoned else pv0[p].states[i])
      {
        assert stranded[..k + 1] == stranded[..k] + [stranded[k]];
        assert CopyOf(p, i) == stranded[k] <==> p == stranded[k].ack.pub && i == stranded[k].ack.index;
        assert p.states[i] == (if CopyOf(p, i) == stranded[k] then Abandoned else old(p.states[i]));
      }
    }

    /** The first hand-off goroutine still blocked on `c` takes `<-ch.done`
      * and calls `ack.Done()`: its copy `v` is abandoned. In `cv`, the
      * queue of `c` holds the hand-offs not yet abandoned. */
    method AbandonFirst(c: Channel<Ackable<T>>, left: seq<Ackable<T>>, ghost cv: map<Channel<Ackable<T>>, Queues<T>>)
      requires c in cv && left != []
      requires TrackedV(cv[c := Queues(left, cv[c].received)], PubView(pubs)) && Armed(pubs)
      modifies pubs
      ensures left[0].ack.CopyAck? && left[0].ack.pub in pubs && left[0] == CopyOf(left[0].ack.pub, left[0].ack.index)
      ensures left[0].ack.index < |old(left[0].ack.pub.states)|
      ensures left[0].ack.pub.states == old(left[0].ack.pub.states)[left[0].ack.index := Abandoned]
      ensures forall p {:trigger p in pubs} :: p in pubs ==>
        p.targets == old(p.targets) && (p != left[0].ack.pub ==> p.states == old(p.states))
      ensures Armed(pubs) && TrackedV(cv[c := Queues(left[1..], cv[c].received)], PubView(pubs))
    {
      AbandonedOver(cv, PubView(pubs), c, left);
      var p, i := left[0].ack.pub, left[0].ack.index;
      p.Abandon(i);
      PubViewStep(p);
    }

    /** `ReleaseAll`: the registry as `ForEach` visits it, then the release
      * function of every channel of that snapshot. Every copy still in
      * flight is abandoned. */
    method ReleaseAll()
      requires Valid()
      modifies channels, channels.members, all, pubs
      ensures Valid() && Registered() == [] && all == old(all) && pubs == old(pubs)
      ensures channels.members == old(channels.members)
      ensures forall c {:trigger c in all} :: c in all ==> c.released && c.closed && c.received == old(c.received)
      ensures forall p {:trigger p in pubs} :: p in pubs ==>
        p.targets == old(p.targets) && |p.states| == |old(p.states)|
      ensures forall p, i {:trigger p.states[i]} :: p in pubs && 0 <= i < |p.states| ==>
        p.states[i] == (if old(p.states[i]) == InFlight then Abandoned else old(p.states[i]))
    {
      var snapshot := channels.ForEach();
      ReleaseEach(snapshot);
      forall c {:trigger c in all} | c in all
        ensures c.released && c.closed
      {
        RegisteredIffOpen(channels, all, c);
      }
    }

    /** Every copy in flight was made for a registered channel. */
    lemma InFlightListed()
      requires Valid()
      ensures forall p, i {:trigger p.states[i]} :: p in pubs && 0 <= i < |p.states| && p.states[i] == InFlight ==>
        p.targets[i] in Registered()
    {
      forall p, i | p in pubs && 0 <= i < |p.states| && p.states[i] == InFlight
        ensures p.targets[i] in Registered()
      {
        InFlightRegistered(p, i);
      }
    }

    /** Before the loop, none of `snapshot` is released yet. */
    lemma StartsReleased(snapshot: seq<Channel<Ackable<T>>>)
      requires Valid() && Registered() == snapshot
      ensures ReleasedUpTo(snapshot, 0, ChanView(all), PubView(pubs))
    {
      assert snapshot[..0] == [];
    }

    /** `for _, ch := range all { ch.release() }` over the registry's
      * snapshot: every copy in flight is abandoned. */
    method ReleaseEach(snapshot: seq<Channel<Ackable<T>>>)
      requires Valid() && Registered() == snapshot
      modifies channels, channels.members, all, pubs
      ensures Valid() && Registered() == [] && channels.members == old(channels.members)
      ensures forall c {:trigger c in all} :: c in all ==> c.received == old(c.received)
      ensures forall p {:trigger p in pubs} :: p in pubs ==>
        p.targets == old(p.targets) && |p.states| == |old(p.states)|
      ensures forall p, i {:trigger p.states[i]} :: p in pubs && 0 <= i < |p.states| ==>
        p.states[i] == (if old(p.states[i]) == InFlight then Abandoned else old(p.states[i]))
    {
      ghost var cv0, pv0 := ChanView(all), PubView(pubs);
      InFlightListed();
      StartsReleased(snapshot);
      var k := 0;
      while k < |snapshot|
        invariant ReleasedUpTo(snapshot, k, cv0, pv0)
        invariant channels.members == old(channels.members)
      {
        ReleaseNext(snapshot, k, cv0, pv0);
        k := k + 1;
      }
      assert snapshot[..k] == snapshot;
    }

    /** The first `k` channels of `snapshot` are released: they have left
      * the registry, the values they had read are those of `cv0`, and the
      * copies they had in flight in `pv0` are abandoned. */
    ghost predicate ReleasedUpTo(snapshot: seq<Channel<Ackable<T>>>, k: nat,
                                 cv0: map<Channel<Ackable<T>>, Queues<T>>, pv0: map<Publication<T>, Copies<T>>)
      reads this, channels, channels.members, all, pubs
    {
      && k <= |snapshot| && Valid() && Registered() == snapshot[k..]
      && (forall c {:trigger c in all} :: c in all ==> c in cv0 && c.received == cv0[c].received)
      && (forall p {:trigger p in pubs} :: p in pubs ==>
           p in pv0 && p.targets == pv0[p].targets && |p.states| == |pv0[p].states|)
      && (forall p, i {:trigger p.states[i]} :: p in pubs && 0 <= i < |p.states| ==>
           p.states[i] == (if pv0[p].states[i] == InFlight && p.targets[i] in snapshot[..k] then Abandoned else pv0[p].states[i]))
    }

    /** One round of `ReleaseAll`'s loop: `ch.release()` on `snapshot[k]`. */
    method ReleaseNext(snapshot: seq<Channel<Ackable<T>>>, k: nat,
                       ghost cv0: map<Channel<Ackable<T>>, Queues<T>>, ghost pv0: map<Publication<T>, Copies<T>>)
      requires k < |snapshot| && ReleasedUpTo(snapshot, k, cv0, pv0)
      modifies channels, channels.members, all, pubs
      ensures ReleasedUpTo(snapshot, k + 1, cv0, pv0) && channels.members == old(channels.members)
    {
      var c := snapshot[k];
      RegisteredOpen(channels, all);
      WithoutAt(snapshot[k..], 0);
      assert Without(snapshot[k..], c) == snapshot[k + 1..];
      assert snapshot[..k + 1] == snapshot[..k] + [c];
      Release(c);
    }

    /** A copy in flight was made for a channel that is still registered. */
    lemma InFlightRegistered(p: Publication<T>, i: nat)
      requires Valid() && p in pubs && i < |p.states| && p.states[i] == InFlight
      ensures p.targets[i] in Registered()
    {
      var cv, pv := ChanView(all), PubView(pubs);
      assert CopiesTracked(p, pv[p], cv);
      var c := p.targets[i];
      assert CopyOf(p, i) in c.inFlight;
      RegisteredIffOpen(channels, all, c);
    }

    /** For every registered channel, `go func() { ... ch.ch <- v ... }`
      * with a copy of `value` of its own; the channel's subscriber reads
      * it (`Send` waits for each hand-off with `send.Wait()`). The
      * publication's waiter starts afterwards. */
    method Send(value: Ackable<T>) returns (p: Publication<T>)
      requires Valid()
      modifies this, all
      ensures Valid() && fresh(p) && pubs == old(pubs) + {p} && all == old(all)
      ensures Registered() == old(Registered())
      ensures p.value == value.value && p.original == value.ack && p.armed
      ensures p.targets == old(Registered())
      ensures forall i :: 0 <= i < |p.states| ==> p.states[i] == Delivered
      ensures p.pending == |p.targets| && p.originalAcks == (if p.targets == [] then 1 else 0)
      ensures forall j :: 0 <= j < |p.targets| ==> p.targets[j].received == old(Registered()[j].received) + [CopyOf(p, j)]
      ensures forall c {:trigger c in all} :: c in all && c !in p.targets ==> c.received == old(c.received)
      ensures forall c {:trigger c in all} :: c in all ==> c.inFlight == old(c.inFlight)
    {
      p := SendCopies(value);
      Publish(p);
    }

    /** `SendAsync`: as `Send`, but every copy is left in flight and
      * nothing waits for the hand-offs. */
    method SendAsync(value: Ackable<T>) returns (p: Publication<T>)
      requires Valid()
      modifies this, all
      ensures Valid() && fresh(p) && pubs == old(pubs) + {p} && all == old(all)
      ensures Registered() == old(Registered())
      ensures p.value == value.value && p.original == value.ack && p.armed
      ensures p.targets == old(Registered())
      ensures forall i :: 0 <= i < |p.states| ==> p.states[i] == InFlight
      ensures p.pending == |p.targets| && p.originalAcks == (if p.targets == [] then 1 else 0)
      ensures forall j :: 0 <= j < |p.targets| ==> p.targets[j].inFlight == old(Registered()[j].inFlight) + [CopyOf(p, j)]
      ensures forall c {:trigger c in all} :: c in all && c !in p.targets ==> c.inFlight == old(c.inFlight)
      ensures forall c {:trigger c in all} :: c in all ==> c.received == old(c.received)
    {
      p := StartCopies(value);
      Publish(p);
    }

    /** The part of `Send` before the waits: one copy of `value` for every
      * registered subscriber, each handed over. */
    method SendCopies(value: Ackable<T>) returns (p: Publication<T>)
      requires Valid()
      modifies all
      ensures fresh(p) && p.Valid() && !p.armed && p.value == value.value && p.original == value.ack
      ensures p.targets == old(Registered()) && |p.states| == |p.targets|
      ensures p.pending == |p.targets| && p.originalAcks == 0
      ensures forall i :: 0 <= i < |p.states| ==> p.states[i] == Delivered
      ensures forall j :: 0 <= j < |p.targets| ==> p.targets[j].received == old(Registered()[j].received) + [CopyOf(p, j)]
      ensures forall c {:trigger c in all} :: c in all && c !in p.targets ==> c.received == old(c.received)
      ensures forall c {:trigger c in all} :: c in all ==>
        c.handle == old(c.handle) && c.inFlight == old(c.inFlight) && c.done == old(c.done)
        && c.closed == old(c.closed) && c.released == old(c.released)
      ensures Registry(channels, all) && Drained(all) && Registered() == old(Registered()) && Armed(pubs)
      ensures TrackedV(ChanView(all), PubView(pubs)[p := Copies(p.states, p.targets)])
    {
      ghost var pv: map<Publication<T>, Copies<T>> := PubView(pubs);
      var targets := channels.ForEach();
      RegisteredOpen(channels, all);
      p := new Publication(value.value, value.ack);
      ChannelsKept();
      PublishedV(ChanView(all), pv, p);
      DeliverAll(p, targets, pv);
      RegistryKept();
      PubsKept();
    }

    /** The part of `SendAsync` before the waiter: one copy of `value` in
      * flight to every registered subscriber. */
    method StartCopies(value: Ackable<T>) returns (p: Publication<T>)
      requires Valid()
      modifies all
      ensures fresh(p) && p.Valid() && !p.armed && p.value == value.value && p.original == value.ack
      ensures p.targets == old(Registered()) && |p.states| == |p.targets|
      ensures p.pending == |p.targets| && p.originalAcks == 0
      ensures forall i :: 0 <= i < |p.states| ==> p.states[i] == InFlight
      ensures forall j :: 0 <= j < |p.targets| ==> p.targets[j].inFlight == old(Registered()[j].inFlight) + [CopyOf(p, j)]
      ensures forall c {:trigger c in all} :: c in all && c !in p.targets ==> c.inFlight == old(c.inFlight)
      ensures forall c {:trigger c in all} :: c in all ==>
        c.handle == old(c.handle) && c.received == old(c.received) && c.done == old(c.done)
        && c.closed == old(c.closed) && c.released == old(c.released)
      ensures Registry(channels, all) && Drained(all) && Registered() == old(Registered()) && Armed(pubs)
      ensures TrackedV(ChanView(all), PubView(pubs)[p := Copies(p.states, p.targets)])
    {
      ghost var pv: map<Publication<T>, Copies<T>> := PubView(pubs);
      var targets := channels.ForEach();
      RegisteredOpen(channels, all);
      p := new Publication(value.value, value.ack);
      ChannelsKept();
      PublishedV(ChanView(all), pv, p);
      StartAll(p, targets, pv);
      RegistryKept();
      PubsKept();
    }

    /** `Send`'s hand-off goroutines, one per subscriber in `targets`, each
      * of which the subscriber reads: every copy is delivered. */
    method DeliverAll(p: Publication<T>, targets: seq<Channel<Ackable<T>>>, ghost pv: map<Publication<T>, Copies<T>>)
      requires Distinct(targets)
      requires forall j :: 0 <= j < |targets| ==> targets[j] in all && !targets[j].done && !targets[j].closed
      requires p.Valid() && !p.armed && p.states == [] && p.targets == [] && p.pending == 0 && p.originalAcks == 0
      requires TrackedV(ChanView(all), pv[p := Copies(p.states, p.targets)])
      modifies all, p
      ensures p.Valid() && !p.armed && p.targets == targets && |p.states| == |targets|
      ensures p.pending == |targets| && p.originalAcks == 0
      ensures forall k :: 0 <= k < |targets| ==> p.states[k] == Delivered
      ensures forall j :: 0 <= j < |targets| ==> targets[j].received == old(targets[j].received) + [CopyOf(p, j)]
      ensures forall c {:trigger c in all} :: c in all && c !in targets ==> c.received == old(c.received)
      ensures forall c {:trigger c in all} :: c in all ==>
        c.handle == old(c.handle) && c.inFlight == old(c.inFlight) && c.done == old(c.done)
        && c.closed == old(c.closed) && c.released == old(c.released)
      ensures TrackedV(ChanView(all), pv[p := Copies(p.states, p.targets)])
    {
      var i := 0;
      while i < |targets|
        invariant 0 <= i <= |targets|
        invariant p.Valid() && !p.armed
        invariant |p.states| == i && p.targets == targets[..i] && p.pending == i && p.originalAcks == 0
        invariant forall k :: 0 <= k < i ==> p.states[k] == Delivered
        invariant forall j :: 0 <= j < i ==> targets[j].received == old(targets[j].received) + [CopyOf(p, j)]
        invariant forall j :: i <= j < |targets| ==> targets[j].received == old(targets[j].received)
        invariant forall c {:trigger c in all} :: c in all && c !in targets ==> c.received == old(c.received)
        invariant forall c {:trigger c in all} :: c in all ==>
          c.handle == old(c.handle) && c.inFlight == old(c.inFlight) && c.done == old(c.done)
          && c.closed == old(c.closed) && c.released == old(c.released)
        invariant TrackedV(ChanView(all), pv[p := Copies(p.states, p.targets)])
      {
        DistinctOthers(targets, i);
        DeliverCopy(p, targets[i], pv);
        i := i + 1;
      }
    }

    /** `SendAsync`'s hand-off goroutines, one per subscriber in `targets`:
      * every copy is left in flight. */
    method StartAll(p: Publication<T>, targets: seq<Channel<Ackable<T>>>, ghost pv: map<Publication<T>, Copies<T>>)
      requires Distinct(targets)
      requires forall j :: 0 <= j < |targets| ==> targets[j] in all && !targets[j].done && !targets[j].closed
      requires p.Valid() && !p.armed && p.states == [] && p.targets == [] && p.pending == 0 && p.originalAcks == 0
      requires TrackedV(ChanView(all), pv[p := Copies(p.states, p.targets)])
      modifies all, p
      ensures p.Valid() && !p.armed && p.targets == targets && |p.states| == |targets|
      ensures p.pending == |targets| && p.originalAcks == 0
      ensures forall k :: 0 <= k < |targets| ==> p.states[k] == InFlight
      ensures forall j :: 0 <= j < |targets| ==> targets[j].inFlight == old(targets[j].inFlight) + [CopyOf(p, j)]
      ensures forall c {:trigger c in all} :: c in all && c !in targets ==> c.inFlight == old(c.inFlight)
      ensures forall c {:trigger c in all} :: c in all ==>
        c.handle == old(c.handle) && c.received == old(c.received) && c.done == old(c.done)
        && c.closed == old(c.closed) && c.released == old(c.released)
      ensures TrackedV(ChanView(all), pv[p := Copies(p.states, p.targets)])
    {
      var i := 0;
      while i < |targets|
        invariant 0 <= i <= |targets|
        invariant p.Valid() && !p.armed
        invariant |p.states| == i && p.targets == targets[..i] && p.pending == i && p.originalAcks == 0
        invariant forall k :: 0 <= k < i ==> p.states[k] == InFlight
        invariant forall j :: 0 <= j < i ==> targets[j].inFlight == old(targets[j].inFlight) + [CopyOf(p, j)]
        invariant forall j :: i <= j < |targets| ==> targets[j].inFlight == old(targets[j].inFlight)
        invariant forall c {:trigger c in all} :: c in all && c !in targets ==> c.inFlight == old(c.inFlight)
        invariant forall c {:trigger c in all} :: c in all ==>
          c.handle == old(c.handle) && c.received == old(c.received) && c.done == old(c.done)
          && c.closed == old(c.closed) && c.released == old(c.released)
        invariant TrackedV(ChanView(all), pv[p := Copies(p.states, p.targets)])
      {
        DistinctOthers(targets, i);
        StartCopy(p, targets[i], pv);
        i := i + 1;
      }
    }

    /** `SendAsync`'s copy of `p` for subscriber `c`: a hand-off goroutine
      * is started and the copy stays in flight. `pv` is the view of the
      * other publications. */
    method StartCopy(p: Publication<T>, c: Channel<Ackable<T>>, ghost pv: map<Publication<T>, Copies<T>>)
      requires c in all && !c.done && p.Valid() && !p.armed
      requires TrackedV(ChanView(all), pv[p := Copies(p.states, p.targets)])
      modifies c, p
      ensures p.Valid() && !p.armed
      ensures p.states == old(p.states) + [InFlight] && p.targets == old(p.targets) + [c]
      ensures p.pending == old(p.pending) + 1 && p.originalAcks == old(p.originalAcks)
      ensures c.inFlight == old(c.inFlight) + [CopyOf(p, |old(p.states)|)]
      ensures c.received == old(c.received) && c.handle == old(c.handle) && c.done == old(c.done)
      ensures c.closed == old(c.closed) && c.released == old(c.released)
      ensures TrackedV(ChanView(all), pv[p := Copies(p.states, p.targets)])
    {
      CopiedOver(ChanView(all), pv, p, Copies(p.states, p.targets), c, InFlight);
      var k := p.AddCopy(c);
      c.StartHandoff(CopyOf(p, k));
      ChanViewStep(c);
    }

    /** `Send`'s copy of `p` for subscriber `c`: the hand-off goroutine
      * hands it over and the subscriber has it. */
    method DeliverCopy(p: Publication<T>, c: Channel<Ackable<T>>, ghost pv: map<Publication<T>, Copies<T>>)
      requires c in all && !c.closed && p.Valid() && !p.armed
      requires TrackedV(ChanView(all), pv[p := Copies(p.states, p.targets)])
      modifies c, p
      ensures p.Valid() && !p.armed
      ensures p.states == old(p.states) + [Delivered] && p.targets == old(p.targets) + [c]
      ensures p.pending == old(p.pending) + 1 && p.originalAcks == old(p.originalAcks)
      ensures c.received == old(c.received) + [CopyOf(p, |old(p.states)|)]
      ensures c.inFlight == old(c.inFlight) && c.handle == old(c.handle) && c.done == old(c.done)
      ensures c.closed == old(c.closed) && c.released == old(c.released)
      ensures TrackedV(ChanView(all), pv[p := Copies(p.states, p.targets)])
    {
      CopiedOver(ChanView(all), pv, p, Copies(p.states, p.targets), c, Delivered);
      var k := p.AddCopy(c);
      c.Deliver(CopyOf(p, k));
      p.Handed(k);
      ChanViewStep(c);
    }

    /** `go func() { ack.Wait(); value.Ack() }()` after the hand-off
      * goroutines of `p` are started: `p` is armed and joins the group. */
    method Publish(p: Publication<T>)
      requires Registry(channels, all) && Drained(all) && Armed(pubs)
      requires p !in pubs && p.Valid() && !p.armed
      requires TrackedV(ChanView(all), PubView(pubs)[p := Copies(p.states, p.targets)])
      modifies this, p
      ensures Valid() && pubs == old(pubs) + {p} && all == old(all)
      ensures p.armed && p.states == old(p.states) && p.targets == old(p.targets)
      ensures p.pending == old(p.pending) && p.originalAcks == (if p.pending == 0 then 1 else 0)
    {
      p.Arm();
      pubs := pubs + {p};
      PubViewStep(p);
      ChannelsKept();
      RegistryKept();
    }

    /** What no publication changes, the view does not change. */
    twostate lemma PubsKept()
      requires pubs == old(pubs)
      requires forall q {:trigger q in pubs} :: q in pubs ==> unchanged(q)
      ensures PubView(pubs) == old(PubView(pubs)) && Armed(pubs) == old(Armed(pubs))
    {
    }

    /** What no channel's queues change, the view does not change. */
    twostate lemma ChannelsKept()
      requires all == old(all)
      requires forall d {:trigger d in all} :: d in all ==>
        d.inFlight == old(d.inFlight) && d.received == old(d.received)
      ensures ChanView(all) == old(ChanView(all))
    {
    }

    /** Changing what one channel holds changes that channel's queues in
      * the view and nothing else; a new channel joins the view. */
    twostate lemma ChanViewStep(new c: Channel<Ackable<T>>)
      requires all == old(all) + {c}
      requires forall d {:trigger d in old(all)} :: d in old(all) && d != c ==>
        d.inFlight == old(d.inFlight) && d.received == old(d.received)
      ensures ChanView(all) == old(ChanView(all))[c := Queues(c.inFlight, c.received)]
    {
    }

    /** Changing one publication changes its copies in the view and
      * nothing else, and keeps every publication consistent and armed. */
    twostate lemma PubViewStep(new p: Publication<T>)
      requires pubs == old(pubs) + {p} && old(Armed(pubs)) && p.Valid() && p.armed
      requires forall q {:trigger q in old(pubs)} :: q in old(pubs) && q != p ==> unchanged(q)
      ensures PubView(pubs) == old(PubView(pubs))[p := Copies(p.states, p.targets)]
      ensures Armed(pubs)
    {
    }

    /** Changing only what channels hold keeps the registry, as long as no
      * released channel gains a hand-off. */
    twostate lemma RegistryKept()
      requires old(Registry(channels, all) && Drained(all)) && all == old(all)
      requires unchanged(channels) && unchanged(channels.members)
      requires forall c {:trigger c in all} :: c in all ==>
        && c.handle == old(c.handle) && c.done == old(c.done)
        && c.closed == old(c.closed) && c.released == old(c.released)
        && (c.released ==> c.inFlight == old(c.inFlight))
      ensures Registry(channels, all) && Drained(all) && Registered() == old(Registered())
    {
    }

    /** Once every channel is released, no copy is in flight. */
    lemma NothingInFlightOnceReleased()
      requires Valid() && forall c {:trigger c in all} :: c in all ==> c.released
      ensures forall p, i {:trigger p.states[i]} :: p in pubs && 0 <= i < |p.states| ==> p.states[i] != InFlight
    {
      forall p, i | p in pubs && 0 <= i < |p.states|
        ensures p.states[i] != InFlight
      {
        var cv, pv := ChanView(all), PubView(pubs);
        assert CopiesTracked(p, pv[p], cv);
      }
    }

    /** The original `Ack` of a publication has run exactly once when no
      * copy is in flight and every copy read has been acked; while a copy
      * is in flight or read and not acked, it has not run. */
    lemma FiresOnceSettled(p: Publication<T>)
      requires Valid() && p in pubs
      ensures p.originalAcks <= 1
      ensures p.originalAcks == 1 <==> forall i :: 0 <= i < |p.states| ==> p.states[i] != InFlight && p.states[i] != Delivered
    {
      p.FiresIffSettled();
    }
  }
}
