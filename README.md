# changroup, modelled in Dafny

changroup is a Go library for publish/subscribe over channels. A `Group`
hands out subscriber channels. `Send` delivers a value to every subscriber
registered at that moment, `SendAsync` does the same without waiting, and
each subscriber's release function (or `ReleaseAll`) takes it out again and
closes its channel. An `AckableGroup` does the same with values that must be
acknowledged. Each subscriber gets a copy with an `Ack` of its own. The
original `Ack` runs once every copy has been acked, or abandoned because its
subscriber was released before reading it.

The model has three modules, one per core file:

- `LinkedList` (`linked_list.dfy`, linked_list.go) is the subscriber
  registry. It is a doubly linked list whose pointers are updated in place.
  A ghost sequence `nodes` holds the chain from `first` to `last`, and
  `Valid()` pins every `prev`, `next`, `first` and `last` pointer to it.
  Removed nodes have nil links.
- `Groups` (`group.dfy`, group.go) is the per-subscriber `channel` record
  and the group.
  - The record tracks the values read from `ch`, the hand-offs still
    blocked on it (the `send` wait group), `done`, `ch` closed, the `once`
    of its release, and its registry node.
  - The group's `Registry` invariant ties the list's nodes to the channels
    handed out: a channel is linked exactly until it is released.
  - Closing a Go channel twice panics. The model encodes this as
    preconditions, and the verifier proves that every call meets them.
- `Ackables` (`ackable.dfy`, ackable.go) models acknowledgement counting.
  - One `Send` or `SendAsync` call is a `Publication`. It holds the `ack`
    wait group counter (`pending`), the state of each copy's `once`, and the
    waiter goroutine that calls the original `Ack` (`armed`, and
    `originalAcks`, the number of calls so far).
  - `AckableGroup.Valid()` keeps two views in agreement:
    - every copy a channel holds or has in flight is a copy of a
      publication, in the matching state;
    - every copy of a publication sits where its state says.

Waiting on a wait group is modelled as the moment its counter is zero.
Goroutines that the source leaves running appear as separate operations
that a caller can invoke later: `Handoff` (a subscriber reads a blocked
hand-off) and `Ack` (a subscriber acks a copy it read).

One name does not match: the callers of the list, `AckableGroup.Acquire`
(ackable.go:52) and the list's internal test, call a method `Append`, while
linked_list.go defines that operation as `Insert` and has no `Append`. The
model uses `Insert` for both.

## Model

| member | source | states |
|---|---|---|
| `LinkedList.List.constructor` | linked_list.go:12-18 | A new list is valid and empty: its chain is empty, and `first` and `last` are nil. |
| `LinkedList.List.Insert` | linked_list.go:29-45 | The chain becomes the old chain followed by the new node, and the visited elements become the old ones followed by `elem`. The new node is `last`. Its `prev` is the old `last` and its `next` is nil. It is also `first` when the list was empty; otherwise the old `last.next` points to it. The list stays valid. |
| `LinkedList.Node.Delete` | linked_list.go:48-64 | The chain loses exactly this node and keeps the rest in order (first, middle or last). The node ends with nil `prev` and `next`, and the list stays valid, so deleting the sole node leaves `first` and `last` nil. Deleting a node already removed leaves the chain, `first` and `last` as they were. |
| `LinkedList.List.ForEach` | linked_list.go:67-75 | Walking from `first` along `next` visits exactly the list's elements, in chain order. |
| `LinkedList.WithoutAt` | linked_list.go:48-63 | In a chain without repetitions, removing the node at position `k` cuts out exactly position `k` and keeps every other node in its original order. |
| `LinkedList.WithoutMembers` | linked_list.go:48-63 | After a removal, a node is in the chain if and only if it was in it before and is not the removed node. |
| `LinkedList.WithoutAbsent` | linked_list.go:51-63 | Removing a node that is not in the chain leaves the chain unchanged. |
| `LinkedList.WithoutAppended` | linked_list.go:29-63 | Inserting a new node and then deleting it gives back the old chain. |
| `LinkedList.ElemsOfWithout` | linked_list.go:48-75 | After a deletion, the elements visited are the old ones without that node's element, in the same order, provided no other node of the chain holds the same element. |
| `LinkedList.ElemsOfWithoutAt` | linked_list.go:48-75 | Deleting the node at position `k` removes exactly position `k` from the elements visited and keeps the others in order, even when other nodes hold the same element. |
| `Groups.Channel.constructor` | group.go:48-53 | A fresh channel record is open: nothing read, nothing in flight, and neither `done` nor `ch` closed. |
| `Groups.Channel.SignalDone` | group.go:59 | `close(done)`: requires `done` open, and then closes it and nothing else. |
| `Groups.Channel.AwaitHandoffs` | group.go:60 | `send.Wait()` after `done` is closed: every blocked hand-off has given up, so nothing is in flight. |
| `Groups.Channel.CloseQueue` | group.go:61 | `close(ch)`: requires `ch` open and no hand-off still sending, and then closes `ch`. |
| `Groups.Channel.Shut` | group.go:59-61 | The release steps in order on an open channel: `done` closed, in-flight hand-offs drained, `ch` closed, values read kept. |
| `Groups.Channel.Deliver` | group.go:79 | A value handed over on an open `ch` is appended to what the subscriber has read. Nothing else changes. |
| `Groups.Channel.StartHandoff` | group.go:81-90 | A hand-off goroutine started before `done` is closed appends its value to the hand-offs in flight. |
| `Groups.Channel.Handoff` | group.go:86-87 | The subscriber reads blocked hand-off `j`. Its value moves from the hand-offs in flight to the end of what was read. |
| `Groups.RegisteredOpen` | group.go:47-62 | Every registered channel was acquired, neither `done` nor `ch` is closed, and no channel is registered twice. |
| `Groups.RegisteredIffOpen` | group.go:55-62 | An acquired channel is registered if and only if its release has not run. |
| `Groups.Group.constructor` | group.go:24-28 | A new group is valid and its registry is empty. |
| `Groups.Group.Acquire` | group.go:47-53 | Registers a new, open, empty channel at the tail of the registry. |
| `Groups.Group.Release` | group.go:55-63 | The first call removes the channel from the registry and leaves it with `done` closed, nothing in flight and `ch` closed. A later call changes neither the registry nor the channel (`once`). The list's nodes are kept. |
| `Groups.Group.ReleaseAll` | group.go:32-40 | Afterwards the registry is empty and every channel ever acquired is released and closed. The list's nodes are kept, so calling it again, calling it after individual releases, or acquiring afterwards is allowed. |
| `Groups.Group.Send` | group.go:74-94 | Exactly the channels registered at call time receive `value`, appended in order. No other channel receives anything, and the registry is unchanged. |
| `Groups.Group.SendAsync` | group.go:98-114 | Exactly the channels registered at call time get a hand-off of `value` in flight. No other channel changes, and the registry is unchanged. |
| `Groups.Group.Handoff` | group.go:105-110 | A subscriber reads blocked hand-off `j` of a `SendAsync`. Its value moves from the hand-offs in flight to the end of what was read, the channel stays open, and the group stays valid with its registry unchanged. |
| `Groups.AcquireIn` | group.go:47-53 | The registry invariant holds for the old channels plus the new one, which is appended to the registry. |
| `Groups.ReleaseIn` | group.go:55-62 | The release body keeps the registry invariant, removes exactly this channel from the registry, and is a no-op on a released channel. |
| `Groups.ReleaseAllIn` | group.go:32-40 | Releasing each channel of a `ForEach` snapshot empties the registry and closes every channel, and keeps the list's nodes. |
| `Ackables.NewAckable` | ackable.go:13-18 | The record carries the given value and ack function unchanged. |
| `Ackables.CopyOf` | ackable.go:87-88 | A copy carries the original `Value`, and an `Ack` of its own that names its publication and its position. |
| `Ackables.UnsettledAppend` | ackable.go:86 | `ack.Add(1)`: a new unsettled copy adds one to the count of copies still holding up the original `Ack`. |
| `Ackables.UnsettledUpdate` | ackable.go:88-102 | Settling one copy changes the count by that copy alone. |
| `Ackables.UnsettledZero` | ackable.go:107-109 | The count is zero if and only if every copy is acked or abandoned. |
| `Ackables.Publication.constructor` | ackable.go:84 | A fresh `ack` wait group: no copies, nothing pending, waiter not started, original `Ack` not called. |
| `Ackables.Publication.AddCopy` | ackable.go:86-87 | One more copy, in flight, for the given channel. `pending` grows by one, and the counter still equals the number of unsettled copies. |
| `Ackables.Publication.Handed` | ackable.go:92-100 | A copy in flight becomes delivered. Neither `pending` nor the original `Ack` changes. |
| `Ackables.Publication.Done` | ackable.go:102 | `ack.Done()` on a positive counter lowers it by one. The original `Ack` runs when the waiter has started and the counter reaches zero. |
| `Ackables.Publication.AckCopy` | ackable.go:88 | The copy's `once.Do(ack.Done)`: the first call on a delivered copy settles it and lowers `pending` by one. A repeated call changes neither `pending` nor the original `Ack`. |
| `Ackables.Publication.Abandon` | ackable.go:101-102 | A copy in flight whose channel was released becomes abandoned and lowers `pending` by one. |
| `Ackables.Publication.Arm` | ackable.go:107-110 | Starting the waiter. With nothing pending the original `Ack` runs at once (zero subscribers need no acks); otherwise it has not run. |
| `Ackables.Publication.FiresIffSettled` | ackable.go:107-110 | The original `Ack` has run at most once, and has run if and only if the waiter has started and every copy is acked or abandoned. |
| `Ackables.StrandedIff` | ackable.go:99-102 | A copy is among a channel's blocked hand-offs if and only if it is in flight and was made for that channel. |
| `Ackables.AckableGroup.constructor` | ackable.go:28-32 | A new group is valid, with an empty registry and no publications. |
| `Ackables.AckableGroup.Acquire` | ackable.go:51-56 | As in `Group`: a new, open, empty channel registered at the tail. The publications are unchanged and the group stays valid. |
| `Ackables.AckableGroup.Ack` | ackable.go:88 | A subscriber acks the `j`-th value it read. That value is always a copy, with a valid position. The copy becomes acked, `pending` drops by one on the first ack only, and a repeated ack changes neither `pending` nor the original `Ack`. The publication's targets are unchanged. |
| `Ackables.AckableGroup.Handoff` | ackable.go:130-131 | A subscriber reads blocked hand-off `j` (the `case ch.ch <- v` of `SendAsync`'s goroutine, and of `Send`'s at ackable.go:99-100). It moves to the values read, that copy becomes delivered, and `pending`, the targets and the original `Ack` are unchanged. |
| `Ackables.AckableGroup.Release` | ackable.go:60-67 | Release as in `Group`. Every copy that was in flight to this channel becomes abandoned (its pending unit is released); every other copy keeps its state. On a released channel the registry and every publication's copy states stay as they were. |
| `Ackables.AckableGroup.Close` | ackable.go:60-66 | `Group`'s release steps. It returns the hand-offs the channel had in flight: exactly the copies in flight that were made for it. |
| `Ackables.AckableGroup.AbandonStranded` | ackable.go:128-135 | In `SendAsync`'s goroutine, and in `Send`'s at ackable.go:96-104, every blocked hand-off of a released channel takes `<-ch.done` and calls `ack.Done()`. Exactly those copies become abandoned, and the group is valid again. |
| `Ackables.AckableGroup.AbandonNext` | ackable.go:132-133 | (`case <-ch.done` of `SendAsync`'s goroutine, and of `Send`'s at ackable.go:101-102.) One more stranded hand-off is abandoned. The progress invariant advances by one position. |
| `Ackables.AckableGroup.AbandonFirst` | ackable.go:132-133 | (`case <-ch.done` of `SendAsync`'s goroutine, and of `Send`'s at ackable.go:101-102.) The first stranded copy is abandoned. Every other publication is unchanged, and the copies stay tracked. |
| `Ackables.AckableGroup.ReleaseAll` | ackable.go:36-44 | The registry is empty, and every channel ever acquired is released and closed. Every copy that was in flight is abandoned; every other copy keeps its state. The list's nodes are kept, so the group can be released again or acquire later. |
| `Ackables.AckableGroup.ReleaseEach` | ackable.go:41-43 | Releasing every channel of the registry snapshot, in order, empties the registry and abandons every copy in flight. |
| `Ackables.AckableGroup.ReleaseNext` | ackable.go:42 | One more channel of the snapshot is released. The progress invariant advances by one position. |
| `Ackables.AckableGroup.InFlightRegistered` | ackable.go:85-104 | A copy in flight was made for a channel that is still registered. |
| `Ackables.AckableGroup.InFlightListed` | ackable.go:85-104 | Every copy in flight across all publications targets a registered channel. |
| `Ackables.AckableGroup.Send` | ackable.go:82-112 | One copy per channel registered at call time, in registry order, each read by its subscriber. `pending` starts at that number of channels. The waiter has started, and with no channels the original `Ack` has already run. No other channel changes. |
| `Ackables.AckableGroup.SendAsync` | ackable.go:116-142 | One copy per channel registered at call time, each in flight. `pending` starts at that number of channels. The waiter has started, and with no channels the original `Ack` has already run. No other channel changes. |
| `Ackables.AckableGroup.SendCopies` | ackable.go:85-106 | `Send`'s loop over the registry snapshot. A fresh publication gets one delivered copy per registered channel, and `pending` equals the number of copies. |
| `Ackables.AckableGroup.StartCopies` | ackable.go:118-137 | `SendAsync`'s loop over the registry snapshot. A fresh publication gets one copy in flight per registered channel, and `pending` equals the number of copies. |
| `Ackables.AckableGroup.DeliverAll` | ackable.go:85-106 | For each channel of the snapshot, in order, one copy made and read. No other channel changes. |
| `Ackables.AckableGroup.StartAll` | ackable.go:118-137 | For each channel of the snapshot, in order, one copy made and left in flight. No other channel changes. |
| `Ackables.AckableGroup.DeliverCopy` | ackable.go:86-92 | `ack.Add(1)`, a fresh `once`, and the copy read by its subscriber. |
| `Ackables.AckableGroup.StartCopy` | ackable.go:119-128 | `ack.Add(1)`, a fresh `once`, and a hand-off of the copy in flight. |
| `Ackables.AckableGroup.Publish` | ackable.go:107-110 | The waiter goroutine starts. With nothing pending the original `Ack` runs once; otherwise it has not run. |
| `Ackables.AckableGroup.NothingInFlightOnceReleased` | ackable.go:36-44 | Once every channel is released, no copy of any publication is still in flight. |
| `Ackables.AckableGroup.FiresOnceSettled` | ackable.go:107-110 | For every publication the original `Ack` has run at most once. It has run if and only if no copy is in flight and no copy that was read is still unacked. |

## Left out

- Goroutines, `select` and the fast path of `Send`/`SendAsync`
  (`Send`: group.go:77-91, ackable.go:90-105; `SendAsync`: group.go:99-113,
  ackable.go:123-141) are not modelled.
  - Which one wins a hand-off is left to the caller: the model offers
    `Handoff` (a read) and `Release` (abandonment) as separate operations.
  - A fast-path hand-off is `StartHandoff` followed at once by `Handoff`.
- The blocking waits (`wg.Wait`, `send.Wait`, `ack.Wait`) and the list's
  `sync.RWMutex` are not modelled: a sequential model runs every operation
  alone.
  - `Send` is modelled as the state after its wait: every target has read
    its value. A release that races with `Send` is not modelled.
  - `ack.Wait` is modelled as the waiter calling the original `Ack` at the
    moment nothing is pending.
- `Ackables.AckableGroup.Send` arms the waiter after every copy is read,
  while the source starts the waiter goroutine before `send.Wait()`. No ack
  can be modelled in between, so the counter the waiter sees is the same.
- `Ackables.AckableGroup.Release` abandons the stranded copies after
  `close(ch)`. In the source, the blocked goroutines call `ack.Done()`
  between `close(done)` and the return of `send.Wait()`. The final state is
  the same.
- `Send` and `SendAsync` return the publication they create, and `Acquire`
  returns the channel record. This lets a caller name the publication and
  the channel later. The source returns nothing from `Send` and
  `SendAsync`, and returns a receive channel and a `ReleaseFunc` from
  `Acquire`.
- A caller-supplied `Ack` is represented by a `Callback` number. The model
  counts how often the original `Ack` is called, and not what it does.
- `SendAsync` does not preserve the order of values. The model keeps
  hand-offs in a sequence, but `Handoff(j)` may complete any of them, so no
  order is promised.
- The remark that calling a release inside `ForEach` would deadlock
  belongs to the lock. Only its consequence is modelled: the snapshot is
  taken first and the releases follow.
- The stress and goroutine-leak tests, the benchmarks against
  `container/list`, the example programs and doc.go concern timing,
  foreign code or documentation, and are not modelled.
