# Availability delta fanout

A model of the `userAvailableTimeChange` Cloud Functions trigger of the
task-management app (`functions/index.js`). When a user document is updated,
the trigger compares the user's `hasAvailableTime` slot flags before and after
the update. It turns the difference into a vector of per-slot changes
(−1, 0 or +1). Then, in one Firestore transaction, it adds that vector to the
`availableTime/0` counter of every server. The same transaction writes an
idempotency record keyed by the event id, so a redelivered event has no effect.

The project has three files:

- `wrappers.dfy`: an `Option` type, for absent fields and JavaScript `undefined`.
- `availability.dfy` (module `Availability`): the delta loop. `Changes` and
  `HasChange` specify the `changes` vector and the `hasChange` flag.
  `ComputeChanges` is the source's `for` loop, proved against them. The lemmas
  state what the vector means.
- `fanout.dfy` (module `Fanout`): the transaction. The store is abstract. It
  maps each server id to the state of its `availableTime/0` document, and each
  processed event id to its `processedAt`. `Handle` is the specification of the
  whole trigger, as a function from store to store. `Store.HandleChange` is the
  imperative trigger body over a `Store` object, proved equal to `Handle`. The
  lemmas state the short-circuits, the guard, the fanout, idempotence of
  redelivery and commutation of distinct events.

Length mismatches are modelled the way the code behaves. No precondition
excludes them:

- Past the end of the after-list, `afterList[i]` is `undefined`. It never
  equals a boolean, so the slot gets −1 or +1 (`At` returns `None`).
- Past the end of `changes`, `value + undefined` is NaN. Counter slots are
  therefore `Number = Finite(n) | NaN`.
- A counter shorter than `changes` ignores the extra entries. `.map` keeps the
  counter's length.

A length mismatch is not reported. A counter longer than `changes` gets NaN
in its tail. `hasChange` only looks at slots inside the before-list, so an
update that only appends slots changes nothing (`AppendOnlyLeavesStore`).

A server document that exists without an `availableData` field makes
`.map` throw inside the transaction. The transaction then commits nothing, and
the catch at lines 73-75 only logs the error. The model gives this case the
outcome `Failed` and leaves the store unchanged, even for servers that were
visited earlier.

## Model

| member | source | states |
|---|---|---|
| `Availability.Changes` | functions/index.js:23-33 | the `changes` vector has exactly one entry per slot of the before-list |
| `Availability.ComputeChanges` | functions/index.js:23-33 | the loop returns exactly the specified `changes` vector and `hasChange` flag, for lists of any lengths |
| `Availability.ChangesAt` | functions/index.js:25-30 | entry i of `changes` is the change of slot i, comparing `before[i]` with `after[i]` or with `undefined` past the end |
| `Availability.DeltaSemantics` | functions/index.js:26-30 | each entry is −1, 0 or +1. It is 0 iff the slot is present and unchanged. It is −1 iff a set slot was cleared or dropped. It is +1 iff a cleared slot was set or dropped. Inside the after-list it equals after minus before |
| `Availability.HasChangeIffSlotDiffers` | functions/index.js:25-32 | `hasChange` is true iff some slot index below the before-list's length differs in the after-list |
| `Availability.HasChangeIffNonzero` | functions/index.js:25-35 | `hasChange` is true iff some entry of `changes` is non-zero |
| `Availability.HasChangeIffNotPrefix` | functions/index.js:25-38 | `hasChange` is false iff the before-list is a prefix of the after-list |
| `Availability.UpdateNeededIffNotPrefix` | functions/index.js:15-38 | the trigger passes both early returns iff the before-list (an absent field being empty) is not a prefix of the after-list; identical lists and two absent fields never pass |
| `Fanout.Applied` | functions/index.js:59-61 | the summed counter keeps the length of the stored counter |
| `Fanout.Store.HandleChange` | functions/index.js:15-70 | the outcome and the new store are exactly those the specification `Handle` gives for the old store |
| `Fanout.OnlyProcessedChangesStore` | functions/index.js:18-75 | every path except a completed transaction leaves the counters and the records unchanged |
| `Fanout.ProcessedIff` | functions/index.js:15-70 | the event is processed iff the before-list is not a prefix of the after-list, the event has no record, and no server document lacks `availableData` |
| `Fanout.EqualListsLeaveStore` | functions/index.js:15-21 | equal lists, with an absent field read as the empty list, return early and leave the store unchanged |
| `Fanout.AppendOnlyLeavesStore` | functions/index.js:25-38 | an update that only appends slots past the before-list returns before the transaction and leaves the store unchanged |
| `Fanout.RecordedEventLeavesStore` | functions/index.js:42-46 | an event whose idempotency record exists changes no counter and no record |
| `Fanout.ProcessedEffect` | functions/index.js:50-70 | after a processed event the server set is the same, missing documents stay missing, and each counter keeps its length with slot i set to its old value plus `changes[i]`. The event had no record before, and its record is the only one added |
| `Fanout.CounterMovesByFlagDifference` | functions/index.js:26-30 | for numeric counters as long as both lists, every slot moves by the after-flag minus the before-flag |
| `Fanout.RecordsPersist` | functions/index.js:68-70 | an idempotency record, once written, is never removed or overwritten |
| `Fanout.RedeliveryIsIdempotent` | functions/index.js:42-46 | redelivering the same event id and payload, at any later time, leaves the store exactly as the first delivery left it |
| `Fanout.AppliedCommutes` | functions/index.js:59-61 | adding two change vectors to a counter gives the same counter in either order, NaN slots included |
| `Fanout.FanoutKeepsShape` | functions/index.js:50-66 | the fanout keeps the server set, and keeps which documents lack `availableData` |
| `Fanout.FanoutCommutes` | functions/index.js:50-66 | two fanouts over all servers give the same documents in either order |
| `Fanout.DistinctEventsCommute` | functions/index.js:41-70 | two events with different ids, handled in either order, leave the same store |

## Left out

- Firebase bootstrap, the trigger registration, `context.params.userId` and the document paths (functions/index.js:1-13) are foreign SDK calls. Ids are plain strings, and the store is a pair of maps.
- Transaction semantics (functions/index.js:41) are not modelled: conflict detection, automatic retries, and serializability across concurrent invocations. The transaction body is one sequential, atomic method.
- The transaction rule of the Node.js Firestore SDK is not modelled. That SDK may refuse a transaction read that follows a write. The loop at functions/index.js:53-63 does such reads after its first update. If the SDK refuses them, then with two or more servers holding counters the trigger as written ends in the catch at lines 73-75 and commits nothing. The model reaches `Processed` in that case only because it treats every read as allowed.
- The server listing at functions/index.js:48 is read outside the transaction. It is modelled as the key set of the server map. A failure of that listing, like any other store or network error, is not modelled.
- `FieldValue.serverTimestamp()` (functions/index.js:69) becomes the caller-supplied `now`.
- Logging is not modelled (lines 19, 36, 44, 49, 52, 55, 72, 74). The try/catch at lines 40 and 73-75 only logs, so its one modelled effect is the `Failed` outcome with nothing committed. The source's return value (`null` or `undefined`) becomes the `Outcome`, which records the path taken.
- `JSON.stringify` equality (functions/index.js:18) is modelled as equality of boolean lists. The model leaves out values that are not booleans in `hasAvailableTime`, a field holding something other than a list, and other falsy values that `|| []` also replaces.
- Counter slots are unbounded integers or NaN. JavaScript numbers are doubles, so their loss of precision beyond 2^53 is not modelled. Counter values that are not numbers are out of scope.
- The order in which the loop visits servers is an arbitrary choice in `HandleChange`. The model's result does not depend on it. Under the SDK's read-after-write rule above, the trigger's result would depend on it.
