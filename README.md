# Ticket tracker core, modelled in Dafny

This project models the sequential logic of a small in-memory ticket tracker
that is reachable in two ways:

- an **HTTP service** whose handlers create, retrieve and patch tickets in a
  store shared behind a read/write lock (`exercises/08_futures/08_outro`);
- an **actor**: clients submit `Insert` / `Get` commands with `try_send` to a
  bounded mailbox, and a single worker owns the store, handles the commands in
  arrival order and answers each on a reply channel created for that request
  (`exercises/07_threads/09_bounded`).

Files:

- `data.dfy` (module `TicketData`): `Ticket`, `TicketDraft`, `Status`,
  `TicketPatch` as datatypes; title and description are opaque, already
  validated values.
- `store.dfy` (module `Store`): one abstraction for two different `store`
  modules. The actor imports its own (`exercises/07_threads/09_bounded/src/lib.rs:3`),
  whose `get` hands out a `&Ticket` that the worker clones (lib.rs:82-84). The
  HTTP service imports another (`exercises/08_futures/08_outro/src/handlers.rs:2`),
  whose `get` hands out a lockable record (handlers.rs:33-40, 52-53).
  Neither `store.rs` is part of this model. Both are specified as a map from id
  to ticket plus the next id to hand out. `Valid()` says the ids issued are
  exactly `0 .. nextId-1` and each ticket sits under its own id. `add_ticket`'s
  behaviour (ids 0, 1, ... and status `ToDo` on creation) is taken from
  `exercises/08_futures/08_outro/tests/check.rs:97-98` and `check.rs:140-157`.
- `handlers.dfy` (module `Handlers`): the class `SharedTicketStore` is the
  lock-protected store; `CreateTicket`, `RetrieveTicket` and `UpdateTicket` are
  the three handlers as methods on it. `UpdateTicket` overwrites the fields one
  at a time, as the source does through its write guard, and is proved equal to
  the pure `PatchStore` / `ApplyPatch`, whose properties are lemmas.
- `bounded_actor.dfy` (module `BoundedActor`): the class `TicketActor` holds the
  mailbox (`queue`, a FIFO sequence bounded by `capacity`), the `closed` flag
  (every client handle dropped), the worker's `store` and the reply channels
  (`replies`, one per accepted command). `TrySend` is the client's submission,
  `Step` one turn of the worker's loop and `Serve` the loop itself. The pure
  `Dispatch` (one command) and `Run` (a sequence of commands) specify the
  worker; lemmas about `Run` state FIFO handling and the ids handed out.
  `ClientInsert` / `ClientGet` are the client calls: submit, then let the worker
  run until the reply has arrived, which is how a blocking `recv` on the reply
  channel resolves when no other client acts in between.

Facts about the code that the model keeps:

- The worker sends each reply with `try_send(...).expect(...)`. That panics if
  the client's receiver is gone (lib.rs:74-76, 83-85).
- Each reply channel is `sync_channel(5)` (lib.rs:16, 32).
- `retrieve_ticket` unwraps the lookup (handlers.rs:36-37), so here a missing id
  is a precondition of `RetrieveTicket`.

## Model

| member | source | states |
|---|---|---|
| `TicketData.StatusHasThreeValues` | exercises/08_futures/08_outro/src/data.rs:19-24 | every status is `ToDo`, `InProgress` or `Done`, and the three are distinct |
| `TicketData.TicketEqualityIsFieldwise` | exercises/08_futures/08_outro/src/data.rs:5-11 | two tickets are equal exactly when id, title, description and status are |
| `Store.TicketStore.AddTicket` | exercises/08_futures/08_outro/tests/check.rs:88-157 | the returned id is the counter, the counter moves up by one, the new ticket reads back with the draft's title and description and status `ToDo`, no other lookup changes, and the store invariant (ids `0 .. nextId-1`, no gaps) is kept with the new id fresh |
| `Store.EmptyStore` | exercises/07_threads/09_bounded/src/lib.rs:66 | a new store satisfies the invariant, finds nothing and hands out 0 first |
| `Store.GetIssued` | exercises/07_threads/09_bounded/src/lib.rs:82 | about `Store.TicketStore.Get`, the store lookup that lib.rs:82 and handlers.rs:36 and 52 call: on a valid store it succeeds exactly for ids already issued, and returns the ticket carrying that id |
| `Handlers.SharedTicketStore.constructor` | exercises/08_futures/08_outro/src/handlers.rs:76 | the service starts on an empty, valid store |
| `Handlers.ApplyPatch` | exercises/08_futures/08_outro/src/handlers.rs:52-62 | patching never changes a ticket's id |
| `Handlers.PatchFieldRule` | exercises/08_futures/08_outro/src/handlers.rs:54-62 | each of title, description and status becomes the patch's value when present and keeps the old one otherwise, each depending only on its own patch field |
| `Handlers.EmptyPatchIsIdentity` | exercises/08_futures/08_outro/src/handlers.rs:52-62 | a patch carrying no field leaves the ticket unchanged |
| `Handlers.PatchIsIdempotent` | exercises/08_futures/08_outro/src/handlers.rs:54-62 | applying a patch twice gives the same ticket as applying it once |
| `Handlers.StatusOnlyPatch` | exercises/08_futures/08_outro/src/handlers.rs:60-62 | a patch carrying only a status changes only the status |
| `Handlers.LaterPatchWins` | exercises/08_futures/08_outro/src/handlers.rs:54-62 | after two patches every field is the later patch's when it carries one, and what the first patch left otherwise |
| `Handlers.PatchStore` | exercises/08_futures/08_outro/src/handlers.rs:52-62 | only the addressed ticket changes, and only if present; the set of ids, the counter, every other ticket and the store invariant stay as they were; an absent id changes nothing |
| `Handlers.CreateTicket` | exercises/08_futures/08_outro/src/handlers.rs:16-25 | answers `Created` with the next id; that ticket now reads back from the draft with status `ToDo`; no other ticket changes |
| `Handlers.RetrieveTicket` | exercises/08_futures/08_outro/src/handlers.rs:29-45 | for a stored id, answers with a copy of the stored ticket, whose id is the one asked for |
| `Handlers.UpdateTicket` | exercises/08_futures/08_outro/src/handlers.rs:48-72 | the three in-place field overwrites produce exactly `PatchStore`; the answer is `Updated(id)` when the id is stored and `NotFound(id)` otherwise |
| `Handlers.MultipleRequest` | exercises/08_futures/08_outro/tests/check.rs:49-211 | on a fresh service two creations get ids 0 and 1, both read back with status `ToDo`, a full patch on id 0 answers `Updated(0)`, one on id 10 answers `NotFound(10)`, and ticket 0 then reads back `Done` |
| `BoundedActor.Dispatch` | exercises/07_threads/09_bounded/src/lib.rs:68-86 | an Insert adds exactly one ticket, under the old counter, and is answered with that id; a Get leaves the store unchanged and is answered with the stored ticket or none; the reply kind matches the command; the store invariant is kept |
| `BoundedActor.Run` | exercises/07_threads/09_bounded/src/lib.rs:65-94 | handling a sequence of commands yields exactly one reply per command, advances the counter by the number of Inserts and keeps the store invariant |
| `BoundedActor.RunAppend` | exercises/07_threads/09_bounded/src/lib.rs:67-68 | handling `a` then `b` is handling `a + b`: final store and replies compose |
| `BoundedActor.RunReplyAt` | exercises/07_threads/09_bounded/src/lib.rs:67-68 | the i-th reply is the i-th command's answer on the store left by exactly the commands before it (strict FIFO) |
| `BoundedActor.InsertReplyIds` | exercises/07_threads/09_bounded/src/lib.rs:69-76 | an Insert is answered with the starting counter plus the number of earlier Inserts |
| `BoundedActor.InsertIdsDistinct` | exercises/07_threads/09_bounded/src/lib.rs:73-76 | of two Inserts, the later one gets a strictly larger id, so ids are never duplicated |
| `BoundedActor.FreshStoreIds` | exercises/07_threads/09_bounded/src/lib.rs:66-76 | on a fresh store, N Inserts are answered with 0, 1, ..., N-1 in order |
| `BoundedActor.GetReplyAt` | exercises/07_threads/09_bounded/src/lib.rs:78-85 | a Get is answered with none exactly when its id is at or above the counter left by the earlier commands, and otherwise with a ticket carrying that id |
| `BoundedActor.RunKeeps` | exercises/07_threads/09_bounded/src/lib.rs:69-85 | a ticket already stored is the same after any further commands |
| `BoundedActor.GetAfterInsert` | exercises/07_threads/09_bounded/src/lib.rs:69-85 | a Get for the id an earlier Insert was given is answered with the ticket that Insert created: its draft's title and description, status `ToDo` |
| `BoundedActor.TicketActor.Launch` | exercises/07_threads/09_bounded/src/lib.rs:48-52 | the mailbox capacity is the one passed in; mailbox empty, channel open, store fresh |
| `BoundedActor.TicketActor.TrySend` | exercises/07_threads/09_bounded/src/lib.rs:21-26 | a submission is accepted exactly when the mailbox is below capacity, and then is appended at the back with a new empty reply channel; a rejected one changes nothing |
| `BoundedActor.TicketActor.Close` | exercises/07_threads/09_bounded/src/lib.rs:87-91 | dropping every client closes the channel and changes nothing else |
| `BoundedActor.TicketActor.Step` | exercises/07_threads/09_bounded/src/lib.rs:67-91 | on an empty mailbox the worker waits (open) or stops (closed) and nothing changes; otherwise it removes the oldest command, updates the store as `Dispatch` says and puts exactly one reply into that command's channel, which was empty, so the capacity-5 send never fails |
| `BoundedActor.TicketActor.Serve` | exercises/07_threads/09_bounded/src/lib.rs:65-94 | the loop drains the mailbox and terminates, reporting a stop when the channel is closed; the store is `Run` of the old queue, each queued command's channel holds exactly its `Run` reply, and channels answered before the call keep their contents |
| `BoundedActor.TicketActor.ClientInsert` | exercises/07_threads/09_bounded/src/lib.rs:15-29 | on a full mailbox returns the "Channel is full" error with nothing enqueued; otherwise returns the counter as it stands after the earlier queued commands, with the store advanced by all of them and this Insert; the new ticket reads back from the draft with status `ToDo`; one new channel holds this Insert's `Run` reply, every earlier queued command's channel holds its `Run` reply, and channels answered before keep their contents |
| `BoundedActor.TicketActor.ClientGet` | exercises/07_threads/09_bounded/src/lib.rs:31-45 | on a full mailbox returns the "Channel is full" error with nothing enqueued; otherwise returns the lookup on the store left by the earlier queued commands, and the Get itself leaves the store unchanged; the reply channels are as for `ClientInsert` |

## Left out

- Threads, blocking `recv`, `tokio` tasks, `Arc`, and the two lock tiers of the
  HTTP store: each operation is one atomic sequential step. The interleavings
  between the directory lock and the record lock are therefore not modelled.
  Each ticket is a value in a map rather than an aliased, separately locked
  record.
- `BoundedActor.TicketActor.ClientInsert`, `BoundedActor.TicketActor.ClientGet`: the blocking wait for the reply is
  modelled by running the worker until the reply is there; other clients
  submitting between the submission and the reply are only covered through
  `TrySend` and `Step` separately.
- Capacity 0 makes `sync_channel` a rendezvous channel, where `try_send`
  succeeds if the worker is already waiting; the model rejects every submission
  at capacity 0.
- A reply whose receiver is gone makes the worker's `expect` panic; in the model
  a client always waits for its reply, so this case does not arise. A worker
  that died (the client's `expect` on `recv`) and lock poisoning are not modelled.
- `RetrieveTicket` on a missing id panics in the source; this is a precondition.
- HTTP routing, response bodies and JSON encoding, including the text
  "Ticket {id} updated" / "not found" and the hello route: responses are the
  datatype `Response`.
- The two `store.rs` files are not part of this model; `AddTicket` and `Get`
  are specified from their callers and from check.rs.
- The actor's store is assumed to hand out ids from 0, like the HTTP one.
  Only the HTTP store's numbering is pinned, by check.rs:97-98.
  `BoundedActor.FreshStoreIds` rests on this assumption through `Store.EmptyStore`.
- `TicketId` wraps a 64-bit integer; the counter is unbounded here (no overflow).
- Validation of titles and descriptions is outside the core; both are opaque values.
- `exercises/08_futures/04_future/src/lib.rs` is an ordering exercise about
  `Rc` across `.await` with no logic to state.
