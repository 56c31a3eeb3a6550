/** The actor design (exercises/07_threads/09_bounded/src/lib.rs): clients submit
    commands with `try_send` to a bounded mailbox, one worker owns the store,
    receives the commands in order and answers each on the reply channel the
    client created for it. Threads become sequential steps: the mailbox is a
    FIFO sequence, the worker's loop is a method that takes one step at a time. */
module BoundedActor {
  import opened TicketData
  import opened Store

  /** Index of the reply channel a client created for one request. */
  type ReplySlot = nat

  /** Capacity of each reply channel: `sync_channel(5)` in `insert` and `get`. */
  const ReplyCapacity: nat := 5

  const InsertFullMessage: string := "Channel is full, insert command cannot be sent from client"
  const GetFullMessage: string := "Channel is full, get command cannot be sent from client"

  datatype Command =
    | Insert(draft: TicketDraft, reply: ReplySlot)
    | Get(id: TicketId, reply: ReplySlot)

  /** The message the worker sends back: an id for Insert, an optional ticket for Get. */
  datatype Reply = IdReply(id: TicketId) | TicketReply(ticket: Option<Ticket>)

  /** The client's result type, `Result<_, String>`. */
  datatype Result<T> = Ok(value: T) | Err(message: string)

  /** What one `recv` gives the worker: a command, nothing yet (the worker waits),
      or a closed, drained channel (the worker stops). */
  datatype Received = Handled(cmd: Command) | Blocked | Disconnected

  /** Number of Insert commands in `cmds`. */
  function CountInserts(cmds: seq<Command>): (n: nat)
    ensures n <= |cmds|
  {
    if cmds == [] then 0 else (if cmds[0].Insert? then 1 else 0) + CountInserts(cmds[1..])
  }

  /** The worker's handling of one command: the new store and the reply. */
  function Dispatch(store: TicketStore, cmd: Command): (r: (TicketStore, Reply))
    ensures r.1.IdReply? <==> cmd.Insert?
    ensures r.0.nextId == store.nextId + (if cmd.Insert? then 1 else 0)
    ensures cmd.Insert? ==>
      && r.1.id == store.nextId
      && r.0.Get(store.nextId) == Some(Ticket(store.nextId, cmd.draft.title, cmd.draft.description, ToDo))
      && (forall id :: id != store.nextId ==> r.0.Get(id) == store.Get(id))
    ensures cmd.Get? ==> r.0 == store && r.1.ticket == store.Get(cmd.id)
    ensures store.Valid() ==> r.0.Valid()
  {
    match cmd
    case Insert(draft, _) =>
      var added := store.AddTicket(draft);
      (added.0, IdReply(added.1))
    case Get(id, _) =>
      (store, TicketReply(store.Get(id)))
  }

  /** The worker handling `cmds` one after the other: the final store and one
      reply per command, in order. */
  function Run(store: TicketStore, cmds: seq<Command>): (r: (TicketStore, seq<Reply>))
    ensures |r.1| == |cmds|
    ensures r.0.nextId == store.nextId + CountInserts(cmds)
    ensures store.Valid() ==> r.0.Valid()
    decreases |cmds|
  {
    if cmds == [] then (store, [])
    else
      var step := Dispatch(store, cmds[0]);
      var rest := Run(step.0, cmds[1..]);
      (rest.0, [step.1] + rest.1)
  }

  /** FIFO: the i-th reply is what the i-th command gets from the store left by
      exactly the commands before it. */
  lemma {:induction false} RunReplyAt(store: TicketStore, cmds: seq<Command>, i: nat)
    requires i < |cmds|
    ensures Run(store, cmds).1[i] == Dispatch(Run(store, cmds[..i]).0, cmds[i]).1
    decreases i
  {
    var s1 := Dispatch(store, cmds[0]).0;
    if i == 0 {
      assert cmds[..0] == [];
    } else {
      RunReplyAt(s1, cmds[1..], i - 1);
      assert cmds[..i][0] == cmds[0];
      assert cmds[..i][1..] == cmds[1..][..i - 1];
    }
  }

  /** Handling `a` and then `b` is handling `a + b`: the worker's state after a
      prefix is all that the rest of the run depends on. */
  lemma {:induction false} RunAppend(store: TicketStore, a: seq<Command>, b: seq<Command>)
    ensures Run(store, a + b).0 == Run(Run(store, a).0, b).0
    ensures Run(store, a + b).1 == Run(store, a).1 + Run(Run(store, a).0, b).1
    decreases |a|
  {
    if a == [] {
      assert a + b == b;
    } else {
      RunAppend(Dispatch(store, a[0]).0, a[1..], b);
      assert (a + b)[0] == a[0];
      assert (a + b)[1..] == a[1..] + b;
    }
  }

  /** An Insert is answered with the id after all ids handed out to earlier Inserts. */
  lemma InsertReplyIds(store: TicketStore, cmds: seq<Command>, i: nat)
    requires i < |cmds| && cmds[i].Insert?
    ensures Run(store, cmds).1[i] == IdReply(store.nextId + CountInserts(cmds[..i]))
  {
    RunReplyAt(store, cmds, i);
  }

  lemma {:induction false} CountInsertsAppend(a: seq<Command>, b: seq<Command>)
    ensures CountInserts(a + b) == CountInserts(a) + CountInserts(b)
  {
    if a == [] {
      assert a + b == b;
    } else {
      CountInsertsAppend(a[1..], b);
      assert (a + b)[1..] == a[1..] + b;
    }
  }

  lemma {:induction false} CountInsertsAll(cmds: seq<Command>)
    requires forall i :: 0 <= i < |cmds| ==> cmds[i].Insert?
    ensures CountInserts(cmds) == |cmds|
  {
    if cmds != [] {
      CountInsertsAll(cmds[1..]);
    }
  }

  /** Two Inserts never receive the same id, whatever else is interleaved. */
  lemma InsertIdsDistinct(store: TicketStore, cmds: seq<Command>, i: nat, j: nat)
    requires i < j < |cmds| && cmds[i].Insert? && cmds[j].Insert?
    ensures Run(store, cmds).1[i].IdReply? && Run(store, cmds).1[j].IdReply?
    ensures Run(store, cmds).1[i].id < Run(store, cmds).1[j].id
  {
    InsertReplyIds(store, cmds, i);
    InsertReplyIds(store, cmds, j);
    assert cmds[..j] == cmds[..i] + cmds[i..j];
    CountInsertsAppend(cmds[..i], cmds[i..j]);
    assert cmds[i..j] == [cmds[i]] + cmds[i + 1..j];
  }

  /** On a fresh store, N Inserts are answered with ids 0, 1, ..., N-1 in order. */
  lemma FreshStoreIds(cmds: seq<Command>)
    requires forall i :: 0 <= i < |cmds| ==> cmds[i].Insert?
    ensures forall i :: 0 <= i < |cmds| ==> Run(EmptyStore(), cmds).1[i] == IdReply(i)
  {
    forall i | 0 <= i < |cmds|
      ensures Run(EmptyStore(), cmds).1[i] == IdReply(i)
    {
      InsertReplyIds(EmptyStore(), cmds, i);
      CountInsertsAll(cmds[..i]);
    }
  }

  /** A Get for an id no earlier Insert was given is answered with no ticket;
      a Get for an issued id is answered with the ticket of that id. */
  lemma GetReplyAt(store: TicketStore, cmds: seq<Command>, i: nat)
    requires store.Valid()
    requires i < |cmds| && cmds[i].Get?
    ensures Run(store, cmds).1[i].TicketReply?
    ensures Run(store, cmds).1[i].ticket.None? <==> cmds[i].id >= store.nextId + CountInserts(cmds[..i])
    ensures Run(store, cmds).1[i].ticket.Some? ==> Run(store, cmds).1[i].ticket.value.id == cmds[i].id
  {
    RunReplyAt(store, cmds, i);
    GetIssued(Run(store, cmds[..i]).0, cmds[i].id);
  }

  /** A ticket already stored is never altered by later commands: Inserts add
      under fresh ids and Gets change nothing. */
  lemma {:induction false} RunKeeps(store: TicketStore, cmds: seq<Command>, id: TicketId)
    requires store.Valid() && id < store.nextId
    ensures Run(store, cmds).0.Get(id) == store.Get(id)
    decreases |cmds|
  {
    if cmds != [] {
      RunKeeps(Dispatch(store, cmds[0]).0, cmds[1..], id);
    }
  }

  /** Read after insert: a Get for the id that an earlier Insert was given is
      answered with the ticket that Insert created, from its draft, with status ToDo. */
  lemma GetAfterInsert(store: TicketStore, cmds: seq<Command>, k: nat, i: nat)
    requires store.Valid()
    requires k < i < |cmds| && cmds[k].Insert? && cmds[i].Get?
    requires cmds[i].id == store.nextId + CountInserts(cmds[..k])
    ensures Run(store, cmds).1[i]
         == TicketReply(Some(Ticket(cmds[i].id, cmds[k].draft.title, cmds[k].draft.description, ToDo)))
  {
    RunReplyAt(store, cmds, i);
    var sk := Run(store, cmds[..k]).0;
    var s1 := Dispatch(sk, cmds[k]).0;
    assert cmds[..i] == cmds[..k] + cmds[k..i];
    RunAppend(store, cmds[..k], cmds[k..i]);
    assert cmds[k..i][0] == cmds[k] && cmds[k..i][1..] == cmds[k + 1..i];
    RunKeeps(s1, cmds[k + 1..i], cmds[i].id);
  }

  /** The mailbox, its worker and the reply channels of the accepted commands. */
  class TicketActor {
    /** Capacity of the mailbox, fixed at launch. */
    const capacity: nat
    /** Commands accepted by `try_send` and not yet received by the worker, oldest first. */
    var queue: seq<Command>
    /** Set once every client handle is dropped: no sender is left. */
    var closed: bool
    /** The store the worker owns. */
    var store: TicketStore
    /** One reply channel per accepted command, in acceptance order, with the messages sent on it. */
    var replies: seq<seq<Reply>>

    /** The mailbox never holds more than its capacity; queued commands name the
        newest reply channels in order; every channel of a command already handled
        holds exactly one reply, every other channel none. */
    ghost predicate Valid()
      reads this
    {
      && |queue| <= capacity
      && store.Valid()
      && |queue| <= |replies|
      && (forall i :: 0 <= i < |queue| ==> queue[i].reply == |replies| - |queue| + i)
      && (forall k :: 0 <= k < |replies| ==> |replies[k]| == if k < |replies| - |queue| then 1 else 0)
    }

    /** `launch(capacity)`: an empty mailbox of that capacity and a worker with a fresh store. */
    constructor Launch(capacity: nat)
      ensures Valid()
      ensures this.capacity == capacity && queue == [] && !closed && store == EmptyStore() && replies == []
    {
      this.capacity := capacity;
      queue := [];
      closed := false;
      store := EmptyStore();
      replies := [];
    }

    /** `try_send` of a command carrying a newly created reply channel: accepted
        only while the mailbox is below capacity; on rejection nothing changes. */
    method TrySend(cmd: Command) returns (accepted: bool)
      requires Valid() && !closed
      requires cmd.reply == |replies|
      modifies this
      ensures Valid() && closed == old(closed) && store == old(store)
      ensures accepted <==> |old(queue)| < capacity
      ensures accepted ==> queue == old(queue) + [cmd] && replies == old(replies) + [[]]
      ensures !accepted ==> queue == old(queue) && replies == old(replies)
    {
      if |queue| < capacity {
        queue := queue + [cmd];
        replies := replies + [[]];
        accepted := true;
      } else {
        accepted := false;
      }
    }

    /** Dropping the last client handle closes the sending side. */
    method Close()
      requires Valid()
      modifies this
      ensures Valid() && closed
      ensures queue == old(queue) && store == old(store) && replies == old(replies)
    {
      closed := true;
    }

    /** One turn of the worker's loop: receive the oldest command, run it against
        the store and send exactly one reply on its channel. The reply channel is
        empty when the worker sends, so the `expect` on that send never fails. */
    method Step() returns (received: Received)
      requires Valid()
      modifies this
      ensures Valid() && closed == old(closed)
      ensures old(queue) == [] ==>
        && queue == old(queue) && store == old(store) && replies == old(replies)
        && received == (if closed then Disconnected else Blocked)
      ensures old(queue) != [] ==>
        && received == Handled(old(queue)[0])
        && queue == old(queue)[1..]
        && store == Dispatch(old(store), old(queue)[0]).0
        && replies == old(replies)[old(queue)[0].reply := [Dispatch(old(store), old(queue)[0]).1]]
    {
      if queue == [] {
        received := if closed then Disconnected else Blocked;
        return;
      }
      var cmd := queue[0];
      queue := queue[1..];
      var reply: Reply;
      match cmd {
        case Insert(draft, _) =>
          var added := store.AddTicket(draft);
          store := added.0;
          reply := IdReply(added.1);
        case Get(id, _) =>
          reply := TicketReply(store.Get(id));
      }
      assert (store, reply) == Dispatch(old(store), cmd);
      assert |replies[cmd.reply]| < ReplyCapacity;
      assert replies[cmd.reply] + [reply] == [reply];
      replies := replies[cmd.reply := replies[cmd.reply] + [reply]];
      received := Handled(cmd);
    }

    /** The worker's loop: handle queued commands in order until the mailbox is
        empty; it then stops if the channel is closed, and otherwise waits. */
    method Serve() returns (received: Received)
      requires Valid()
      modifies this
      ensures Valid() && closed == old(closed) && queue == []
      ensures received == (if closed then Disconnected else Blocked)
      ensures store == Run(old(store), old(queue)).0
      ensures |replies| == |old(replies)|
      ensures forall i :: 0 <= i < |old(queue)| ==> replies[old(queue)[i].reply] == [Run(old(store), old(queue)).1[i]]
      ensures forall k :: 0 <= k < |old(replies)| - |old(queue)| ==> replies[k] == old(replies)[k]
    {
      ghost var q0 := queue;
      ghost var run := Run(store, queue);
      ghost var done := 0;
      while true
        invariant Valid() && closed == old(closed)
        invariant 0 <= done <= |q0| && queue == q0[done..]
        invariant forall i :: 0 <= i < |q0| ==> q0[i].reply == |old(replies)| - |q0| + i
        invariant Run(store, queue).0 == run.0 && Run(store, queue).1 == run.1[done..]
        invariant |replies| == |old(replies)|
        invariant forall i :: 0 <= i < done ==> replies[q0[i].reply] == [run.1[i]]
        invariant forall k :: 0 <= k < |old(replies)| - |q0| ==> replies[k] == old(replies)[k]
        decreases |queue|
      {
        received := Step();
        if !received.Handled? {
          break;
        }
        done := done + 1;
      }
    }

    /** `insert`: submit an Insert with a new reply channel; if the mailbox is full
        report it without enqueuing; otherwise wait while the worker handles
        everything queued before it, and return the id it was given. */
    method ClientInsert(draft: TicketDraft) returns (r: Result<TicketId>)
      requires Valid() && !closed
      modifies this
      ensures Valid() && !closed
      ensures |old(queue)| >= capacity ==>
        r == Err(InsertFullMessage) && queue == old(queue) && store == old(store) && replies == old(replies)
      ensures |old(queue)| < capacity ==>
        && r == Ok(Run(old(store), old(queue)).0.nextId)
        && queue == []
        && store == Run(old(store), old(queue) + [Insert(draft, |old(replies)|)]).0
        && store.Get(r.value) == Some(Ticket(r.value, draft.title, draft.description, ToDo))
      ensures |old(queue)| < capacity ==>
        var run := Run(old(store), old(queue) + [Insert(draft, |old(replies)|)]);
        && |replies| == |old(replies)| + 1
        && replies[|old(replies)|] == [run.1[|old(queue)|]]
        && (forall i :: 0 <= i < |old(queue)| ==> replies[old(queue)[i].reply] == [run.1[i]])
        && (forall k :: 0 <= k < |old(replies)| - |old(queue)| ==> replies[k] == old(replies)[k])
    {
      var slot := |replies|;
      var accepted := TrySend(Insert(draft, slot));
      if !accepted {
        return Err(InsertFullMessage);
      }
      ghost var q, s := queue, store;
      var _ := Serve();
      RunReplyAt(s, q, |q| - 1);
      assert q[..|q| - 1] == old(queue);
      RunAppend(s, old(queue), [Insert(draft, slot)]);
      r := Ok(replies[slot][0].id);
    }

    /** `get`: like `ClientInsert`, for a lookup; the answer is the ticket as the
        store holds it once every earlier command has been handled. */
    method ClientGet(id: TicketId) returns (r: Result<Option<Ticket>>)
      requires Valid() && !closed
      modifies this
      ensures Valid() && !closed
      ensures |old(queue)| >= capacity ==>
        r == Err(GetFullMessage) && queue == old(queue) && store == old(store) && replies == old(replies)
      ensures |old(queue)| < capacity ==>
        && r == Ok(Run(old(store), old(queue)).0.Get(id))
        && queue == []
        && store == Run(old(store), old(queue)).0
      ensures |old(queue)| < capacity ==>
        var run := Run(old(store), old(queue) + [Get(id, |old(replies)|)]);
        && |replies| == |old(replies)| + 1
        && replies[|old(replies)|] == [run.1[|old(queue)|]]
        && (forall i :: 0 <= i < |old(queue)| ==> replies[old(queue)[i].reply] == [run.1[i]])
        && (forall k :: 0 <= k < |old(replies)| - |old(queue)| ==> replies[k] == old(replies)[k])
    {
      var slot := |replies|;
      var accepted := TrySend(Get(id, slot));
      if !accepted {
        return Err(GetFullMessage);
      }
      ghost var q, s := queue, store;
      var _ := Serve();
      RunReplyAt(s, q, |q| - 1);
      assert q[..|q| - 1] == old(queue);
      RunAppend(s, old(queue), [Get(id, slot)]);
      r := Ok(replies[slot][0].ticket);
    }
  }
}
