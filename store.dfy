/** The ticket store that both designs drive: `add_ticket` and `get`.
    Its own source file is not part of this model; its behaviour is specified
    abstractly as a map from id to ticket plus the next id to hand out, as the
    tests of the HTTP service pin it (ids 0, 1, ... and status ToDo on creation). */
module Store {
  import opened TicketData

  datatype TicketStore = TicketStore(tickets: map<TicketId, Ticket>, nextId: TicketId)
  {
    /** The ids issued so far are exactly 0 .. nextId-1, with no gaps, and each
        ticket is stored under its own id. */
    ghost predicate Valid() {
      && (forall id: TicketId :: id in tickets <==> id < nextId)
      && (forall id :: id in tickets ==> tickets[id].id == id)
    }

    /** A copy of the ticket stored under `id`, if any. */
    function Get(id: TicketId): Option<Ticket> {
      if id in tickets then Some(tickets[id]) else None
    }

    /** Stores a new ticket built from `draft` under the next id and returns that id. */
    function AddTicket(draft: TicketDraft): (r: (TicketStore, TicketId))
      ensures r.1 == nextId && r.0.nextId == nextId + 1
      ensures r.0.Get(r.1) == Some(Ticket(r.1, draft.title, draft.description, ToDo))
      ensures forall id :: id != r.1 ==> r.0.Get(id) == Get(id)
      ensures Valid() ==> r.0.Valid() && r.1 !in tickets && r.0.tickets.Keys == tickets.Keys + {r.1}
    {
      var id := nextId;
      (TicketStore(tickets[id := Ticket(id, draft.title, draft.description, ToDo)], nextId + 1), id)
    }
  }

  /** `TicketStore::new()`: nothing stored, the first id to hand out is 0. */
  function EmptyStore(): (s: TicketStore)
    ensures s.Valid() && s.nextId == 0
    ensures forall id :: s.Get(id) == None
  {
    TicketStore(map[], 0)
  }

  /** A lookup succeeds exactly on the ids the store has issued, and returns the ticket with that id. */
  lemma GetIssued(s: TicketStore, id: TicketId)
    requires s.Valid()
    ensures s.Get(id).Some? <==> id < s.nextId
    ensures s.Get(id).Some? ==> s.Get(id).value.id == id
  {
  }
}
