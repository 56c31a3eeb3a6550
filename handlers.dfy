/** The HTTP service's create / retrieve / update handlers
    (exercises/08_futures/08_outro/src/handlers.rs), with the routing and JSON
    plumbing replaced by a small response datatype and the two lock tiers
    replaced by atomic steps on the shared store. */
module Handlers {
  import opened TicketData
  import opened Store

  /** What a handler answers, without the HTTP encoding. */
  datatype Response =
    | Created(id: TicketId)       // 201, body: the new id
    | Retrieved(ticket: Ticket)   // 200, body: the ticket
    | Updated(id: TicketId)       // 200, "Ticket {id} updated"
    | NotFound(id: TicketId)      // 404, "Ticket {id} not found"

  /** The store behind the service's read/write lock, shared by every handler. */
  class SharedTicketStore {
    var store: TicketStore

    ghost predicate Valid()
      reads this
    {
      store.Valid()
    }

    /** The router starts the service on a fresh store. */
    constructor ()
      ensures Valid() && store == EmptyStore()
    {
      store := EmptyStore();
    }
  }

  /** The ticket a patch produces: each field the patch carries overwrites the
      ticket's, every absent field keeps its old value; the id is never touched. */
  function ApplyPatch(t: Ticket, p: TicketPatch): (r: Ticket)
    ensures r.id == t.id
  {
    Ticket(t.id,
           if p.title.Some? then p.title.value else t.title,
           if p.description.Some? then p.description.value else t.description,
           if p.status.Some? then p.status.value else t.status)
  }

  /** Each field follows its own rule, independently of the other two. */
  lemma PatchFieldRule(t: Ticket, p: TicketPatch, q: TicketPatch)
    ensures ApplyPatch(t, p).title == (match p.title case Some(v) => v case None => t.title)
    ensures ApplyPatch(t, p).description == (match p.description case Some(v) => v case None => t.description)
    ensures ApplyPatch(t, p).status == (match p.status case Some(v) => v case None => t.status)
    ensures p.title == q.title ==> ApplyPatch(t, p).title == ApplyPatch(t, q).title
    ensures p.description == q.description ==> ApplyPatch(t, p).description == ApplyPatch(t, q).description
    ensures p.status == q.status ==> ApplyPatch(t, p).status == ApplyPatch(t, q).status
  {
  }

  /** A patch that carries no field leaves the ticket as it was. */
  lemma EmptyPatchIsIdentity(t: Ticket, p: TicketPatch)
    requires p.IsEmpty()
    ensures ApplyPatch(t, p) == t
  {
  }

  /** Applying the same patch twice is the same as applying it once. */
  lemma PatchIsIdempotent(t: Ticket, p: TicketPatch)
    ensures ApplyPatch(ApplyPatch(t, p), p) == ApplyPatch(t, p)
  {
  }

  /** A patch that only sets the status changes the status and keeps title and description. */
  lemma StatusOnlyPatch(t: Ticket, p: TicketPatch, s: Status)
    requires p.title.None? && p.description.None? && p.status == Some(s)
    ensures ApplyPatch(t, p) == Ticket(t.id, t.title, t.description, s)
  {
  }

  /** Of two successive patches, the later one decides every field it carries;
      a field it omits keeps what the earlier one left. */
  lemma LaterPatchWins(t: Ticket, p: TicketPatch, q: TicketPatch)
    ensures q.title.Some? ==> ApplyPatch(ApplyPatch(t, p), q).title == q.title.value
    ensures q.title.None? ==> ApplyPatch(ApplyPatch(t, p), q).title == ApplyPatch(t, p).title
    ensures q.description.Some? ==> ApplyPatch(ApplyPatch(t, p), q).description == q.description.value
    ensures q.description.None? ==> ApplyPatch(ApplyPatch(t, p), q).description == ApplyPatch(t, p).description
    ensures q.status.Some? ==> ApplyPatch(ApplyPatch(t, p), q).status == q.status.value
    ensures q.status.None? ==> ApplyPatch(ApplyPatch(t, p), q).status == ApplyPatch(t, p).status
  {
  }

  /** The store after a patch: only the addressed ticket changes, and only if it exists. */
  function PatchStore(s: TicketStore, p: TicketPatch): (r: TicketStore)
    ensures r.nextId == s.nextId && r.tickets.Keys == s.tickets.Keys
    ensures forall id :: id != p.id ==> r.Get(id) == s.Get(id)
    ensures r.Get(p.id) == (match s.Get(p.id) case Some(t) => Some(ApplyPatch(t, p)) case None => None)
    ensures s.Get(p.id).None? ==> r == s
    ensures s.Valid() ==> r.Valid()
  {
    if p.id in s.tickets then s.(tickets := s.tickets[p.id := ApplyPatch(s.tickets[p.id], p)]) else s
  }

  /** POST /create-ticket: the store hands out the next id and the handler answers with it. */
  method CreateTicket(shared: SharedTicketStore, draft: TicketDraft) returns (resp: Response)
    requires shared.Valid()
    modifies shared
    ensures shared.Valid()
    ensures resp == Created(old(shared.store.nextId))
    ensures shared.store.nextId == old(shared.store.nextId) + 1
    ensures shared.store.Get(resp.id) == Some(Ticket(resp.id, draft.title, draft.description, ToDo))
    ensures forall id :: id != resp.id ==> shared.store.Get(id) == old(shared.store.Get(id))
  {
    var added := shared.store.AddTicket(draft);
    shared.store := added.0;
    resp := Created(added.1);
  }

  /** GET /get-ticket: a copy of the stored ticket. The handler unwraps the lookup,
      so a missing id is excluded by the precondition. */
  method RetrieveTicket(shared: SharedTicketStore, id: TicketId) returns (resp: Response)
    requires shared.Valid()
    requires id in shared.store.tickets
    ensures resp.Retrieved? && resp.ticket.id == id
    ensures shared.store.Get(id) == Some(resp.ticket)
  {
    var found := shared.store.Get(id);
    resp := Retrieved(found.value);
  }

  /** POST /update-ticket: overwrite, one field at a time, the fields the patch
      carries on the addressed ticket; answer NotFound when the id is absent. */
  method UpdateTicket(shared: SharedTicketStore, patch: TicketPatch) returns (resp: Response)
    requires shared.Valid()
    modifies shared
    ensures shared.Valid()
    ensures resp == if old(shared.store.Get(patch.id)).Some? then Updated(patch.id) else NotFound(patch.id)
    ensures shared.store == PatchStore(old(shared.store), patch)
  {
    var found := shared.store.Get(patch.id);
    if found.Some? {
      var ticket := found.value;
      if patch.title.Some? {
        ticket := ticket.(title := patch.title.value);
      }
      if patch.description.Some? {
        ticket := ticket.(description := patch.description.value);
      }
      if patch.status.Some? {
        ticket := ticket.(status := patch.status.value);
      }
      shared.store := shared.store.(tickets := shared.store.tickets[patch.id := ticket]);
      return Updated(patch.id);
    }
    resp := NotFound(patch.id);
  }

  /** The request sequence of the service's integration test, run one request at a
      time on a fresh service: two creations, two lookups, a patch on an existing
      id and one on an absent id, then a lookup of the patched ticket. */
  method MultipleRequest(draft: TicketDraft)
    returns (created: seq<Response>, retrieved: seq<Response>, updated: seq<Response>, after: Response)
    ensures created == [Created(0), Created(1)]
    ensures retrieved == [Retrieved(Ticket(0, draft.title, draft.description, ToDo)),
                          Retrieved(Ticket(1, draft.title, draft.description, ToDo))]
    ensures updated == [Updated(0), NotFound(10)]
    ensures after == Retrieved(Ticket(0, draft.title, draft.description, Done))
  {
    var shared := new SharedTicketStore();
    var c0 := CreateTicket(shared, draft);
    var c1 := CreateTicket(shared, draft);
    created := [c0, c1];
    var r0 := RetrieveTicket(shared, 0);
    var r1 := RetrieveTicket(shared, 1);
    retrieved := [r0, r1];
    var patch := TicketPatch(0, Some(draft.title), Some(draft.description), Some(Done));
    var u0 := UpdateTicket(shared, patch);
    var u1 := UpdateTicket(shared, patch.(id := 10));
    updated := [u0, u1];
    after := RetrieveTicket(shared, 0);
  }
}
