/** The ticket entities shared by the actor store and the HTTP service
    (exercises/08_futures/08_outro/src/data.rs). */
module TicketData {

  /** Rust's Option. */
  datatype Option<+T> = None | Some(value: T)

  /** Ids are handed out by the store (TicketId(u64) in the source; unbounded here). */
  type TicketId = nat

  /** Title and description are validated before they reach this core; the model
      treats them as opaque, already-valid values. */
  datatype TicketTitle = TicketTitle(text: string)
  datatype TicketDescription = TicketDescription(text: string)

  datatype Status = ToDo | InProgress | Done

  /** A stored ticket. Datatype equality is field-wise, like the derived PartialEq. */
  datatype Ticket = Ticket(id: TicketId, title: TicketTitle, description: TicketDescription, status: Status)

  /** Input to creation: no id and no status. */
  datatype TicketDraft = TicketDraft(title: TicketTitle, description: TicketDescription)

  /** A partial update: the id is mandatory, every other field independently optional. */
  datatype TicketPatch = TicketPatch(
    id: TicketId,
    title: Option<TicketTitle>,
    description: Option<TicketDescription>,
    status: Option<Status>)
  {
    /** The patch names a ticket but asks for no change. */
    predicate IsEmpty() {
      title.None? && description.None? && status.None?
    }
  }

  // The two lemmas below follow from Dafny's datatype semantics alone; they
  // record what the enum and the derived equality of the Rust types promise.

  /** Status is an enumeration of exactly three distinct values. */
  lemma StatusHasThreeValues(s: Status)
    ensures s == ToDo || s == InProgress || s == Done
    ensures ToDo != InProgress && InProgress != Done && ToDo != Done
  {
  }

  /** Two tickets are equal exactly when all four fields are. */
  lemma TicketEqualityIsFieldwise(a: Ticket, b: Ticket)
    ensures a == b <==>
      a.id == b.id && a.title == b.title && a.description == b.description && a.status == b.status
  {
  }
}
