/**
 Runs of the services on one transfer. Every locked transaction is one step. `transition` is
 two: it reads the status and checks the table, and later, after anything else may have
 happened, commits by compare-and-set on the status it read.
 */
module TransferRuns {
  import opened Common
  import opened TransferState
  import opened TransferRecords
  import opened TransferSteps
  import opened TransferInvariant
  import opened TransferProofs

  /** What a `transition` call remembers between its read and its commit. */
  datatype Ticket = Ticket(from: TransferStatus, target: TransferStatus)

  datatype World = World(record: Record, tickets: map<nat, Ticket>)

  datatype Event =
    | Transact(op: Op)
    | ReadStatus(request: nat, target: TransferStatus)
    | CommitTransition(request: nat)

  predicate LegalEvent(e: Event) {
    match e
    case Transact(op) => !op.DoTransition?
    case ReadStatus(_, target) => target in TRANSITION_TARGETS
    case CommitTransition(_) => true
  }

  /** A refused transaction changes nothing. */
  function After(s: Record, op: Op): Record {
    match Apply(s, op)
    case Done(next) => next
    case Refused(_) => s
  }

  function Next(w: World, e: Event): World {
    match e
    case Transact(op) => w.(record := After(w.record, op))
    case ReadStatus(request, target) =>
      if request !in w.tickets && Allowed(w.record.status, target)
      then w.(tickets := w.tickets[request := Ticket(w.record.status, target)])
      else w
    case CommitTransition(request) =>
      if request !in w.tickets then w
      else
        var ticket := w.tickets[request];
        World(After(w.record, DoTransition(ticket.from, ticket.target)), w.tickets - {request})
  }

  /** A history from the creation of the transfer: `worlds[i + 1]` comes from `worlds[i]` by `events[i]`. */
  ghost predicate IsRun(worlds: seq<World>, events: seq<Event>) {
    && |worlds| == |events| + 1
    && worlds[0] == World(NewRecord(worlds[0].record.requested), map[])
    && (forall i | 0 <= i < |events| :: LegalEvent(events[i]) && worlds[i + 1] == Next(worlds[i], events[i]))
  }

  ghost predicate WorldInv(w: World) {
    && Inv(w.record)
    && forall request | request in w.tickets ::
         Allowed(w.tickets[request].from, w.tickets[request].target) && w.tickets[request].target in TRANSITION_TARGETS
  }

  /** The single-record step an event amounts to, if it is one. */
  function Effect(w: World, e: Event): Option<Op> {
    match e
    case Transact(op) => Some(op)
    case ReadStatus(_, _) => None
    case CommitTransition(request) =>
      if request in w.tickets then Some(DoTransition(w.tickets[request].from, w.tickets[request].target)) else None
  }

  lemma EffectIsLegal(w: World, e: Event)
    requires WorldInv(w) && LegalEvent(e)
    ensures match Effect(w, e)
            case None => Next(w, e).record == w.record
            case Some(op) => Legal(op) && Next(w, e).record == After(w.record, op)
  {
  }

  lemma EventKeeps(w: World, e: Event)
    requires WorldInv(w) && LegalEvent(e)
    ensures WorldInv(Next(w, e))
  {
    EffectIsLegal(w, e);
    var effect := Effect(w, e);
    if effect.Some? && Apply(w.record, effect.value).Done? {
      StepKeeps(w.record, effect.value);
    }
  }

  /** The joint invariant holds at every point of every interleaving. */
  lemma {:induction false} RunKeeps(worlds: seq<World>, events: seq<Event>, i: nat)
    requires IsRun(worlds, events) && i < |worlds|
    ensures WorldInv(worlds[i])
  {
    if i == 0 {
      NewRecordInv(worlds[0].record.requested);
    } else {
      RunKeeps(worlds, events, i - 1);
      EventKeeps(worlds[i - 1], events[i - 1]);
    }
  }
}
