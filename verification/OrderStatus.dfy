/** Order statuses, the transition graph and the policies that guard each action. */
module OrderStatus {

  datatype Status =
    | PendientePago
    | PagoPendienteAcreditacion
    | PagoRechazado
    | Pagado
    | EnPreparacion
    | Despachado
    | Entregado
    | Cancelado
    | Devuelto

  /** Why an order was cancelled; only `ReservaVencida` can be undone by a late payment. */
  datatype Cause = ReservaVencida | Pasarela | Cliente | Administrador

  function Transitions(from: Status): set<Status> {
    match from
    case PendientePago => {PagoPendienteAcreditacion, PagoRechazado, Pagado, Cancelado}
    case PagoPendienteAcreditacion => {Pagado, PagoRechazado, Cancelado}
    case PagoRechazado => {PendientePago, PagoPendienteAcreditacion, Pagado, Cancelado}
    case Pagado => {EnPreparacion, Cancelado}
    case EnPreparacion => {Despachado, Cancelado}
    case Despachado => {Entregado, Cancelado}
    case Entregado => {Devuelto}
    case Cancelado => {Pagado}
    case Devuelto => {}
  }

  predicate CanTransition(from: Status, to: Status) {
    to in Transitions(from)
  }

  /** The order still waits for a payment. */
  predicate Awaiting(s: Status) {
    s in {PendientePago, PagoPendienteAcreditacion, PagoRechazado}
  }

  /** The payment is already credited: a later rejection does not revert it. */
  predicate Paid(s: Status) {
    s in {Pagado, EnPreparacion, Despachado, Entregado, Devuelto}
  }

  predicate CustomerCancellable(s: Status) {
    Awaiting(s) || s in {Pagado, EnPreparacion}
  }

  predicate AdminCancellable(s: Status) {
    s !in {Entregado, Cancelado, Devuelto}
  }

  predicate RetryablePayment(s: Status) {
    s in {PendientePago, PagoRechazado}
  }

  /** The moves an administrator applies by hand. */
  function AdminTransitions(from: Status): set<Status> {
    match from
    case Pagado => {EnPreparacion}
    case EnPreparacion => {Despachado}
    case Despachado => {Entregado}
    case _ => {}
  }

  /** Every move the administrator can ask for is in the graph, and none of them cancels or returns an order. */
  lemma AdminTransitionsAreTransitions(from: Status, to: Status)
    requires to in AdminTransitions(from)
    ensures CanTransition(from, to) && Paid(from) && Paid(to)
    ensures to !in {Cancelado, Devuelto, Pagado}
  {}

  /** Windows, in milliseconds. */
  const CUSTOMER_CANCEL_WINDOW_MS := 24 * 60 * 60 * 1000
  const RETURN_WINDOW_MS := 10 * 24 * 60 * 60 * 1000
}
