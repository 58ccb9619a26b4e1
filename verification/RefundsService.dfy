/**
 * The refund rows: every change is one UPDATE conditioned on the status (and attempt) it starts from.
 * `retry` is taken as one atomic step although it locks only the refund row.
 */
module RefundsService {
  import opened Wrappers
  import opened Entities
  import opened PaymentLedger

  /** The conditional UPDATE from "in progress", for one attempt. */
  function RowMoved(r: Refund, attempt: nat, to: RefundStatus): Refund {
    if r.status == EnTramite && r.attempt == attempt then r.(status := to) else r
  }

  /** The gateway's id is stored only if nobody stored one before. */
  function RowAnswered(r: Refund, attempt: nat, external: GatewayRefundId): Refund {
    if r.status == EnTramite && r.external == None && r.attempt == attempt then r.(external := Some(external)) else r
  }

  /** After a rejection a new attempt is opened; with no answer the same attempt goes on. */
  function RowRetried(r: Refund): Refund {
    if r.status == ReembolsoRechazado then r.(status := EnTramite, attempt := r.attempt + 1, external := None)
    else r.(status := EnTramite)
  }

  function RowResolved(r: Refund): Refund {
    r.(status := Reembolsado, manual := true)
  }

  function RefundRetried(f: File, k: nat): Outcome<File> {
    if k >= |f.refunds| then Refused("NOT_FOUND")
    else if !NeedsAttention(f.refunds[k].status) then Refused("REFUND_NOT_RETRYABLE")
    else if f.refunds[k].status == ReembolsoRechazado && !FitsInBalance(f, k) then Refused("REFUND_EXCEEDS_BALANCE")
    else Done(f.(refunds := f.refunds[k := RowRetried(f.refunds[k])]))
  }

  method Retry(tx: Tables, k: nat) returns (error: Option<string>)
    modifies tx`refunds
    ensures match RefundRetried(old(tx.Contents()), k)
            case Done(f) => error == None && tx.Contents() == f
            case Refused(code) => error == Some(code) && tx.Contents() == old(tx.Contents())
  {
    if k >= |tx.refunds| {
      return Some("NOT_FOUND");
    }
    var refund := tx.refunds[k];
    if !NeedsAttention(refund.status) {
      return Some("REFUND_NOT_RETRYABLE");
    }
    if refund.status == ReembolsoRechazado && !FitsInBalance(tx.Contents(), k) {
      return Some("REFUND_EXCEEDS_BALANCE");
    }
    var rejected := refund.status == ReembolsoRechazado;
    refund := refund.(status := EnTramite,
                      attempt := if rejected then refund.attempt + 1 else refund.attempt,
                      external := if rejected then None else refund.external);
    tx.refunds := tx.refunds[k := refund];
    error := None;
  }

  function RefundResolved(f: File, k: nat): Outcome<File> {
    if k >= |f.refunds| then Refused("NOT_FOUND")
    else if !NeedsAttention(f.refunds[k].status) then Refused("REFUND_NOT_RETRYABLE")
    else Done(f.(refunds := f.refunds[k := RowResolved(f.refunds[k])]))
  }

  method ResolveManually(tx: Tables, k: nat) returns (error: Option<string>)
    modifies tx`refunds
    ensures match RefundResolved(old(tx.Contents()), k)
            case Done(f) => error == None && tx.Contents() == f
            case Refused(code) => error == Some(code) && tx.Contents() == old(tx.Contents())
  {
    if k >= |tx.refunds| {
      return Some("NOT_FOUND");
    }
    if !NeedsAttention(tx.refunds[k].status) {
      return Some("REFUND_NOT_RETRYABLE");
    }
    tx.refunds := tx.refunds[k := tx.refunds[k].(status := Reembolsado, manual := true)];
    error := None;
  }

  function RefundMoved(f: File, k: nat, attempt: nat, to: RefundStatus): File {
    if k < |f.refunds| then f.(refunds := f.refunds[k := RowMoved(f.refunds[k], attempt, to)]) else f
  }

  /** Applies the gateway's outcome; `moved` is false when the row had already moved on. */
  method Transition(tx: Tables, k: nat, attempt: nat, to: RefundStatus) returns (moved: bool)
    requires to != EnTramite
    modifies tx`refunds
    ensures tx.Contents() == RefundMoved(old(tx.Contents()), k, attempt, to)
    ensures moved <==> tx.refunds != old(tx.refunds)
  {
    moved := k < |tx.refunds| && tx.refunds[k].status == EnTramite && tx.refunds[k].attempt == attempt;
    if moved {
      tx.refunds := tx.refunds[k := tx.refunds[k].(status := to)];
      assert tx.refunds[k] != old(tx.refunds)[k];
    }
  }

  function RefundAnswered(f: File, k: nat, attempt: nat, external: GatewayRefundId): File {
    if k < |f.refunds| then f.(refunds := f.refunds[k := RowAnswered(f.refunds[k], attempt, external)]) else f
  }
}
