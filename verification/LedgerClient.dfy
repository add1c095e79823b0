/** The gRPC client of the ledger, reduced to what can become of one call. */
module LedgerClient {
  import L = Ledger

  /** What becomes of one call: it is answered, never arrives, or lands without an answer. */
  datatype Delivery = Answers | Unreachable | ReplyLost

  const REFUSED := "ledger post failed"
  const TIMEOUT := "ledger gRPC post timeout expired"

  function PostVia(l: L.Ledger, req: L.Request, d: Delivery): (L.Ledger, bool) {
    match d
    case Answers => (L.Rpc(l, req).0, L.Rpc(l, req).1 == L.PostedOk)
    case Unreachable => (l, false)
    case ReplyLost => (L.Rpc(l, req).0, false)
  }

  function Reason(d: Delivery): string {
    if d == Answers then REFUSED else TIMEOUT
  }

  method PostTransaction(ledger: L.LedgerStore, req: L.Request, d: Delivery) returns (ok: bool)
    modifies ledger
    ensures (ledger.State(), ok) == PostVia(old(ledger.State()), req, d)
  {
    match d {
      case Answers => ok := ledger.PostTransaction(req);
      case Unreachable => ok := false;
      case ReplyLost =>
        var _ := ledger.PostTransaction(req);
        ok := false;
    }
  }

}
