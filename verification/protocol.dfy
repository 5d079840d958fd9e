/**
  The per-capability tables of the approval protocol in inpage/index.ts: which message
  acknowledges a request, which ones approve or reject it, how long each wait lasts, and
  what a settled call reports to the page.
 */
module Protocol {
  import opened Basics
  import opened Envelope
  import opened Waiter

  /** The three capabilities that go through the acknowledge-then-decide protocol. */
  datatype Kind = TokenFlow | TxFlow(contract: string) | SignFlow

  /** Milliseconds allowed for the `*_RES` acknowledgement. */
  const AckTimeoutMs: nat := 1000
  /** Milliseconds allowed for the approval message: 11 minutes. */
  const ApproveTimeoutMs: nat := 11 * 60 * 1000
  /** Milliseconds allowed for the rejection message: 10 minutes. */
  const RejectTimeoutMs: nat := 10 * 60 * 1000

  function AckType(k: Kind): string {
    match k
    case TokenFlow => "ADD_TOKEN_RES"
    case TxFlow(_) => "ADD_TRANSACTION_RES"
    case SignFlow => "ADD_SIGN_RES"
  }

  function ApproveType(k: Kind): string {
    match k
    case TokenFlow => "APPROVE_ADD_TOKEN"
    case TxFlow(_) => "SUBMITTED_TX"
    case SignFlow => "SUCCESS_SIGN"
  }

  function RejectType(k: Kind): string {
    match k
    case TokenFlow => "REJECT_ADD_TOKEN"
    case TxFlow(_) => "FAILED_TX"
    case SignFlow => "FAILED_SIGN"
  }

  /** Only the add-token flow filters its terminal messages by the acknowledged hash. */
  function Scope(k: Kind, h: string): Filter {
    if k == TokenFlow then OnlyAction(h) else AnyAction
  }

  /** The envelope sent when the rejection wait times out: add-token reuses `FAILED_TX`. */
  function Cleanup(k: Kind, h: string): (m: Msg)
    ensures HashOf(m) == Some(h)
    ensures TypeOf(m) == (if k == SignFlow then "FAILED_SIGN" else "FAILED_TX")
  {
    if k == SignFlow then FailedSign(h) else FailedTx(h)
  }

  /** What an approved call resolves with. */
  datatype Value =
    | NoValue
    | TxReceived(code: string, address: string, transactionHash: string)
    | Signature(r: string, s: string)

  /**
    The value an approved call resolves with: nothing for add-token, the transaction
    receipt built from the call's contract address, or the pair `[r, s]`.
   */
  function ApprovedValue(k: Kind, m: Msg): (v: Value)
    ensures k == TokenFlow ==> v == NoValue
    ensures k.TxFlow? && m.SubmittedTx? ==> v == TxReceived("TRANSACTION_RECEIVED", k.contract, m.txHash)
    ensures k == SignFlow && m.SuccessSign? ==> v == Signature(m.r, m.s)
  {
    match k
    case TokenFlow => NoValue
    case TxFlow(contract) =>
      if m.SubmittedTx? then TxReceived("TRANSACTION_RECEIVED", contract, m.txHash) else NoValue
    case SignFlow => if m.SuccessSign? then Signature(m.r, m.s) else NoValue
  }

  /** How a call of the page ended. */
  datatype Outcome =
    | Approved(value: Value)          // resolved
    | UserAbort                       // Error("User abort")
    | UserTimedOut                    // Error("User action timed out")
    | AckTimeout                      // "Timeout" from the acknowledgement wait
    | ApprovalTimeout                 // "Timeout" from the approval wait winning the race
    | NotImplemented                  // Error("Not implemented")
    | SignatureUnsupported            // a transaction that already carries a signature
    | Delegated                       // a DEPLOY transaction, handed to the provider
    | Connected(accounts: seq<string>) // `enable` resolved

  /**
    The rejection reason the page observes, or None when the page's own code does not
    reject: the call resolved, or (`Delegated`) it was handed to the provider's
    `addTransaction`, whose own outcome is unknown to this model.
   */
  function Rejection(o: Outcome): (r: Option<string>)
    ensures r.None? <==> o.Approved? || o.Connected? || o.Delegated?
    ensures o == UserAbort || o == UserTimedOut || o == AckTimeout ==>
      r.Some? && (o == UserAbort <==> r.value == "User abort") && (o == UserTimedOut <==> r.value == "User action timed out")
  {
    match o
    case UserAbort => Some("User abort")
    case UserTimedOut => Some("User action timed out")
    case AckTimeout => Some("Timeout")
    case ApprovalTimeout => Some("Timeout")
    case NotImplemented => Some("Not implemented")
    case SignatureUnsupported => Some("Adding signatures to a signer transaction currently isn't supported")
    case _ => None
  }
}
