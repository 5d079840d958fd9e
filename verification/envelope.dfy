/** The messages exchanged on the window message bus between the page and the wallet. */
module Envelope {
  import opened Basics

  /** The account reported by `CONNECT_RES` and `WALLET_CONNECTED`. */
  datatype Account = Account(address: string, network: string)

  /** The `ADD_TOKEN` payload: `decimals` is the stringified request value, or absent. */
  datatype TokenRequest = TokenRequest(address: string, symbol: string, decimals: Option<string>, name: string)

  /** A starknet transaction as handed to `WalletSigner.addTransaction`. */
  datatype Transaction = Transaction(
    txType: string,
    contractAddress: string,
    entrypoint: string,
    calldata: seq<string>,
    signature: Option<seq<string>>)

  /** The `data` of each message kind the page sends or listens for. */
  datatype Msg =
    | Connect(host: string)
    | ConnectRes(account: Option<Account>)
    | WalletConnected(connected: Account)
    | AddToken(token: TokenRequest)
    | AddTokenRes(actionHash: string)
    | ApproveAddToken(actionHash: string)
    | RejectAddToken(actionHash: string)
    | AddTransaction(tx: Transaction)
    | AddTransactionRes(actionHash: string)
    | SubmittedTx(txHash: string, actionHash: string)
    | FailedTx(actionHash: string)
    | AddSign(typedData: string)
    | AddSignRes(actionHash: string)
    | SuccessSign(r: string, s: string, actionHash: string)
    | FailedSign(actionHash: string)
    | OpenUi

  /** A message as posted on the window: the page stamps its own with its extension id. */
  datatype Envelope = Envelope(msg: Msg, extensionId: Option<string>)

  /** The `type` discriminator of a message. */
  function TypeOf(m: Msg): string {
    match m
    case Connect(_) => "CONNECT"
    case ConnectRes(_) => "CONNECT_RES"
    case WalletConnected(_) => "WALLET_CONNECTED"
    case AddToken(_) => "ADD_TOKEN"
    case AddTokenRes(_) => "ADD_TOKEN_RES"
    case ApproveAddToken(_) => "APPROVE_ADD_TOKEN"
    case RejectAddToken(_) => "REJECT_ADD_TOKEN"
    case AddTransaction(_) => "ADD_TRANSACTION"
    case AddTransactionRes(_) => "ADD_TRANSACTION_RES"
    case SubmittedTx(_, _) => "SUBMITTED_TX"
    case FailedTx(_) => "FAILED_TX"
    case AddSign(_) => "ADD_SIGN"
    case AddSignRes(_) => "ADD_SIGN_RES"
    case SuccessSign(_, _, _) => "SUCCESS_SIGN"
    case FailedSign(_) => "FAILED_SIGN"
    case OpenUi => "OPEN_UI"
  }

  /** `data.actionHash` of a message, when its kind carries one. */
  function HashOf(m: Msg): Option<string> {
    match m
    case AddTokenRes(h) => Some(h)
    case ApproveAddToken(h) => Some(h)
    case RejectAddToken(h) => Some(h)
    case AddTransactionRes(h) => Some(h)
    case SubmittedTx(_, h) => Some(h)
    case FailedTx(h) => Some(h)
    case AddSignRes(h) => Some(h)
    case SuccessSign(_, _, h) => Some(h)
    case FailedSign(h) => Some(h)
    case _ => None
  }

  /** `a` and `b` are built by the same constructor, whatever their data. */
  predicate SameKind(a: Msg, b: Msg) {
    && a.Connect? == b.Connect? && a.ConnectRes? == b.ConnectRes?
    && a.WalletConnected? == b.WalletConnected? && a.AddToken? == b.AddToken?
    && a.AddTokenRes? == b.AddTokenRes? && a.ApproveAddToken? == b.ApproveAddToken?
    && a.RejectAddToken? == b.RejectAddToken? && a.AddTransaction? == b.AddTransaction?
    && a.AddTransactionRes? == b.AddTransactionRes? && a.SubmittedTx? == b.SubmittedTx?
    && a.FailedTx? == b.FailedTx? && a.AddSign? == b.AddSign?
    && a.AddSignRes? == b.AddSignRes? && a.SuccessSign? == b.SuccessSign?
    && a.FailedSign? == b.FailedSign? && a.OpenUi? == b.OpenUi?
  }

  /** The type tag determines the message kind: two messages share a tag exactly when they share a kind. */
  lemma TypeOfDeterminesKind(a: Msg, b: Msg)
    ensures TypeOf(a) == TypeOf(b) <==> SameKind(a, b)
  {
  }
}
