# Argent X page bridge and add-token form, in Dafny

This project models two parts of the Argent X browser wallet.

The first is the **page-side bridge** of the injected provider (`window.starknet`). A
page call (`request`, `enable`, `WalletSigner.addTransaction`, `WalletSigner.signMessage`)
posts a message stamped with the extension id. Add-token, transaction and signing then:
1. wait up to 1000 ms for the `*_RES` acknowledgement that carries the wallet's `actionHash`;
2. post `OPEN_UI`;
3. race an approval wait (11 minutes) against a rejection wait (10 minutes).

If the rejection wait times out, it posts a `FAILED_*` cleanup message. The provider also
keeps its connection state and its `accountsChanged` listener list, and it reacts to
unsolicited `WALLET_CONNECTED` messages.

The second is the **add-token form** of the wallet UI, reduced to its pure rules:
- field defaults and lower-casing of the typed address;
- `addressFormat64Byte` on blur;
- the rule that starts a metadata fetch;
- the `compiledData` merge of fetched details over typed fields;
- `isDataComplete` and the submitted payload.

## How the bridge is modelled

`Bridge.Step(page, event)` is a pure transition function over timestamped events. A
`Page` holds:
- the provider's connection;
- the listener list;
- every waiter ever created (one `waitForMsgOfType` call each);
- every page call with its phase;
- every envelope posted, tagged with the call that posted it.

The events are:
- a message from someone else (`Deliver`);
- the page's own oldest post coming back to it (`Echo`);
- a timer firing (`TimerFires`);
- the page's own calls.

`window.postMessage` delivers the page's posts to its own listeners, so a cleanup
`FAILED_TX` can reach a pending transaction.

Time is a natural number of milliseconds, and timers take priority. An event at time `t`
is admissible only when no pending timer is due at or before `t`. Timers fire in deadline
order, and in creation order among equal deadlines.

One message is dispatched to listeners in this order:
1. the global `WALLET_CONNECTED` listener;
2. the `enable` listeners;
3. the waiters registered before the message arrived, in registration order.

Within one message only one of these groups can react, because they listen for disjoint
message types. A waiter registered while a message is being dispatched does not hear that
message.

A waiter (`Waiter.Waiter`) is `Pending`, `Matched(m)` or `Expired`, and it carries an
`attached` flag. Only an accepted message detaches it. A timeout rejects its promise but
leaves its listener registered, as `index.ts` does.

A call's continuation runs only while the call's phase still names the waiter. The
rejection side's timeout is the exception: it posts its cleanup message even when the
race was already won by the approval. In `index.ts` the losing wait of `Promise.race` stays armed.

`BridgeInvariant.Valid` ties each pending call to its registered waiters:
- the right type, predicate and deadline;
- a coherent connection;
- the page's stamp on every post.

Every step preserves `Valid`.

`BridgeCleanup.CleanupOk` keeps the books on `OPEN_UI` and cleanup messages:
- each call has at most one rejection wait;
- no cleanup is posted for a call while that wait is armed;
- `OPEN_UI` and cleanups are posted only for calls past their acknowledgement.

Every step preserves it. So a call never gets two cleanups, and a call whose
acknowledgement timed out never gets either message.

## Model

| member | source | states |
|---|---|---|
| Waiter.Arm | packages/extension/src/inpage/index.ts:35-46 | A new wait is pending, listening, due `delay` ms from now, and accepts exactly the messages of its type that satisfy its predicate |
| Waiter.Hear | packages/extension/src/inpage/index.ts:37-45 | An accepted message detaches the listener; the wait takes the message only if it was still pending; any other message leaves the waiter exactly as it was, still listening |
| Waiter.Expire | packages/extension/src/inpage/index.ts:36 | The timer rejects the wait without detaching its listener |
| Waiter.FirstAccepted | packages/extension/src/inpage/index.ts:38 | The index returned is the first accepted message; no earlier message is accepted, and `None` means none is |
| Waiter.SettlesOnFirstMatch | packages/extension/src/inpage/index.ts:27-48 | A listening wait resolves with the first accepted message of a sequence and is detached afterwards; with no accepted message it stays pending and listening |
| Waiter.KeepsSettlement | packages/extension/src/inpage/index.ts:38-43 | A settled wait never changes its settlement, and once detached it hears nothing more |
| Waiter.ExpiredStillDetaches | packages/extension/src/inpage/index.ts:36-40 | A timed-out wait stays `Expired`, yet it still consumes, and detaches on, the first accepted late message |
| Envelope.TypeOfDeterminesKind | packages/extension/src/inpage/index.ts:38 | For all sixteen message kinds, two messages have the same `type` exactly when they are of the same kind, so matching on the type selects one kind |
| Protocol.Cleanup | packages/extension/src/inpage/index.ts:83 | The cleanup message carries the acknowledged hash; signing uses `FAILED_SIGN`, while add-token and transactions both use `FAILED_TX` |
| Protocol.ApprovedValue | packages/extension/src/inpage/index.ts:187-191 | Add-token resolves with nothing; a transaction resolves with `TRANSACTION_RECEIVED`, the contract address and the `txHash`; signing resolves with `[r, s]` |
| Protocol.Rejection | packages/extension/src/inpage/index.ts:88-93 | The page's own code rejects a call exactly when it did not resolve, was not delegated and did not connect; abort gives "User abort" and the rejection timeout gives "User action timed out". A delegated call's outcome is the provider's, which is not modelled |
| Facade.Adopt | packages/extension/src/inpage/index.ts:103-110 | After a `CONNECT_RES` the connection is coherent and connected, with the reported address and a provider for the reported network |
| Facade.OnWalletConnected | packages/extension/src/inpage/index.ts:134-150 | Without the provider, without a signer, or with the same address, nothing happens; otherwise address, provider and signer follow the message, `isConnected` is untouched, and every listener is called once, in order, with `[address]`; coherence is preserved |
| Facade.On | packages/extension/src/inpage/index.ts:117-122 | Any event other than `accountsChanged` fails with the source's message; otherwise the listener is appended and the earlier ones are kept in order |
| Facade.RemoveFirst | packages/extension/src/inpage/index.ts:127-129 | When the listener is present, its first occurrence is cut out and the listeners before and after it keep their order (one fewer in the multiset); an absent listener changes nothing |
| Facade.Off | packages/extension/src/inpage/index.ts:123-130 | Any event other than `accountsChanged` fails; otherwise the first occurrence of the listener is removed |
| Facade.OffUndoesOn | packages/extension/src/inpage/index.ts:117-130 | Registering a new listener and then removing it restores the list |
| Facade.OffDropsOneDuplicate | packages/extension/src/inpage/index.ts:127-129 | A listener registered twice keeps one registration after `off` |
| Bridge.Send | packages/extension/src/inpage/index.ts:20-25 | A post is appended to the outbound log stamped with the page's extension id, and it is queued to come back to the page's own listeners |
| Bridge.TokenPayload | packages/extension/src/inpage/index.ts:58-66 | `ADD_TOKEN` copies address, symbol and name; decimals are present exactly when requested, stringified: a whole number as digits that parse back to it, any other number as the text JavaScript renders |
| Bridge.AcknowledgeFacts | packages/extension/src/inpage/index.ts:67-86 | The acknowledgement posts `OPEN_UI`, registers the 11-minute approval wait and then the 10-minute rejection wait for the capability's types (scoped to the action hash for add-token only), and moves the call to their race |
| Bridge.LapseFacts | packages/extension/src/inpage/index.ts:82-89 | A timer ends its call only while the call still waits on that side ("Timeout", or "User action timed out" for the rejection wait); the rejection side posts its cleanup whether or not the call still waits |
| Bridge.ConnectOne | packages/extension/src/inpage/index.ts:97-111 | An `enable` listener changes its call exactly on a `CONNECT_RES` with data while `window.starknet` is present, resolving with `[address]` and adopting the account; otherwise the page is untouched |
| Bridge.Step | packages/extension/src/inpage/index.ts:56-216 | Each page call (`request`, `addTransaction`, `signMessage`, `enable`) records exactly one new call whatever becomes of it; messages, timers and listener changes record none |
| Bridge.OfferFacts | packages/extension/src/inpage/index.ts:37-45 | One waiter hearing a message changes only that waiter and only the call whose phase names it, and only when the waiter settles; it never rewrites earlier posts, and it posts only for calls not yet settled |
| BridgeInvariant.InitValid | packages/extension/src/inpage/index.ts:51-56 | The freshly installed provider, with nothing pending, satisfies the invariant |
| BridgePreservation.StepValid | packages/extension/src/inpage/index.ts:67-86 | Every admissible event preserves the invariant: each waiting call's acknowledgement, approval and rejection waits are registered, pending, with the protocol's types, predicates and deadlines |
| BridgePreservation.RunValid | packages/extension/src/inpage/index.ts:67-86 | Every page reachable by an admissible trace satisfies the invariant |
| BridgeProperties.RequestRouting | packages/extension/src/inpage/index.ts:56-94 | `request` posts `ADD_TOKEN`, registers a 1000 ms acknowledgement wait with no predicate, and waits exactly for `wallet_watchAsset`/`ERC20`; anything else settles at once as "Not implemented" with nothing posted |
| BridgeProperties.AddTxRouting | packages/extension/src/inpage/index.ts:160-172 | `DEPLOY` is delegated and a transaction carrying a signature is refused, both with nothing posted; otherwise `ADD_TRANSACTION` goes out with its acknowledgement wait |
| BridgeProperties.SignRouting | packages/extension/src/inpage/index.ts:198-200 | `signMessage` posts `ADD_SIGN` with the data and waits 1000 ms for `ADD_SIGN_RES` |
| BridgeProperties.DispatchAcknowledges | packages/extension/src/inpage/index.ts:67-68 | An acknowledgement of the call's type starts the race with the message's hash at the current time and posts `OPEN_UI` for the call; any other message leaves the call waiting |
| BridgeProperties.DispatchDecides | packages/extension/src/inpage/index.ts:70-91 | A racing call is decided exactly by a message of its approval or rejection type (for add-token, also carrying the acknowledged hash): approval resolves with the capability's value and leaves the rejection wait armed; rejection aborts; anything else leaves the race open |
| BridgeProperties.DeliverDecides | packages/extension/src/inpage/index.ts:174-184 | The decision rule holds for a message from anyone, whatever its `extensionId` |
| BridgeProperties.CleanupAbortsTransactions | packages/extension/src/inpage/index.ts:176 | The page hearing its own add-token cleanup `FAILED_TX` aborts every racing transaction, whatever its action hash |
| BridgeProperties.AckTimesOut | packages/extension/src/inpage/index.ts:67 | The acknowledgement timer settles a waiting call as "Timeout" exactly 1000 ms after the request and posts nothing |
| BridgeProperties.RejectTimesOut | packages/extension/src/inpage/index.ts:76-89 | The rejection timer ends a racing call as "User action timed out" 600000 ms after the acknowledgement, and posts exactly one cleanup carrying the action hash |
| BridgeProperties.RaceNeverTimesOutApproval | packages/extension/src/inpage/index.ts:70-86 | While a race is open its approval timer is never the next to fire, because the rejection deadline comes first |
| BridgeProperties.LateCleanup | packages/extension/src/inpage/index.ts:82-84 | After a call is decided, its still-armed rejection timer posts the cleanup message anyway, and no call changes |
| BridgeProperties.SettledIsFinal | packages/extension/src/inpage/index.ts:88-91 | A decided call keeps its outcome across any event |
| BridgeProperties.QuietAfterFailure | packages/extension/src/inpage/index.ts:67-68 | A call that ended before its race (acknowledgement timeout, refusal, connection) never has anything posted for it again: no `OPEN_UI`, no cleanup |
| BridgeProperties.StepGrows | packages/extension/src/inpage/index.ts:20-25 | A step only adds calls and only appends posts |
| BridgeProperties.RunKeepsOutcome | packages/extension/src/inpage/index.ts:88-91 | Along any admissible trace a decided call keeps its outcome |
| BridgeProperties.RunGrows | packages/extension/src/inpage/index.ts:20-25 | Along any admissible trace the outbound log only grows at its end |
| BridgeProperties.RunQuietAfterFailure | packages/extension/src/inpage/index.ts:67-68 | Along any admissible trace, once a call has failed before its race, nothing more is posted for it |
| BridgeCleanup.StepCleanupOk | packages/extension/src/inpage/index.ts:76-85 | Every admissible event keeps the cleanup bookkeeping: no two cleanups for one call, one rejection wait per call, no cleanup while that wait is armed |
| BridgeCleanup.RunCleansOnce | packages/extension/src/inpage/index.ts:76-85 | Along any admissible trace each call has at most one `FAILED_TX`/`FAILED_SIGN` cleanup in the outbound log, and a call still racing has none |
| BridgeCleanup.CleanupAtMostOnce | packages/extension/src/inpage/index.ts:174-185 | From the freshly installed page, no call ever gets two cleanup envelopes, whether it timed out, was approved, or was aborted |
| BridgeCleanup.AckTimeoutNeverAnnounced | packages/extension/src/inpage/index.ts:67-68 | From the freshly installed page, a call that never got past its acknowledgement (in particular one that ended with the acknowledgement timeout) has had no `OPEN_UI` and no cleanup posted for it, before or after it failed |
| BridgeProperties.EnableStep | packages/extension/src/inpage/index.ts:95-116 | `enable` adds a pending call, posts `CONNECT` with the host, and arms no timer |
| BridgeProperties.ConnectResolves | packages/extension/src/inpage/index.ts:97-111 | A pending `enable` resolves with `[address]`, and the connection adopts the account, exactly when a `CONNECT_RES` carries data while `window.starknet` is present; otherwise nothing changes |
| BridgeProperties.WalletConnectedStep | packages/extension/src/inpage/index.ts:134-150 | A `WALLET_CONNECTED` message changes the connection and notifies the listeners exactly as the global listener prescribes, and moves no call |
| BridgeProperties.AddTokenAcknowledged | packages/extension/src/inpage/index.ts:57-69 | A watch-asset request followed by its acknowledgement with hash `h` leaves a valid page whose new call races for `h` |
| BridgeProperties.AddTokenApproved | packages/extension/src/inpage/index.ts:57-91 | Request, acknowledgement with `h`, then approval of `h`: the call resolves, and its rejection wait is still pending |
| Text.ShowValue | packages/extension/src/ui/screens/AddTokenScreen.tsx:47 | The digits `toString(base)` produces have the value of the number rendered |
| Text.DecimalRoundTrip | packages/extension/src/ui/screens/AddTokenScreen.tsx:126 | A number rendered in decimal parses back to itself |
| Text.LeadingZeros | packages/extension/src/ui/screens/AddTokenScreen.tsx:47 | Left zero padding keeps a digit string's value |
| Text.ToLowerIdempotent | packages/extension/src/ui/screens/AddTokenScreen.tsx:141 | Lower-casing twice is lower-casing once |
| AddTokenForm.Init | packages/extension/src/ui/screens/AddTokenScreen.tsx:67-75 | Fields start from the request (missing or empty values give `""`, decimals `"0"`), not loading, with no details and no fetched address |
| AddTokenForm.Format64 | packages/extension/src/ui/screens/AddTokenScreen.tsx:46-48 | The result is `0x` followed by lower-case hex digits whose value is the number, at least 64 of them, never truncated, with no leading zero beyond the padding |
| AddTokenForm.Format64RoundTrip | packages/extension/src/ui/screens/AddTokenScreen.tsx:46-48 | A formatted address parses back to the number it came from |
| AddTokenForm.Format64Idempotent | packages/extension/src/ui/screens/AddTokenScreen.tsx:46-48 | Re-formatting a formatted address gives the same string |
| AddTokenForm.Blur | packages/extension/src/ui/screens/AddTokenScreen.tsx:143-148 | Leaving a non-empty address field that parses replaces it by its 64-digit form; an empty or unparseable address is left as typed |
| AddTokenForm.BlurIdempotent | packages/extension/src/ui/screens/AddTokenScreen.tsx:143-148 | Leaving the address field twice is leaving it once |
| AddTokenForm.NoRefetch | packages/extension/src/ui/screens/AddTokenScreen.tsx:81-100 | Right after a fetch settles, whatever it returns, the effect starts no second fetch of the same address (only the last fetched address is remembered, so after another address is fetched it would be fetched again) |
| AddTokenForm.NewAddressRefetches | packages/extension/src/ui/screens/AddTokenScreen.tsx:93-99 | A valid address typed while not loading, different from the last fetched one, starts a fetch |
| AddTokenForm.Effect | packages/extension/src/ui/screens/AddTokenScreen.tsx:93-99 | Loading turns on exactly when the fetch rule holds, and then the address is recorded as the last fetched one |
| AddTokenForm.FetchSettled | packages/extension/src/ui/screens/AddTokenScreen.tsx:82-92 | A finished fetch stops loading and stores its result; a failed fetch clears the details |
| AddTokenForm.Compile | packages/extension/src/ui/screens/AddTokenScreen.tsx:102-111 | Fetched fields override typed ones; name and symbol fall back to typed text when missing or empty; decimals fall back to the typed text (empty meaning 0); balance comes only from details; the network is the screen's |
| AddTokenForm.FetchedNamesWin | packages/extension/src/ui/screens/AddTokenScreen.tsx:105-106 | With a non-empty fetched name and symbol, the typed ones do not affect `compiledData` |
| AddTokenForm.StaleDetails | packages/extension/src/ui/screens/AddTokenScreen.tsx:93-104 | Typing an address that is not valid starts no fetch, and the earlier fetch's details and address are still what is compiled and submitted |
| AddTokenForm.Submit | packages/extension/src/ui/screens/AddTokenScreen.tsx:121-131 | `onSubmit` runs exactly on complete data: a valid address, a balance, decimals (0 counts), a non-empty name and a non-empty symbol; its payload carries decimals as a decimal string that parses back |
| AddTokenForm.CompleteForm | packages/extension/src/ui/screens/AddTokenScreen.tsx:34-44 | The compiled data is complete exactly when details with a balance were fetched for a valid address, decimals come from the details or parse from the field, and the fetched-or-typed name and symbol are not empty |
| AddTokenForm.NoDetailsNoSubmit | packages/extension/src/ui/screens/AddTokenScreen.tsx:34-44 | Without fetched details the data is never complete, so Continue is disabled and nothing is submitted |
| AddTokenForm.TypeAddress | packages/extension/src/ui/screens/AddTokenScreen.tsx:139-142 | Typed addresses are stored lower-cased; the disabled field ignores input while loading |
| AddTokenForm.TypeName | packages/extension/src/ui/screens/AddTokenScreen.tsx:152-158 | The name input takes text exactly when enabled: no non-empty fetched name, not loading, a valid address |
| AddTokenForm.TypeSymbol | packages/extension/src/ui/screens/AddTokenScreen.tsx:159-165 | The symbol input takes text under the same conditions, for the symbol |
| AddTokenForm.TypeDecimals | packages/extension/src/ui/screens/AddTokenScreen.tsx:166-179 | The decimals input takes text exactly when it is enabled (no fetched decimals, not loading, a valid address) and the text parses |
| AddTokenForm.InputKeepsDecimals | packages/extension/src/ui/screens/AddTokenScreen.tsx:173-178 | Every input event keeps the typed decimals parseable, so building `compiledData` never throws |
| AddTokenForm.RequestDecimalsParse | packages/extension/src/ui/screens/AddTokenScreen.tsx:70-72 | A form opened for a watch-asset request compiles exactly when the request's decimals text parses: a whole number compiles to itself and no decimals to 0, while a fraction such as 18.5 or an exponent form such as 1e+21 makes `compiledData` throw |

### Behaviour of `index.ts` worth knowing

- **Inbound messages are not checked.** Their `extensionId` is never compared, so anyone on the page can acknowledge, approve or reject (`BridgeProperties.DeliverDecides`).
- **Timed-out waits keep listening.** A wait that timed out keeps its listener (`Waiter.ExpiredStillDetaches`).
- **Only add-token is scoped to its action hash.** The transaction and signing races take any message of their types. As a result:
  - one acknowledgement moves every call of that capability that is waiting for one;
  - the page's own add-token cleanup `FAILED_TX` aborts pending transactions (`BridgeProperties.CleanupAbortsTransactions`).
- **Decided calls still post a cleanup.** After approval, the losing rejection wait still posts its cleanup when its timer fires (`BridgeProperties.LateCleanup`). That is still the call's only cleanup (`BridgeCleanup.RunCleansOnce`).
- **The error message keeps the source's spelling.** An unknown event name fails with "Unknwown event: …".

## Left out

- **JavaScript scheduling.** The event loop, microtask ordering and the real `setTimeout`/`postMessage`/`addEventListener` are replaced by explicit, timestamped events. A continuation runs as soon as its waiter settles. This ordering is the same as running it after all listeners heard the message, because a continuation only registers waiters that do not hear the current message.
- **`DEPLOY` transactions.** These are handed to the starknet `Provider` (`super.addTransaction`), a library call. The model records them as `Delegated` and posts nothing.
- **`hashMessage`.** It is a starknet library call.
- **`Provider` and `WalletSigner` internals.** Only which address and network they were built from is kept.
- **Other message types.** No listener reacts to types the page does not listen for.
- **Replacing the provider object.** The page replacing `window.starknet` with another object is not modelled; only its removal and restoration (`SetPresent`) are.
- **Listener side effects.** `accountsChanged` listeners are identified by number, and their calls are recorded, not run. A listener that calls `on`/`off` during notification is not modelled.
- **`isValidAddress`.** It is not part of this model; it is the parameter `valid`.
- **`fetchTokenDetails`.** It is not part of this model; its result is the argument of `FetchSettled`. The wallet address and network it is called with are not represented.
- Bridge.TokenPayload, AddTokenForm.RequestDecimalsParse: the page's decimals are a JavaScript number; the model takes a whole number below 10^21 (`Bridge.Whole`) or the text `toString()` gives for any other number (`Bridge.Rendered`). JavaScript's number formatting itself is not modelled, and nothing checks that a `Whole` is below 10^21 or that a `Rendered` text is one JavaScript would produce.
- AddTokenForm.ToBN, AddTokenForm.TypedDecimals: bn.js and `BigNumber.from` accept more than digit strings (negative numbers, hex decimals, bn.js's lax digit check). The model reads hex only after a lower-case `0x` and treats every other string that is not decimal digits as a parse failure.
- AddTokenForm.TypeAddress: `toLowerCase()` folds every Unicode letter; the model folds only `A`-`Z` (through `Text.ToLower`), because Unicode case tables are outside the model and a valid address is ASCII hex.
- Text.ToLower: folds ASCII letters only; other characters, accented letters included, are kept as they are.
- **Rendering.** The spinner, and the `Continue` button being hidden rather than disabled while loading, are not modelled.
- **Other screens and files.** `App.tsx`, the other screens and the playground's `wallet.service.ts` are outside the modelled core.
