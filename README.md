# HypeChatDemo message store and peer directory, in Dafny

HypeChatDemo is an iOS chat demo built on the closed-source Hype peer-to-peer SDK.
Its own logic is small:

- the per-peer `Store`: an append-only log of SDK messages, an unread watermark
  (`lastReadIndex`) and one optional delegate that is notified on every append;
- the contact list's peer directory `stores`, which maps a peer's string identifier
  to its store. A resolved peer gets a new store, replacing any store it already had.
  A lost peer's entry is removed. An incoming message goes to its sender's store, or
  is dropped if the sender is unknown;
- the chat screen's use of one store. Attaching a store registers the screen as the
  store's delegate. The send button appends only non-empty text. Opening the screen
  marks everything read. The table shows one row per message, and on each
  notification it scrolls to the last row.

The model keeps the app's object structure. `Store`, `ContactViewController` and
`ChatViewController` are Dafny classes with the source's fields, and their methods
update those fields in place. All files share Dafny's default module, as all files of
the app share one Swift module. So `Store` can name its delegate's class and the chat
screen can name `Store`.

The SDK's types are opaque. A message (`HYPMessage`) is the type parameter `M`. An
instance (`HYPInstance`) is `Instance<H>`: its `stringIdentifier` plus an opaque
handle `H` that stands for everything else about the peer. The SDK's `send` is a
function-valued parameter of `DidTapSendButton` that returns the message.
`StoreDelegate` is a Swift protocol. Its only conformer in the app is
`ChatViewController`, so a store's `delegate` field has that class as its type.

`store_state.dfy` gives the value behind a store: `StoreState(messages,
lastReadIndex)`, the two changes the app makes to it (`Appended`, `MarkedAllRead`)
and `Replay` of a sequence of such events. The class methods state their new state
as one of these functions applied to the old state. The lemmas state what any
sequence of appends and mark-reads does: the log is append-only and in call order,
the watermark stays inside the log, and the unread messages are exactly those added
since the last mark-read.

`scenarios.dfy` walks through the app using only the class contracts: a
conversation, sending, routing, a routed message reaching an open chat, losing a
peer, resolving the same peer twice, a screen moved to another store, two screens on
one store, and sending with no store attached.

Each block that the source dispatches to the main queue is one atomic method call
here.

Two details follow the code rather than the store's intended interface:

- Marking all read is not a store operation. `viewDidAppear` on the chat screen
  assigns `store.lastReadIndex` directly. That is `ChatViewController.ViewDidAppear`.
- A store's `instance` is declared `var`, not immutable. The model keeps it a field
  and proves that no modelled operation changes it.

Some behaviours are worth knowing, though the app never reaches the bad case:

- `didAdd` scrolls to the last row of the store the screen *shows*, not of the
  `sender`. `Store.Add` states that target in every case, and proves it is a valid
  row when the delegate shows the appending store. In the app that always holds, because the store setter
  registers the delegate and attaches the store together, and each chat screen
  gets one store.
- A duplicate resolve replaces the store. A chat screen that is open on the old
  store keeps showing it, while new messages from that peer go to the new store.

## Model

| member | source | states |
|---|---|---|
| `Initial` | HypeChatDemo/Store.swift:35-39 | A new store's state has an empty log and a watermark inside it. |
| `Unread` | HypeChatDemo/Store.swift:48-50 | The unread messages are those past the watermark: the log is the read prefix followed by them, and their number is the count minus the watermark. |
| `Appended` | HypeChatDemo/Store.swift:41-43 | An append grows the log by exactly one element. The new element is the message, the earlier elements are unchanged, the watermark is unchanged, and the unread messages gain exactly that message. |
| `MarkedAllRead` | HypeChatDemo/ChatViewController.swift:88 | Marking read leaves the log unchanged, moves the watermark to the end of the log and leaves nothing unread. |
| `ReplayWellFormed` | HypeChatDemo/Store.swift:33-45 | Any sequence of appends and mark-reads keeps the watermark between 0 and the message count. |
| `ReplayMessages` | HypeChatDemo/Store.swift:41-54 | After any sequence of events, the log is the old log followed by the appended messages in call order. Nothing is lost or reordered. |
| `ReplayUnread` | HypeChatDemo/Store.swift:41-50 | After any sequence of events, the unread messages are exactly those appended since the last mark-read, or the earlier unread ones followed by all appended ones if there was no mark-read. |
| `LastEventDecidesUnread` | HypeChatDemo/Store.swift:41-50 | After a non-empty sequence of events, something is unread if and only if the last event was an append. |
| `MarkReadIdempotent` | HypeChatDemo/ChatViewController.swift:88 | A second mark-read with no append in between gives the same state as one. |
| `AddsInCallOrder` | HypeChatDemo/Store.swift:41-54 | A run of add calls on a new store leaves exactly those messages, in call order, all unread. |
| `Store.constructor` | HypeChatDemo/Store.swift:35-39 | A new store is bound to the given instance, has no delegate, an empty log and watermark 0, and has no new messages. |
| `Store.Add` | HypeChatDemo/Store.swift:41-45 | The log becomes the old log plus the message. The watermark, instance and delegate are unchanged. A store that was well formed stays well formed and has new messages. The delegate, if set, gets exactly one notification with this store and the message, keeps its store and text, and scrolls to row count minus one of the store it shows. When that is this store, the target is the new last row, which is a valid row. |
| `Store.HasNewMessages` | HypeChatDemo/Store.swift:48-50 | On a well-formed store, true exactly when some message is unread. |
| `Store.AllMessages` | HypeChatDemo/Store.swift:52-54 | Returns the log in insertion order as a sequence value. Later changes to the store cannot affect the caller's copy. |
| `ChatViewController.constructor` | HypeChatDemo/ChatViewController.swift:30 | A new chat screen has no store, an empty text field and no scroll yet. |
| `ChatViewController.SetStore` | HypeChatDemo/ChatViewController.swift:32-42 | Attaching a store makes it the screen's store and the screen its delegate. The store's log, watermark and instance are unchanged. |
| `ChatViewController.DidTapSendButton` | HypeChatDemo/ChatViewController.swift:49-67 | With empty text, neither the screen nor the store changes. With non-empty text, the field is cleared. If a store is attached, exactly one message is appended: the one `send` returns for that text and that store's instance. If the screen is the store's delegate, it is notified once and scrolls to the new last row. Otherwise (empty text, no store, or another delegate) its scroll target and notifications are unchanged. When another screen is the store's delegate, that screen keeps its store and text; with empty text it is unchanged, and otherwise it is notified once and scrolls to the last row of the store it shows. |
| `ChatViewController.DidAdd` | HypeChatDemo/ChatViewController.swift:70-77 | Records exactly one notification with the sender and the message, and scrolls to row count minus one of the attached store. |
| `ChatViewController.ViewDidAppear` | HypeChatDemo/ChatViewController.swift:85-89 | The attached store's watermark moves to the end of its log: the store is well formed and has no new messages. The log, instance and delegate are unchanged. A store with nothing unread is left unchanged, so a repeat is idempotent. With no store attached, the optional-chained assignment does nothing. |
| `ChatViewController.NumberOfRows` | HypeChatDemo/ChatViewController.swift:103-105 | The row count is the number of messages in the attached store. |
| `ChatViewController.MessageAt` | HypeChatDemo/ChatViewController.swift:107-114 | For every row below the row count, row `i` shows the `i`-th message of the log. |
| `ContactViewController.constructor` | HypeChatDemo/ContactViewController.swift:31 | The directory starts empty and satisfies its invariant. |
| `ContactViewController.AddToResolvedInstancesDict` | HypeChatDemo/ContactViewController.swift:164-172 | The peer's identifier maps to a new store bound to that instance, with empty history and no delegate. Every other key is untouched. An existing entry is replaced, so the count is unchanged; otherwise the count grows by one. The directory invariant is kept: every store is well formed and filed under its own identifier, so no store is filed under two identifiers. |
| `ContactViewController.RemoveFromResolvedInstancesDict` | HypeChatDemo/ContactViewController.swift:174-182 | The identifier is absent afterwards and every other entry is unchanged. An unknown identifier leaves the directory as it was. The count drops by one exactly when the identifier was present. The invariant is kept. |
| `ContactViewController.HypeDidReceive` | HypeChatDemo/ContactViewController.swift:126-142 | A message from a known peer is appended to that peer's store only. Every other conversation is unchanged. A message from an unknown peer changes nothing, because the method's write frame is empty. The invariant is kept. The peer's chat screen, if one is its delegate, keeps its store and text, records exactly one notification and scrolls to the last row of the store it shows. |
| `ContactViewController.NumberOfRows` | HypeChatDemo/ContactViewController.swift:184-186 | The contact row count is the number of directory entries, which is the number of known conversations. |

## Left out

- The SDK itself is not modelled: start, observer registration, the app identifier, the resolve request on discovery, the access token and state-change logging. These are closed-source calls, and `send` is only a parameter. `hypeDidResolve` and `hypeDidLose` only log and call the two directory methods, which are modelled.
- Concurrency is not modelled. Each main-queue block is one atomic step, and the interleavings of SDK threads before hand-off are not modelled.
- Send, delivery and send-failure callbacks are not modelled. They carry `Float` progress and only log.
- UIKit rendering is not modelled: cell dequeue and configuration, row heights, `reloadData`, the segue and the keyboard-frame animation. The segue's only data effect is the store setter, `ChatViewController.SetStore`.
- The contact rows' display order is not modelled. It comes from `Array(stores.values)`, and dictionary order is unspecified.
- UTF-8 encoding and decoding of message text are not modelled. `send` receives the text itself, and the store treats messages as opaque.
- The delegate's `weak` reference is not modelled. The model holds a plain reference, and deallocation of a closed chat screen is outside it.
- `isHasNewMessages` (never written) and the `NSLog` diagnostics are not modelled.
- ChatViewController.DidTapSendButton: the SDK is assumed to always return a message. The source force-unwraps the result only when a store is attached (`store?.add(message!)`), and there a nil result would crash the app. With no store attached, a nil result is harmless, and the model does not distinguish it.
- ChatViewController.DidTapSendButton: `send` is a function, so the same text sent twice to the same peer gives equal messages. `HYP.send` creates a new message on each call. No property here depends on two messages being distinct.
- ChatViewController.DidTapSendButton: a nil `textView.text`, which the source force-unwraps, is not modelled.
- Force-unwraps of the chat screen's store are preconditions, not crashes: `store != null` on `ChatViewController.DidAdd` (`self.store?...count)!`), `ChatViewController.NumberOfRows` (`store!`) and `ChatViewController.MessageAt` (`store?` yields nil, which `(message?.data)!` then unwraps), and `DelegateReady()` (a store's delegate shows some store) on `Store.Add`, `ChatViewController.DidTapSendButton` and `ContactViewController.HypeDidReceive`, whose notification reaches `didAdd`. The app always meets them: the segue (HypeChatDemo/ContactViewController.swift:228) attaches a non-nil store, and the store setter registers the delegate together with it. The crash a nil store would cause is not modelled.
- ChatViewController.ViewDidAppear: has no precondition. `store?.lastReadIndex = store!...` skips its right-hand side when the store is nil, so the model makes that case a no-op.
- Store.Add: Swift's 64-bit `Int` is not modelled. The message count and `lastReadIndex` are unbounded integers, since no conversation reaches 2^63 messages.
