// The chat screen for one peer: it attaches a store (registering itself as the
// store's delegate), sends typed text through the SDK, marks everything read
// when it appears, and shows one table row per message.

datatype Option<T> = None | Some(value: T)

class ChatViewController<H, M> {
  // The attached store (`_store`); nil until the contact list hands one over.
  var store: Store?<H, M>
  // The contents of the text field.
  var inputText: string
  // The row most recently passed to the table's scroll-to-row call, if any.
  var lastScrollRow: Option<int>
  // Every delegate notification received, with the store that sent it.
  ghost var notifications: seq<(Store<H, M>, M)>

  constructor ()
    ensures store == null && inputText == "" && lastScrollRow == None && notifications == []
  {
    store := null;
    inputText := "";
    lastScrollRow := None;
    notifications := [];
  }

  /** The store setter: attach the store and become its delegate. */
  method SetStore(newValue: Store?<H, M>)
    modifies this, newValue
    ensures store == newValue
    ensures newValue != null ==>
      && newValue.delegate == this
      && newValue.State() == old(newValue.State())
      && newValue.instance == old(newValue.instance)
      && newValue.DelegateReady()
    ensures inputText == old(inputText) && lastScrollRow == old(lastScrollRow)
    ensures notifications == old(notifications)
  {
    store := newValue;
    if store != null {
      store.delegate := this;
    }
  }

  /**
   * The send button: non-empty text is sent to the attached store's peer (a nil
   * destination when none is attached), the field is cleared, and the message
   * the SDK returns is appended to the store. Empty text changes nothing.
   */
  method DidTapSendButton(send: (string, Option<Instance<H>>) -> M)
    requires store != null ==> store.DelegateReady()
    modifies this, store, if store != null then store.delegate else null
    ensures store == old(store)
    ensures |old(inputText)| == 0 ==> unchanged(this) && (store != null ==> unchanged(store))
    ensures |old(inputText)| > 0 ==> inputText == ""
    ensures |old(inputText)| > 0 && store != null ==>
      store.State() == Appended(old(store.State()), send(old(inputText), Some(store.instance)))
    ensures store != null ==> store.instance == old(store.instance) && store.delegate == old(store.delegate)
    ensures |old(inputText)| > 0 && store != null && store.delegate == this ==>
      && notifications == old(notifications) + [(store, send(old(inputText), Some(store.instance)))]
      && lastScrollRow == Some(|store.messages| - 1)
    ensures |old(inputText)| == 0 || store == null || store.delegate != this ==>
      lastScrollRow == old(lastScrollRow) && notifications == old(notifications)
    ensures store != null && store.delegate != null && store.delegate != this ==>
      var other := store.delegate;
      && other.store == old(other.store) && other.inputText == old(other.inputText)
      && (|old(inputText)| == 0 ==> unchanged(other))
      && (|old(inputText)| > 0 ==>
            && other.notifications == old(other.notifications) + [(store, send(old(inputText), Some(store.instance)))]
            && other.lastScrollRow == Some(|other.store.messages| - 1))
  {
    var text := inputText;
    if |text| > 0 {
      var destination := if store != null then Some(store.instance) else None;
      var message := send(text, destination);
      inputText := "";
      if store != null {
        store.Add(message);
      }
    }
  }

  /**
   * The store notification: reload and scroll to the last row of the attached
   * store (not of `sender`), which the source force-unwraps.
   */
  method DidAdd(sender: Store<H, M>, message: M)
    requires store != null
    modifies this
    ensures store == old(store) && inputText == old(inputText)
    ensures notifications == old(notifications) + [(sender, message)]
    ensures lastScrollRow == Some(|store.AllMessages()| - 1)
  {
    lastScrollRow := Some(|store.AllMessages()| - 1);
    notifications := notifications + [(sender, message)];
  }

  /**
   * Opening the screen marks every message of the attached store read. The
   * assignment is optional-chained, so with no store attached it does nothing.
   */
  method ViewDidAppear()
    modifies store
    ensures store != null ==> store.State() == MarkedAllRead(old(store.State()))
    ensures store != null ==> store.Valid() && !store.HasNewMessages()
    ensures store != null ==> store.instance == old(store.instance) && store.delegate == old(store.delegate)
    ensures store != null && old(store.Valid() && !store.HasNewMessages()) ==> unchanged(store)
  {
    if store != null {
      store.lastReadIndex := |store.AllMessages()|;
    }
  }

  /** One row per message of the attached store. */
  function NumberOfRows(): (r: nat)
    reads this, store
    requires store != null
    ensures r == |store.State().messages|
  {
    |store.AllMessages()|
  }

  /** Row `row` shows the message at that position of the log. */
  function MessageAt(row: int): (m: M)
    reads this, store
    requires store != null && 0 <= row < NumberOfRows()
    ensures m == store.State().messages[row]
  {
    store.AllMessages()[row]
  }
}
