// The per-peer message store: an append-only log of opaque SDK messages, an
// unread watermark, and one optional observer notified on every append.
// HYPMessage is the type parameter M; HYPInstance is Instance<H>, whose handle H
// stands for everything about a peer except its string identifier.

datatype Instance<H> = Instance(stringIdentifier: string, handle: H)

class Store<H, M> {
  // The observer (the chat screen showing this store, when one is open).
  var delegate: ChatViewController?<H, M>
  var messages: seq<M>
  var instance: Instance<H>
  var lastReadIndex: int

  /** The abstract value of the store. */
  ghost function State(): StoreState<M>
    reads this
  {
    StoreState(messages, lastReadIndex)
  }

  ghost predicate Valid()
    reads this
  {
    WellFormed(State())
  }

  /** Notifying the delegate is safe: its didAdd unwraps the store it shows. */
  ghost predicate DelegateReady()
    reads this, delegate
  {
    delegate != null ==> delegate.store != null
  }

  constructor (instance: Instance<H>)
    ensures this.instance == instance && delegate == null
    ensures State() == Initial() && Valid()
    ensures !HasNewMessages()
  {
    this.instance := instance;
    messages := [];
    lastReadIndex := 0;
    delegate := null;
  }

  /**
   * Appends the message, then notifies the delegate, if any, exactly once with
   * this store and that message. The delegate scrolls to the last row of the store
   * it shows, which is the new last row when it shows this store.
   */
  method Add(message: M)
    requires DelegateReady()
    modifies this, delegate
    ensures messages == old(messages) + [message]
    ensures State() == Appended(old(State()), message)
    ensures lastReadIndex == old(lastReadIndex) && instance == old(instance) && delegate == old(delegate)
    ensures old(Valid()) ==> Valid() && HasNewMessages()
    ensures delegate != null ==>
      && delegate.notifications == old(delegate.notifications) + [(this, message)]
      && delegate.store == old(delegate.store)
      && delegate.inputText == old(delegate.inputText)
      && delegate.lastScrollRow == Some(|delegate.store.messages| - 1)
    ensures delegate != null && delegate.store == this ==>
      && delegate.lastScrollRow == Some(|messages| - 1)
      && 0 <= delegate.lastScrollRow.value < delegate.NumberOfRows()
  {
    messages := messages + [message];
    if delegate != null {
      delegate.DidAdd(this, message);
    }
  }

  /** There are new messages exactly when some message lies past the watermark. */
  function HasNewMessages(): (r: bool)
    reads this
    ensures Valid() ==> (r <==> Unread(State()) != [])
  {
    lastReadIndex < |messages|
  }

  /**
   * The log in insertion order. A Dafny sequence is a value, so the caller gets
   * a copy that no later change to the store affects.
   */
  function AllMessages(): (r: seq<M>)
    reads this
    ensures r == State().messages
  {
    [] + messages
  }
}
