// The contact list: the peer directory `stores`, keyed by the peer's string
// identifier. A resolved peer gets a fresh store (replacing any store already
// under its identifier), a lost peer's entry is dropped, and an incoming message
// goes to its sender's store or nowhere. Each SDK callback's main-queue block is
// one atomic step here.

/** The store is well formed and belongs to the peer whose identifier files it. */
ghost predicate FiledUnder<H, M>(store: Store<H, M>, id: string)
  reads store
{
  store.Valid() && store.instance.stringIdentifier == id
}

class ContactViewController<H, M> {
  var stores: map<string, Store<H, M>>

  /**
   * Every store is filed under its own peer's identifier. So no store is filed
   * under two identifiers, and an append to one entry leaves the others alone.
   */
  ghost predicate Valid()
    reads this, stores.Values
  {
    forall id :: id in stores ==> FiledUnder(stores[id], id)
  }

  /** The conversations the directory holds, as values. */
  ghost function Conversations(): map<string, StoreState<M>>
    reads this, stores.Values
  {
    map id | id in stores :: stores[id].State()
  }

  /** What an incoming message from `id` may change: that peer's store and its delegate. */
  ghost function Recipients(id: string): set<object>
    reads this, stores.Values
  {
    if id !in stores then {}
    else if stores[id].delegate == null then {stores[id]}
    else {stores[id], stores[id].delegate}
  }

  constructor ()
    ensures stores == map[] && Valid()
  {
    stores := map[];
  }

  /** A resolved peer gets a new, empty store, replacing any store it had. */
  method AddToResolvedInstancesDict(instance: Instance<H>)
    requires Valid()
    modifies this
    ensures Valid()
    ensures instance.stringIdentifier in stores
    ensures fresh(stores[instance.stringIdentifier])
    ensures stores[instance.stringIdentifier].instance == instance
    ensures stores[instance.stringIdentifier].delegate == null
    ensures stores == old(stores)[instance.stringIdentifier := stores[instance.stringIdentifier]]
    ensures Conversations() == old(Conversations())[instance.stringIdentifier := Initial()]
    ensures |stores| == if instance.stringIdentifier in old(stores) then old(|stores|) else old(|stores|) + 1
  {
    var id := instance.stringIdentifier;
    var store := new Store(instance);
    stores := stores[id := store];
    assert Conversations() == old(Conversations())[id := Initial()];
  }

  /** A lost peer's entry is dropped; an unknown identifier leaves the directory as it was. */
  method RemoveFromResolvedInstancesDict(instance: Instance<H>)
    requires Valid()
    modifies this
    ensures Valid()
    ensures instance.stringIdentifier !in stores
    ensures stores == old(stores) - {instance.stringIdentifier}
    ensures instance.stringIdentifier !in old(stores) ==> stores == old(stores)
    ensures Conversations() == old(Conversations()) - {instance.stringIdentifier}
    ensures |stores| == if instance.stringIdentifier in old(stores) then old(|stores|) - 1 else old(|stores|)
  {
    stores := stores - {instance.stringIdentifier};
    assert Conversations() == old(Conversations()) - {instance.stringIdentifier};
  }

  /**
   * An incoming message is appended to its sender's store only; a message from a
   * peer with no store is dropped and nothing changes.
   */
  method HypeDidReceive(message: M, fromInstance: Instance<H>)
    requires Valid()
    requires fromInstance.stringIdentifier in stores ==> stores[fromInstance.stringIdentifier].DelegateReady()
    modifies Recipients(fromInstance.stringIdentifier)
    ensures stores == old(stores) && Valid()
    ensures Conversations() ==
      if fromInstance.stringIdentifier in stores
      then old(Conversations())[fromInstance.stringIdentifier :=
             Appended(old(Conversations())[fromInstance.stringIdentifier], message)]
      else old(Conversations())
    ensures fromInstance.stringIdentifier in stores ==>
      var store := stores[fromInstance.stringIdentifier];
      && store.State() == Appended(old(store.State()), message)
      && store.instance == old(store.instance) && store.delegate == old(store.delegate)
    ensures fromInstance.stringIdentifier in stores && stores[fromInstance.stringIdentifier].delegate != null ==>
      var chat := stores[fromInstance.stringIdentifier].delegate;
      && chat.store == old(chat.store) && chat.inputText == old(chat.inputText)
      && chat.notifications == old(chat.notifications) + [(stores[fromInstance.stringIdentifier], message)]
      && chat.lastScrollRow == Some(|chat.store.messages| - 1)
  {
    var id := fromInstance.stringIdentifier;
    if id in stores {
      var store := stores[id];
      ghost var before := Conversations();
      ghost var expected := before[id := Appended(before[id], message)];
      store.Add(message);
      forall other | other in stores
        ensures Conversations()[other] == expected[other] && FiledUnder(stores[other], other)
      {
        if other != id {
          assert old(stores[other].instance) != old(store.instance);
        }
      }
      assert Conversations().Keys == expected.Keys;
    }
  }

  /** One contact row per known peer. */
  function NumberOfRows(): (r: nat)
    reads this, stores.Values
    ensures r == |stores| && r == |Conversations()|
  {
    assert Conversations().Keys == stores.Keys;
    |stores|
  }
}
