// Walks through the app, checked against the contracts of the classes alone:
// a conversation on the chat screen, messages routed by the contact list to an
// open chat, the same peer resolved twice, a screen moved to another store, two
// screens on one store, and sending with no store attached.

/** Open the chat with a peer, receive "hello", read it, then receive "world". */
method UnreadScenario()
{
  var store := new Store<int, string>(Instance("P1", 1));
  var chat := new ChatViewController<int, string>();
  chat.SetStore(store);
  chat.ViewDidAppear();
  assert !store.HasNewMessages();

  store.Add("hello");
  assert store.HasNewMessages();
  assert chat.lastScrollRow == Some(0);

  chat.ViewDidAppear();
  assert !store.HasNewMessages();

  store.Add("world");
  assert store.HasNewMessages() && store.AllMessages() == ["hello", "world"];
  assert chat.lastScrollRow == Some(1);
  assert chat.NumberOfRows() == 2 && chat.MessageAt(1) == "world";
}

/** Empty text sends nothing; "hi" is sent to the peer and shown as the last row. */
method SendScenario(send: (string, Option<Instance<int>>) -> string)
{
  var p1 := Instance("P1", 1);
  var store := new Store<int, string>(p1);
  var chat := new ChatViewController<int, string>();
  chat.SetStore(store);

  chat.DidTapSendButton(send);
  assert store.AllMessages() == [];

  chat.inputText := "hi";
  chat.DidTapSendButton(send);
  assert chat.inputText == "";
  assert store.AllMessages() == [send("hi", Some(p1))];
  assert chat.lastScrollRow == Some(0);
}

/** Messages reach only a resolved sender's store. */
method RoutingScenario()
{
  var contacts := new ContactViewController<int, string>();
  var p1 := Instance("P1", 1);
  contacts.AddToResolvedInstancesDict(p1);
  contacts.HypeDidReceive("hello", p1);
  assert contacts.Conversations()["P1"].messages == ["hello"];

  // A message from a peer that was never resolved is dropped.
  contacts.HypeDidReceive("stray", Instance("P2", 2));
  assert contacts.Conversations()["P1"].messages == ["hello"];
  assert "P2" !in contacts.Conversations();
}

/** A lost peer's entry and history are gone; losing it again changes nothing. */
method LoseScenario()
{
  var contacts := new ContactViewController<int, string>();
  var p1 := Instance("P1", 1);
  contacts.AddToResolvedInstancesDict(p1);
  contacts.HypeDidReceive("hello", p1);

  contacts.RemoveFromResolvedInstancesDict(p1);
  assert "P1" !in contacts.Conversations();
  assert contacts.NumberOfRows() == 0;

  contacts.RemoveFromResolvedInstancesDict(p1);
  assert contacts.NumberOfRows() == 0;
}

/** Resolving a known peer again keeps one contact and starts an empty history. */
method DuplicateResolveScenario()
{
  var contacts := new ContactViewController<int, string>();
  contacts.AddToResolvedInstancesDict(Instance("P1", 1));
  contacts.HypeDidReceive("hello", Instance("P1", 1));
  assert contacts.Conversations()["P1"].messages == ["hello"];

  contacts.AddToResolvedInstancesDict(Instance("P1", 2));
  assert contacts.NumberOfRows() == 1;
  assert contacts.Conversations()["P1"] == Initial();
  assert contacts.stores["P1"].instance.handle == 2;
}

/** A message routed by the contact list reaches the open chat, which can then mark it read. */
method OpenChatScenario()
{
  var contacts := new ContactViewController<int, string>();
  var p1 := Instance("P1", 1);
  contacts.AddToResolvedInstancesDict(p1);
  var s := contacts.stores["P1"];
  var chat := new ChatViewController<int, string>();
  chat.SetStore(s);
  assert s.State() == Initial();

  contacts.HypeDidReceive("hello", p1);
  assert chat.store == s && chat.lastScrollRow == Some(0);
  assert s.State() == Appended(Initial(), "hello");
  assert s.HasNewMessages();

  chat.ViewDidAppear();
  assert !s.HasNewMessages() && s.AllMessages() == ["hello"];
}

/**
 * A screen moved to store b stays the delegate of store a. An append to a
 * scrolls to the last row of b, which is row -1 while b is empty.
 */
method StaleDelegateScenario()
{
  var a := new Store<int, string>(Instance("P1", 1));
  var b := new Store<int, string>(Instance("P2", 2));
  var chat := new ChatViewController<int, string>();
  chat.SetStore(a);
  chat.SetStore(b);

  a.Add("hello");
  assert chat.lastScrollRow == Some(-1);
  assert chat.NumberOfRows() == 0;
}

/** With no store attached, typed text is cleared and nothing is shown. */
method DetachedSendScenario(send: (string, Option<Instance<int>>) -> string)
{
  var chat := new ChatViewController<int, string>();
  chat.inputText := "hi";
  chat.DidTapSendButton(send);
  assert chat.inputText == "" && chat.lastScrollRow == None && chat.notifications == [];
  chat.ViewDidAppear();
}

/**
 * Two screens attach the same store; the second becomes its delegate. Sending
 * from the first leaves the second's store and draft text alone and scrolls it
 * to the new last row; empty text changes neither screen.
 */
method TwoScreensScenario(send: (string, Option<Instance<int>>) -> string)
{
  var s := new Store<int, string>(Instance("P1", 1));
  var c1 := new ChatViewController<int, string>();
  var c2 := new ChatViewController<int, string>();
  c1.SetStore(s);
  c2.SetStore(s);
  c2.inputText := "draft";

  c1.DidTapSendButton(send);
  assert c2.inputText == "draft" && c2.lastScrollRow == None;

  c1.inputText := "hi";
  c1.DidTapSendButton(send);
  assert c2.store == s && c2.inputText == "draft";
  assert c2.lastScrollRow == Some(0) && c1.lastScrollRow == None;
}
