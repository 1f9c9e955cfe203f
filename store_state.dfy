// The value behind one peer's message store: the conversation log and the
// unread watermark, with the two state changes the app makes to it (append a
// message, mark everything read). The Store class ties its fields to this value,
// and the lemmas below state what sequences of those changes do.

datatype StoreState<M> = StoreState(messages: seq<M>, lastReadIndex: int)

/** The store invariant: the watermark lies inside the log. */
ghost predicate WellFormed<M>(s: StoreState<M>)
{
  0 <= s.lastReadIndex <= |s.messages|
}

/** The state of a store right after it is created for a peer. */
function Initial<M>(): (s: StoreState<M>)
  ensures WellFormed(s) && s.messages == []
{
  StoreState([], 0)
}

/** The messages past the watermark, that is, not yet seen by the user. */
function Unread<M>(s: StoreState<M>): (r: seq<M>)
  requires WellFormed(s)
  ensures |r| == |s.messages| - s.lastReadIndex
  ensures s.messages == s.messages[..s.lastReadIndex] + r
{
  s.messages[s.lastReadIndex..]
}

/** Appending a message: the log grows by exactly that message at its end. */
function Appended<M>(s: StoreState<M>, m: M): (r: StoreState<M>)
  ensures |r.messages| == |s.messages| + 1
  ensures r.messages[..|s.messages|] == s.messages && r.messages[|s.messages|] == m
  ensures r.lastReadIndex == s.lastReadIndex
  ensures WellFormed(s) ==> WellFormed(r) && Unread(r) == Unread(s) + [m]
{
  StoreState(s.messages + [m], s.lastReadIndex)
}

/** Marking all read: the watermark moves to the end of the log. */
function MarkedAllRead<M>(s: StoreState<M>): (r: StoreState<M>)
  ensures r.messages == s.messages
  ensures WellFormed(r) && Unread(r) == []
{
  s.(lastReadIndex := |s.messages|)
}

/** The two things that change a store: a message added, or the chat screen opened. */
datatype StoreEvent<M> = Added(message: M) | MarkedRead

function Step<M>(s: StoreState<M>, e: StoreEvent<M>): (r: StoreState<M>)
  ensures WellFormed(s) ==> WellFormed(r)
{
  match e
  case Added(m) => Appended(s, m)
  case MarkedRead => MarkedAllRead(s)
}

/** The state after the events, applied in order, starting from s. */
function Replay<M>(s: StoreState<M>, events: seq<StoreEvent<M>>): StoreState<M>
  decreases |events|
{
  if events == [] then s
  else Step(Replay(s, events[..|events| - 1]), events[|events| - 1])
}

/** The payloads of the Added events, in the order they happened. */
function AddedMessages<M>(events: seq<StoreEvent<M>>): seq<M>
  decreases |events|
{
  if events == [] then []
  else
    var last := events[|events| - 1];
    AddedMessages(events[..|events| - 1]) + (if last.Added? then [last.message] else [])
}

/**
 * Reference definition of what is unread after the events: the messages added
 * since the last MarkedRead, or, when there is none, what was unread before
 * (`unread`) followed by everything added.
 */
function UnreadAfter<M>(unread: seq<M>, events: seq<StoreEvent<M>>): seq<M>
  decreases |events|
{
  if events == [] then unread
  else
    match events[|events| - 1]
    case Added(m) => UnreadAfter(unread, events[..|events| - 1]) + [m]
    case MarkedRead => []
}

/** One Added event per message, in order: the store's history after those add calls. */
function Adds<M>(ms: seq<M>): (events: seq<StoreEvent<M>>)
  ensures |events| == |ms|
  ensures forall i :: 0 <= i < |ms| ==> events[i] == Added(ms[i])
{
  seq(|ms|, i requires 0 <= i < |ms| => Added(ms[i]))
}

/** Every event keeps the watermark inside the log. */
lemma {:induction false} ReplayWellFormed<M>(s: StoreState<M>, events: seq<StoreEvent<M>>)
  requires WellFormed(s)
  ensures WellFormed(Replay(s, events))
  decreases |events|
{
  if events != [] {
    ReplayWellFormed(s, events[..|events| - 1]);
  }
}

/** The log is append-only: it is the old log followed by the added messages, in order. */
lemma {:induction false} ReplayMessages<M>(s: StoreState<M>, events: seq<StoreEvent<M>>)
  ensures Replay(s, events).messages == s.messages + AddedMessages(events)
  decreases |events|
{
  if events != [] {
    ReplayMessages(s, events[..|events| - 1]);
  }
}

/** The unread messages are exactly those added since the last time all was marked read. */
lemma {:induction false} ReplayUnread<M>(s: StoreState<M>, events: seq<StoreEvent<M>>)
  requires WellFormed(s)
  ensures WellFormed(Replay(s, events))
  ensures Unread(Replay(s, events)) == UnreadAfter(Unread(s), events)
  decreases |events|
{
  ReplayWellFormed(s, events);
  if events != [] {
    ReplayUnread(s, events[..|events| - 1]);
  }
}

/**
 * After at least one event, there is something unread exactly when the last
 * event was an append: an append always leaves the newest message unread, and
 * marking read always leaves nothing unread.
 */
lemma {:induction false} LastEventDecidesUnread<M>(s: StoreState<M>, events: seq<StoreEvent<M>>)
  requires WellFormed(s) && events != []
  ensures WellFormed(Replay(s, events))
  ensures Unread(Replay(s, events)) != [] <==> events[|events| - 1].Added?
{
  ReplayWellFormed(s, events[..|events| - 1]);
}

/** Marking read a second time with no append in between changes nothing. */
lemma MarkReadIdempotent<M>(s: StoreState<M>, events: seq<StoreEvent<M>>)
  ensures Replay(s, events + [MarkedRead, MarkedRead]) == Replay(s, events + [MarkedRead])
{
  var once := events + [MarkedRead];
  assert (events + [MarkedRead, MarkedRead])[..|once|] == once;
}

/** A run of add calls on a fresh store leaves exactly those messages, in call order. */
lemma AddsInCallOrder<M>(ms: seq<M>)
  ensures Replay(Initial(), Adds(ms)).messages == ms
  ensures WellFormed(Replay(Initial(), Adds(ms)))
  ensures Unread(Replay(Initial(), Adds(ms))) == ms
{
  ReplayMessages(Initial(), Adds(ms));
  AddedMessagesOfAdds(ms);
  ReplayUnread(Initial(), Adds(ms));
  UnreadAfterAdds(ms);
}

lemma {:induction false} AddedMessagesOfAdds<M>(ms: seq<M>)
  ensures AddedMessages(Adds(ms)) == ms
  decreases |ms|
{
  if ms != [] {
    var init := ms[..|ms| - 1];
    assert Adds(ms)[..|ms| - 1] == Adds(init);
    AddedMessagesOfAdds(init);
    assert ms == init + [ms[|ms| - 1]];
  }
}

lemma {:induction false} UnreadAfterAdds<M>(ms: seq<M>)
  ensures UnreadAfter([], Adds(ms)) == ms
  decreases |ms|
{
  if ms != [] {
    var init := ms[..|ms| - 1];
    assert Adds(ms)[..|ms| - 1] == Adds(init);
    UnreadAfterAdds(init);
    assert ms == init + [ms[|ms| - 1]];
  }
}
