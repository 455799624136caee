/** The in-memory chat-history store of `ChatManager` (and of the module-level
    `chat_history_store` in `main.py`): a map from session id to the ordered
    list of `{role, content}` messages of that session. JSON persistence is
    outside the model. */
module ChatStore {
  import opened Base

  type SessionId = string

  datatype Message = Message(role: string, content: string)

  type Store = map<SessionId, seq<Message>>

  /** One entry of `list_sessions`. */
  datatype SessionSummary = SessionSummary(sessionId: SessionId, messageCount: nat, lastMessage: string)

  /** How many characters of the last message a summary shows. */
  const PreviewLength: nat := 100

  /** `get_session_history`: the session's messages, or an empty list for an
      unknown id. The store is a value, so the lookup cannot create a session. */
  function GetSessionHistory(store: Store, id: SessionId): (h: seq<Message>)
    ensures id in store ==> h == store[id]
    ensures id !in store ==> h == []
  {
    if id in store then store[id] else []
  }

  /** `add_message`: creates the session when it is missing and appends the
      message at its end. */
  function AddMessage(store: Store, id: SessionId, role: string, content: string): (s: Store)
    ensures s.Keys == store.Keys + {id}
    ensures s[id] == GetSessionHistory(store, id) + [Message(role, content)]
    ensures forall other :: other in store && other != id ==> s[other] == store[other]
  {
    store[id := GetSessionHistory(store, id) + [Message(role, content)]]
  }

  /** Every session of `before` is still present in `after`, with its old
      messages as a prefix: the store only ever grows at the ends of sessions. */
  ghost predicate Extends(before: Store, after: Store)
  {
    forall id :: id in before ==> id in after && before[id] <= after[id]
  }

  lemma ExtendsReflexive(s: Store)
    ensures Extends(s, s)
  {
  }

  lemma ExtendsTransitive(a: Store, b: Store, c: Store)
    requires Extends(a, b) && Extends(b, c)
    ensures Extends(a, c)
  {
    forall id | id in a ensures id in c && a[id] <= c[id] {
      assert a[id] <= b[id] && b[id] <= c[id];
    }
  }

  /** Appending is append-only, and the history read back afterwards is the
      old history followed by exactly the new message. */
  lemma AddMessageAppends(store: Store, id: SessionId, role: string, content: string)
    ensures Extends(store, AddMessage(store, id, role, content))
    ensures GetSessionHistory(AddMessage(store, id, role, content), id)
         == GetSessionHistory(store, id) + [Message(role, content)]
    ensures forall other :: other != id ==>
      GetSessionHistory(AddMessage(store, id, role, content), other) == GetSessionHistory(store, other)
  {
  }

  datatype Deletion = Deletion(deleted: bool, store: Store)

  /** `delete_session`: removes the session and reports `True` exactly when it
      was there; otherwise reports `False` and changes nothing. */
  function DeleteSession(store: Store, id: SessionId): (r: Deletion)
    ensures r.deleted <==> id in store
    ensures r.store.Keys == store.Keys - {id}
    ensures forall other :: other in r.store ==> r.store[other] == store[other]
    ensures !r.deleted ==> r.store == store
  {
    if id in store then Deletion(true, store - {id}) else Deletion(false, store)
  }

  /** Deleting a session and then asking for it gives an empty history. */
  lemma DeleteThenHistory(store: Store, id: SessionId)
    ensures GetSessionHistory(DeleteSession(store, id).store, id) == []
    ensures DeleteSession(DeleteSession(store, id).store, id) == Deletion(false, DeleteSession(store, id).store)
  {
  }

  datatype Clearing = Clearing(removed: nat, store: Store)

  /** `clear_all_sessions`: reports how many sessions there were and leaves
      none. */
  function ClearAllSessions(store: Store): (r: Clearing)
    ensures r.removed == |store|
    ensures r.store == map[]
  {
    Clearing(|store|, map[])
  }

  /** The `last_message` field: at most the first 100 characters of the last
      message followed by `...` (even when nothing was cut), or `No messages`. */
  function LastMessagePreview(messages: seq<Message>): (p: string)
    ensures |messages| == 0 ==> p == "No messages"
    ensures |messages| > 0 ==>
      var last := messages[|messages| - 1].content;
      && |p| == Min(|last|, PreviewLength) + 3
      && p[..|p| - 3] <= last
      && p[|p| - 3..] == "..."
  {
    if |messages| == 0 then "No messages"
    else Take(messages[|messages| - 1].content, PreviewLength) + "..."
  }

  /** A short last message is shown whole, followed by the ellipsis. */
  lemma PreviewOfShortMessage(messages: seq<Message>, m: Message)
    requires |m.content| <= PreviewLength
    ensures LastMessagePreview(messages + [m]) == m.content + "..."
  {
  }

  ghost predicate Summarizes(store: Store, e: SessionSummary)
  {
    && e.sessionId in store
    && e.messageCount == |store[e.sessionId]|
    && e.lastMessage == LastMessagePreview(store[e.sessionId])
  }

  /** The session ids of a listing, in listing order. */
  function Ids(entries: seq<SessionSummary>): (ids: seq<SessionId>)
    ensures |ids| == |entries|
    ensures forall i :: 0 <= i < |entries| ==> ids[i] == entries[i].sessionId
  {
    if |entries| == 0 then [] else Ids(entries[..|entries| - 1]) + [entries[|entries| - 1].sessionId]
  }

  /** What a partial listing satisfies: each entry summarizes a distinct
      session no longer waiting in `remaining`, and every session is either
      listed or still waiting. */
  ghost predicate Listing(store: Store, entries: seq<SessionSummary>, remaining: set<SessionId>)
  {
    && remaining <= store.Keys
    && |entries| + |remaining| == |store.Keys|
    && (forall i :: 0 <= i < |entries| ==> Summarizes(store, entries[i]))
    && (forall i :: 0 <= i < |entries| ==> entries[i].sessionId !in remaining)
    && (forall id :: id in store ==> id in remaining || id in Ids(entries))
    && (forall i, j :: 0 <= i < j < |entries| ==> entries[i].sessionId != entries[j].sessionId)
  }

  lemma ListingStep(store: Store, entries: seq<SessionSummary>, remaining: set<SessionId>, entry: SessionSummary)
    requires Listing(store, entries, remaining)
    requires entry.sessionId in remaining && Summarizes(store, entry)
    ensures Listing(store, entries + [entry], remaining - {entry.sessionId})
  {
    var grown := entries + [entry];
    var id := entry.sessionId;
    assert grown[..|entries|] == entries;
    assert Ids(grown) == Ids(entries) + [id];
    assert |remaining - {id}| == |remaining| - 1;
    forall i, j | 0 <= i < j < |grown| ensures grown[i].sessionId != grown[j].sessionId {
      if j < |entries| {
        assert grown[i] == entries[i] && grown[j] == entries[j];
      } else {
        assert grown[i] == entries[i];
      }
    }
  }

  /** `list_sessions`: one summary per session. Python walks the dict in
      insertion order; a map has no order, so the sessions are taken in an
      arbitrary one, and the contract speaks of which entries appear rather
      than where. */
  method ListSessions(store: Store) returns (entries: seq<SessionSummary>)
    ensures |entries| == |store|
    ensures forall i :: 0 <= i < |entries| ==> Summarizes(store, entries[i])
    ensures forall id :: id in store ==> id in Ids(entries)
    ensures forall i, j :: 0 <= i < j < |entries| ==> entries[i].sessionId != entries[j].sessionId
  {
    entries := [];
    var remaining := store.Keys;
    while remaining != {}
      invariant Listing(store, entries, remaining)
      decreases remaining
    {
      var id :| id in remaining;
      var messages := store[id];
      var entry := SessionSummary(id, |messages|, LastMessagePreview(messages));
      ListingStep(store, entries, remaining, entry);
      entries := entries + [entry];
      remaining := remaining - {id};
    }
    assert |store| == |store.Keys|;
  }
}
