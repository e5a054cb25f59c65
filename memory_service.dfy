/** The per-session conversation history (app/services/memory_service.py):
    a table from session id to its most recent messages, trimmed to the
    last `MaxHistory` after every append. */
module MemoryService {

  /** At most six messages are kept per session. */
  const MaxHistory: nat := 6

  /** `{"role": role, "content": content}` */
  datatype Message = Message(role: string, content: string)

  /** The last `n` elements of `s`, or all of `s` when it is shorter:
      Python's `s[-n:]` for `n > 0`, applied only when `len(s) > n`. */
  function LastN<T>(s: seq<T>, n: nat): (r: seq<T>)
    ensures |r| == if |s| <= n then |s| else n
  {
    if |s| > n then s[|s| - n..] else s
  }

  /** What is kept is a suffix: the newest messages, in their order. */
  lemma LastNIsSuffix<T>(s: seq<T>, n: nat)
    ensures LastN(s, n) == s[|s| - |LastN(s, n)|..]
    ensures |s| > 0 && n > 0 ==> LastN(s, n)[|LastN(s, n)| - 1] == s[|s| - 1]
  {
  }

  /** Trimming after every append keeps the same suffix as trimming once at
      the end: the trimmed history after one more message is the trimmed
      whole history with that message. */
  lemma {:induction false} LastNSnoc<T>(s: seq<T>, x: T, n: nat)
    requires n > 0
    ensures LastN(LastN(s, n) + [x], n) == LastN(s + [x], n)
  {
    var t := LastN(s, n);
    var u := s + [x];
    if |s| > n {
      assert t + [x] == u[|u| - (n + 1)..];
      assert LastN(t + [x], n) == u[|u| - n..];
    }
  }

  /** The entry of `sessionId`, or the empty list: what a `defaultdict(list)` lookup yields. */
  function Entry(m: map<string, seq<Message>>, sessionId: string): seq<Message>
  {
    if sessionId in m then m[sessionId] else []
  }

  /** Every stored history is the last `MaxHistory` messages added to its
      session, and every session that was ever added to has a history. */
  predicate Consistent(store: map<string, seq<Message>>, added: map<string, seq<Message>>)
  {
    (forall k :: k in store ==> store[k] == LastN(Entry(added, k), MaxHistory)) &&
    (forall k :: k in added ==> k in store)
  }

  /** Appending a message to one session and trimming keeps the history
      table consistent with the log of added messages. */
  lemma AddKeepsConsistent(store: map<string, seq<Message>>, added: map<string, seq<Message>>, sessionId: string, m: Message)
    requires Consistent(store, added)
    ensures Consistent(
      store[sessionId := LastN(Entry(store, sessionId) + [m], MaxHistory)],
      added[sessionId := Entry(added, sessionId) + [m]])
  {
    var store' := store[sessionId := LastN(Entry(store, sessionId) + [m], MaxHistory)];
    SameSession(store, added, sessionId, m);
    OtherSessions(store, added, sessionId, store'[sessionId], Entry(added, sessionId) + [m]);
  }

  /** The trimmed history of the session written to matches its log. */
  lemma SameSession(store: map<string, seq<Message>>, added: map<string, seq<Message>>, sessionId: string, m: Message)
    requires Consistent(store, added)
    ensures LastN(Entry(store, sessionId) + [m], MaxHistory) == LastN(Entry(added, sessionId) + [m], MaxHistory)
  {
    assert Entry(store, sessionId) == LastN(Entry(added, sessionId), MaxHistory);
    LastNSnoc(Entry(added, sessionId), m, MaxHistory);
  }

  /** The histories of the other sessions still match their logs. */
  lemma OtherSessions(store: map<string, seq<Message>>, added: map<string, seq<Message>>, sessionId: string,
                      h: seq<Message>, l: seq<Message>)
    requires Consistent(store, added)
    ensures forall k :: k in store && k != sessionId ==> store[sessionId := h][k] == LastN(Entry(added[sessionId := l], k), MaxHistory)
  {
    forall k | k in store && k != sessionId
      ensures store[sessionId := h][k] == LastN(Entry(added[sessionId := l], k), MaxHistory)
    {
      OtherSession(store, added, sessionId, h, l, k);
    }
  }

  lemma OtherSession(store: map<string, seq<Message>>, added: map<string, seq<Message>>, sessionId: string,
                     h: seq<Message>, l: seq<Message>, k: string)
    requires Consistent(store, added)
    requires k != sessionId && k in store
    ensures store[sessionId := h][k] == LastN(Entry(added[sessionId := l], k), MaxHistory)
  {
    assert Entry(added[sessionId := l], k) == Entry(added, k);
  }

  /** The defaultdict access of an unseen session keeps the table consistent:
      nothing was added to that session. */
  lemma LookupKeepsConsistent(store: map<string, seq<Message>>, added: map<string, seq<Message>>, sessionId: string)
    requires Consistent(store, added) && sessionId !in store
    ensures sessionId !in added
    ensures Consistent(store[sessionId := []], added)
  {
    var store' := store[sessionId := []];
    assert forall k :: k in store' ==> store'[k] == LastN(Entry(added, k), MaxHistory) by {
      forall k | k in store'
        ensures store'[k] == LastN(Entry(added, k), MaxHistory)
      {
        if k != sessionId {
          assert store'[k] == store[k];
        }
      }
    }
  }

  class MemoryStore {
    /** `_memory_store`: session id -> history. */
    var store: map<string, seq<Message>>
    /** Every message ever added, per session (not part of the program state). */
    ghost var added: map<string, seq<Message>>

    ghost predicate Valid()
      reads this
    {
      Consistent(store, added)
    }

    /** The module-level `defaultdict(list)`, empty at start-up. */
    constructor ()
      ensures Valid()
      ensures store == map[] && added == map[]
    {
      store := map[];
      added := map[];
    }

    /** get_history: the session's history; an unseen session gets an empty
        history, and the defaultdict access records it. */
    method GetHistory(sessionId: string) returns (history: seq<Message>)
      requires Valid()
      modifies this
      ensures Valid()
      ensures history == Entry(old(store), sessionId)
      ensures history == LastN(Entry(added, sessionId), MaxHistory)
      ensures store == if sessionId in old(store) then old(store) else old(store)[sessionId := []]
      ensures added == old(added)
    {
      if sessionId !in store {
        LookupKeepsConsistent(store, added, sessionId);
        assert LastN(Entry(added, sessionId), MaxHistory) == [];
        store := store[sessionId := []];
      } else {
        assert store[sessionId] == LastN(Entry(added, sessionId), MaxHistory);
      }
      history := store[sessionId];
    }

    /** add_message: appends the message to the session's history, then
        keeps only the last `MaxHistory` messages. Other sessions are untouched. */
    method AddMessage(sessionId: string, role: string, content: string)
      requires Valid()
      modifies this
      ensures Valid()
      ensures added == old(added)[sessionId := Entry(old(added), sessionId) + [Message(role, content)]]
      ensures store == old(store)[sessionId := LastN(Entry(old(store), sessionId) + [Message(role, content)], MaxHistory)]
      ensures store[sessionId] == LastN(Entry(added, sessionId), MaxHistory)
      ensures 0 < |store[sessionId]| <= MaxHistory
      ensures store[sessionId][|store[sessionId]| - 1] == Message(role, content)
    {
      ghost var log := Entry(added, sessionId);
      AddKeepsConsistent(store, added, sessionId, Message(role, content));
      var history := Entry(store, sessionId);
      history := history + [Message(role, content)];
      if |history| > MaxHistory {
        history := history[|history| - MaxHistory..];
      }
      store := store[sessionId := history];
      added := added[sessionId := log + [Message(role, content)]];
    }
  }
}
