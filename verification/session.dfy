/** The FastAPI service's in-memory session store: a map from session id to session state.

    `uuid4()` is modelled as a fresh-id argument that is non-empty and not yet a key; the lock is
    not modelled, since every operation here is one atomic map update. */
module Session {
  import opened Wrappers
  import opened Transcript

  /** The language a session gets when the caller names none. */
  const DefaultSessionLanguage: string := "de"

  datatype SessionState = SessionState(language: string, initialized: bool, chat: History)

  type Store = map<string, SessionState>

  /** What the uuid4 oracle guarantees about the id it hands out. */
  predicate FreshFor(store: Store, id: string) {
    id != "" && id !in store
  }

  /** Every session of `before` is still in `after`, with the same state. */
  predicate Preserves(before: Store, after: Store) {
    forall k :: k in before ==> k in after && after[k] == before[k]
  }

  /** The Python truthiness test `if session_id:` on a cookie value. */
  predicate Present(cookie: Option<string>) {
    cookie.Some? && cookie.value != ""
  }

  /** `new_session(language)`: one new entry under the fresh id, uninitialised, with an empty
      chat and the given language (or "de"); every other session untouched. */
  function NewSession(store: Store, freshId: string, language: Option<string>): (r: (Store, string))
    requires FreshFor(store, freshId)
    ensures r.1 == freshId
    ensures r.0.Keys == store.Keys + {freshId} && |r.0| == |store| + 1
    ensures r.0[freshId] == SessionState(language.GetOr(DefaultSessionLanguage), false, [])
    ensures Preserves(store, r.0)
  {
    (store[freshId := SessionState(language.GetOr(DefaultSessionLanguage), false, [])], freshId)
  }

  /** `get_or_create(session_id, language)`: a known non-empty id is returned with the store
      unchanged; a missing, empty or unknown id gets a new session. */
  function GetOrCreate(store: Store, sessionId: Option<string>, freshId: string,
                       language: Option<string>): (r: (Store, string))
    requires FreshFor(store, freshId)
    ensures Present(sessionId) && sessionId.value in store ==> r == (store, sessionId.value)
    ensures !(Present(sessionId) && sessionId.value in store) ==>
      r.1 == freshId && r.0.Keys == store.Keys + {freshId} && |r.0| == |store| + 1
      && r.0[freshId] == SessionState(language.GetOr(DefaultSessionLanguage), false, [])
    ensures Preserves(store, r.0)
    ensures r.1 in r.0
  {
    if Present(sessionId) && sessionId.value in store then (store, sessionId.value)
    else NewSession(store, freshId, language)
  }

  /** `get(session_id)`: the session's state, or `KeyError` for an id not in the store. */
  function Get(store: Store, id: string): (r: Result<SessionState>)
    ensures id in store <==> r.Success?
    ensures r.Success? ==> r.value == store[id]
    ensures r.Failure? ==> r.error == KeyError(id)
  {
    Lookup(store, id)
  }

  /** Calling `get_or_create` again with the id it returned changes nothing. */
  lemma GetOrCreateIdempotent(store: Store, sessionId: Option<string>, freshId: string,
                              freshId2: string, language: Option<string>)
    requires FreshFor(store, freshId)
    requires FreshFor(GetOrCreate(store, sessionId, freshId, language).0, freshId2)
    ensures var (s1, id) := GetOrCreate(store, sessionId, freshId, language);
      GetOrCreate(s1, Some(id), freshId2, language) == (s1, id)
  {
    var (s1, id) := GetOrCreate(store, sessionId, freshId, language);
    assert id != "" by {
      if !(Present(sessionId) && sessionId.value in store) {
        assert id == freshId;
      }
    }
  }
}
