/**
 * The session ledger: one entry per session id holding its creation time and the last
 * coaching response recorded for it.  The store is a map; the random id and the clock
 * reading are supplied by the caller.
 */
module SessionStore {
  import opened Wrappers
  import opened Schemas

  datatype Session = Session(createdAt: real, lastResponse: Option<CoachingResponse>)

  type Store = map<string, Session>

  datatype StoreError = KeyError(sessionId: string)

  /** `create`: records a fresh entry with no response under `id`. */
  function Create(store: Store, id: string, now: real): (r: Store)
    ensures r.Keys == store.Keys + {id}
    ensures r[id] == Session(now, None)
    ensures forall k :: k in store && k != id ==> r[k] == store[k]
  {
    store[id := Session(now, None)]
  }

  /** `has`. */
  predicate Has(store: Store, id: string) {
    id in store
  }

  /** `set_last_response`: unknown ids raise `KeyError`; otherwise only that entry's response changes. */
  function SetLastResponse(store: Store, id: string, response: CoachingResponse): (r: Result<Store, StoreError>)
    ensures r.Err? <==> id !in store
    ensures r.Err? ==> r.error == KeyError(id)
    ensures r.Ok? ==> r.value.Keys == store.Keys
    ensures r.Ok? ==> r.value[id] == Session(store[id].createdAt, Some(response))
    ensures r.Ok? ==> forall k :: k in store && k != id ==> r.value[k] == store[k]
  {
    if id !in store then Err(KeyError(id))
    else Ok(store[id := store[id].(lastResponse := Some(response))])
  }

  /** `get_last_response`: `None` for unknown ids and for sessions without a response yet. */
  function GetLastResponse(store: Store, id: string): (r: Option<CoachingResponse>)
    ensures id !in store ==> r.None?
    ensures id in store ==> r == store[id].lastResponse
  {
    if id in store then store[id].lastResponse else None
  }

  /** A freshly drawn id is new to the store, which grows by one; its response is still `None`. */
  lemma CreateFresh(store: Store, id: string, now: real)
    requires id !in store
    ensures |Create(store, id, now)| == |store| + 1
    ensures Has(Create(store, id, now), id)
    ensures GetLastResponse(Create(store, id, now), id).None?
  {
  }

  /** What is set is what is read back. */
  lemma GetAfterSet(store: Store, id: string, response: CoachingResponse)
    requires Has(store, id)
    ensures SetLastResponse(store, id, response).Ok?
    ensures GetLastResponse(SetLastResponse(store, id, response).value, id) == Some(response)
  {
  }

  /** Setting one session leaves every other session's response readable as before. */
  lemma SetLeavesOthers(store: Store, id: string, other: string, response: CoachingResponse)
    requires Has(store, id) && other != id
    ensures GetLastResponse(SetLastResponse(store, id, response).value, other) == GetLastResponse(store, other)
    ensures Has(SetLastResponse(store, id, response).value, other) == Has(store, other)
  {
  }

  /** Of two writes to one session the second wins. */
  lemma LastWriteWins(store: Store, id: string, first: CoachingResponse, second: CoachingResponse)
    requires Has(store, id)
    ensures SetLastResponse(SetLastResponse(store, id, first).value, id, second) == SetLastResponse(store, id, second)
  {
    var once := SetLastResponse(store, id, second).value;
    var twice := SetLastResponse(SetLastResponse(store, id, first).value, id, second).value;
    assert twice.Keys == once.Keys;
    assert forall k :: k in once ==> twice[k] == once[k];
    assert twice == once;
  }

  /** The ledger operations a request sequence performs. */
  datatype StoreOp = CreateOp(id: string, now: real) | SetOp(id: string, response: CoachingResponse)

  /** The ids the operations create, whatever their order. */
  function CreatedIds(ops: seq<StoreOp>): set<string>
    decreases |ops|
  {
    if ops == [] then {}
    else (if ops[0].CreateOp? then {ops[0].id} else {}) + CreatedIds(ops[1..])
  }

  /** Applies the operations in order; a failed set (unknown id) leaves the store as it was. */
  function Replay(store: Store, ops: seq<StoreOp>): (r: Store)
    ensures r.Keys == store.Keys + CreatedIds(ops)
    decreases |ops|
  {
    if ops == [] then store
    else
      var next := match ops[0]
        case CreateOp(id, now) => Create(store, id, now)
        case SetOp(id, response) =>
          (match SetLastResponse(store, id, response)
           case Ok(s) => s
           case Err(_) => store);
      Replay(next, ops[1..])
  }

  /** An id is among the created ones exactly when some create operation names it. */
  lemma {:induction false} CreatedIdsIff(ops: seq<StoreOp>, id: string)
    ensures id in CreatedIds(ops) <==> exists i :: 0 <= i < |ops| && ops[i].CreateOp? && ops[i].id == id
    decreases |ops|
  {
    if ops != [] {
      CreatedIdsIff(ops[1..], id);
      if exists i :: 0 <= i < |ops[1..]| && ops[1..][i].CreateOp? && ops[1..][i].id == id {
        var i :| 0 <= i < |ops[1..]| && ops[1..][i].CreateOp? && ops[1..][i].id == id;
        assert ops[i + 1] == ops[1..][i];
      }
      if exists i :: 0 <= i < |ops| && ops[i].CreateOp? && ops[i].id == id {
        var i :| 0 <= i < |ops| && ops[i].CreateOp? && ops[i].id == id;
        if i > 0 {
          assert ops[1..][i - 1] == ops[i];
        }
      }
    }
  }

  /** Starting from the empty ledger, a session is known exactly when some operation created it. */
  lemma HasIffCreated(ops: seq<StoreOp>, id: string)
    ensures Has(Replay(map[], ops), id) <==> exists i :: 0 <= i < |ops| && ops[i].CreateOp? && ops[i].id == id
  {
    CreatedIdsIff(ops, id);
  }
}
