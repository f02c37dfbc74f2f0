/**
 * The in-memory store catalog (backend/internal/repository/store_repository.go):
 * a map from store id to store, filled from a list of stores and then only
 * looked up. Opening and decoding the store file are not modelled: the loader
 * receives the decoded list, or the failure that replaced it.
 */
module StoreRepository {
  import opened Models

  /** The ids a list of stores mentions. */
  ghost function ListedIds(list: seq<Store>): set<string> {
    set s | s in list :: s.storeId
  }

  /**
   * The catalog `m` after inserting the stores of `list` in order, each under
   * its own id. Every listed id is catalogued afterwards and no id is dropped.
   */
  function InsertAll(m: map<string, Store>, list: seq<Store>): (r: map<string, Store>)
    ensures r.Keys == m.Keys + ListedIds(list)
  {
    if list == [] then m
    else
      var last := list[|list| - 1];
      assert ListedIds(list) == ListedIds(list[..|list| - 1]) + {last.storeId} by {
        assert list == list[..|list| - 1] + [last];
      }
      InsertAll(m, list[..|list| - 1])[last.storeId := last]
  }

  /** Of several stores with one id, the last in list order is the one catalogued. */
  lemma {:induction false} InsertAllLastWins(m: map<string, Store>, list: seq<Store>, i: nat)
    requires i < |list|
    requires forall k :: i < k < |list| ==> list[k].storeId != list[i].storeId
    ensures list[i].storeId in InsertAll(m, list)
    ensures InsertAll(m, list)[list[i].storeId] == list[i]
  {
    if i < |list| - 1 {
      InsertAllLastWins(m, list[..|list| - 1], i);
    }
  }

  /** An id the list does not mention keeps whatever entry it had, or none. */
  lemma {:induction false} InsertAllKeepsUnlisted(m: map<string, Store>, list: seq<Store>, id: string)
    requires forall k :: 0 <= k < |list| ==> list[k].storeId != id
    ensures id in InsertAll(m, list) <==> id in m
    ensures id in m ==> InsertAll(m, list)[id] == m[id]
  {
    if list != [] {
      InsertAllKeepsUnlisted(m, list[..|list| - 1], id);
    }
  }

  class InMemoryStoreRepository {
    var stores: map<string, Store>

    constructor ()
      ensures stores == map[]
    {
      stores := map[];
    }

    /** The store catalogued under `id`, or StoreNotFound; the catalog is only read. */
    method GetByID(id: string) returns (r: Result<Store>)
      ensures id in stores ==> r == Ok(stores[id])
      ensures id !in stores ==> r == Err(StoreNotFound)
    {
      if id !in stores {
        return Err(StoreNotFound);
      }
      r := Ok(stores[id]);
    }

    /**
     * Adds the decoded stores to the catalog, later entries overwriting earlier
     * ones with the same id; the catalog is never cleared. A failed open or
     * decode is returned and leaves the catalog as it was.
     */
    method LoadStores(decoded: Result<seq<Store>>) returns (err: Option<Error>)
      modifies this
      ensures decoded.Err? ==> err == Some(decoded.error) && stores == old(stores)
      ensures decoded.Ok? ==> err == None && stores == InsertAll(old(stores), decoded.value)
    {
      if decoded.Err? {
        return Some(decoded.error);
      }
      var list := decoded.value;
      for i := 0 to |list|
        invariant stores == InsertAll(old(stores), list[..i])
      {
        assert list[..i + 1][..i] == list[..i];
        stores := stores[list[i].storeId := list[i]];
      }
      assert list[..|list|] == list;
      err := None;
    }
  }
}
