/** `assertNotExists`: the uniqueness guard the services run before a write. */
module CommonUtils {
  import opened Wrappers
  import opened Tables

  /** Throws BadRequest(errorMessage) when `findOneBy(where)` returns a row, unless a
      truthy `excludeId` is given and equals that row's id. Only reads the table. */
  function AssertNotExists<T>(rows: seq<Row<T>>, where: Row<T> -> bool, errorMessage: string,
                              excludeId: Option<Id> := None): (r: Outcome<Error>)
    ensures r.Fail? ==> r.error == BadRequest(errorMessage)
    ensures !Truthy(excludeId) ==> (r.Fail? <==> exists i :: 0 <= i < |rows| && Matches(rows[i], where))
    ensures Truthy(excludeId) ==> (r.Fail? <==> var f := Find(rows, where); f.Some? && f.value.id != excludeId.value)
  {
    var existing := Find(rows, where);
    if existing.Some? && (!Truthy(excludeId) || existing.value.id != excludeId.value) then
      Fail(BadRequest(errorMessage))
    else
      Pass
  }

  /** The id a truthy `excludeId` spares from the check. */
  function Spared(excludeId: Option<Id>): Option<Id> {
    if Truthy(excludeId) then excludeId else None
  }

  /** On a table whose live keys are unique, the guard on a key fails exactly when a
      live row other than the spared one holds that key: a matching row whose id is
      `excludeId` never causes failure, any other matching row always does. */
  lemma AssertNotExistsByKey<T, K>(rows: seq<Row<T>>, key: T -> Option<K>, k: K, errorMessage: string, excludeId: Option<Id>)
    requires UniqueLive(rows, key)
    ensures AssertNotExists(rows, ByKey(key, k), errorMessage, excludeId).Fail?
            <==> Taken(rows, key, k, Spared(excludeId))
  {
    if Truthy(excludeId) {
      FindByKeyIsTaken(rows, key, k, excludeId);
    } else {
      FindByKeyExists(rows, key, k);
    }
  }
}
