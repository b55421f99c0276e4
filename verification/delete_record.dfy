/** `deleteRecord`: removes one of the signed-in user's records from the
    store. The store is a table of rows keyed by record id; the delete names
    both the id and the owner, so it finds nothing (and fails) when the id
    is absent or belongs to someone else. A store that cannot be reached
    fails the same way. */
module DeleteRecord {
  import opened Wrappers
  import opened RecordStore
  import Ai

  const UserNotFound: string := "Usuario no encontrado"
  const RecordDeleted: string := "Registro eliminado"
  const DatabaseError: string := "Error de base de datos"

  /** `{ message?, error? }`. */
  datatype DeleteResult = DeleteResult(message: Option<string>, error: Option<string>)

  /** Every row is filed under its own id. */
  predicate Keyed(rows: map<string, StoredRecord>) {
    forall id :: id in rows ==> rows[id].id == id
  }

  /** `where: { id: recordId, userId }` selects a row. */
  predicate Matches(rows: map<string, StoredRecord>, recordId: string, user: string) {
    recordId in rows && rows[recordId].userId == user
  }

  /** The store after `deleteRecord(recordId)` by the session's user
      `userId`, and the result: refused without a user, the matching row
      removed, or a database error and no change when no row matches or the
      store cannot be reached (`reachable` is false). */
  function Delete(rows: map<string, StoredRecord>, recordId: string, userId: Option<string>, reachable: bool)
    : (out: (map<string, StoredRecord>, DeleteResult))
    ensures out.1.message.Some? != out.1.error.Some?
    ensures !Ai.Truthy(userId) ==> out == (rows, DeleteResult(None, Some(UserNotFound)))
    ensures Ai.Truthy(userId) && !reachable ==> out == (rows, DeleteResult(None, Some(DatabaseError)))
    ensures out.1.message.Some? <==> Ai.Truthy(userId) && reachable && Matches(rows, recordId, userId.value)
    ensures out.1.message.Some? ==> out.1.message.value == RecordDeleted && recordId !in out.0
                                    && |out.0| == |rows| - 1
    ensures out.1.error.Some? ==> out.0 == rows
    ensures Ai.Truthy(userId) && !Matches(rows, recordId, userId.value) ==> out.1.error == Some(DatabaseError)
    ensures forall id :: id != recordId ==> (id in out.0 <==> id in rows)
    ensures forall id :: id in out.0 ==> id in rows && out.0[id] == rows[id]
  {
    if !Ai.Truthy(userId) then (rows, DeleteResult(None, Some(UserNotFound)))
    else if reachable && Matches(rows, recordId, userId.value) then
      (rows - {recordId}, DeleteResult(Some(RecordDeleted), None))
    else (rows, DeleteResult(None, Some(DatabaseError)))
  }

  /** Deleting keeps every row filed under its own id. */
  lemma DeleteKeepsKeyed(rows: map<string, StoredRecord>, recordId: string, userId: Option<string>, reachable: bool)
    requires Keyed(rows)
    ensures Keyed(Delete(rows, recordId, userId, reachable).0)
  {
  }

  /** Only the caller's own rows can disappear: a row of any other user is
      still there, unchanged, after the delete. */
  lemma OthersRowsKept(rows: map<string, StoredRecord>, recordId: string, userId: Option<string>, reachable: bool,
                       id: string)
    requires id in rows && (!Ai.Truthy(userId) || rows[id].userId != userId.value)
    ensures var out := Delete(rows, recordId, userId, reachable); id in out.0 && out.0[id] == rows[id]
  {
  }

  /** Repeating a successful delete fails with the database error and
      changes nothing more, whether or not the store is reached again. */
  lemma DeleteTwice(rows: map<string, StoredRecord>, recordId: string, userId: Option<string>, again: bool)
    requires Delete(rows, recordId, userId, true).1.message.Some?
    ensures var once := Delete(rows, recordId, userId, true).0;
      Delete(once, recordId, userId, again) == (once, DeleteResult(None, Some(DatabaseError)))
  {
  }

  /** A store of records, changed in place by `DeleteRecord`. */
  class RecordTable {
    var rows: map<string, StoredRecord>

    ghost predicate Valid()
      reads this
    {
      Keyed(rows)
    }

    constructor (initial: map<string, StoredRecord>)
      requires Keyed(initial)
      ensures Valid() && rows == initial
    {
      rows := initial;
    }

    /** `deleteRecord(recordId)` with the session's user id `userId`;
        `reachable` says whether the store answers the delete. */
    method DeleteRecord(recordId: string, userId: Option<string>, reachable: bool) returns (result: DeleteResult)
      requires Valid()
      modifies this
      ensures Valid()
      ensures (rows, result) == Delete(old(rows), recordId, userId, reachable)
      ensures result.message.Some? != result.error.Some?
      ensures result.error.Some? ==> rows == old(rows)
    {
      if !Ai.Truthy(userId) {
        return DeleteResult(None, Some(UserNotFound));
      }
      if reachable && recordId in rows && rows[recordId].userId == userId.value {
        rows := rows - {recordId};
        result := DeleteResult(Some(RecordDeleted), None);
      } else {
        result := DeleteResult(None, Some(DatabaseError));
      }
    }
  }
}
