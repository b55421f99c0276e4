/** `getUserRecord`: the signed-in user's total spending and the number of
    their records with a positive amount. The store is a parameter: the
    rows it holds, or `None` when reading it fails. */
module GetUserRecord {
  import opened Wrappers
  import opened Collections
  import opened RecordStore
  import Ai

  const UserNotFound: string := "Usuario no encontrado"
  const DatabaseError: string := "Error de base de datos"

  /** `{ record, daysWithRecords }` or `{ error }`. */
  datatype UserRecord = Totals(record: int, daysWithRecords: nat) | RecordError(error: string)

  function Amount(r: StoredRecord): int {
    r.amount
  }

  /** `where: { userId }`. */
  function OwnedBy(user: string): StoredRecord -> bool {
    (r: StoredRecord) => r.userId == user
  }

  /** The filter of `daysWithRecords`: `record.amount > 0`. */
  function Positive(r: StoredRecord): bool {
    r.amount > 0
  }

  /** `getUserRecord` for the session's user id `userId` over the store
      `table`: an absent or empty id is refused before the store is read, a
      failing read gives the database error, and otherwise the result is the
      sum of the user's amounts and the count of their positive ones. */
  function GetUserRecord(userId: Option<string>, table: Option<seq<StoredRecord>>): (r: UserRecord)
    ensures r == RecordError(UserNotFound) <==> !Ai.Truthy(userId)
    ensures r == RecordError(DatabaseError) <==> Ai.Truthy(userId) && table.None?
    ensures r.Totals? <==> Ai.Truthy(userId) && table.Some?
    ensures r.Totals? ==> r.daysWithRecords <= |Filter(table.value, OwnedBy(userId.value))|
  {
    if !Ai.Truthy(userId) then RecordError(UserNotFound)
    else if table.None? then RecordError(DatabaseError)
    else
      var owned := Filter(table.value, OwnedBy(userId.value));
      Totals(SumBy(owned, Amount), |Filter(owned, Positive)|)
  }

  /** Without a user id the store is never consulted: the result is the same
      whatever the store holds, and whether or not it can be read. */
  lemma NoUserNoStore(userId: Option<string>, a: Option<seq<StoredRecord>>, b: Option<seq<StoredRecord>>)
    requires !Ai.Truthy(userId)
    ensures GetUserRecord(userId, a) == GetUserRecord(userId, b) == RecordError(UserNotFound)
  {
  }

  /** A user with no records has a total of 0 and no days with records. */
  lemma {:induction false} NoRecordsNoTotals(user: string, table: seq<StoredRecord>)
    requires user != ""
    requires forall i :: 0 <= i < |table| ==> table[i].userId != user
    ensures GetUserRecord(Some(user), Some(table)) == Totals(0, 0)
  {
    OthersFilteredOut(user, table);
  }

  lemma {:induction false} OthersFilteredOut(user: string, table: seq<StoredRecord>)
    requires forall i :: 0 <= i < |table| ==> table[i].userId != user
    ensures Filter(table, OwnedBy(user)) == []
  {
    if table != [] {
      OthersFilteredOut(user, table[1..]);
    }
  }

  /** The totals of a store split in two are the sums of the totals of its
      parts: each of the user's records adds its amount to `record`, and one
      to `daysWithRecords` exactly when that amount is positive. */
  lemma {:induction false} TotalsAdd(user: string, a: seq<StoredRecord>, b: seq<StoredRecord>)
    requires user != ""
    ensures var ra := GetUserRecord(Some(user), Some(a));
            var rb := GetUserRecord(Some(user), Some(b));
            GetUserRecord(Some(user), Some(a + b))
              == Totals(ra.record + rb.record, ra.daysWithRecords + rb.daysWithRecords)
  {
    var p := OwnedBy(user);
    FilterAppend(a, b, p);
    FilterAppend(Filter(a, p), Filter(b, p), Positive);
    SumAppend(Filter(a, p), Filter(b, p), Amount);
  }

  /** What one more record of the store changes: a record of another user
      changes nothing; one of the user's adds its amount to the total, and
      counts as a day with records exactly when its amount is positive. */
  lemma {:induction false} OneMoreRecord(user: string, table: seq<StoredRecord>, x: StoredRecord)
    requires user != ""
    ensures var before := GetUserRecord(Some(user), Some(table));
            var after := GetUserRecord(Some(user), Some(table + [x]));
            && (x.userId != user ==> after == before)
            && (x.userId == user ==>
                  after == Totals(before.record + x.amount, before.daysWithRecords + if x.amount > 0 then 1 else 0))
  {
    TotalsAdd(user, table, [x]);
    SingleRecord(user, x);
  }

  lemma SingleRecord(user: string, x: StoredRecord)
    requires user != ""
    ensures GetUserRecord(Some(user), Some([x]))
         == if x.userId != user then Totals(0, 0) else Totals(x.amount, if x.amount > 0 then 1 else 0)
  {
    assert [x][1..] == [];
    if x.userId == user {
      assert Filter([x], OwnedBy(user)) == [x];
      assert Filter([x], Positive) == if x.amount > 0 then [x] else [];
      assert SumBy([x], Amount) == x.amount;
    } else {
      assert Filter([x], OwnedBy(user)) == [];
    }
  }

  /** `daysWithRecords` counts the user's records, not distinct days, and it
      equals their number exactly when every one of them has a positive
      amount; it is zero exactly when none has. */
  lemma {:induction false} DaysCountPositiveRecords(user: string, table: seq<StoredRecord>)
    requires user != ""
    ensures var owned := Filter(table, OwnedBy(user));
            var r := GetUserRecord(Some(user), Some(table));
            && (r.daysWithRecords == |owned| <==> forall i :: 0 <= i < |owned| ==> owned[i].amount > 0)
            && (r.daysWithRecords == 0 <==> forall i :: 0 <= i < |owned| ==> owned[i].amount <= 0)
  {
    var owned := Filter(table, OwnedBy(user));
    FilterKeepsAll(owned, Positive);
    FilterDropsAll(owned, Positive);
  }

  lemma {:induction false} FilterKeepsAll<T>(s: seq<T>, p: T -> bool)
    ensures |Filter(s, p)| == |s| <==> forall i :: 0 <= i < |s| ==> p(s[i])
  {
    if s != [] {
      FilterKeepsAll(s[1..], p);
      if forall i :: 0 <= i < |s| ==> p(s[i]) {
        assert forall i :: 0 <= i < |s[1..]| ==> p(s[1..][i]) by {
          forall i | 0 <= i < |s[1..]| ensures p(s[1..][i]) {
            assert s[1..][i] == s[i + 1];
          }
        }
      }
      if |Filter(s, p)| == |s| {
        assert p(s[0]);
        forall i | 0 <= i < |s| ensures p(s[i]) {
          if i > 0 {
            assert s[i] == s[1..][i - 1];
          }
        }
      }
    }
  }

  lemma {:induction false} FilterDropsAll<T>(s: seq<T>, p: T -> bool)
    ensures |Filter(s, p)| == 0 <==> forall i :: 0 <= i < |s| ==> !p(s[i])
  {
    if s != [] {
      FilterDropsAll(s[1..], p);
      if forall i :: 0 <= i < |s| ==> !p(s[i]) {
        assert forall i :: 0 <= i < |s[1..]| ==> !p(s[1..][i]) by {
          forall i | 0 <= i < |s[1..]| ensures !p(s[1..][i]) {
            assert s[1..][i] == s[i + 1];
          }
        }
      }
      if |Filter(s, p)| == 0 {
        forall i | 0 <= i < |s| ensures !p(s[i]) {
          if i > 0 {
            assert s[i] == s[1..][i - 1];
          }
        }
      }
    }
  }
}
