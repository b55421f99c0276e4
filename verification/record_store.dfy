/** The stored expense records, and the query and projection shared by the
    insight actions: the caller's records of the last thirty days, newest
    first, at most fifty, turned into the records the model helpers take. */
module RecordStore {
  import opened Wrappers
  import opened Calendar
  import opened Collections
  import Ai

  /** A stored record. `category` is `""` where the column is empty or null;
      `createdAt` is a time value in milliseconds. */
  datatype StoredRecord = StoredRecord(id: string, userId: string, text: string, amount: int,
                                       category: string, createdAt: int)

  const WindowDays: int := 30
  const WindowSize: nat := 50

  /** The earliest creation time the window admits: thirty days before `now`. */
  function Cutoff(now: int): int {
    now - WindowDays * MsPerDay
  }

  /** `where: { userId, createdAt: { gte: cutoff } }`. */
  function InWindow(user: string, cutoff: int): StoredRecord -> bool {
    (r: StoredRecord) => r.userId == user && r.createdAt >= cutoff
  }

  /** The sort key of `orderBy: { createdAt: "desc" }`. */
  function NewestFirst(r: StoredRecord): int {
    -r.createdAt
  }

  /** The first `n` elements of `s`, or all of them when there are fewer. */
  function Take<T>(s: seq<T>, n: nat): (r: seq<T>)
    ensures |r| == if |s| <= n then |s| else n
    ensures r == s[..|r|]
  {
    if |s| <= n then s else s[..n]
  }

  /** The query of the insight actions: the user's records created since
      `Cutoff(now)`, newest first, at most fifty. */
  function Window(rows: seq<StoredRecord>, user: string, now: int): seq<StoredRecord> {
    Take(SortBy(Filter(rows, InWindow(user, Cutoff(now))), NewestFirst), WindowSize)
  }

  /** The window holds at most fifty of the user's records, none older than
      thirty days, newest first. */
  lemma {:induction false} WindowShape(rows: seq<StoredRecord>, user: string, now: int)
    ensures var w := Window(rows, user, now);
      && |w| <= WindowSize
      && (forall i :: 0 <= i < |w| ==> w[i].userId == user && w[i].createdAt >= Cutoff(now))
      && (forall i, j :: 0 <= i < j < |w| ==> w[i].createdAt >= w[j].createdAt)
  {
    var eligible := Filter(rows, InWindow(user, Cutoff(now)));
    var sorted := SortBy(eligible, NewestFirst);
    var w := Window(rows, user, now);
    forall i | 0 <= i < |w| ensures w[i].userId == user && w[i].createdAt >= Cutoff(now) {
      assert w[i] == sorted[i];
      assert sorted[i] in multiset(eligible);
      var j :| 0 <= j < |eligible| && eligible[j] == sorted[i];
      assert InWindow(user, Cutoff(now))(eligible[j]);
    }
    forall i, j | 0 <= i < j < |w| ensures w[i].createdAt >= w[j].createdAt {
      assert NewestFirst(sorted[i]) <= NewestFirst(sorted[j]);
    }
  }

  /** Nothing newer is left out: an eligible record missing from a full
      window is no newer than any record in it, and with at most fifty
      eligible records the window holds all of them. */
  lemma {:induction false} WindowKeepsNewest(rows: seq<StoredRecord>, user: string, now: int, r: StoredRecord)
    requires r in rows && InWindow(user, Cutoff(now))(r)
    ensures var w := Window(rows, user, now);
      r !in w ==> |w| == WindowSize && forall i :: 0 <= i < |w| ==> w[i].createdAt >= r.createdAt
  {
    var eligible := Filter(rows, InWindow(user, Cutoff(now)));
    FilterMembers(rows, InWindow(user, Cutoff(now)));
    var sorted := SortBy(eligible, NewestFirst);
    var w := Window(rows, user, now);
    assert r in multiset(sorted);
    var j :| 0 <= j < |sorted| && sorted[j] == r;
    if r !in w {
      assert j >= |w|;
      forall i | 0 <= i < |w| ensures w[i].createdAt >= r.createdAt {
        assert NewestFirst(sorted[i]) <= NewestFirst(sorted[j]);
      }
    }
  }

  /** A row the query does not select (another user's, or one created before
      the cutoff) has no effect on the window, wherever it sits in the store. */
  lemma {:induction false} WindowIgnoresUnselected(a: seq<StoredRecord>, x: StoredRecord, b: seq<StoredRecord>,
                                                    user: string, now: int)
    requires !InWindow(user, Cutoff(now))(x)
    ensures Window(a + [x] + b, user, now) == Window(a + b, user, now)
  {
    var p := InWindow(user, Cutoff(now));
    FilterAppend(a + [x], b, p);
    FilterAppend(a, [x], p);
    FilterAppend(a, b, p);
    assert Filter([x], p) == [] by {
      assert [x][1..] == [];
    }
    assert Filter(a + [x], p) == Filter(a, p);
  }

  // ---------------------------------------------------------------------------
  // Projection
  // ---------------------------------------------------------------------------

  /** `expense.category || "Other"`. */
  function CategoryOrOther(category: string): (c: string)
    ensures c != ""
    ensures category != "" ==> c == category
  {
    if category == "" then "Other" else category
  }

  /** `s.map(f)` where `f` may throw: every result, or `None` at the first
      element that fails. */
  function MapAll<T, U>(s: seq<T>, f: T -> Option<U>): (r: Option<seq<U>>)
    ensures r.Some? <==> forall i :: 0 <= i < |s| ==> f(s[i]).Some?
    ensures r.Some? ==> |r.value| == |s| && forall i :: 0 <= i < |s| ==> Some(r.value[i]) == f(s[i])
  {
    if s == [] then Some([])
    else
      var rest := MapAll(s[1..], f);
      if f(s[0]).None? then None
      else if rest.None? then
        assert exists k :: 0 <= k < |s[1..]| && f(s[1..][k]).None?;
        None
      else Some([f(s[0]).value] + rest.value)
  }

  /** One record as the insight actions hand it on: id, amount, category (or
      `Other`), the text as description and the creation time, not the
      entered date, as an ISO string; `None` when the creation time has no
      ISO form (`toISOString` throws). */
  function ProjectOne(row: StoredRecord): (r: Option<Ai.ExpenseRecord>)
    ensures r.Some? <==> ToIsoString(row.createdAt).Some?
    ensures r.Some? ==>
              && r.value.id == row.id && r.value.amount == row.amount
              && r.value.category == CategoryOrOther(row.category) && r.value.description == row.text
              && Some(r.value.date) == ToIsoString(row.createdAt)
  {
    var date := ToIsoString(row.createdAt);
    if date.None? then None
    else Some(Ai.ExpenseRecord(row.id, row.amount, CategoryOrOther(row.category), row.text, date.value))
  }

  /** `expenses.map(...)` over the window. */
  function Project(rows: seq<StoredRecord>): Option<seq<Ai.ExpenseRecord>> {
    MapAll(rows, ProjectOne)
  }

  /** Records whose creation times lie in the range of dates always project. */
  lemma ProjectInRange(rows: seq<StoredRecord>)
    requires forall i :: 0 <= i < |rows| ==> -MaxTimeValue <= rows[i].createdAt <= MaxTimeValue
    ensures Project(rows).Some? && |Project(rows).value| == |rows|
  {
    forall i | 0 <= i < |rows| ensures ProjectOne(rows[i]).Some? {
    }
  }
}
