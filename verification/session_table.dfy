/**
 * The session table behind src/lib/db.ts, as a map from session id to row.
 * The query builder is replaced by the effect of each statement: the upsert
 * `insert … onConflictDoUpdate`, the delete by id, and the select filtered by
 * owner and ordered by `updated_at` descending.
 */
module SessionTable {
  import opened Wrappers
  import opened Types
  import opened DbTypes

  datatype Row = Row(
    userId: string,
    title: string,
    mode: Mode,
    theme: Option<string>,
    products: seq<DbProduct>,
    messages: seq<DbMessage>,
    isCompleted: bool,
    createdAt: Instant,
    updatedAt: Instant)

  type Table = map<string, Row>

  /** `toDbSession`: a row back in the record shape, every column in its field. */
  function ToDbSession(id: string, row: Row): (d: DbSession)
    ensures d.id == id && d.user_id == row.userId && d.title == row.title && d.mode == row.mode
    ensures d.theme == row.theme && d.products == row.products && d.messages == row.messages
    ensures d.is_completed == row.isCompleted
    ensures FromIso(d.created_at) == row.createdAt && FromIso(d.updated_at) == row.updatedAt
  {
    DbSession(id, row.userId, row.title, row.mode, row.theme, row.products, row.messages,
              row.isCompleted, ToIso(row.createdAt), ToIso(row.updatedAt))
  }

  /** The row a record inserts; an absent theme (`?? undefined`) leaves the column null. */
  function RowOf(s: DbSession): Row {
    Row(s.user_id, s.title, s.mode, s.theme, s.products, s.messages, s.is_completed,
        FromIso(s.created_at), FromIso(s.updated_at))
  }

  /**
   * `saveSessionToDb`. A new id inserts the whole record. On an id conflict
   * only title, theme, products, messages, completion flag and update time
   * are overwritten; the owner, mode and creation time stay. The update set
   * drops entries whose value is `undefined`, so an absent theme keeps the
   * stored one.
   */
  function SaveSession(t: Table, s: DbSession): (r: Table)
    ensures r.Keys == t.Keys + {s.id}
    ensures forall id :: id in t && id != s.id ==> r[id] == t[id]
    ensures s.id !in t ==> r[s.id] == RowOf(s)
    ensures s.id in t ==>
      var prior := t[s.id];
      var row := r[s.id];
      && row.userId == prior.userId && row.mode == prior.mode && row.createdAt == prior.createdAt
      && row.title == s.title && row.products == s.products && row.messages == s.messages
      && row.isCompleted == s.is_completed && row.updatedAt == FromIso(s.updated_at)
      && row.theme == (if s.theme.Some? then s.theme else prior.theme)
  {
    if s.id !in t then t[s.id := RowOf(s)]
    else
      var prior := t[s.id];
      t[s.id := prior.(title := s.title,
                     theme := if s.theme.Some? then s.theme else prior.theme,
                     products := s.products,
                     messages := s.messages,
                     isCompleted := s.is_completed,
                     updatedAt := FromIso(s.updated_at))]
  }

  /** `deleteSessionFromDb`: removes exactly the row with that id. */
  function DeleteSession(t: Table, id: string): (r: Table)
    ensures r.Keys == t.Keys - {id}
    ensures forall k :: k in r ==> r[k] == t[k]
  {
    t - {id}
  }

  /** A new id saved and read back through `toDbSession` is the record that was saved. */
  lemma SaveNewThenRead(t: Table, s: DbSession)
    requires s.id !in t
    ensures ToDbSession(s.id, SaveSession(t, s)[s.id]) == s
  {
  }

  /** A row read back through `toDbSession` and inserted again is the same row. */
  lemma ReadThenInsert(id: string, row: Row)
    ensures RowOf(ToDbSession(id, row)) == row
    ensures ToDbSession(id, row).id == id
  {
  }

  /** The rows a user's fetch must return. */
  function Owned(t: Table, userId: string): set<string> {
    set id | id in t.Keys && t[id].userId == userId
  }

  ghost predicate DistinctIds(xs: seq<DbSession>) {
    forall i, j :: 0 <= i < j < |xs| ==> xs[i].id != xs[j].id
  }

  ghost predicate SortedByUpdateDesc(xs: seq<DbSession>) {
    forall i, j :: 0 <= i < j < |xs| ==> xs[i].updated_at.ms >= xs[j].updated_at.ms
  }

  lemma ConsSorted(h: DbSession, xs: seq<DbSession>)
    requires SortedByUpdateDesc(xs)
    requires forall y :: y in xs ==> y.updated_at.ms <= h.updated_at.ms
    ensures SortedByUpdateDesc([h] + xs)
  {
    var r := [h] + xs;
    forall i, j | 0 <= i < j < |r| ensures r[i].updated_at.ms >= r[j].updated_at.ms {
      assert r[j] == xs[j - 1];
      if i > 0 { assert r[i] == xs[i - 1]; }
    }
  }

  lemma ConsDistinct(h: DbSession, xs: seq<DbSession>)
    requires DistinctIds(xs)
    requires forall y :: y in xs ==> y.id != h.id
    ensures DistinctIds([h] + xs)
  {
    var r := [h] + xs;
    forall i, j | 0 <= i < j < |r| ensures r[i].id != r[j].id {
      assert r[j] == xs[j - 1];
      if i > 0 { assert r[i] == xs[i - 1]; }
    }
  }

  /** Inserts a record into a list sorted newest first, after every row at least as new. */
  function Insert(xs: seq<DbSession>, x: DbSession): (r: seq<DbSession>)
    ensures |r| == |xs| + 1
    ensures x in r && forall y :: y in xs ==> y in r
    ensures forall y :: y in r ==> y == x || y in xs
    ensures SortedByUpdateDesc(xs) ==> SortedByUpdateDesc(r)
  {
    if |xs| == 0 || xs[0].updated_at.ms < x.updated_at.ms then [x] + xs
    else
      var rest := Insert(xs[1..], x);
      assert forall y :: y in xs ==> y == xs[0] || y in xs[1..];
      assert SortedByUpdateDesc(xs) ==> SortedByUpdateDesc([xs[0]] + rest) by {
        if SortedByUpdateDesc(xs) {
          ConsSorted(xs[0], rest);
        }
      }
      [xs[0]] + rest
  }

  /** Inserting a record whose id is new keeps the ids of the list distinct. */
  lemma {:induction false} InsertKeepsIdsDistinct(xs: seq<DbSession>, x: DbSession)
    requires DistinctIds(xs)
    requires forall y :: y in xs ==> y.id != x.id
    ensures DistinctIds(Insert(xs, x))
    decreases |xs|
  {
    if |xs| == 0 || xs[0].updated_at.ms < x.updated_at.ms {
    } else {
      InsertKeepsIdsDistinct(xs[1..], x);
      ConsDistinct(xs[0], Insert(xs[1..], x));
    }
  }

  /** Every row of `r` is the record of a row of `t` whose id is in `ids`. */
  ghost predicate RowsFrom(r: seq<DbSession>, t: Table, ids: set<string>) {
    forall y :: y in r ==> y.id in ids && y.id in t && y == ToDbSession(y.id, t[y.id])
  }

  /** Every id in `ids` has its record in `r`. */
  ghost predicate Covers(r: seq<DbSession>, t: Table, ids: set<string>) {
    forall id :: id in ids ==> id in t && ToDbSession(id, t[id]) in r
  }

  /** What the fetch loop keeps: `done` ids are in `r`, sorted, and `todo` holds the rest of the user's ids. */
  ghost predicate Progress(r: seq<DbSession>, t: Table, userId: string, todo: set<string>, done: set<string>) {
    && todo !! done && todo + done == Owned(t, userId)
    && SortedByUpdateDesc(r) && DistinctIds(r)
    && RowsFrom(r, t, done) && Covers(r, t, done)
  }

  /** One step of the fetch: inserting the record of a pending id keeps the loop's facts. */
  lemma FetchStep(r: seq<DbSession>, t: Table, userId: string, todo: set<string>, done: set<string>, id: string)
    requires Progress(r, t, userId, todo, done) && id in todo
    ensures id in t
    ensures Progress(Insert(r, ToDbSession(id, t[id])), t, userId, todo - {id}, done + {id})
  {
    InsertKeepsIdsDistinct(r, ToDbSession(id, t[id]));
  }

  /** With nothing pending, the list holds exactly the records of the user's rows. */
  lemma FetchDone(r: seq<DbSession>, t: Table, userId: string, done: set<string>)
    requires Progress(r, t, userId, {}, done)
    ensures forall y :: y in r ==> y.id in Owned(t, userId) && y == ToDbSession(y.id, t[y.id])
    ensures forall id :: id in Owned(t, userId) ==> ToDbSession(id, t[id]) in r
  {
    assert done == Owned(t, userId);
  }

  /**
   * `fetchSessions`: the user's rows, newest update first, and an empty list
   * when the query fails. Rows with equal update times may come in any order;
   * this model fixes one.
   */
  method FetchSessions(t: Table, userId: string, failed: bool) returns (r: seq<DbSession>)
    ensures failed ==> r == []
    ensures !failed ==> SortedByUpdateDesc(r)
    ensures !failed ==> forall y :: y in r ==> y.id in Owned(t, userId) && y == ToDbSession(y.id, t[y.id])
    ensures !failed ==> forall id :: id in Owned(t, userId) ==> ToDbSession(id, t[id]) in r
    ensures DistinctIds(r)
  {
    r := [];
    if failed {
      return;
    }
    var todo := Owned(t, userId);
    ghost var done: set<string> := {};
    while todo != {}
      invariant Progress(r, t, userId, todo, done)
      decreases |todo|
    {
      var id :| id in todo;
      FetchStep(r, t, userId, todo, done, id);
      r := Insert(r, ToDbSession(id, t[id]));
      todo := todo - {id};
      done := done + {id};
    }
    FetchDone(r, t, userId, done);
  }

}
