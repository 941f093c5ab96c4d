/**
 * The local session store (src/lib/storage.ts) as pure operations on the
 * stored list. Reading and writing the browser's storage, and the JSON
 * (de)serialisation around it, are left out: the list is passed in and out.
 */
module Storage {
  import opened Wrappers
  import opened Types

  /** Index of the first session with id `id`, or -1 (`findIndex`). */
  function FindIndex(ss: seq<Session>, id: string): (i: int)
    ensures -1 <= i < |ss|
    ensures i == -1 <==> forall j :: 0 <= j < |ss| ==> ss[j].id != id
    ensures i >= 0 ==> ss[i].id == id && forall j :: 0 <= j < i ==> ss[j].id != id
  {
    if |ss| == 0 then -1
    else if ss[0].id == id then 0
    else
      var i := FindIndex(ss[1..], id);
      if i < 0 then -1 else i + 1
  }

  predicate HasId(ss: seq<Session>, id: string) {
    exists j :: 0 <= j < |ss| && ss[j].id == id
  }

  /** No two stored sessions share an id. */
  predicate UniqueIds(ss: seq<Session>) {
    forall i, j :: 0 <= i < j < |ss| ==> ss[i].id != ss[j].id
  }

  /**
   * `saveSession`: replaces the first session with the same id in place, or
   * puts a session with a new id at the front.
   */
  function SaveSession(ss: seq<Session>, s: Session): (r: seq<Session>)
    ensures HasId(ss, s.id) ==> |r| == |ss|
    ensures HasId(ss, s.id) ==> var i := FindIndex(ss, s.id);
      r[i] == s && forall j :: 0 <= j < |ss| && j != i ==> r[j] == ss[j]
    ensures !HasId(ss, s.id) ==> r == [s] + ss
  {
    var i := FindIndex(ss, s.id);
    if i >= 0 then ss[i := s] else [s] + ss
  }

  /** `getSession`: the first session with that id, or none. */
  function GetSession(ss: seq<Session>, id: string): (r: Option<Session>)
    ensures r.None? <==> !HasId(ss, id)
    ensures r.Some? ==> r.value.id == id && r.value == ss[FindIndex(ss, id)]
  {
    var i := FindIndex(ss, id);
    if i >= 0 then Some(ss[i]) else None
  }

  /** `deleteSession`: keeps every session whose id differs, in order. */
  function DeleteSession(ss: seq<Session>, id: string): (r: seq<Session>)
    ensures !HasId(r, id)
    ensures |r| <= |ss|
    ensures forall s :: s in r <==> s in ss && s.id != id
  {
    if |ss| == 0 then []
    else if ss[0].id == id then DeleteSession(ss[1..], id)
    else [ss[0]] + DeleteSession(ss[1..], id)
  }

  /**
   * `createSession`, with the random id, the clock reading and its
   * `ja-JP` date rendering supplied by the caller.
   */
  function CreateSession(id: string, now: Instant, dateLabel: string): (s: Session)
    ensures s.id == id && s.products == [] && s.messages == []
    ensures !s.isCompleted && s.createdAt == s.updatedAt == now
    ensures s.title == "撮影プラン " + dateLabel
  {
    Session(id, "撮影プラン " + dateLabel, [], [], now, now, false)
  }

  /**
   * `addMessage`: appends one message, stamping the session as updated. The
   * message's timestamp and the session's update time are two separate clock
   * readings, `at` and `touched`.
   */
  function AddMessage(s: Session, d: Draft, id: string, at: Instant, touched: Instant): (r: Session)
    ensures |r.messages| == |s.messages| + 1 && r.messages[..|s.messages|] == s.messages
    ensures r.messages[|s.messages|] == MessageOf(d, id, at)
    ensures r.id == s.id && r.title == s.title && r.products == s.products
    ensures r.createdAt == s.createdAt && r.isCompleted == s.isCompleted && r.updatedAt == touched
  {
    s.(messages := s.messages + [MessageOf(d, id, at)], updatedAt := touched)
  }

  /** `addProduct`: appends one product with a fresh id. */
  function AddProduct(s: Session, p: ProductDraft, id: string, now: Instant): (r: Session)
    ensures |r.products| == |s.products| + 1 && r.products[..|s.products|] == s.products
    ensures var q := r.products[|s.products|];
      q.id == id && q.name == p.name && q.imageUrl == p.imageUrl && q.shape == p.shape
      && q.selectedProposal == p.selectedProposal && q.generatedImageUrl == p.generatedImageUrl
      && q.recipe == p.recipe
    ensures r.messages == s.messages && r.id == s.id && r.title == s.title && r.updatedAt == now
  {
    var q := Product(id, p.name, p.imageUrl, p.shape, p.selectedProposal, p.generatedImageUrl, p.recipe);
    s.(products := s.products + [q], updatedAt := now)
  }

  /** `updateProduct`: patches every product with that id, leaving the rest alone. */
  function UpdateProduct(s: Session, productId: string, u: ProductPatch, now: Instant): (r: Session)
    ensures |r.products| == |s.products|
    ensures forall i :: 0 <= i < |s.products| ==>
      r.products[i] == (if s.products[i].id == productId then Patch(s.products[i], u) else s.products[i])
    ensures r.messages == s.messages && r.id == s.id && r.title == s.title && r.updatedAt == now
  {
    s.(products := PatchAll(s.products, productId, u), updatedAt := now)
  }

  function PatchAll(ps: seq<Product>, productId: string, u: ProductPatch): (r: seq<Product>)
    ensures |r| == |ps|
    ensures forall i :: 0 <= i < |ps| ==> r[i] == (if ps[i].id == productId then Patch(ps[i], u) else ps[i])
  {
    seq(|ps|, i requires 0 <= i < |ps| => if ps[i].id == productId then Patch(ps[i], u) else ps[i])
  }

  /** Saving keeps ids unique, and the saved session is what a lookup then finds. */
  lemma {:induction false} SaveKeepsUniqueAndFinds(ss: seq<Session>, s: Session)
    requires UniqueIds(ss)
    ensures UniqueIds(SaveSession(ss, s))
    ensures GetSession(SaveSession(ss, s), s.id) == Some(s)
  {
    var r := SaveSession(ss, s);
    if HasId(ss, s.id) {
      var i := FindIndex(ss, s.id);
      forall a, b | 0 <= a < b < |r| ensures r[a].id != r[b].id {
        if a == i {
          assert ss[b].id != ss[i].id;
        } else if b == i {
          assert ss[a].id != ss[i].id;
        }
      }
      FirstIndexUnique(r, i);
    } else {
      forall a, b | 0 <= a < b < |r| ensures r[a].id != r[b].id {
        if a == 0 {
          assert r[b] == ss[b - 1];
        } else {
          assert r[a] == ss[a - 1] && r[b] == ss[b - 1];
        }
      }
      FirstIndexUnique(r, 0);
    }
  }

  /** Whatever the list holds, a lookup right after saving finds the saved session. */
  lemma SaveThenGet(ss: seq<Session>, s: Session)
    ensures GetSession(SaveSession(ss, s), s.id) == Some(s)
  {
    var r := SaveSession(ss, s);
    var i := if HasId(ss, s.id) then FindIndex(ss, s.id) else 0;
    assert r[i] == s;
    assert forall j :: 0 <= j < i ==> r[j].id != s.id;
  }

  /** In a list with unique ids, the first index of an entry's id is its own index. */
  lemma FirstIndexUnique(ss: seq<Session>, i: int)
    requires UniqueIds(ss) && 0 <= i < |ss|
    ensures FindIndex(ss, ss[i].id) == i
  {
  }

  /** Deleting keeps the remaining sessions in their original relative order. */
  lemma {:induction false} DeleteIsOrderedFilter(ss: seq<Session>, id: string)
    ensures DeleteSession(ss, id) == Keep(ss, id)
  {
    if |ss| > 0 {
      var init := ss[..|ss| - 1];
      var last := ss[|ss| - 1];
      assert ss == init + [last];
      DeleteAppend(init, last, id);
      DeleteIsOrderedFilter(init, id);
    }
  }

  lemma {:induction false} DeleteAppend(a: seq<Session>, x: Session, id: string)
    ensures DeleteSession(a + [x], id) == DeleteSession(a, id) + (if x.id != id then [x] else [])
  {
    if |a| > 0 {
      assert (a + [x])[1..] == a[1..] + [x];
      DeleteAppend(a[1..], x, id);
    }
  }

  /** Reference definition: the sessions of `ss` whose id differs, in order. */
  function Keep(ss: seq<Session>, id: string): seq<Session> {
    if |ss| == 0 then []
    else (if ss[|ss| - 1].id != id then Keep(ss[..|ss| - 1], id) + [ss[|ss| - 1]] else Keep(ss[..|ss| - 1], id))
  }

  /** Deleting an id that is not stored changes nothing. */
  lemma {:induction false} DeleteAbsentIsNoOp(ss: seq<Session>, id: string)
    requires !HasId(ss, id)
    ensures DeleteSession(ss, id) == ss
  {
    if |ss| > 0 {
      DeleteAbsentIsNoOp(ss[1..], id);
      assert ss == [ss[0]] + ss[1..];
    }
  }
}
