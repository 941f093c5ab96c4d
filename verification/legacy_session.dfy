/**
 * The legacy page's session record and the operations on it that the page
 * performs outside rendering (src/app_legacy/page.tsx): conversion to and
 * from the stored record, appending a message, replacing a session in the
 * sidebar list, and choosing the next current session after a delete.
 */
module LegacySession {
  import opened Wrappers
  import opened Types
  import opened DbTypes

  datatype Session = Session(
    id: string,
    title: string,
    mode: Mode,
    theme: Option<string>,
    products: seq<Product>,
    messages: seq<Message>,
    createdAt: Instant,
    updatedAt: Instant,
    isCompleted: bool)

  function ProposalToDb(p: Proposal): DbProposal {
    DbProposal(p.id, p.title, p.description, p.menuMaterial, p.equipment)
  }

  function ProposalFromDb(p: DbProposal): Proposal {
    Proposal(p.id, p.title, p.description, p.menu_material, p.equipment)
  }

  function OptionMap<A, B>(o: Option<A>, f: A -> B): Option<B> {
    match o
    case Some(a) => Some(f(a))
    case None => None
  }

  function ProductToDb(p: Product): DbProduct {
    DbProduct(p.id, p.name, p.imageUrl, p.shape, OptionMap(p.selectedProposal, ProposalToDb),
              p.generatedImageUrl, p.recipe)
  }

  function ProductFromDb(p: DbProduct): Product {
    Product(p.id, p.name, p.image_url, p.shape, OptionMap(p.selected_proposal, ProposalFromDb),
            p.generated_image_url, p.recipe)
  }

  function MessageToDb(m: Message): DbMessage {
    DbMessage(m.id, m.role, m.content, m.imageUrl, m.generatedImageUrl, ToIso(m.timestamp))
  }

  function MessageFromDb(m: DbMessage): Message {
    Message(m.id, m.role, m.content, m.image_url, m.generated_image_url, FromIso(m.timestamp))
  }

  /** `convertSessionToDbSession`: the stored record, owned by `userId`. */
  function ToDbSession(s: Session, userId: string): (d: DbSession)
    ensures d.id == s.id && d.user_id == userId && d.title == s.title && d.mode == s.mode
    ensures d.theme == s.theme && d.is_completed == s.isCompleted
    ensures FromIso(d.created_at) == s.createdAt && FromIso(d.updated_at) == s.updatedAt
    ensures |d.products| == |s.products| && |d.messages| == |s.messages|
    ensures forall i :: 0 <= i < |s.products| ==> d.products[i] == ProductToDb(s.products[i])
    ensures forall i :: 0 <= i < |s.messages| ==>
      d.messages[i] == MessageToDb(s.messages[i]) && FromIso(d.messages[i].timestamp) == s.messages[i].timestamp
  {
    DbSession(s.id, userId, s.title, s.mode, s.theme,
              seq(|s.products|, i requires 0 <= i < |s.products| => ProductToDb(s.products[i])),
              seq(|s.messages|, i requires 0 <= i < |s.messages| => MessageToDb(s.messages[i])),
              s.isCompleted, ToIso(s.createdAt), ToIso(s.updatedAt))
  }

  /** `convertDbSessionToSession`: drops the owner, keeps everything else. */
  function FromDbSession(d: DbSession): (s: Session)
    ensures s.id == d.id && s.title == d.title && s.mode == d.mode
    ensures s.theme == d.theme && s.isCompleted == d.is_completed
    ensures ToIso(s.createdAt) == d.created_at && ToIso(s.updatedAt) == d.updated_at
    ensures |s.products| == |d.products| && |s.messages| == |d.messages|
    ensures forall i :: 0 <= i < |d.products| ==> s.products[i] == ProductFromDb(d.products[i])
    ensures forall i :: 0 <= i < |d.messages| ==>
      s.messages[i] == MessageFromDb(d.messages[i]) && ToIso(s.messages[i].timestamp) == d.messages[i].timestamp
  {
    Session.Session(d.id, d.title, d.mode, d.theme,
            seq(|d.products|, i requires 0 <= i < |d.products| => ProductFromDb(d.products[i])),
            seq(|d.messages|, i requires 0 <= i < |d.messages| => MessageFromDb(d.messages[i])),
            FromIso(d.created_at), FromIso(d.updated_at), d.is_completed)
  }

  /** Converting to the stored record and back gives the session back, field for field. */
  lemma SessionRoundTrip(s: Session, userId: string)
    ensures FromDbSession(ToDbSession(s, userId)) == s
  {
    var r := FromDbSession(ToDbSession(s, userId));
    forall i | 0 <= i < |s.products| ensures r.products[i] == s.products[i] {
      var p := s.products[i];
      if p.selectedProposal.Some? {
        assert ProposalFromDb(ProposalToDb(p.selectedProposal.value)) == p.selectedProposal.value;
      }
    }
    assert r.products == s.products;
    assert r.messages == s.messages;
  }

  /** A stored record read and written back for its own owner is the same record. */
  lemma DbSessionRoundTrip(d: DbSession)
    ensures ToDbSession(FromDbSession(d), d.user_id) == d
  {
    var r := ToDbSession(FromDbSession(d), d.user_id);
    forall i | 0 <= i < |d.products| ensures r.products[i] == d.products[i] {
      var p := d.products[i];
      if p.selected_proposal.Some? {
        assert ProposalToDb(ProposalFromDb(p.selected_proposal.value)) == p.selected_proposal.value;
      }
    }
    assert r.products == d.products;
    assert r.messages == d.messages;
  }

  /**
   * The page's `addMessage` helper: one message appended, session stamped as
   * updated. The message's timestamp `at` and the update time `touched` are
   * two separate clock readings.
   */
  function AddMessage(s: Session, d: Draft, id: string, at: Instant, touched: Instant): (r: Session)
    ensures |r.messages| == |s.messages| + 1 && r.messages[..|s.messages|] == s.messages
    ensures r.messages[|s.messages|] == MessageOf(d, id, at)
    ensures r.id == s.id && r.title == s.title && r.mode == s.mode && r.theme == s.theme
    ensures r.products == s.products && r.createdAt == s.createdAt
    ensures r.isCompleted == s.isCompleted && r.updatedAt == touched
  {
    s.(messages := s.messages + [MessageOf(d, id, at)], updatedAt := touched)
  }

  /**
   * `updateSession`'s list update: every entry with the session's id is
   * replaced by it; a session missing from the list is not added.
   */
  function ReplaceById(ss: seq<Session>, s: Session): (r: seq<Session>)
    ensures |r| == |ss|
    ensures forall i :: 0 <= i < |ss| ==> r[i] == (if ss[i].id == s.id then s else ss[i])
  {
    seq(|ss|, i requires 0 <= i < |ss| => if ss[i].id == s.id then s else ss[i])
  }

  /**
   * The update brings in no session but the saved one, and lists the saved
   * one exactly when its id was listed: a session missing from the list
   * stays missing.
   */
  lemma ReplaceListsOnlyKnownIds(ss: seq<Session>, s: Session)
    ensures forall x :: x in ReplaceById(ss, s) ==> x == s || x in ss
    ensures s in ReplaceById(ss, s) <==> exists i :: 0 <= i < |ss| && ss[i].id == s.id
  {
    var r := ReplaceById(ss, s);
    if s in r {
      var k :| 0 <= k < |r| && r[k] == s;
      assert ss[k].id == s.id;
    }
  }

  /** The sidebar list and the current session. */
  datatype View = View(sessions: seq<Session>, current: Option<Session>)

  function Remaining(ss: seq<Session>, id: string): (r: seq<Session>)
    ensures forall x :: x in r <==> x in ss && x.id != id
    ensures |r| <= |ss|
  {
    if |ss| == 0 then []
    else if ss[0].id == id then Remaining(ss[1..], id)
    else [ss[0]] + Remaining(ss[1..], id)
  }

  /**
   * `handleDeleteSession`. A failed delete in the store changes nothing.
   * Otherwise the session leaves the list; if it was the current one, the
   * first remaining session becomes current, or, with none left, the session
   * `created` that `handleNewSession` creates is put at the front of the list and
   * made current (`created` is `None` when that handler returns early, without
   * a signed-in user or a chosen mode).
   */
  function DeleteSession(v: View, id: string, deleted: bool, created: Option<Session>): (r: View)
    ensures !deleted ==> r == v
    ensures deleted && (v.current.None? || v.current.value.id != id) ==>
      r == View(Remaining(v.sessions, id), v.current)
    ensures deleted && v.current.Some? && v.current.value.id == id && Remaining(v.sessions, id) != [] ==>
      r == View(Remaining(v.sessions, id), Some(Remaining(v.sessions, id)[0]))
    ensures deleted && v.current.Some? && v.current.value.id == id && Remaining(v.sessions, id) == [] ==>
      r == (if created.Some? then View([created.value], created) else View([], v.current))
  {
    if !deleted then v
    else
      var rest := Remaining(v.sessions, id);
      if v.current.Some? && v.current.value.id == id then
        if |rest| > 0 then View(rest, Some(rest[0]))
        else if created.Some? then View([created.value] + rest, created)
        else View(rest, v.current)
      else View(rest, v.current)
  }

  /**
   * Deleting the current session always leaves a current session that is
   * listed, is not the deleted one, and a non-empty list.
   */
  lemma DeleteCurrentFallsBack(v: View, id: string, created: Option<Session>)
    requires v.current.Some? && v.current.value.id == id
    requires created.Some? && created.value.id != id
    ensures var r := DeleteSession(v, id, true, created);
      && r.current.Some? && r.current.value.id != id && r.current.value in r.sessions
      && r.sessions != [] && (forall x :: x in r.sessions ==> x.id != id)
  {
  }
}
