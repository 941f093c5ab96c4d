/**
 * The current page (src/app/page.tsx): the local-storage flow. Its state is
 * the stored list, the sidebar list, the current session and the panels the
 * parser fills; `handleSendMessage` and `handleDeleteSession` are functions
 * of that state and the outcomes of their requests.
 */
module CurrentPage {
  import opened Wrappers
  import opened Json
  import opened Types
  import opened ResponseParser
  import opened ChatClient
  import Storage
  import ChatApi

  datatype State = State(
    store: seq<Session>,
    sessions: seq<Session>,
    current: Option<Session>,
    proposals: seq<ProposalFields>,
    selectedProposal: Option<ProposalFields>,
    summary: Option<Json>)

  /** A fresh id and the two clock readings `addMessage` takes: the message's timestamp and the update time. */
  datatype Stamp = Stamp(id: string, at: Instant, touched: Instant)

  /** `prev.map(s => s.id === session.id ? session : s)`. */
  function ReplaceById(ss: seq<Session>, s: Session): (r: seq<Session>)
    ensures |r| == |ss|
    ensures forall i :: 0 <= i < |ss| ==> r[i] == (if ss[i].id == s.id then s else ss[i])
  {
    seq(|ss|, i requires 0 <= i < |ss| => if ss[i].id == s.id then s else ss[i])
  }

  /**
   * For a listed session and unique ids, the list update and the store's
   * `saveSession` give the same list: the sidebar and the store stay in step.
   */
  lemma ReplaceAgreesWithSave(ss: seq<Session>, s: Session)
    requires Storage.UniqueIds(ss) && Storage.HasId(ss, s.id)
    ensures ReplaceById(ss, s) == Storage.SaveSession(ss, s)
  {
    var i := Storage.FindIndex(ss, s.id);
    forall j | 0 <= j < |ss| && ss[j].id == s.id ensures j == i {
      Storage.FirstIndexUnique(ss, j);
    }
  }

  /** `updateSession`: current, saved to the store, replaced in the list. */
  function UpdateSession(st: State, s: Session): (r: State)
    ensures r.current == Some(s) && Storage.GetSession(r.store, s.id) == Some(s)
    ensures |r.sessions| == |st.sessions|
    ensures forall i :: 0 <= i < |st.sessions| ==>
      r.sessions[i] == (if st.sessions[i].id == s.id then s else st.sessions[i])
  {
    Storage.SaveThenGet(st.store, s);
    st.(current := Some(s), store := Storage.SaveSession(st.store, s), sessions := ReplaceById(st.sessions, s))
  }

  const ImageReadyMessage := "完成イメージです！"

  /** The request's messages, the state after the send, and the image prompt it asked for. */
  datatype Sent = Sent(state: State, request: seq<ApiMessage>, imagePrompt: Option<Json>)

  /** The panels a parsed reply fills: proposals and summary. */
  function ShowAction(st: State, a: Option<Action>): (r: State)
    ensures r.proposals == (if a.Some? && a.value.Proposals? then a.value.proposals else st.proposals)
    ensures r.summary == (if a.Some? && a.value.Summary? then Some(a.value.summary) else st.summary)
    ensures r.store == st.store && r.sessions == st.sessions && r.current == st.current
    ensures r.selectedProposal == st.selectedProposal
  {
    match a
    case Some(Proposals(ps, _)) => st.(proposals := ps)
    case Some(Summary(summary)) => st.(summary := Some(summary))
    case _ => st
  }

  /**
   * What the image follow-up adds: the finished image when the answer has
   * one, an error message when the request throws, and nothing otherwise.
   */
  function ImageFollowUp(s: Session, image: Fetch, stamp: Stamp): (r: Session)
    ensures Delivered(image) ==>
      r == Storage.AddMessage(s, Draft(Assistant, ImageReadyMessage, None, Some(DataUrl(image.data))), stamp.id, stamp.at, stamp.touched)
    ensures image.FetchFailed? ==>
      r == Storage.AddMessage(s, Draft(Assistant, ChatApi.ErrorPrefix + ChatApi.MessageOf(image.err), None, None), stamp.id, stamp.at, stamp.touched)
    ensures image.Fetched? && !Delivered(image) ==> r == s
  {
    match image
    case FetchFailed(e) =>
      Storage.AddMessage(s, Draft(Assistant, ChatApi.ErrorPrefix + ChatApi.MessageOf(e), None, None), stamp.id, stamp.at, stamp.touched)
    case Fetched(_, data) =>
      if ImageDelivered(data) then
        Storage.AddMessage(s, Draft(Assistant, ImageReadyMessage, None, Some(DataUrl(data))), stamp.id, stamp.at, stamp.touched)
      else s
  }

  predicate Delivered(f: Fetch) {
    f.Fetched? && ImageDelivered(f.data)
  }

  /** How the chat request ended, as far as the transcript is concerned. */
  datatype Step =
    | Failed(raw: string)
    | Replied(content: string, action: Option<Action>, imagePrompt: Option<Json>)

  /**
   * Reads the chat answer: an error message, or the assistant content (the
   * display text, or the raw reply when that is empty) with the accepted
   * action and the image prompt, if any.
   */
  function Classify(f: Fetch, sc: Scanner): (r: Step)
    ensures ChatFailure(f).Some? ==> r == Failed(ChatFailure(f).value)
    ensures ChatFailure(f).None? ==>
      var text := ReplyOf(f.data).value;
      var p := ParseCurrent(sc, text);
      r == Replied(AssistantContent(p.display, text), p.action, CurrentImagePrompt(p))
  {
    match ChatFailure(f)
    case Some(raw) => Failed(raw)
    case None =>
      var text := ReplyOf(f.data).value;
      var p := ParseCurrent(sc, text);
      Replied(AssistantContent(p.display, text), p.action, CurrentImagePrompt(p))
  }

  /**
   * The transcript after the user's message `s1`: the error, or the reply
   * followed, when an image was asked for, by the image follow-up.
   */
  function Extend(s1: Session, step: Step, image: Fetch, reply: Stamp, picture: Stamp): (r: Session)
    ensures |s1.messages| + 1 <= |r.messages| <= |s1.messages| + 2
    ensures r.messages[..|s1.messages|] == s1.messages
    ensures r.id == s1.id && r.messages[|s1.messages|].role == Assistant
    ensures step.Failed? ==>
      && |r.messages| == |s1.messages| + 1
      && r.messages[|s1.messages|].content == ChatApi.ErrorPrefix + step.raw
    ensures step.Replied? ==> r.messages[|s1.messages|].content == step.content
    ensures step.Failed? || step.imagePrompt.None? ==> |r.messages| == |s1.messages| + 1
    ensures step.Replied? && step.imagePrompt.Some? ==>
      r == ImageFollowUp(Storage.AddMessage(s1, Draft(Assistant, step.content, None, None), reply.id, reply.at, reply.touched), image, picture)
  {
    match step
    case Failed(raw) => Storage.AddMessage(s1, Draft(Assistant, ChatApi.ErrorPrefix + raw, None, None), reply.id, reply.at, reply.touched)
    case Replied(content, _, prompt) =>
      var s2 := Storage.AddMessage(s1, Draft(Assistant, content, None, None), reply.id, reply.at, reply.touched);
      if prompt.Some? then
        var s3 := ImageFollowUp(s2, image, picture);
        assert s3.messages[..|s2.messages|] == s2.messages;
        s3
      else s2
  }

  /**
   * `handleSendMessage`. Without a current session it does nothing. It adds
   * the user's message, clears the proposals and the selected proposal, and
   * posts the transcript; the reply then fills the proposals or summary panel
   * and extends the transcript as `Extend` says.
   */
  function SendMessage(st: State, content: string, imageBase64: Option<string>, imageUrl: Option<string>,
                       f: Fetch, sc: Scanner, image: Fetch, user: Stamp, reply: Stamp, picture: Stamp): (r: Sent)
    ensures st.current.None? ==> r == Sent(st, [], None)
    ensures st.current.Some? ==>
      var s1 := Storage.AddMessage(st.current.value, Draft(User, content, imageUrl, None), user.id, user.at, user.touched);
      var step := Classify(f, sc);
      var action := if step.Replied? then step.action else None;
      && r.request == ApiMessages(s1.messages, imageBase64)
      && r.state.current == Some(Extend(s1, step, image, reply, picture))
      && r.imagePrompt == (if step.Replied? then step.imagePrompt else None)
      && r.state.selectedProposal.None?
      && r.state.proposals == (if action.Some? && action.value.Proposals? then action.value.proposals else [])
      && r.state.summary == (if action.Some? && action.value.Summary? then Some(action.value.summary) else st.summary)
  {
    if st.current.None? then Sent(st, [], None)
    else
      var s1 := Storage.AddMessage(st.current.value, Draft(User, content, imageUrl, None), user.id, user.at, user.touched);
      var st1 := UpdateSession(st, s1).(proposals := [], selectedProposal := None);
      var step := Classify(f, sc);
      var action := if step.Replied? then step.action else None;
      var prompt := if step.Replied? then step.imagePrompt else None;
      Sent(UpdateSession(ShowAction(st1, action), Extend(s1, step, image, reply, picture)),
           ApiMessages(s1.messages, imageBase64), prompt)
  }

  /** The prompt of an accepted image block: what `parseResponse` returns as `imagePrompt`. */
  function CurrentImagePrompt(p: Parsed): (r: Option<Json>)
    ensures r.Some? <==> p.action.Some? && p.action.value.GenerateImage?
    ensures r.Some? ==> CurrentReply(p) == ImageRequest(r.value, p.display)
  {
    match CurrentReply(p)
    case ImageRequest(prompt, _) => Some(prompt)
    case Text(_) => None
  }

  /**
   * The image follow-up message appears exactly when the reply asked for an
   * image and the image answer delivered one; otherwise the transcript ends
   * with the assistant's reply (or, when the image request throws, with its
   * error).
   */
  lemma ImageMessageOnlyWhenDelivered(st: State, content: string, imageBase64: Option<string>, imageUrl: Option<string>,
                                      f: Fetch, sc: Scanner, image: Fetch, user: Stamp, reply: Stamp, picture: Stamp)
    requires st.current.Some? && ChatFailure(f).None?
    ensures var r := SendMessage(st, content, imageBase64, imageUrl, f, sc, image, user, reply, picture);
      var n := |st.current.value.messages|;
      var ms := r.state.current.value.messages;
      && (|ms| == n + 3 && ms[n + 2].generatedImageUrl.Some? <==> r.imagePrompt.Some? && Delivered(image))
      && (r.imagePrompt.None? || (image.Fetched? && !Delivered(image)) ==> |ms| == n + 2)
  {
  }

  /** After a send the store holds the session the page shows: a lookup by its id finds it. */
  lemma SendSavesToStore(st: State, content: string, imageBase64: Option<string>, imageUrl: Option<string>,
                         f: Fetch, sc: Scanner, image: Fetch, user: Stamp, reply: Stamp, picture: Stamp)
    requires st.current.Some?
    ensures var r := SendMessage(st, content, imageBase64, imageUrl, f, sc, image, user, reply, picture);
      Storage.GetSession(r.state.store, st.current.value.id) == r.state.current
  {
    var r := SendMessage(st, content, imageBase64, imageUrl, f, sc, image, user, reply, picture);
    var last := r.state.current.value;
    assert exists before :: r.state.store == Storage.SaveSession(before, last);
    var before :| r.state.store == Storage.SaveSession(before, last);
    Storage.SaveThenGet(before, last);
  }

  /**
   * `handleDeleteSession`. The session leaves the store and the list. If it
   * was current, the first remaining session becomes current, or, with none
   * left, `created` (from `createSession`) is saved, listed and made current
   * with the panels cleared.
   */
  function DeleteSession(st: State, id: string, created: Session): (r: State)
    ensures st.current.None? || st.current.value.id != id ==>
      r == st.(store := Storage.DeleteSession(st.store, id), sessions := Storage.DeleteSession(st.sessions, id))
    ensures st.current.Some? && st.current.value.id == id && Storage.DeleteSession(st.sessions, id) != [] ==>
      var rest := Storage.DeleteSession(st.sessions, id);
      r == st.(store := Storage.DeleteSession(st.store, id), sessions := rest, current := Some(rest[0]))
    ensures st.current.Some? && st.current.value.id == id && Storage.DeleteSession(st.sessions, id) == [] ==>
      r == State(Storage.SaveSession(Storage.DeleteSession(st.store, id), created), [created], Some(created), [], None, None)
  {
    var store := Storage.DeleteSession(st.store, id);
    var rest := Storage.DeleteSession(st.sessions, id);
    if st.current.Some? && st.current.value.id == id then
      if |rest| > 0 then st.(store := store, sessions := rest, current := Some(rest[0]))
      else State(Storage.SaveSession(store, created), [created] + rest, Some(created), [], None, None)
    else st.(store := store, sessions := rest)
  }

  /**
   * Deleting the current session leaves a listed current session other than
   * the deleted one, and no listed or stored session with the deleted id.
   */
  lemma DeleteCurrentFallsBack(st: State, id: string, created: Session)
    requires st.current.Some? && st.current.value.id == id && created.id != id
    ensures var r := DeleteSession(st, id, created);
      && r.current.Some? && r.current.value.id != id && r.current.value in r.sessions
      && !Storage.HasId(r.sessions, id) && !Storage.HasId(r.store, id)
  {
    var rest := Storage.DeleteSession(st.sessions, id);
    if |rest| > 0 {
      assert rest[0] in rest;
    } else {
      var store := Storage.DeleteSession(st.store, id);
      var saved := Storage.SaveSession(store, created);
      assert forall x :: x in saved ==> x == created || x in store;
    }
  }
}
