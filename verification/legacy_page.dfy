/**
 * The state the legacy page keeps around the parser (src/app_legacy/page.tsx):
 * what an accepted action changes, the pending image prompt and its
 * lifecycle, the three-dish progression, and the transcript updates of a
 * send. React state is a record; a handler is a function from the state (and
 * the outcomes of its requests) to the next state. The user is signed in.
 */
module LegacyPage {
  import opened Wrappers
  import opened Text
  import opened Json
  import opened Types
  import opened DbTypes
  import opened ResponseParser
  import opened ChatClient
  import LS = LegacySession
  import ChatApi

  /** An image made for one of the three dishes: the dish's `order` and `name`, and the image. */
  datatype DishImage = DishImage(order: Prop, name: Prop, imageUrl: string)

  /**
   * The page's state besides the sessions. Payloads the page stores without
   * looking inside stay JSON values.
   */
  datatype Ui = Ui(
    dishOptions: Json,
    selectedDishes: Json,
    currentDishIndex: nat,
    dishImages: seq<DishImage>,
    proposals: seq<ProposalFields>,
    recipes: seq<Json>,
    summary: Option<Json>,
    equipmentList: Json,
    showImageConfirmation: bool,
    lastGeneratedImageUrl: Option<string>,
    pendingImagePrompt: Option<Json>)

  /** What an accepted action does: the new state, and the requests it starts. */
  datatype Effects = Effects(ui: Ui, retitle: Option<Json>, layoutPrompt: Option<Json>)

  /**
   * `v.length` as the page reads it off the stored selection, `None` standing
   * for `undefined`: an array's item count, a string's length, an object's
   * numeric `length` field. Numbers and booleans have no `length`.
   */
  function LengthOf(v: Json): (r: Option<int>)
    ensures v.JArr? ==> r == Some(|v.items|)
    ensures v.JStr? ==> r == Some(|v.s|)
    ensures v.JNum? || v.JBool? || v.JNull? ==> r.None?
    ensures r.Some? && !v.JObj? ==> r.value >= 0
  {
    match v
    case JArr(items) => Some(|items|)
    case JStr(t) => Some(|t|)
    case JObj(_) =>
      var p := Lookup(v, "length");
      if p.Defined? && p.value.JNum? then Some(p.value.n) else None
    case _ => None
  }

  /**
   * `v[i]`: an array's item, a string's one-character string, an object's
   * field named by the decimal index; `undefined` past the end and on every
   * other kind of value.
   */
  function ElementAt(v: Json, i: nat): (p: Prop)
    ensures v.JArr? ==> p == (if i < |v.items| then Defined(v.items[i]) else Undefined)
    ensures v.JStr? ==> p == (if i < |v.s| then Defined(JStr([v.s[i]])) else Undefined)
    ensures v.JObj? ==> p == Lookup(v, NatToString(i))
    ensures v.JNum? || v.JBool? || v.JNull? ==> p == Undefined
  {
    match v
    case JArr(items) => if i < |items| then Defined(items[i]) else Undefined
    case JStr(t) => if i < |t| then Defined(JStr([t[i]])) else Undefined
    case JObj(_) => Lookup(v, NatToString(i))
    case _ => Undefined
  }

  /**
   * The state changes `parseResponse` makes for the action it accepted.
   * `title` is the current session's title; a coop-letter theme in a proposals
   * block retitles the session only when that title mentions the coop letter.
   */
  function ApplyAction(ui: Ui, a: Action, title: string): (r: Effects)
    ensures a.DishSelection? ==> r.ui.dishOptions == a.dishList
    ensures a.DishesConfirmed? ==>
      && r.ui.dishOptions == JArr([])
      && r.ui.selectedDishes == a.selectedDishes && r.ui.currentDishIndex == 0
    ensures !a.DishSelection? && !a.DishesConfirmed? ==> r.ui.dishOptions == ui.dishOptions
    ensures !a.DishesConfirmed? ==>
      r.ui.selectedDishes == ui.selectedDishes && r.ui.currentDishIndex == ui.currentDishIndex
    ensures r.ui.proposals == (if a.Proposals? then a.proposals else ui.proposals)
    ensures r.ui.recipes == (if a.Recipe? then ui.recipes + [a.recipe] else ui.recipes)
    ensures r.ui.summary == (if a.Summary? then Some(a.summary) else ui.summary)
    ensures r.ui.pendingImagePrompt == (if a.GenerateImage? then Some(a.prompt) else ui.pendingImagePrompt)
    ensures r.ui.equipmentList == (if a.EquipmentList? then a.equipmentList else ui.equipmentList)
    ensures r.ui.showImageConfirmation == (if a.EquipmentList? then false else ui.showImageConfirmation)
    ensures r.ui.dishImages == ui.dishImages && r.ui.lastGeneratedImageUrl == ui.lastGeneratedImageUrl
    ensures r.retitle.Some? <==>
      || (a.DishSelection? && a.theme.Some?)
      || (a.Proposals? && a.theme.Some? && Contains(title, "コープレター"))
    ensures r.retitle.Some? ==> (a.DishSelection? || a.Proposals?) && Some(r.retitle.value) == a.theme
    ensures r.layoutPrompt == (if a.GenerateLayout? then Some(a.layoutPrompt) else None)
  {
    match a
    case DishSelection(list, theme) => Effects(ui.(dishOptions := list), theme, None)
    case DishesConfirmed(sel) =>
      Effects(ui.(selectedDishes := sel, currentDishIndex := 0, dishOptions := JArr([])), None, None)
    case GenerateLayout(prompt) => Effects(ui, None, Some(prompt))
    case Proposals(ps, theme) =>
      Effects(ui.(proposals := ps), if Contains(title, "コープレター") then theme else None, None)
    case Recipe(recipe) => Effects(ui.(recipes := ui.recipes + [recipe]), None, None)
    case Summary(summary) => Effects(ui.(summary := Some(summary)), None, None)
    case GenerateImage(prompt) => Effects(ui.(pendingImagePrompt := Some(prompt)), None, None)
    case EquipmentList(list) => Effects(ui.(equipmentList := list, showImageConfirmation := false), None, None)
  }

  // ---------------------------------------------------------------------------
  // The three-dish progression

  const NextDishMessage := "OKです、次の料理に進んでください"
  const LayoutMessage := "OKです、最終レイアウトを生成してください"

  /** The dish index points into the selection, or is 0. */
  predicate DishIndexOk(ui: Ui) {
    var n := LengthOf(ui.selectedDishes);
    ui.currentDishIndex == 0 || (n.Some? && ui.currentDishIndex < n.value)
  }

  /**
   * `currentDishIndex < selectedDishes.length - 1`; with no length the
   * subtraction gives `NaN` and the comparison is false.
   */
  predicate BeforeLastDish(ui: Ui) {
    var n := LengthOf(ui.selectedDishes);
    n.Some? && ui.currentDishIndex < n.value - 1
  }

  /** The new state and the chat message a handler sends, if any. */
  datatype Advanced = Advanced(ui: Ui, send: Option<string>)

  /**
   * `handleNextDish`: move to the next dish while there is one, and ask for it;
   * at the last dish, or with a selection that has no length, ask for the
   * layout instead.
   */
  function NextDish(ui: Ui, hasSession: bool): (r: Advanced)
    ensures !hasSession ==> r == Advanced(ui, None)
    ensures hasSession && LengthOf(ui.selectedDishes).Some?
              && ui.currentDishIndex < LengthOf(ui.selectedDishes).value - 1 ==>
      r == Advanced(ui.(currentDishIndex := ui.currentDishIndex + 1), Some(NextDishMessage))
    ensures hasSession && LengthOf(ui.selectedDishes).Some?
              && ui.currentDishIndex >= LengthOf(ui.selectedDishes).value - 1 ==>
      r == Advanced(ui, Some(LayoutMessage))
    ensures hasSession && LengthOf(ui.selectedDishes).None? ==> r == Advanced(ui, Some(LayoutMessage))
    ensures DishIndexOk(ui) ==> DishIndexOk(r.ui)
  {
    if !hasSession then Advanced(ui, None)
    else if BeforeLastDish(ui) then
      Advanced(ui.(currentDishIndex := ui.currentDishIndex + 1), Some(NextDishMessage))
    else Advanced(ui, Some(LayoutMessage))
  }

  /** `handleNextDish` pressed `n` times in a row. */
  function NextDishTimes(ui: Ui, n: nat): Ui
    decreases n
  {
    if n == 0 then ui else NextDishTimes(NextDish(ui, true).ui, n - 1)
  }

  /**
   * From the first dish, `n` presses reach dish `n`, but never go past the
   * last one.
   */
  lemma {:induction false} NextDishStopsAtLast(ui: Ui, n: nat)
    requires LengthOf(ui.selectedDishes).Some? && LengthOf(ui.selectedDishes).value > 0
    requires ui.currentDishIndex < LengthOf(ui.selectedDishes).value
    ensures var last := LengthOf(ui.selectedDishes).value - 1;
      NextDishTimes(ui, n).currentDishIndex ==
        (if ui.currentDishIndex + n <= last then ui.currentDishIndex + n else last)
    ensures NextDishTimes(ui, n).selectedDishes == ui.selectedDishes
    decreases n
  {
    if n > 0 {
      NextDishStopsAtLast(NextDish(ui, true).ui, n - 1);
    }
  }

  /**
   * The early return of `handleDishImageGenerated`: the length is 0, or the
   * index is at or past it. A missing length makes both comparisons false.
   */
  predicate NoCurrentDish(ui: Ui) {
    var n := LengthOf(ui.selectedDishes);
    n.Some? && (n.value == 0 || ui.currentDishIndex >= n.value)
  }

  /** The handler's new state, and whether it threw a `TypeError` (which leaves the state as it was). */
  datatype Handled = Handled(ui: Ui, threw: bool)

  /**
   * `handleDishImageGenerated`: record the image under the current dish's
   * `order` and `name`; with no selection, or an index past it, do nothing.
   * Reading `order` off an undefined or `null` dish throws, and nothing is
   * recorded.
   */
  function DishImageGenerated(ui: Ui, imageUrl: string): (r: Handled)
    ensures NoCurrentDish(ui) ==> r == Handled(ui, false)
    ensures r.threw <==>
      && !NoCurrentDish(ui)
      && var dish := ElementAt(ui.selectedDishes, ui.currentDishIndex);
         dish.Undefined? || dish.value.JNull?
    ensures r.threw ==> r.ui == ui
    ensures !r.threw && !NoCurrentDish(ui) ==>
      var dish := ElementAt(ui.selectedDishes, ui.currentDishIndex).value;
      r.ui == ui.(dishImages := ui.dishImages + [DishImage(Lookup(dish, "order"), Lookup(dish, "name"), imageUrl)])
  {
    if NoCurrentDish(ui) then Handled(ui, false)
    else
      match ElementAt(ui.selectedDishes, ui.currentDishIndex)
      case Undefined => Handled(ui, true)
      case Defined(dish) =>
        if dish.JNull? then Handled(ui, true)
        else Handled(ui.(dishImages := ui.dishImages + [DishImage(Lookup(dish, "order"), Lookup(dish, "name"), imageUrl)]), false)
  }

  /**
   * On a selection of the declared shape, an array of dish objects, an image
   * arriving while the index is inside the selection is recorded under that
   * dish, and nothing throws.
   */
  lemma DishImageRecordsCurrentDish(ui: Ui, imageUrl: string)
    requires ui.selectedDishes.JArr? && ui.currentDishIndex < |ui.selectedDishes.items|
    requires forall d :: d in ui.selectedDishes.items ==> d.JObj?
    ensures var dish := ui.selectedDishes.items[ui.currentDishIndex];
      DishImageGenerated(ui, imageUrl) ==
        Handled(ui.(dishImages := ui.dishImages + [DishImage(Lookup(dish, "order"), Lookup(dish, "name"), imageUrl)]), false)
  {
    assert ui.selectedDishes.items[ui.currentDishIndex] in ui.selectedDishes.items;
  }

  /**
   * A confirmed selection is stored as given, whatever its kind: a string of
   * three characters walks three "dishes" before the layout is requested,
   * and a `null` dish makes the image handler throw.
   */
  lemma SelectionStoredAsGiven(ui: Ui, title: string)
    ensures var r := ApplyAction(ui, Action.DishesConfirmed(JStr("abc")), title).ui;
      && NextDish(r, true) == Advanced(r.(currentDishIndex := 1), Some(NextDishMessage))
      && NextDish(NextDish(r, true).ui, true) == Advanced(r.(currentDishIndex := 2), Some(NextDishMessage))
      && NextDish(r.(currentDishIndex := 2), true) == Advanced(r.(currentDishIndex := 2), Some(LayoutMessage))
    ensures var r := ApplyAction(ui, Action.DishesConfirmed(JArr([JNull])), title).ui;
      DishImageGenerated(r, "img").threw
  {
  }

  /** Every accepted action keeps the dish index inside the selection. */
  lemma ActionsKeepDishIndex(ui: Ui, a: Action, title: string)
    requires DishIndexOk(ui)
    ensures DishIndexOk(ApplyAction(ui, a, title).ui)
  {
  }

  const SelectionSuffix := " を選びます"

  /** `handleDishSelection`: the chosen ids, comma separated, then " を選びます". */
  function DishSelectionMessage(ids: seq<string>): (m: string)
    ensures EndsWith(m, SelectionSuffix)
    ensures m == Join(ids, ", ") + SelectionSuffix
  {
    Join(ids, ", ") + SelectionSuffix
  }

  /** `t` without one leading space. */
  function DropSpace(t: string): (r: string)
    ensures r == t || t == " " + r
  {
    if |t| > 0 && t[0] == ' ' then t[1..] else t
  }

  /**
   * Reads the chosen ids back out of a selection message: the suffix
   * dropped, the rest split at each comma, the space after each comma dropped.
   */
  function ReadIds(m: string): (ids: seq<string>)
    ensures |ids| >= 1
  {
    var body := if EndsWith(m, SelectionSuffix) then m[..|m| - |SelectionSuffix|] else m;
    var pieces := Split(body, ',');
    [pieces[0]] + seq(|pieces| - 1, i requires 0 <= i < |pieces| - 1 => DropSpace(pieces[i + 1]))
  }

  /** The message names the chosen ids, in order, when none of them contains a comma. */
  lemma DishSelectionReadBack(ids: seq<string>)
    requires |ids| >= 1
    requires forall i :: 0 <= i < |ids| ==> ',' !in ids[i]
    ensures ReadIds(DishSelectionMessage(ids)) == ids
  {
    var m := DishSelectionMessage(ids);
    var body := Join(ids, ", ");
    assert m[..|m| - |SelectionSuffix|] == body;
    var padded := PrefixRest(ids, " ");
    assert ", " == [','] + " ";
    JoinWider(ids, [','], " ");
    forall i | 0 <= i < |padded| ensures ',' !in padded[i] {
      if i > 0 {
        assert padded[i] == " " + ids[i];
      }
    }
    SplitJoin(padded, ',');
    forall i | 1 <= i < |ids| ensures DropSpace(padded[i]) == ids[i] {
      assert padded[i] == " " + ids[i];
      assert (" " + ids[i])[1..] == ids[i];
    }
  }

  // ---------------------------------------------------------------------------
  // Sessions, image generation and sending

  /** The sessions, the current session, and the rest of the state. */
  datatype State = State(view: LS.View, ui: Ui)

  /** A fresh id and the two clock readings `addMessage` takes: the message's timestamp and the update time. */
  datatype Stamp = Stamp(id: string, at: Instant, touched: Instant)

  /** `updateSession`: the session becomes current and replaces its entry in the list. */
  function UpdateSession(v: LS.View, s: LS.Session): (r: LS.View)
    ensures r.current == Some(s) && |r.sessions| == |v.sessions|
    ensures forall i :: 0 <= i < |v.sessions| ==>
      r.sessions[i] == (if v.sessions[i].id == s.id then s else v.sessions[i])
  {
    LS.View(LS.ReplaceById(v.sessions, s), Some(s))
  }

  const ImageReadyMessage := "完成イメージです！"
  const ImageRetryMessage := "画像の生成に失敗しました。もう一度お試しください。"

  /** Puts `prefix` before `raw` unless `raw` already starts with `marker`. */
  function Prefixed(raw: string, marker: string, prefix: string): (r: string)
    ensures StartsWith(raw, marker) ==> r == raw
    ensures !StartsWith(raw, marker) ==> r == prefix + raw
  {
    if StartsWith(raw, marker) then raw else prefix + raw
  }

  /** When the prefix itself starts with the marker, prefixing twice is prefixing once. */
  lemma PrefixedIdempotent(raw: string, marker: string, prefix: string)
    requires StartsWith(prefix, marker)
    ensures Prefixed(Prefixed(raw, marker, prefix), marker, prefix) == Prefixed(raw, marker, prefix)
    ensures StartsWith(Prefixed(raw, marker, prefix), marker)
  {
    if !StartsWith(raw, marker) {
      assert (prefix + raw)[..|marker|] == prefix[..|marker|];
    }
  }

  /** An assistant message without an uploaded image. */
  function AssistantDraft(content: string, generatedImageUrl: Option<string>): Draft {
    Draft(Assistant, content, None, generatedImageUrl)
  }

  /** The image request got an image back. */
  predicate Delivered(f: Fetch) {
    f.Fetched? && ImageDelivered(f.data)
  }

  const ImageErrorMarker := "画像生成エラー:"
  const ImageErrorPrefix := "画像生成エラー: "

  /**
   * The message `handleGenerateImage` adds for the outcome of its request. The
   * answer's `ok` flag is not consulted: only `success` and `imageBase64` are.
   */
  function ImageDraft(mode: Option<Mode>, f: Fetch): (d: Draft)
    ensures d.role == Assistant && d.imageUrl == None
    ensures Delivered(f) ==>
      && d.content == ImageReadyMessage
      && d.generatedImageUrl == (if mode == Some(Ohisama) then None else Some(DataUrl(f.data)))
    ensures f.Fetched? && !Delivered(f) ==> d == AssistantDraft(ImageRetryMessage, None)
    ensures f.FetchFailed? ==>
      d == AssistantDraft(Prefixed(ChatApi.MessageOf(f.err), ImageErrorMarker, ImageErrorPrefix), None)
  {
    match f
    case FetchFailed(e) => AssistantDraft(Prefixed(ChatApi.MessageOf(e), ImageErrorMarker, ImageErrorPrefix), None)
    case Fetched(_, data) =>
      if !ImageDelivered(data) then AssistantDraft(ImageRetryMessage, None)
      else if mode == Some(Ohisama) then AssistantDraft(ImageReadyMessage, None)
      else AssistantDraft(ImageReadyMessage, Some(DataUrl(data)))
  }

  /**
   * `handleGenerateImage`. Without a pending prompt or a current session it
   * does nothing. Otherwise it adds one assistant message for the outcome. A
   * delivered image clears the pending prompt; in the おひさま mode the image
   * goes to the confirmation panel instead of the message. A failed or thrown
   * request keeps the prompt, so the next press asks for the same image.
   */
  function GenerateImage(st: State, mode: Option<Mode>, f: Fetch, stamp: Stamp): (r: State)
    ensures st.ui.pendingImagePrompt.None? || st.view.current.None? ==> r == st
    ensures st.ui.pendingImagePrompt.Some? && st.view.current.Some? ==>
      && r.view == UpdateSession(st.view, LS.AddMessage(st.view.current.value, ImageDraft(mode, f), stamp.id, stamp.at, stamp.touched))
      && (r.ui.pendingImagePrompt.None? <==> Delivered(f))
      && (!Delivered(f) ==> r.ui == st.ui)
      && (Delivered(f) && mode == Some(Ohisama) ==>
            r.ui == st.ui.(pendingImagePrompt := None, lastGeneratedImageUrl := Some(DataUrl(f.data)), showImageConfirmation := true))
      && (Delivered(f) && mode != Some(Ohisama) ==> r.ui == st.ui.(pendingImagePrompt := None))
  {
    if st.ui.pendingImagePrompt.None? || st.view.current.None? then st
    else
      var view := UpdateSession(st.view, LS.AddMessage(st.view.current.value, ImageDraft(mode, f), stamp.id, stamp.at, stamp.touched));
      if !Delivered(f) then State(view, st.ui)
      else if mode == Some(Ohisama) then
        State(view, st.ui.(pendingImagePrompt := None, lastGeneratedImageUrl := Some(DataUrl(f.data)), showImageConfirmation := true))
      else State(view, st.ui.(pendingImagePrompt := None))
  }

  /**
   * The pending prompt's lifecycle: an accepted generate_image block sets it;
   * a failed image request keeps it, so pressing again asks for the same
   * prompt; only a delivered image clears it.
   */
  lemma PendingPromptLifecycle(st: State, prompt: Json, title: string, mode: Option<Mode>,
                               failed: Fetch, delivered: Fetch, s1: Stamp, s2: Stamp)
    requires st.view.current.Some?
    requires !Delivered(failed) && Delivered(delivered)
    ensures var armed := State(st.view, ApplyAction(st.ui, Action.GenerateImage(prompt), title).ui);
      && armed.ui.pendingImagePrompt == Some(prompt)
      && GenerateImage(armed, mode, failed, s1).ui.pendingImagePrompt == Some(prompt)
      && GenerateImage(GenerateImage(armed, mode, failed, s1), mode, delivered, s2).ui.pendingImagePrompt.None?
  {
  }

  const ErrorMarker := "エラーが発生しました"

  /** The request's messages, the state after the send, and the requests the reply started. */
  datatype Sent = Sent(state: State, request: seq<ApiMessage>, retitle: Option<Json>, layoutPrompt: Option<Json>)

  /**
   * `handleSendMessage`. Without a current session or a chosen mode it does
   * nothing. Otherwise it adds the user's message and posts the transcript.
   * A usable reply goes through `parseResponse`: the accepted action changes
   * the state, and the assistant message is the display text, or the raw
   * reply when that is empty. A failure adds an error message, prefixed with
   * "エラーが発生しました: " unless it already starts with that phrase, and
   * leaves the rest of the state alone.
   */
  function SendMessage(st: State, mode: Option<Mode>, content: string, imageBase64: Option<string>,
                       imageUrl: Option<string>, f: Fetch, sc: Scanner, user: Stamp, reply: Stamp): (r: Sent)
    ensures st.view.current.None? || mode.None? ==> r == Sent(st, [], None, None)
    ensures st.view.current.Some? && mode.Some? ==>
      var s := st.view.current.value;
      var s1 := LS.AddMessage(s, Draft(User, content, imageUrl, None), user.id, user.at, user.touched);
      && r.request == ApiMessages(s1.messages, imageBase64)
      && r.state.view.current.Some?
      && r.state.view == UpdateSession(UpdateSession(st.view, s1), r.state.view.current.value)
      && |r.state.view.current.value.messages| == |s.messages| + 2
      && r.state.view.current.value.messages[..|s.messages| + 1] == s1.messages
      && r.state.view.current.value.messages[|s.messages| + 1].role == Assistant
      && (ChatFailure(f).Some? ==>
            && r.state.ui == st.ui && r.retitle.None? && r.layoutPrompt.None?
            && r.state.view.current.value.messages[|s.messages| + 1].content ==
                 Prefixed(ChatFailure(f).value, ErrorMarker, ChatApi.ErrorPrefix))
      && (ChatFailure(f).None? ==>
            var text := ReplyOf(f.data).value;
            var p := ParseLegacy(sc, text);
            && r.state.view.current.value.messages[|s.messages| + 1].content == AssistantContent(p.display, text)
            && (p.action.None? ==> r.state.ui == st.ui && r.retitle.None? && r.layoutPrompt.None?)
            && (p.action.Some? ==>
                  Effects(r.state.ui, r.retitle, r.layoutPrompt) == ApplyAction(st.ui, p.action.value, s.title)))
  {
    if st.view.current.None? || mode.None? then Sent(st, [], None, None)
    else
      var s := st.view.current.value;
      var s1 := LS.AddMessage(s, Draft(User, content, imageUrl, None), user.id, user.at, user.touched);
      var v1 := UpdateSession(st.view, s1);
      var request := ApiMessages(s1.messages, imageBase64);
      match ChatFailure(f)
      case Some(raw) =>
        var s2 := LS.AddMessage(s1, AssistantDraft(Prefixed(raw, ErrorMarker, ChatApi.ErrorPrefix), None), reply.id, reply.at, reply.touched);
        Sent(State(UpdateSession(v1, s2), st.ui), request, None, None)
      case None =>
        var text := ReplyOf(f.data).value;
        var p := ParseLegacy(sc, text);
        var e := if p.action.Some? then ApplyAction(st.ui, p.action.value, s.title) else Effects(st.ui, None, None);
        var s2 := LS.AddMessage(s1, AssistantDraft(AssistantContent(p.display, text), None), reply.id, reply.at, reply.touched);
        Sent(State(UpdateSession(v1, s2), e.ui), request, e.retitle, e.layoutPrompt)
  }

  /**
   * A reply the server rejected with its own prefixed error is shown as is:
   * the phrase is not doubled.
   */
  lemma ServerErrorNotDoubled(e: ChatApi.Thrown)
    requires !Contains(ChatApi.MessageOf(e), "API_KEY")
    ensures var raw := ChatFailure(Fetched(false, ChatApi.ServerError(e).body.fields)).value;
      Prefixed(raw, ErrorMarker, ChatApi.ErrorPrefix) == raw
  {
    var raw := ChatApi.ErrorPrefix + ChatApi.MessageOf(e);
    assert raw[..|ErrorMarker|] == ErrorMarker;
  }
}
