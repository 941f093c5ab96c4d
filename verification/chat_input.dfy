/**
 * src/components/ChatInput.tsx: the text box with an optional image. The
 * component's four state variables form one record; sending returns the new
 * record and the arguments handed to `onSend`, if any.
 */
module ChatInput {
  import opened Wrappers
  import opened Text

  datatype Input = Input(message: string, showImageUpload: bool, imageBase64: Option<string>, imageUrl: Option<string>)

  /** The arguments of `onSend(message, imageBase64, imageUrl)`; `None` is `undefined`. */
  datatype Send = Send(message: string, imageBase64: Option<string>, imageUrl: Option<string>)

  datatype Submitted = Submitted(input: Input, sent: Option<Send>)

  /** What the box sends when only an image was given. */
  const DefaultMessage := "商品の分析をお願いします"

  /** A `string | null` state variable is truthy when set and non-empty. */
  predicate IsSet(o: Option<string>) {
    o.Some? && o.value != ""
  }

  /** `x || undefined`. */
  function OrUndefined(o: Option<string>): (r: Option<string>)
    ensures r.Some? <==> IsSet(o)
    ensures r.Some? ==> r == o
  {
    if IsSet(o) then o else None
  }

  /** The state after a send: empty text, no image, upload panel closed. */
  const Cleared := Input("", false, None, None)

  /** Nothing to send: blank text and no image. */
  predicate Blank(st: Input) {
    Trim(st.message) == "" && !IsSet(st.imageBase64)
  }

  /** `handleSubmit`. */
  function Submit(st: Input, isLoading: bool): (r: Submitted)
    ensures r.sent.None? <==> Blank(st) || isLoading
    ensures r.sent.None? ==> r.input == st
    ensures r.sent.Some? ==> r.input == Cleared
    ensures r.sent.Some? ==> r.sent.value.imageBase64 == OrUndefined(st.imageBase64)
    ensures r.sent.Some? ==> r.sent.value.imageUrl == OrUndefined(st.imageUrl)
    ensures r.sent.Some? && Trim(st.message) != "" ==> r.sent.value.message == Trim(st.message)
    ensures r.sent.Some? && Trim(st.message) == "" ==> r.sent.value.message == DefaultMessage
  {
    if Blank(st) || isLoading then Submitted(st, None)
    else
      var text := if Trim(st.message) != "" then Trim(st.message) else DefaultMessage;
      Submitted(Cleared, Some(Send(text, OrUndefined(st.imageBase64), OrUndefined(st.imageUrl))))
  }

  /**
   * The text handed on is never empty and has no surrounding whitespace, and
   * a send carries an image or some typed text.
   */
  lemma SentMessageIsTrimmed(st: Input, isLoading: bool)
    requires Submit(st, isLoading).sent.Some?
    ensures var m := Submit(st, isLoading).sent.value;
      && m.message != ""
      && !IsWhitespace(m.message[0]) && !IsWhitespace(m.message[|m.message| - 1])
      && (m.imageBase64.Some? || Contains(st.message, m.message))
  {
    var t := Trim(st.message);
    if t != "" {
      assert OccursAt(st.message, t, |st.message| - |TrimStart(st.message)|);
    }
  }

  /** A send clears the box, so pressing send again at once sends nothing. */
  lemma NoDoubleSend(st: Input, isLoading: bool, again: bool)
    requires Submit(st, isLoading).sent.Some?
    ensures Submit(Submit(st, isLoading).input, again).sent.None?
  {
    assert Trim("") == "";
  }

  /** `handleClearImage`: drops both image fields and nothing else. */
  function ClearImage(st: Input): (r: Input)
    ensures r.imageBase64.None? && r.imageUrl.None?
    ensures r.message == st.message && r.showImageUpload == st.showImageUpload
  {
    st.(imageBase64 := None, imageUrl := None)
  }

  /** After clearing the image, blank text can no longer be sent. */
  lemma ClearedImageNeedsText(st: Input, isLoading: bool)
    requires Trim(st.message) == ""
    ensures Submit(ClearImage(st), isLoading).sent.None?
  {
  }

  datatype KeyResult = KeyResult(submitted: Submitted, preventDefault: bool)

  /**
   * The text box's `onKeyDown`: ignored during IME composition; Enter
   * without Shift never inserts a newline and submits when the send guard
   * allows; any other key (Shift+Enter included) is left to the text box.
   */
  function KeyDown(st: Input, key: string, shift: bool, composing: bool, isLoading: bool): (r: KeyResult)
    ensures composing || key != "Enter" || shift ==> r == KeyResult(Submitted(st, None), false)
    ensures !composing && key == "Enter" && !shift ==> r.preventDefault
  {
    if composing then KeyResult(Submitted(st, None), false)
    else if key == "Enter" && !shift then
      if (Trim(st.message) != "" || IsSet(st.imageBase64)) && !isLoading then KeyResult(Submit(st, isLoading), true)
      else KeyResult(Submitted(st, None), true)
    else KeyResult(Submitted(st, None), false)
  }

  /** Plain Enter behaves exactly as the send button's submit. */
  lemma EnterIsSubmit(st: Input, isLoading: bool)
    ensures KeyDown(st, "Enter", false, false, isLoading).submitted == Submit(st, isLoading)
  {
  }
}
