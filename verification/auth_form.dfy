/**
 * src/components/AuthForm.tsx: what the sign-in / sign-up form shows after a
 * submit. The Supabase call is replaced by its outcome: nothing thrown, or the
 * thrown value.
 */
module AuthForm {
  import opened Wrappers
  import opened Text
  import ChatApi

  const InvalidCredentials := "Invalid login credentials"
  const AlreadyRegistered := "User already registered"
  const PasswordTooShort := "Password should be at least"

  const InvalidCredentialsMessage := "メールアドレスまたはパスワードが正しくありません"
  const AlreadyRegisteredMessage := "このメールアドレスは既に登録されています"
  const PasswordTooShortMessage := "パスワードは6文字以上で入力してください"
  const DefaultError := "認証エラーが発生しました"
  const ConfirmationSent := "確認メールを送信しました。メールを確認してください。"

  /** `err instanceof Error ? err.message : '認証エラーが発生しました'`. */
  function ErrorText(e: ChatApi.Thrown): string {
    if e.ErrorValue? then e.message else DefaultError
  }

  /** The error's text mentions `phrase`. */
  predicate Mentions(e: ChatApi.Thrown, phrase: string) {
    Contains(ErrorText(e), phrase)
  }

  /** The error shown: the first known phrase found picks its message, else the text as is. */
  function Explain(e: ChatApi.Thrown): (shown: string)
    ensures Mentions(e, InvalidCredentials) ==> shown == InvalidCredentialsMessage
    ensures !Mentions(e, InvalidCredentials) && Mentions(e, AlreadyRegistered) ==> shown == AlreadyRegisteredMessage
    ensures (!Mentions(e, InvalidCredentials) && !Mentions(e, AlreadyRegistered) && Mentions(e, PasswordTooShort))
      ==> shown == PasswordTooShortMessage
    ensures (!Mentions(e, InvalidCredentials) && !Mentions(e, AlreadyRegistered) && !Mentions(e, PasswordTooShort))
      ==> shown == ErrorText(e)
  {
    var text := ErrorText(e);
    if Contains(text, InvalidCredentials) then InvalidCredentialsMessage
    else if Contains(text, AlreadyRegistered) then AlreadyRegisteredMessage
    else if Contains(text, PasswordTooShort) then PasswordTooShortMessage
    else text
  }

  /** A string without the first character of `t` cannot contain `t`. */
  lemma MissingFirstChar(s: string, t: string)
    requires |t| > 0 && t[0] !in s
    ensures !Contains(s, t)
  {
    forall i | 0 <= i <= |s| ensures !OccursAt(s, t, i) {
      if i < |s| && i + |t| <= |s| {
        assert s[i..i + |t|][0] == s[i];
      }
    }
  }

  /** A text with none of the three phrases is shown as it is. */
  lemma PlainTextShownAsIs(text: string)
    requires 'I' !in text && 'U' !in text && 'P' !in text
    ensures Explain(ChatApi.ErrorValue(text)) == text
  {
    MissingFirstChar(text, InvalidCredentials);
    MissingFirstChar(text, AlreadyRegistered);
    MissingFirstChar(text, PasswordTooShort);
  }

  /** Each fixed message, raised again as an error, is shown as itself. */
  lemma InvalidCredentialsShownAsIs()
    ensures Explain(ChatApi.ErrorValue(InvalidCredentialsMessage)) == InvalidCredentialsMessage
  {
    PlainTextShownAsIs(InvalidCredentialsMessage);
  }

  lemma AlreadyRegisteredShownAsIs()
    ensures Explain(ChatApi.ErrorValue(AlreadyRegisteredMessage)) == AlreadyRegisteredMessage
  {
    PlainTextShownAsIs(AlreadyRegisteredMessage);
  }

  lemma PasswordTooShortShownAsIs()
    ensures Explain(ChatApi.ErrorValue(PasswordTooShortMessage)) == PasswordTooShortMessage
  {
    PlainTextShownAsIs(PasswordTooShortMessage);
  }

  /**
   * Showing is stable: an error whose text is what the form shows is shown
   * the same way again, for the three fixed messages, the default and any
   * raw text that was passed through.
   */
  lemma ExplainIdempotent(e: ChatApi.Thrown)
    ensures Explain(ChatApi.ErrorValue(Explain(e))) == Explain(e)
  {
    InvalidCredentialsShownAsIs();
    AlreadyRegisteredShownAsIs();
    PasswordTooShortShownAsIs();
  }

  /** A thrown non-Error shows the default text. */
  lemma NonErrorShowsDefault()
    ensures Explain(ChatApi.NonError) == DefaultError
  {
    PlainTextShownAsIs(DefaultError);
  }

  datatype Form = Form(isLogin: bool, isLoading: bool, error: Option<string>, message: Option<string>)

  /** The form after the submit settles, and whether `onSuccess` was called. */
  datatype Settled = Settled(form: Form, signedIn: bool)

  /**
   * `handleSubmit`: error and message are cleared first; a sign-in that goes
   * through calls `onSuccess`, a sign-up that goes through shows only the
   * confirmation message, and a failure shows only the explained error.
   */
  function Submit(f: Form, failure: Option<ChatApi.Thrown>): (r: Settled)
    ensures !r.form.isLoading && r.form.isLogin == f.isLogin
    ensures r.signedIn <==> f.isLogin && failure.None?
    ensures failure.None? ==> r.form.error.None?
    ensures failure.None? && !f.isLogin ==> r.form.message == Some(ConfirmationSent)
    ensures failure.None? && f.isLogin ==> r.form.message.None?
    ensures failure.Some? ==> r.form.error == Some(Explain(failure.value)) && r.form.message.None?
  {
    var cleared := f.(isLoading := true, error := None, message := None);
    var after :=
      match failure
      case None => if f.isLogin then cleared else cleared.(message := Some(ConfirmationSent))
      case Some(e) => cleared.(error := Some(Explain(e)));
    Settled(after.(isLoading := false), f.isLogin && failure.None?)
  }

  /** Whatever the form showed before, a submit's outcome alone decides what it shows after. */
  lemma SubmitForgetsEarlierFeedback(f: Form, g: Form, failure: Option<ChatApi.Thrown>)
    requires f.isLogin == g.isLogin
    ensures Submit(f, failure).form == Submit(g, failure).form
  {
  }
}
