/**
 * src/components/ImageConfirmation.tsx: the revision form under a generated
 * image. Its three state variables form one record; submitting returns the
 * new record and the request handed to `onRequestRevision`, if any.
 */
module ImageConfirmation {
  import opened Wrappers
  import opened Text

  datatype RevisionType = Plate | Arrangement | Props | Color | Other

  datatype RevisionRequest = RevisionRequest(kind: RevisionType, description: string)

  datatype Form = Form(showRevisionForm: bool, selectedType: Option<RevisionType>, description: string)

  /** The form closed, with nothing chosen and nothing typed. */
  const Closed := Form(false, None, "")

  datatype Submitted = Submitted(form: Form, request: Option<RevisionRequest>)

  /** `handleSubmitRevision`. */
  function SubmitRevision(f: Form): (r: Submitted)
    ensures f.selectedType.None? ==> r == Submitted(f, None)
    ensures f.selectedType.Some? ==> r.form == Closed
    ensures f.selectedType.Some? ==> r.request == Some(RevisionRequest(f.selectedType.value, Trim(f.description)))
  {
    match f.selectedType
    case None => Submitted(f, None)
    case Some(kind) => Submitted(Closed, Some(RevisionRequest(kind, Trim(f.description))))
  }

  /** The cancel button: the same reset, with no request. */
  function Cancel(f: Form): (r: Form)
    ensures r == Closed
  {
    Form(false, None, "")
  }

  /** The submit button's `disabled`. */
  predicate SubmitDisabled(f: Form, isLoading: bool) {
    f.selectedType.None? || isLoading
  }

  /** "修正する" opens the form; picking an option or typing fills it in. */
  function Open(f: Form): Form {
    f.(showRevisionForm := true)
  }

  function Choose(f: Form, kind: RevisionType): Form {
    f.(selectedType := Some(kind))
  }

  function TypeText(f: Form, text: string): Form {
    f.(description := text)
  }

  /**
   * An enabled submit button always emits a request, whose description has no
   * surrounding whitespace, and submit and cancel leave the form in the same
   * state.
   */
  lemma EnabledSubmitEmits(f: Form, isLoading: bool)
    requires !SubmitDisabled(f, isLoading)
    ensures SubmitRevision(f).request.Some?
    ensures var d := SubmitRevision(f).request.value.description;
      d == [] || (!IsWhitespace(d[0]) && !IsWhitespace(d[|d| - 1]))
    ensures SubmitRevision(f).form == Cancel(f)
  {
  }

  /** Filling in the form from any state and submitting sends the choice and the trimmed text. */
  lemma ChooseTypeSubmit(f: Form, kind: RevisionType, text: string)
    ensures SubmitRevision(TypeText(Choose(Open(f), kind), text)) ==
      Submitted(Closed, Some(RevisionRequest(kind, Trim(text))))
  {
  }
}
