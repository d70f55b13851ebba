/** The search box (src/components/SearchInput.tsx): the typed query, the
    focus flag and the submission that hands a city name to the screen. */
module SearchInput {
  import opened Wrappers
  import opened JsString

  /** The text a submission of `query` forwards to `onSearch`, if any: the
      trimmed query, unless trimming leaves nothing. */
  function Submission(query: string): (sent: Option<string>)
    ensures sent.Some? <==> !AllWhiteSpace(query)
    ensures sent.Some? ==> sent.value == Trim(query) && sent.value != [] && IsTrimmed(sent.value)
  {
    var trimmedQuery := Trim(query);
    if trimmedQuery != [] then Some(trimmedQuery) else None
  }

  /** Submitting the forwarded text again forwards the same text. */
  lemma SubmissionIdempotent(query: string)
    requires Submission(query).Some?
    ensures Submission(Submission(query).value) == Submission(query)
  {
    TrimIdempotent(query);
  }

  /** The input's state. */
  class SearchInput {
    var query: string
    var isFocused: bool

    /** An empty, unfocused box. */
    constructor()
      ensures query == "" && !isFocused
    {
      query := "";
      isFocused := false;
    }

    /** onChangeText: the box holds what was typed, as typed. */
    method SetQuery(text: string)
      modifies this
      ensures query == text && isFocused == old(isFocused)
    {
      query := text;
    }

    /** onFocus. */
    method Focus()
      modifies this
      ensures isFocused && query == old(query)
    {
      isFocused := true;
    }

    /** onBlur. */
    method Blur()
      modifies this
      ensures !isFocused && query == old(query)
    {
      isFocused := false;
    }

    /** handleSubmit: `sent` is the argument passed to `onSearch`, or None
        when it is not called. The box keeps its text. A forwarded query also
        dismisses the keyboard, which blurs the box (its `onBlur`); a blank
        one leaves the focus as it was. */
    method HandleSubmit() returns (sent: Option<string>)
      modifies this
      ensures query == old(query)
      ensures sent == Submission(query)
      ensures sent.Some? <==> !AllWhiteSpace(query)
      ensures sent.Some? ==> sent.value == Trim(query) && sent.value != []
      ensures sent.Some? ==> !isFocused
      ensures sent.None? ==> isFocused == old(isFocused)
    {
      sent := Submission(query);
      if sent.Some? {
        isFocused := false;
      }
    }
  }
}
