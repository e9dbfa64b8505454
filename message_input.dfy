/** The message input: a text field, a send button and a voice
    transcription path. The `onSendMessage` callback is recorded in
    `sent`, one entry per call. */
module MessageInput {
  import opened Js

  /** What `handleSubmit` sends for the typed `message`: its trimmed text
      when that is non-empty and the input is enabled, else nothing. */
  function SubmitPayload(message: string, isDisabled: bool): (r: Option<string>)
    ensures r.Some? <==> !AllWhitespace(message) && !isDisabled
    ensures r.Some? ==> r.value == Trim(message) && r.value != []
  {
    TrimEmptyIff(message);
    if Trim(message) != "" && !isDisabled then Some(Trim(message)) else None
  }

  /** What `handleTranscription` sends: the trimmed text when it is
      non-empty; the disabled flag plays no part. */
  function TranscriptionPayload(text: string): (r: Option<string>)
    ensures r.Some? <==> !AllWhitespace(text)
    ensures r.Some? ==> r.value == Trim(text) && r.value != []
  {
    TrimEmptyIff(text);
    if Trim(text) != "" then Some(Trim(text)) else None
  }

  /** `disabled={!message.trim() || isDisabled}`. */
  predicate SubmitDisabled(message: string, isDisabled: bool)
  {
    Trim(message) == "" || isDisabled
  }

  /** The send button is disabled exactly when submitting would send
      nothing, and what is sent is already trimmed. */
  lemma SubmitButtonMatchesGuard(message: string, isDisabled: bool)
    ensures SubmitDisabled(message, isDisabled) <==> SubmitPayload(message, isDisabled).None?
    ensures SubmitPayload(message, isDisabled).Some? ==>
      Trim(SubmitPayload(message, isDisabled).value) == SubmitPayload(message, isDisabled).value
  {
    TrimEmptyIff(message);
    TrimIdempotent(message);
  }

  class Input {
    /** The `message` state. */
    var message: string
    /** The `isDisabled` prop. */
    const isDisabled: bool
    /** The texts passed to `onSendMessage`, oldest first. */
    var sent: seq<string>

    constructor (isDisabled: bool)
      ensures message == "" && this.isDisabled == isDisabled && sent == []
    {
      message := "";
      this.isDisabled := isDisabled;
      sent := [];
    }

    /** `onChange`: the field's new text becomes the state. */
    method Change(value: string)
      modifies this`message
      ensures message == value
    {
      message := value;
    }

    /** `handleSubmit`: send the trimmed text and clear the field, or
        leave everything as it is. */
    method HandleSubmit()
      modifies this`message, this`sent
      ensures SubmitPayload(old(message), isDisabled).Some? ==>
        sent == old(sent) + [SubmitPayload(old(message), isDisabled).value] && message == ""
      ensures SubmitPayload(old(message), isDisabled).None? ==>
        sent == old(sent) && message == old(message)
    {
      var payload := SubmitPayload(message, isDisabled);
      if payload.Some? {
        sent := sent + [payload.value];
        message := "";
      }
    }

    /** `handleTranscription`: send the trimmed transcription, whether or
        not the input is disabled; the typed text is left alone. */
    method HandleTranscription(text: string)
      modifies this`sent
      ensures TranscriptionPayload(text).Some? ==> sent == old(sent) + [TranscriptionPayload(text).value]
      ensures TranscriptionPayload(text).None? ==> sent == old(sent)
    {
      var payload := TranscriptionPayload(text);
      if payload.Some? {
        sent := sent + [payload.value];
      }
    }
  }
}
