/** The join form: the room-code field's input sanitiser and the submit
    handler. */
module JoinRoomPage {
  import opened Js
  import opened RoomCode

  // ---------------------------------------------------------------------
  // Room-code input

  /** `value.replace(/[^0-9]/g, '')`: the digits of `s`, in order. */
  function KeepDigits(s: string): (r: string)
    ensures AllDigits(r) && |r| <= |s|
    ensures |s| == 1 ==> r == if IsDigit(s[0]) then s else []
  {
    if s == [] then []
    else (if IsDigit(s[0]) then [s[0]] else []) + KeepDigits(s[1..])
  }

  /** The digit filter splits over concatenation. With its contract on a
      single character (a digit is kept, anything else dropped), this
      fixes its result on every text: the digits, in order. */
  lemma {:induction false} KeepDigitsAppend(a: string, b: string)
    ensures KeepDigits(a + b) == KeepDigits(a) + KeepDigits(b)
  {
    if a == [] {
      assert a + b == b;
    } else {
      assert (a + b)[1..] == a[1..] + b;
      KeepDigitsAppend(a[1..], b);
    }
  }

  /** A text without digits is filtered to nothing. */
  lemma {:induction false} KeepDigitsOfNonDigits(s: string)
    requires forall k :: 0 <= k < |s| ==> !IsDigit(s[k])
    ensures KeepDigits(s) == []
  {
    if s != [] {
      KeepDigitsOfNonDigits(s[1..]);
    }
  }

  /** A string of digits passes the filter unchanged. */
  lemma {:induction false} KeepDigitsOfDigits(s: string)
    requires AllDigits(s)
    ensures KeepDigits(s) == s
  {
    if s != [] {
      KeepDigitsOfDigits(s[1..]);
    }
  }

  /** The value `formatRoomCodeInput` leaves in the field. */
  function SanitizeRoomCode(s: string): (r: string)
    ensures AllDigits(r) && |r| <= 6
    ensures |r| == if |KeepDigits(s)| < 6 then |KeepDigits(s)| else 6
    ensures r == KeepDigits(s)[..|r|]
  {
    var digits := KeepDigits(s);
    if |digits| > 6 then digits[..6] else digits
  }

  /** Sanitising an already sanitised value changes nothing. */
  lemma SanitizeIdempotent(s: string)
    ensures SanitizeRoomCode(SanitizeRoomCode(s)) == SanitizeRoomCode(s)
  {
    KeepDigitsOfDigits(SanitizeRoomCode(s));
  }

  /** The field satisfies `/^\d{6}$/` exactly when the typed text holds
      at least six digits. */
  lemma SanitizedIsCodeIff(s: string)
    ensures IsSixDigitCode(SanitizeRoomCode(s)) <==> |KeepDigits(s)| >= 6
  {
  }

  /** A six-digit code typed or pasted with separators comes out intact. */
  lemma SanitizeRecoversCode(code: string, separator: char)
    requires IsSixDigitCode(code) && !IsDigit(separator)
    ensures SanitizeRoomCode(code[..3] + [separator] + code[3..]) == code
  {
    KeepDigitsAppend(code[..3] + [separator], code[3..]);
    KeepDigitsAppend(code[..3], [separator]);
    KeepDigitsOfDigits(code[..3]);
    KeepDigitsOfDigits(code[3..]);
    assert code[..3] + code[3..] == code;
  }

  /** The field `formatRoomCodeInput` rewrites. */
  class InputTarget {
    var value: string
    constructor (value: string)
      ensures this.value == value
    {
      this.value := value;
    }
  }

  /** `formatRoomCodeInput`: strip the non-digits, cut to six, and write
      the result back into the field. */
  method FormatRoomCodeInput(target: InputTarget)
    modifies target
    ensures target.value == SanitizeRoomCode(old(target.value))
  {
    var value := target.value;
    value := KeepDigits(value);
    if |value| > 6 {
      value := value[..6];
    }
    target.value := value;
  }

  // ---------------------------------------------------------------------
  // Submitting the form

  datatype FormData = FormData(roomCode: string, userName: string, language: string)

  /** Why the form shows an error: `joinRoom` threw with this message, or
      destructuring its `undefined` result threw a TypeError. */
  datatype FormError = JoinFailed(message: string) | DestructureTypeError

  datatype SubmitEffect =
    | CallJoinRoom(roomCode: string, userName: string, language: string)
    | StoreUser(key: string, userName: string, language: string, participantId: string)
    | Navigate(path: string)
    | ShowError(reason: FormError)

  predicate Navigates(effects: seq<SubmitEffect>)
  {
    exists k :: 0 <= k < |effects| && effects[k].Navigate?
  }

  predicate StoresUser(effects: seq<SubmitEffect>)
  {
    exists k :: 0 <= k < |effects| && effects[k].StoreUser?
  }

  /** `onSubmit` as written: `const { participantId } = await joinRoom(...)`
      destructures the `undefined` that `joinRoom` resolves with, so a
      successful join also lands in the `catch`. */
  function OnSubmitAsWritten(data: FormData, join: Outcome): (effects: seq<SubmitEffect>)
    ensures data.language == "" ==> effects == []
  {
    if data.language == "" then []
    else
      [CallJoinRoom(data.roomCode, data.userName, data.language)]
      + match join
        case Failed(m) => [ShowError(JoinFailed(m))]
        case Done => [ShowError(DestructureTypeError)]
  }

  /** As written, no submission ever stores the identity or navigates to
      the room; a successful join shows an error instead. */
  lemma AsWrittenNeverEntersRoom(data: FormData, join: Outcome)
    ensures !Navigates(OnSubmitAsWritten(data, join)) && !StoresUser(OnSubmitAsWritten(data, join))
    ensures data.language != "" && join.Done? ==>
      OnSubmitAsWritten(data, join)[|OnSubmitAsWritten(data, join)| - 1] == ShowError(DestructureTypeError)
  {
    var effects := OnSubmitAsWritten(data, join);
    if data.language != "" {
      assert effects[0].CallJoinRoom? && effects[1].ShowError? && |effects| == 2;
    }
  }

  /** `onSubmit` as intended: after a successful join it stores the
      identity under the room's key, with the participant identifier the
      store now holds, and opens the room; a failed join shows its error;
      an empty language does nothing. */
  function OnSubmit(data: FormData, join: Outcome, participantId: string): (effects: seq<SubmitEffect>)
    ensures data.language == "" ==> effects == []
    ensures data.language != "" && join.Done? ==>
      && |effects| == 3
      && effects[0] == CallJoinRoom(data.roomCode, data.userName, data.language)
      && StoresUser(effects)
      && effects[|effects| - 1] == Navigate("/room/" + data.roomCode)
      && (forall k :: 0 <= k < |effects| && effects[k].StoreUser? ==>
            effects[k] == StoreUser(StorageKey(data.roomCode), data.userName, data.language, participantId))
    ensures join.Failed? ==> !Navigates(effects) && !StoresUser(effects)
  {
    if data.language == "" then []
    else
      [CallJoinRoom(data.roomCode, data.userName, data.language)]
      + match join
        case Failed(m) => [ShowError(JoinFailed(m))]
        case Done =>
          var stored := [StoreUser(StorageKey(data.roomCode), data.userName, data.language, participantId),
                         Navigate("/room/" + data.roomCode)];
          assert ([CallJoinRoom(data.roomCode, data.userName, data.language)] + stored)[1].StoreUser?;
          stored
  }
}
