/** The room page: which of its four views it renders, the effect that
    rejoins a room opened by URL, the cleanup on unmount, and the send
    and leave handlers. Navigation, localStorage and calls into the store
    are appended to the page's `log`. The store's `isCreatingRoom`, which
    the page reads, is not a field of the store, so it is always
    `undefined` and never blocks a join. */
module RoomPage {
  import opened Js
  import opened Types
  import opened RoomCode

  datatype View = Loading | Waiting | Active | Blank

  datatype Effect =
    | Navigate(path: string)
    | RemoveStored(key: string)
    | CallJoinRoom(roomCode: string, userName: string, language: string)
    | CallSendMessage(text: string)
    | CallLeaveRoom
    /** The unmount cleanup's `setState` that empties the room fields. */
    | ClearRoomState

  /** What `localStorage.getItem(`room_${roomId}_user`)` gave: nothing or
      "", text `JSON.parse` cannot turn into `{ userName, language }`, or
      the stored identity. */
  datatype StoredUser = NoEntry | Unreadable | Entry(userName: string, language: string)

  /** The view rendered for the URL's room code and the store's fields. */
  function RenderBranch(urlRoomId: Option<string>, roomCode: Option<string>, participantId: Option<string>,
                        language: Option<string>, ps: seq<Participant>): (v: View)
    ensures v == Loading <==>
      Truthy(urlRoomId) && (!Truthy(roomCode) || !Truthy(participantId) || !Truthy(language))
    ensures v == Waiting <==>
      && v != Loading
      && Truthy(roomCode) && Truthy(participantId)
      && |ps| == 1 && Some(ps[0].id) == participantId
    ensures v == Active ==>
      && Truthy(roomCode) && Truthy(participantId) && Truthy(language)
      && !(|ps| == 1 && Some(ps[0].id) == participantId)
    ensures v == Blank ==> !Truthy(urlRoomId)
  {
    if Truthy(urlRoomId) && (!Truthy(roomCode) || !Truthy(participantId) || !Truthy(language)) then Loading
    else if Truthy(roomCode) && Truthy(participantId) && |ps| == 1 && ps[0].id == participantId.value then Waiting
    else if !Truthy(roomCode) || !Truthy(participantId) || !Truthy(language) then Blank
    else Active
  }

  /** Once the store holds a room, the page never shows the loading view;
      it waits while the viewer is alone and is active otherwise. */
  lemma InRoomIsWaitingOrActive(urlRoomId: Option<string>, roomCode: string, participantId: string,
                                language: string, ps: seq<Participant>)
    requires roomCode != "" && participantId != "" && language != ""
    ensures var v := RenderBranch(urlRoomId, Some(roomCode), Some(participantId), Some(language), ps);
      && (v == Waiting <==> |ps| == 1 && ps[0].id == participantId)
      && (v == Active <==> !(|ps| == 1 && ps[0].id == participantId))
  {
  }

  /** The join effect's guard: a URL code, no room in the store, and no
      attempt yet in this effect run. */
  predicate MayAttemptJoin(urlRoomId: Option<string>, roomCode: Option<string>, hasAttemptedJoin: bool)
  {
    Truthy(urlRoomId) && !Truthy(roomCode) && !hasAttemptedJoin
  }

  function CountJoinCalls(effects: seq<Effect>): nat
  {
    if effects == [] then 0 else (if effects[0].CallJoinRoom? then 1 else 0) + CountJoinCalls(effects[1..])
  }

  /** One run of the join effect: the new value of `hasAttemptedJoin` and
      the effects, where `joinRejected` says whether the store's
      `joinRoom` promise rejected (its `catch` runs later, and its effects
      come last). */
  function JoinAttempt(urlRoomId: Option<string>, roomCode: Option<string>, hasAttemptedJoin: bool,
                       participantId: Option<string>, stored: StoredUser, joinRejected: bool)
    : (result: (bool, seq<Effect>))
    ensures !MayAttemptJoin(urlRoomId, roomCode, hasAttemptedJoin) ==> result == (hasAttemptedJoin, [])
    ensures MayAttemptJoin(urlRoomId, roomCode, hasAttemptedJoin) ==> result.0
    ensures MayAttemptJoin(urlRoomId, roomCode, hasAttemptedJoin) && !IsSixDigitCode(urlRoomId.value) ==>
      result.1 == [Navigate("/")]
    ensures MayAttemptJoin(urlRoomId, roomCode, hasAttemptedJoin) && IsSixDigitCode(urlRoomId.value)
            && stored == NoEntry ==>
      result.1 == [Navigate("/join")]
    ensures MayAttemptJoin(urlRoomId, roomCode, hasAttemptedJoin) && IsSixDigitCode(urlRoomId.value)
            && stored == Unreadable ==>
      result.1 == [RemoveStored(StorageKey(urlRoomId.value)), Navigate("/join")]
    ensures MayAttemptJoin(urlRoomId, roomCode, hasAttemptedJoin) && IsSixDigitCode(urlRoomId.value)
            && stored.Entry? && Truthy(participantId) ==>
      result.1 == []
    ensures CountJoinCalls(result.1) <= 1
    ensures CountJoinCalls(result.1) == 1 <==>
      MayAttemptJoin(urlRoomId, roomCode, hasAttemptedJoin) && IsSixDigitCode(urlRoomId.value)
      && stored.Entry? && !Truthy(participantId)
    ensures CountJoinCalls(result.1) == 1 ==>
      result.1[0] == CallJoinRoom(urlRoomId.value, stored.userName, stored.language)
      && result.1[1..] == (if joinRejected then [RemoveStored(StorageKey(urlRoomId.value)), Navigate("/")] else [])
  {
    if !MayAttemptJoin(urlRoomId, roomCode, hasAttemptedJoin) then (hasAttemptedJoin, [])
    else
      var code := urlRoomId.value;
      if !IsSixDigitCode(code) then (true, [Navigate("/")])
      else
        match stored
        case NoEntry => (true, [Navigate("/join")])
        case Unreadable =>
          var effects := [RemoveStored(StorageKey(code)), Navigate("/join")];
          assert CountJoinCalls(effects[1..]) == 0;
          (true, effects)
        case Entry(userName, language) =>
          if Truthy(participantId) then (true, [])
          else if joinRejected then
            var effects := [CallJoinRoom(code, userName, language), RemoveStored(StorageKey(code)), Navigate("/")];
            assert CountJoinCalls(effects[2..]) == 0;
            assert CountJoinCalls(effects[1..]) == 0;
            (true, effects)
          else (true, [CallJoinRoom(code, userName, language)])
  }

  /** A failed rejoin forgets the stored identity before leaving for the
      home page, and never tries again in the same run. */
  lemma FailedJoinForgetsIdentity(code: string, participantId: Option<string>, userName: string, language: string)
    requires IsSixDigitCode(code) && !Truthy(participantId)
    ensures JoinAttempt(Some(code), None, false, participantId, Entry(userName, language), true)
         == (true, [CallJoinRoom(code, userName, language), RemoveStored(StorageKey(code)), Navigate("/")])
  {
  }

  class Page {
    /** The `:roomId` of the URL. */
    const urlRoomId: Option<string>
    /** The `hasAttemptedJoin` ref. */
    var hasAttemptedJoin: bool
    /** Effects so far, oldest first. */
    var log: seq<Effect>

    constructor (urlRoomId: Option<string>)
      ensures this.urlRoomId == urlRoomId && !hasAttemptedJoin && log == []
    {
      this.urlRoomId := urlRoomId;
      hasAttemptedJoin := false;
      log := [];
    }

    /** The join effect, run with the store's `roomCode` and
        `currentParticipantId`. */
    method RunJoinEffect(roomCode: Option<string>, participantId: Option<string>, stored: StoredUser, joinRejected: bool)
      modifies this
      ensures var (attempted, effects) := JoinAttempt(urlRoomId, roomCode, old(hasAttemptedJoin), participantId, stored, joinRejected);
        hasAttemptedJoin == attempted && log == old(log) + effects
    {
      var (attempted, effects) := JoinAttempt(urlRoomId, roomCode, hasAttemptedJoin, participantId, stored, joinRejected);
      hasAttemptedJoin := attempted;
      log := log + effects;
    }

    /** The join effect's cleanup, run before every re-run: it resets the
        ref, so the guard's "no attempt yet" holds at each run. */
    method JoinEffectCleanup()
      modifies this`hasAttemptedJoin
      ensures !hasAttemptedJoin
    {
      hasAttemptedJoin := false;
    }

    /** The unmount cleanup: clear the store's room fields only when the
        store's `roomCode` is the URL's code. */
    method Unmount(storeRoomCode: Option<string>)
      modifies this`log
      ensures Truthy(urlRoomId) && storeRoomCode == urlRoomId ==> log == old(log) + [ClearRoomState]
      ensures !(Truthy(urlRoomId) && storeRoomCode == urlRoomId) ==> log == old(log)
    {
      if Truthy(urlRoomId) && storeRoomCode == urlRoomId {
        log := log + [ClearRoomState];
      }
    }

    /** `handleSendMessage`: forward the text, untrimmed, when it is not
        blank. */
    method HandleSendMessage(text: string)
      modifies this`log
      ensures !AllWhitespace(text) ==> log == old(log) + [CallSendMessage(text)]
      ensures AllWhitespace(text) ==> log == old(log)
    {
      TrimEmptyIff(text);
      if Trim(text) != "" {
        log := log + [CallSendMessage(text)];
      }
    }

    /** `handleLeaveRoom`: forget the stored identity for the URL's code,
        then leave the room and go home. */
    method HandleLeaveRoom()
      modifies this`log
      ensures Truthy(urlRoomId) ==>
        log == old(log) + [RemoveStored(StorageKey(urlRoomId.value)), CallLeaveRoom, Navigate("/")]
      ensures !Truthy(urlRoomId) ==> log == old(log) + [CallLeaveRoom, Navigate("/")]
    {
      if Truthy(urlRoomId) {
        log := log + [RemoveStored(StorageKey(urlRoomId.value))];
      }
      log := log + [CallLeaveRoom, Navigate("/")];
    }
  }
}
