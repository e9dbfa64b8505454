/** The room store: the client's state for the active room and the five
    actions that change it. Every backend call an action makes is
    appended to `requests`, and its reply is a parameter of the action
    (`Outcome` for a write, `Result` for a read); fresh identifiers and the
    random draw behind a room code are parameters too. Realtime events
    are applied by `Apply`, one event per atomic step. */
module RoomStore {
  import opened Js
  import opened Types
  import opened RoomEvents
  import RoomCode

  /** The backend calls the store makes, in the order it makes them. */
  datatype Request =
    | InsertRoom(id: string, code: string, createdBy: string)
    | InsertParticipant(id: string, roomId: string, userName: string, language: string)
    | SelectRoomByCode(code: string)
    | SelectParticipants(roomId: string)
    | SelectMessages(roomId: string)
    | DeleteParticipant(id: string)
    | InsertMessage(id: string, roomId: string, senderId: string, originalText: string, originalLanguage: string)
    | InsertTranslation(messageId: string, language: string, translatedText: string)
    | Subscribe(roomId: string)
    | RemoveAllChannels

  /** A message row of the room's history, joined with its sender's name
      and all of its translations. */
  datatype HistoryRow = HistoryRow(row: MessageRow, senderName: Option<string>, translations: seq<TranslationRow>)

  /** One realtime notification, with the results of the lookups its
      handler makes already in hand. */
  datatype RoomEvent =
    | ParticipantInserted(participant: Participant)
    | ParticipantDeleted(id: string)
    | MessageInserted(row: MessageRow, senderName: Option<string>, translations: Option<seq<TranslationRow>>)
    | TranslationInserted(subscribedRoomId: string, messageRoomId: Option<string>, translation: TranslationPayload)

  const NotConnected := "Not connected to a room"
  const RoomNotFound := "Room not found"

  /** The history rows formatted as client-side messages, in order. */
  function FormatHistory(rows: seq<HistoryRow>): (ms: seq<Message>)
    ensures |ms| == |rows|
    ensures forall k :: 0 <= k < |rows| ==>
      && ms[k].id == rows[k].row.id && ms[k].senderId == rows[k].row.senderId
      && ms[k].originalText == rows[k].row.originalText
      && ms[k].originalLanguage == rows[k].row.originalLanguage
      && ms[k].createdAt == rows[k].row.createdAt
      && ms[k].senderName == (if Truthy(rows[k].senderName) then rows[k].senderName.value else "Unknown")
      && ms[k].translations == TranslationMap(rows[k].translations)
  {
    seq(|rows|, k requires 0 <= k < |rows| =>
      FormatMessage(rows[k].row, rows[k].senderName, TranslationMap(rows[k].translations)))
  }

  /** One translation insert per language, in the order of `languages`. */
  function TranslationRequests(messageId: string, text: string, languages: seq<string>): (rs: seq<Request>)
    ensures |rs| == |languages|
    ensures forall k :: 0 <= k < |rs| ==>
      rs[k] == InsertTranslation(messageId, languages[k], TranslateText(text, languages[k]))
  {
    seq(|languages|, k requires 0 <= k < |languages| =>
      InsertTranslation(messageId, languages[k], TranslateText(text, languages[k])))
  }

  /** The translations sent for a message go to distinct languages, none
      of them the sender's, and cover every other language present. */
  lemma TranslationFanOut(messageId: string, text: string, ps: seq<Participant>, current: string)
    ensures var rs := TranslationRequests(messageId, text, LanguagesToTranslate(ps, current));
      && (forall k :: 0 <= k < |rs| ==> rs[k].InsertTranslation? && rs[k].messageId == messageId
                                        && rs[k].language != current
                                        && rs[k].translatedText == TranslateText(text, rs[k].language))
      && (forall i, j :: 0 <= i < j < |rs| ==> rs[i].language != rs[j].language)
      && (forall p :: p in ps && p.language != current ==>
            exists k :: 0 <= k < |rs| && rs[k].language == p.language)
      && (forall k :: 0 <= k < |rs| ==> exists p :: p in ps && p.language == rs[k].language)
  {
    var langs := LanguagesToTranslate(ps, current);
    var rs := TranslationRequests(messageId, text, langs);
    forall k | 0 <= k < |rs|
      ensures exists p :: p in ps && p.language == rs[k].language
    {
      assert langs[k] in langs;
      var i :| 0 <= i < |ps| && ps[i].language == langs[k];
      assert ps[i] in ps;
    }
    forall p | p in ps && p.language != current
      ensures exists k :: 0 <= k < |rs| && rs[k].language == p.language
    {
      var i :| 0 <= i < |ps| && ps[i] == p;
      assert p.language in langs;
      var k :| 0 <= k < |langs| && langs[k] == p.language;
      assert rs[k].language == p.language;
    }
  }

  /** `sendMessage`'s guard `roomId && currentParticipantId && currentLanguage`. */
  predicate Connected(roomId: Option<string>, participantId: Option<string>, language: Option<string>)
  {
    Truthy(roomId) && Truthy(participantId) && Truthy(language)
  }

  class Store {
    var roomId: Option<string>
    var roomCode: Option<string>
    var participants: seq<Participant>
    var messages: seq<Message>
    var currentParticipantId: Option<string>
    var currentLanguage: Option<string>
    var isLoading: bool
    var error: Option<string>
    /** Backend calls made so far. */
    var requests: seq<Request>

    /** The store's state-machine invariant: the four room fields are set
        together and cleared together. The constructor establishes it and
        every action requires and keeps it. */
    ghost predicate Valid()
      reads this
    {
      && roomCode.Some? == roomId.Some?
      && currentParticipantId.Some? == roomId.Some?
      && currentLanguage.Some? == roomId.Some?
    }

    /** The store's initial state: no room. */
    constructor ()
      ensures Valid()
      ensures roomId == None && roomCode == None && currentParticipantId == None && currentLanguage == None
      ensures participants == [] && messages == [] && !isLoading && error == None && requests == []
    {
      roomId, roomCode := None, None;
      participants, messages := [], [];
      currentParticipantId, currentLanguage := None, None;
      isLoading, error := false, None;
      requests := [];
    }

    /** `createRoom`: insert the room, then its creator; on success the
        store holds a room whose only participant is the creator and the
        six-digit code is returned; on failure the error is recorded and
        rethrown (`Err`). */
    method CreateRoom(creatorName: string, language: string, r: int, newRoomId: string,
                      newParticipantId: string, roomInsert: Outcome, participantInsert: Outcome)
      returns (result: Result<string>)
      requires Valid()
      requires 0 <= r < RoomCode.CodeSpan
      modifies this
      ensures Valid() && !isLoading
      ensures result.Ok? <==> roomInsert.Done? && participantInsert.Done?
      ensures result.Ok? ==>
        && result.value == RoomCode.GenerateRoomCode(r)
        && RoomCode.IsSixDigitCode(result.value)
        && roomId == Some(newRoomId) && roomCode == Some(result.value)
        && participants == [Participant(newParticipantId, creatorName, language)]
        && currentParticipantId == Some(newParticipantId) && currentLanguage == Some(language)
        && error == None && messages == old(messages)
        && requests == old(requests) + [InsertRoom(newRoomId, result.value, creatorName),
                                        InsertParticipant(newParticipantId, newRoomId, creatorName, language),
                                        Subscribe(newRoomId)]
      ensures result.Err? ==>
        && error == Some(result.message)
        && roomId == old(roomId) && roomCode == old(roomCode)
        && currentParticipantId == old(currentParticipantId) && currentLanguage == old(currentLanguage)
        && participants == old(participants) && messages == old(messages)
      ensures roomInsert.Failed? ==>
        && result == Err(roomInsert.message)
        && requests == old(requests) + [InsertRoom(newRoomId, RoomCode.GenerateRoomCode(r), creatorName)]
      ensures roomInsert.Done? && participantInsert.Failed? ==>
        && result == Err(participantInsert.message)
        && requests == old(requests) + [InsertRoom(newRoomId, RoomCode.GenerateRoomCode(r), creatorName),
                                        InsertParticipant(newParticipantId, newRoomId, creatorName, language)]
    {
      isLoading, error := true, None;
      var code := RoomCode.GenerateRoomCode(r);
      requests := requests + [InsertRoom(newRoomId, code, creatorName)];
      if roomInsert.Failed? {
        error, isLoading := Some(roomInsert.message), false;
        return Err(roomInsert.message);
      }
      requests := requests + [InsertParticipant(newParticipantId, newRoomId, creatorName, language)];
      if participantInsert.Failed? {
        error, isLoading := Some(participantInsert.message), false;
        return Err(participantInsert.message);
      }
      roomId, roomCode := Some(newRoomId), Some(code);
      participants := [Participant(newParticipantId, creatorName, language)];
      currentParticipantId, currentLanguage := Some(newParticipantId), Some(language);
      isLoading := false;
      requests := requests + [Subscribe(newRoomId)];
      return Ok(code);
    }

    /** `joinRoom`: look the room up by code, insert a new participant,
        then load the room's participants and message history. Any
        failure is recorded and rethrown (`Some(message)`); a failed
        lookup throws "Room not found" before any participant insert. */
    method JoinRoom(code: string, userName: string, language: string, lookup: Result<string>,
                    newParticipantId: string, participantInsert: Outcome,
                    participantsRead: Result<seq<Participant>>, historyRead: Result<seq<HistoryRow>>)
      returns (thrown: Option<string>)
      requires Valid()
      modifies this
      ensures Valid() && !isLoading
      ensures thrown.Some? ==>
        && error == thrown
        && roomId == old(roomId) && roomCode == old(roomCode)
        && currentParticipantId == old(currentParticipantId) && currentLanguage == old(currentLanguage)
        && participants == old(participants) && messages == old(messages)
      ensures lookup.Err? ==>
        thrown == Some(RoomNotFound) && requests == old(requests) + [SelectRoomByCode(code)]
      ensures lookup.Ok? && participantInsert.Failed? ==>
        && thrown == Some(participantInsert.message)
        && requests == old(requests) + [SelectRoomByCode(code),
                                        InsertParticipant(newParticipantId, lookup.value, userName, language)]
      ensures lookup.Ok? && participantInsert.Done? && participantsRead.Err? ==>
        && thrown == Some(participantsRead.message)
        && requests == old(requests) + [SelectRoomByCode(code),
                                        InsertParticipant(newParticipantId, lookup.value, userName, language),
                                        SelectParticipants(lookup.value)]
      ensures lookup.Ok? && participantInsert.Done? && participantsRead.Ok? && historyRead.Err? ==>
        && thrown == Some(historyRead.message)
        && requests == old(requests) + [SelectRoomByCode(code),
                                        InsertParticipant(newParticipantId, lookup.value, userName, language),
                                        SelectParticipants(lookup.value), SelectMessages(lookup.value)]
      ensures thrown.None? <==>
        lookup.Ok? && participantInsert.Done? && participantsRead.Ok? && historyRead.Ok?
      ensures thrown.None? ==>
        && roomId == Some(lookup.value) && roomCode == Some(code)
        && participants == participantsRead.value
        && messages == FormatHistory(historyRead.value)
        && currentParticipantId == Some(newParticipantId) && currentLanguage == Some(language)
        && error == None
        && requests == old(requests) + [SelectRoomByCode(code),
                                        InsertParticipant(newParticipantId, lookup.value, userName, language),
                                        SelectParticipants(lookup.value), SelectMessages(lookup.value),
                                        Subscribe(lookup.value)]
    {
      isLoading, error := true, None;
      var before := requests;
      if lookup.Err? {
        requests := before + [SelectRoomByCode(code)];
        error, isLoading := Some(RoomNotFound), false;
        return Some(RoomNotFound);
      }
      var rid := lookup.value;
      if participantInsert.Failed? {
        requests := before + [SelectRoomByCode(code), InsertParticipant(newParticipantId, rid, userName, language)];
        error, isLoading := Some(participantInsert.message), false;
        return Some(participantInsert.message);
      }
      if participantsRead.Err? {
        requests := before + [SelectRoomByCode(code), InsertParticipant(newParticipantId, rid, userName, language),
                              SelectParticipants(rid)];
        error, isLoading := Some(participantsRead.message), false;
        return Some(participantsRead.message);
      }
      if historyRead.Err? {
        requests := before + [SelectRoomByCode(code), InsertParticipant(newParticipantId, rid, userName, language),
                              SelectParticipants(rid), SelectMessages(rid)];
        error, isLoading := Some(historyRead.message), false;
        return Some(historyRead.message);
      }
      roomId, roomCode := Some(rid), Some(code);
      participants := participantsRead.value;
      messages := FormatHistory(historyRead.value);
      currentParticipantId, currentLanguage := Some(newParticipantId), Some(language);
      isLoading := false;
      requests := before + [SelectRoomByCode(code), InsertParticipant(newParticipantId, rid, userName, language),
                            SelectParticipants(rid), SelectMessages(rid), Subscribe(rid)];
      return None;
    }

    /** `leaveRoom`: a no-op unless a room and a participant are set;
        otherwise delete the participant, and once the delete settles,
        drop every channel and clear the room. A rejected delete is only
        logged, so the state stays. */
    method LeaveRoom(deletion: Outcome)
      requires Valid()
      modifies this
      ensures Valid()
      ensures !(Truthy(old(roomId)) && Truthy(old(currentParticipantId))) ==> unchanged(this)
      ensures isLoading == old(isLoading) && error == old(error)
      ensures Truthy(old(roomId)) && Truthy(old(currentParticipantId)) && deletion.Failed? ==>
        && roomId == old(roomId) && roomCode == old(roomCode)
        && currentParticipantId == old(currentParticipantId) && currentLanguage == old(currentLanguage)
        && participants == old(participants) && messages == old(messages)
        && requests == old(requests) + [DeleteParticipant(old(currentParticipantId).value)]
      ensures Truthy(old(roomId)) && Truthy(old(currentParticipantId)) && deletion.Done? ==>
        && roomId == None && roomCode == None
        && currentParticipantId == None && currentLanguage == None
        && participants == [] && messages == []
        && requests == old(requests) + [DeleteParticipant(old(currentParticipantId).value), RemoveAllChannels]
    {
      if Truthy(roomId) && Truthy(currentParticipantId) {
        requests := requests + [DeleteParticipant(currentParticipantId.value)];
        if deletion.Done? {
          requests := requests + [RemoveAllChannels];
          roomId, roomCode := None, None;
          participants, messages := [], [];
          currentParticipantId, currentLanguage := None, None;
        }
      }
    }

    /** `sendMessage`: without a room, participant and language it only
        records "Not connected to a room"; otherwise it inserts the
        message and then one translation per other language present.
        It never touches the lists: the message arrives by the realtime
        feed. */
    method SendMessage(text: string, newMessageId: string, messageInsert: Outcome, translationsSettled: Outcome)
      requires Valid()
      modifies this`error, this`requests
      ensures !Connected(old(roomId), old(currentParticipantId), old(currentLanguage)) ==>
        error == Some(NotConnected) && requests == old(requests)
      ensures Connected(old(roomId), old(currentParticipantId), old(currentLanguage)) && messageInsert.Failed? ==>
        && error == Some(messageInsert.message)
        && requests == old(requests) + [InsertMessage(newMessageId, roomId.value, currentParticipantId.value,
                                                      text, currentLanguage.value)]
      ensures Connected(old(roomId), old(currentParticipantId), old(currentLanguage)) && messageInsert.Done? ==>
        && error == (if translationsSettled.Failed? then Some(translationsSettled.message) else old(error))
        && requests == old(requests) + [InsertMessage(newMessageId, roomId.value, currentParticipantId.value,
                                                      text, currentLanguage.value)]
                                     + TranslationRequests(newMessageId, text,
                                                           LanguagesToTranslate(participants, currentLanguage.value))
    {
      if !Connected(roomId, currentParticipantId, currentLanguage) {
        error := Some(NotConnected);
        return;
      }
      requests := requests + [InsertMessage(newMessageId, roomId.value, currentParticipantId.value,
                                            text, currentLanguage.value)];
      if messageInsert.Failed? {
        error := Some(messageInsert.message);
        return;
      }
      var languages := LanguagesToTranslate(participants, currentLanguage.value);
      requests := requests + TranslationRequests(newMessageId, text, languages);
      if translationsSettled.Failed? {
        error := Some(translationsSettled.message);
      }
    }

    /** `clearError`. */
    method ClearError()
      modifies this`error
      ensures error == None
    {
      error := None;
    }

    /** One realtime notification, applied as one atomic state step; it
        changes the participant list or the message list and nothing else. */
    method Apply(e: RoomEvent)
      requires Valid()
      modifies this`participants, this`messages
      ensures Valid()
      ensures participants == match e
        case ParticipantInserted(p) => OnParticipantInsert(old(participants), p)
        case ParticipantDeleted(id) => OnParticipantDelete(old(participants), id)
        case _ => old(participants)
      ensures messages == match e
        case MessageInserted(row, name, rows) => OnMessageInsert(old(messages), row, name, rows)
        case TranslationInserted(sub, room, t) => OnTranslationInsert(old(messages), sub, room, t)
        case _ => old(messages)
    {
      match e {
        case ParticipantInserted(p) =>
          participants := OnParticipantInsert(participants, p);
        case ParticipantDeleted(id) =>
          participants := OnParticipantDelete(participants, id);
        case MessageInserted(row, name, rows) =>
          messages := OnMessageInsert(messages, row, name, rows);
        case TranslationInserted(sub, room, t) =>
          messages := OnTranslationInsert(messages, sub, room, t);
      }
    }
  }
}
