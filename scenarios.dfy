/** Two browsers in one room, driven only through the contracts of the
    store and the message view: alice (English) creates the room, bob
    (German) joins, alice says "Hello". */
module Scenarios {
  import opened Js
  import opened Types
  import opened RoomEvents
  import opened RoomStore
  import RoomCode
  import MessageView

  /** alice creates the room; bob joins it with its code. */
  method CreateAndJoin()
  {
    var alice := new Store();
    var created := alice.CreateRoom("alice", "en", 382193, "room-1", "p-alice", Done, Done);
    assert created.Ok? && RoomCode.IsSixDigitCode(created.value);
    assert RoomCode.DecimalValue(created.value) == 482193;
    assert alice.participants == [Participant("p-alice", "alice", "en")];

    var bob := new Store();
    var pAlice := Participant("p-alice", "alice", "en");
    var pBob := Participant("p-bob", "bob", "de");
    var thrown := bob.JoinRoom(created.value, "bob", "de", Ok("room-1"), "p-bob", Done, Ok([pAlice, pBob]), Ok([]));
    assert thrown == None && |bob.participants| == 2 && bob.roomCode == Some(created.value);
  }

  /** An English and a German participant: an English message is
      translated into German only. */
  lemma GermanOnly(alice: Participant, bob: Participant)
    requires alice.language == "en" && bob.language == "de"
    ensures LanguagesToTranslate([alice, bob], "en") == ["de"]
  {
    assert Languages([alice, bob]) == ["en", "de"];
    assert Distinct(["en"]) == ["en"] by { assert ["en"][..0] == []; }
    assert Distinct(["en", "de"]) == ["en", "de"] by { assert ["en", "de"][..1] == ["en"]; }
    assert Except(["en", "de"], "en") == ["de"] by { assert ["en", "de"][1..] == ["de"]; }
  }

  /** With bob's row delivered, alice's "Hello" is inserted once and
      translated into German and into nothing else. */
  method AliceSendsHello()
  {
    var alice := new Store();
    var created := alice.CreateRoom("alice", "en", 382193, "room-1", "p-alice", Done, Done);
    var pAlice := Participant("p-alice", "alice", "en");
    var pBob := Participant("p-bob", "bob", "de");
    alice.Apply(ParticipantInserted(pBob));
    assert alice.participants == [pAlice, pBob];

    var before := alice.requests;
    alice.SendMessage("Hello", "m-1", Done, Done);
    assert alice.requests[|before|] == InsertMessage("m-1", "room-1", "p-alice", "Hello", "en");
    var fanOut := alice.requests[|before| + 1..];
    assert fanOut == TranslationRequests("m-1", "Hello", LanguagesToTranslate([pAlice, pBob], "en"));
    GermanOnly(pAlice, pBob);
    assert fanOut == [InsertTranslation("m-1", "de", TranslateText("Hello", "de"))];
  }

  /** bob sees alice's message with its German translation; alice, in
      English, sees it without a translation panel. */
  method BobReadsGerman()
  {
    var bob := new Store();
    var row := MessageRow("m-1", "p-alice", "Hello", "en", "t0");
    bob.Apply(MessageInserted(row, Some("alice"), Some([])));
    var german := TranslationPayload("m-1", "de", TranslateText("Hello", "de"));
    var delivered := bob.messages;
    assert |delivered| == 1 && delivered[0].id == "m-1";
    bob.Apply(TranslationInserted("room-1", Some("room-1"), german));
    TranslationInsertChangesOnlyItsKey(delivered, "room-1", Some("room-1"), german, 0);
    var m := bob.messages[0];
    assert m.originalLanguage == "en" && m.originalText == "Hello" && m.senderName == "alice";
    assert m.translations["de"] == TranslateText("Hello", "de");

    var seen := MessageView.RenderFor(m, "p-bob", "de");
    assert seen.Shown? && seen.bubble.translationPanel == Some(TranslateText("Hello", "de"));
    assert seen.bubble.senderLabel == Some("alice");

    var own := MessageView.RenderFor(m, "p-alice", "en");
    assert own.Shown? && own.bubble.body == "Hello" && own.bubble.translationPanel == None;
  }
}
