/** The pure parts of the room store: the reducers its realtime handlers
    apply to the participant and message lists, the fold that turns
    translation rows into a language-to-text map, the list of languages a
    new message is translated into, and the placeholder translator. */
module RoomEvents {
  import opened Js
  import opened Types

  /** A `translations` row as selected: `language, translated_text`. */
  datatype TranslationRow = TranslationRow(language: string, translatedText: string)

  /** The `new` record of a `messages` insert. */
  datatype MessageRow = MessageRow(
    id: string,
    senderId: string,
    originalText: string,
    originalLanguage: string,
    createdAt: string)

  /** The `new` record of a `translations` insert. */
  datatype TranslationPayload = TranslationPayload(messageId: string, language: string, translatedText: string)

  // ---------------------------------------------------------------------
  // Translation rows to a map

  /** `rows.reduce((acc, t) => { acc[t.language] = t.translated_text; return acc }, {})`:
      its keys are exactly the languages of the rows. */
  function TranslationMap(rows: seq<TranslationRow>): (m: map<string, string>)
    ensures forall l :: l in m <==> exists k :: 0 <= k < |rows| && rows[k].language == l
  {
    if rows == [] then map[]
    else
      var init := rows[..|rows| - 1];
      var last := rows[|rows| - 1];
      assert forall k :: 0 <= k < |init| ==> init[k] == rows[k];
      TranslationMap(init)[last.language := last.translatedText]
  }

  /** When several rows share a language, the last of them wins. */
  lemma {:induction false} TranslationMapLastWins(rows: seq<TranslationRow>, i: nat)
    requires i < |rows|
    requires forall j :: i < j < |rows| ==> rows[j].language != rows[i].language
    ensures rows[i].language in TranslationMap(rows)
    ensures TranslationMap(rows)[rows[i].language] == rows[i].translatedText
  {
    if i < |rows| - 1 {
      var init := rows[..|rows| - 1];
      assert init[i] == rows[i];
      TranslationMapLastWins(init, i);
    }
  }

  /** `translations?.reduce(...) || {}`: a failed lookup gives no translations. */
  function TranslationMapOf(rows: Option<seq<TranslationRow>>): (m: map<string, string>)
    ensures rows.None? ==> m == map[]
    ensures rows.Some? ==> m == TranslationMap(rows.value)
  {
    match rows
    case None => map[]
    case Some(rs) => TranslationMap(rs)
  }

  /** `name || 'Unknown'` for a sender name that may be missing. */
  function SenderNameOr(name: Option<string>): (r: string)
    ensures r != ""
    ensures Truthy(name) ==> r == name.value
    ensures !Truthy(name) ==> r == "Unknown"
  {
    if Truthy(name) then name.value else "Unknown"
  }

  /** The client-side message built from a row, the looked-up sender name
      and the translations already present. */
  function FormatMessage(row: MessageRow, senderName: Option<string>, translations: map<string, string>): (m: Message)
    ensures m.id == row.id && m.senderId == row.senderId && m.createdAt == row.createdAt
    ensures m.originalText == row.originalText && m.originalLanguage == row.originalLanguage
    ensures m.senderName == SenderNameOr(senderName) && m.senderName != ""
    ensures m.translations == translations
  {
    Message(row.id, row.senderId, SenderNameOr(senderName), row.originalText,
            row.originalLanguage, translations, row.createdAt)
  }

  // ---------------------------------------------------------------------
  // Realtime reducers

  /** Participant insert: append at the end, with no duplicate check. */
  function OnParticipantInsert(ps: seq<Participant>, p: Participant): (r: seq<Participant>)
    ensures |r| == |ps| + 1 && r[..|ps|] == ps && r[|ps|] == p
  {
    ps + [p]
  }

  /** Participant delete: drop the entries with the deleted identifier,
      locally. */
  function OnParticipantDelete(ps: seq<Participant>, id: string): (r: seq<Participant>)
    ensures |r| == |ps| - CountId(ps, id)
    ensures forall p :: p in r <==> p in ps && p.id != id
  {
    WithoutId(ps, id)
  }

  /** Message insert: append a fully formed message at the end. */
  function OnMessageInsert(ms: seq<Message>, row: MessageRow, senderName: Option<string>,
                           translations: Option<seq<TranslationRow>>): (r: seq<Message>)
    ensures |r| == |ms| + 1 && r[..|ms|] == ms
    ensures r[|ms|].id == row.id && r[|ms|].senderId == row.senderId
    ensures r[|ms|].originalText == row.originalText && r[|ms|].originalLanguage == row.originalLanguage
    ensures r[|ms|].senderName == if Truthy(senderName) then senderName.value else "Unknown"
    ensures r[|ms|].createdAt == row.createdAt
    ensures r[|ms|].translations == TranslationMapOf(translations)
  {
    ms + [FormatMessage(row, senderName, TranslationMapOf(translations))]
  }

  /** `{ ...msg, translations: { ...msg.translations, [language]: text } }`
      for the message the translation belongs to. */
  function MergeTranslation(m: Message, t: TranslationPayload): (r: Message)
    ensures m.id != t.messageId ==> r == m
    ensures m.id == t.messageId ==>
      && r.(translations := m.translations) == m
      && t.language in r.translations && r.translations[t.language] == t.translatedText
      && (forall l :: l != t.language ==> (l in r.translations <==> l in m.translations))
      && (forall l :: l != t.language && l in m.translations ==> r.translations[l] == m.translations[l])
  {
    if m.id == t.messageId then m.(translations := m.translations[t.language := t.translatedText]) else m
  }

  /** Translation insert: applied only when the message it belongs to is
      in the room the handler was subscribed for. */
  function OnTranslationInsert(ms: seq<Message>, subscribedRoomId: string, messageRoomId: Option<string>,
                               t: TranslationPayload): (r: seq<Message>)
    ensures |r| == |ms|
    ensures messageRoomId != Some(subscribedRoomId) ==> r == ms
  {
    if messageRoomId == Some(subscribedRoomId) then
      seq(|ms|, k requires 0 <= k < |ms| => MergeTranslation(ms[k], t))
    else ms
  }

  /** Inserting a participant whose identifier is already listed adds a
      second entry for it. */
  lemma ParticipantInsertNoDedup(ps: seq<Participant>, p: Participant)
    ensures CountId(OnParticipantInsert(ps, p), p.id) == CountId(ps, p.id) + 1
  {
    CountIdAppend(ps, [p], p.id);
    assert CountId([p], p.id) == 1;
  }

  /** Participant delete keeps exactly the others, in their order, and
      removes every entry with the deleted identifier. */
  lemma ParticipantDeleteKeepsOthers(ps: seq<Participant>, id: string)
    ensures |OnParticipantDelete(ps, id)| == |ps| - CountId(ps, id)
    ensures forall p :: p in OnParticipantDelete(ps, id) <==> p in ps && p.id != id
    ensures forall a, b :: OnParticipantDelete(a + b, id) == OnParticipantDelete(a, id) + OnParticipantDelete(b, id)
  {
    forall a, b ensures OnParticipantDelete(a + b, id) == OnParticipantDelete(a, id) + OnParticipantDelete(b, id) {
      WithoutIdAppend(a, b, id);
    }
  }

  /** A delete that follows an insert of the same identifier leaves what
      a delete alone leaves. */
  lemma DeleteAfterInsert(ps: seq<Participant>, p: Participant)
    ensures OnParticipantDelete(OnParticipantInsert(ps, p), p.id) == OnParticipantDelete(ps, p.id)
  {
    WithoutIdAppend(ps, [p], p.id);
    assert WithoutId([p], p.id) == [];
  }

  /** A translation insert touches one language of the messages with its
      message identifier and nothing else: every other field and every
      other key stays, the count of messages stays. */
  lemma TranslationInsertChangesOnlyItsKey(ms: seq<Message>, subscribedRoomId: string,
                                           messageRoomId: Option<string>, t: TranslationPayload, k: nat)
    requires k < |ms|
    ensures var r := OnTranslationInsert(ms, subscribedRoomId, messageRoomId, t);
      && r[k].(translations := ms[k].translations) == ms[k]
      && (forall l :: l != t.language ==> (l in r[k].translations <==> l in ms[k].translations))
      && (forall l :: l != t.language && l in ms[k].translations ==> r[k].translations[l] == ms[k].translations[l])
      && (if messageRoomId == Some(subscribedRoomId) && ms[k].id == t.messageId
          then t.language in r[k].translations && r[k].translations[t.language] == t.translatedText
          else r[k] == ms[k])
  {
  }

  /** A translation for a message that is not listed changes nothing. */
  lemma TranslationInsertNoMatch(ms: seq<Message>, subscribedRoomId: string,
                                 messageRoomId: Option<string>, t: TranslationPayload)
    requires forall k :: 0 <= k < |ms| ==> ms[k].id != t.messageId
    ensures OnTranslationInsert(ms, subscribedRoomId, messageRoomId, t) == ms
  {
    var r := OnTranslationInsert(ms, subscribedRoomId, messageRoomId, t);
    assert forall k :: 0 <= k < |ms| ==> r[k] == ms[k];
  }

  /** A translation delivered twice has the effect of one delivery. */
  lemma TranslationInsertIdempotent(ms: seq<Message>, subscribedRoomId: string,
                                    messageRoomId: Option<string>, t: TranslationPayload)
    ensures var once := OnTranslationInsert(ms, subscribedRoomId, messageRoomId, t);
      OnTranslationInsert(once, subscribedRoomId, messageRoomId, t) == once
  {
    var once := OnTranslationInsert(ms, subscribedRoomId, messageRoomId, t);
    var twice := OnTranslationInsert(once, subscribedRoomId, messageRoomId, t);
    forall k | 0 <= k < |ms| ensures twice[k] == once[k] {
      if messageRoomId == Some(subscribedRoomId) && ms[k].id == t.messageId {
        assert once[k].translations[t.language := t.translatedText] == once[k].translations;
      }
    }
  }

  /** Translations into two different languages, or for two different
      messages, may arrive in either order. */
  lemma TranslationInsertsCommute(ms: seq<Message>, subscribedRoomId: string, messageRoomId: Option<string>,
                                  t1: TranslationPayload, t2: TranslationPayload)
    requires t1.language != t2.language || t1.messageId != t2.messageId
    ensures OnTranslationInsert(OnTranslationInsert(ms, subscribedRoomId, messageRoomId, t1), subscribedRoomId, messageRoomId, t2)
         == OnTranslationInsert(OnTranslationInsert(ms, subscribedRoomId, messageRoomId, t2), subscribedRoomId, messageRoomId, t1)
  {
    var a := OnTranslationInsert(OnTranslationInsert(ms, subscribedRoomId, messageRoomId, t1), subscribedRoomId, messageRoomId, t2);
    var b := OnTranslationInsert(OnTranslationInsert(ms, subscribedRoomId, messageRoomId, t2), subscribedRoomId, messageRoomId, t1);
    forall k | 0 <= k < |ms| ensures a[k] == b[k] {
      if messageRoomId == Some(subscribedRoomId) && ms[k].id == t1.messageId && ms[k].id == t2.messageId {
        var m := ms[k].translations;
        assert m[t1.language := t1.translatedText][t2.language := t2.translatedText]
            == m[t2.language := t2.translatedText][t1.language := t1.translatedText];
      }
    }
  }

  // ---------------------------------------------------------------------
  // Languages a new message is translated into

  predicate NoDuplicates(s: seq<string>)
  {
    forall i, j :: 0 <= i < j < |s| ==> s[i] != s[j]
  }

  /** `[...new Set(s)]`: each value once, at its first occurrence. */
  function Distinct(s: seq<string>): (r: seq<string>)
    ensures NoDuplicates(r)
    ensures forall x :: x in r <==> x in s
  {
    if s == [] then []
    else
      var init := s[..|s| - 1];
      var last := s[|s| - 1];
      var d := Distinct(init);
      assert s == init + [last];
      if last in d then d else d + [last]
  }

  /** `s.filter(x => x !== v)`. */
  function Except(s: seq<string>, v: string): (r: seq<string>)
    ensures forall x :: x in r <==> x in s && x != v
    ensures NoDuplicates(s) ==> NoDuplicates(r)
  {
    if s == [] then []
    else
      var rest := Except(s[1..], v);
      assert NoDuplicates(s) ==> s[0] !in s[1..];
      if s[0] != v then [s[0]] + rest else rest
  }

  /** `participants.map(p => p.language)`. */
  function Languages(ps: seq<Participant>): (r: seq<string>)
    ensures |r| == |ps| && forall k :: 0 <= k < |ps| ==> r[k] == ps[k].language
  {
    seq(|ps|, k requires 0 <= k < |ps| => ps[k].language)
  }

  /** The languages a message in `current` is translated into: each
      language some participant has, once, except `current`. */
  function LanguagesToTranslate(ps: seq<Participant>, current: string): (r: seq<string>)
    ensures NoDuplicates(r)
    ensures current !in r
    ensures forall l :: l in r <==> l != current && exists k :: 0 <= k < |ps| && ps[k].language == l
  {
    var langs := Languages(ps);
    assert forall l :: l in langs <==> exists k :: 0 <= k < |ps| && ps[k].language == l;
    Except(Distinct(langs), current)
  }

  // ---------------------------------------------------------------------
  // The placeholder translator

  const TranslatedToOpen := "[Translated to "
  const TranslatedToClose := "]: "

  /** `[Translated to ${targetLanguage}]: ${text}`. */
  function TranslateText(text: string, targetLanguage: string): string
  {
    TranslatedToOpen + targetLanguage + TranslatedToClose + text
  }

  /** The placeholder names the target language at a fixed place and ends
      with the whole original text, so the original is recoverable. */
  lemma TranslateTextRecoverable(text: string, targetLanguage: string)
    ensures var r := TranslateText(text, targetLanguage);
      && |r| == |targetLanguage| + |text| + 18
      && r[15..15 + |targetLanguage|] == targetLanguage
      && r[18 + |targetLanguage|..] == text
  {
  }

  /** Two texts translated into the same language give the same
      placeholder only if they are the same text. */
  lemma TranslateTextInjective(a: string, b: string, targetLanguage: string)
    ensures TranslateText(a, targetLanguage) == TranslateText(b, targetLanguage) <==> a == b
  {
    TranslateTextRecoverable(a, targetLanguage);
    TranslateTextRecoverable(b, targetLanguage);
  }
}
