/** How one message is shown to a viewer: which text the translation
    panel carries, whether the message is hidden, and whether the
    sender's name is shown. */
module MessageView {
  import opened Js
  import opened Types

  /** What a shown message bubble holds. `senderLabel` is the name line
      above the text, `body` the original text, `translationPanel` the
      text under the divider. */
  datatype Bubble = Bubble(senderLabel: Option<string>, body: string, translationPanel: Option<string>, alignRight: bool)

  datatype Rendered = Hidden | Shown(bubble: Bubble)

  /** A translation into `userLanguage` that is present and not empty. */
  predicate HasTranslation(m: Message, userLanguage: string)
  {
    userLanguage in m.translations && m.translations[userLanguage] != ""
  }

  /** `message.translations[userLanguage] || (message.originalLanguage ===
      userLanguage ? message.originalText : '')`: the translation when
      there is one, else the original when it is already in the viewer's
      language, else nothing. */
  function TranslatedText(m: Message, userLanguage: string): (r: string)
    ensures HasTranslation(m, userLanguage) ==> r == m.translations[userLanguage]
    ensures !HasTranslation(m, userLanguage) && m.originalLanguage == userLanguage ==> r == m.originalText
    ensures r == "" <==>
      !HasTranslation(m, userLanguage) && (m.originalLanguage != userLanguage || m.originalText == "")
  {
    if userLanguage in m.translations && m.translations[userLanguage] != "" then m.translations[userLanguage]
    else if m.originalLanguage == userLanguage then m.originalText
    else ""
  }

  /** The message as a viewer in `userLanguage` sees it. A message in the
      viewer's own language is always shown, without a translation panel.
      A message in another language is hidden until a non-empty
      translation into the viewer's language exists, and is then shown
      with exactly that translation in the panel. A shown message always
      carries its original text, and names its sender exactly when the
      viewer did not send it. */
  function Render(m: Message, isCurrentUser: bool, userLanguage: string): (r: Rendered)
    ensures m.originalLanguage == userLanguage ==> r.Shown? && r.bubble.translationPanel == None
    ensures m.originalLanguage != userLanguage ==>
      (r.Hidden? <==> !HasTranslation(m, userLanguage))
    ensures m.originalLanguage != userLanguage && HasTranslation(m, userLanguage) ==>
      r.Shown? && r.bubble.translationPanel == Some(m.translations[userLanguage])
    ensures r.Shown? ==> r.bubble.body == m.originalText
    ensures r.Shown? ==> (r.bubble.senderLabel.Some? <==> !isCurrentUser)
    ensures r.Shown? && r.bubble.senderLabel.Some? ==> r.bubble.senderLabel.value == m.senderName
  {
    var translated := TranslatedText(m, userLanguage);
    if m.originalLanguage != userLanguage && translated == "" then Hidden
    else
      Shown(Bubble(
        if !isCurrentUser then Some(m.senderName) else None,
        m.originalText,
        if m.originalLanguage != userLanguage && translated != "" then Some(translated) else None,
        isCurrentUser))
  }

  /** A message list entry: the viewer is the sender exactly when the
      sender's identifier is the viewer's (`MessageList`). */
  function RenderFor(m: Message, viewerId: string, viewerLanguage: string): Rendered
  {
    Render(m, m.senderId == viewerId, viewerLanguage)
  }

  /** A message read back by a participant of its own language shows its
      original text, with no translation involved. */
  lemma OwnLanguageRoundTrip(m: Message, viewerId: string)
    ensures RenderFor(m, viewerId, m.originalLanguage).Shown?
    ensures RenderFor(m, viewerId, m.originalLanguage).bubble.body == m.originalText
    ensures RenderFor(m, viewerId, m.originalLanguage).bubble.translationPanel == None
  {
  }

  /** Whether a message is shown depends only on the viewer's language
      and the translation into it, never on who the viewer is. */
  lemma VisibilityIndependentOfViewer(m: Message, viewer1: string, viewer2: string, language: string)
    ensures RenderFor(m, viewer1, language).Hidden? == RenderFor(m, viewer2, language).Hidden?
  {
  }
}
