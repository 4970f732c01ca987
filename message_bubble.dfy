/**
 * What one message bubble shows to the signed-in viewer: nothing without a
 * viewer language; otherwise the original text or the viewer's translation,
 * which side the bubble sits on, the sentiment icon, and the details panel
 * with each explanation in the viewer's half of its bilingual pair.
 */
module MessageBubble {
  import opened Wrappers
  import opened Types
  import opened Languages

  /** The signed-in user as the bubble reads it; the language may be unset. */
  datatype Viewer = Viewer(uid: string, name: string, language: Option<string>)

  datatype Sender = Sender(uid: string, name: string)

  /** A stored message as the bubble reads it: sender uid, optional sender language, translations by language. */
  datatype BubbleMessage = BubbleMessage(
    sender: Sender,
    senderLanguage: Option<string>,
    originalText: string,
    sentiment: string,
    translations: map<string, TranslationDetail>)

  /** Whether the viewer has a usable language: one is set and it is not the empty string. */
  predicate HasLanguage(viewer: Viewer) {
    viewer.language.Some? && viewer.language.value != ""
  }

  /**
   * `getExplanationText`: the recipient's half of the explanation when the
   * viewer's language is the translation's language, the sender's half
   * otherwise, and "" when the viewer has no language.
   */
  function ExplanationText(viewer: Viewer, explanation: Explanation, targetLanguage: string): (shown: string)
    ensures !HasLanguage(viewer) ==> shown == ""
    ensures HasLanguage(viewer) ==> ShowsViewersHalf(viewer.language.value, targetLanguage, explanation, shown)
  {
    if !HasLanguage(viewer) then ""
    else if viewer.language.value == targetLanguage then explanation.targetLanguageText
    else explanation.sourceLanguageText
  }

  /** `shown` is the recipient's half of `e` when the viewer reads language `k`, the sender's half otherwise. */
  predicate ShowsViewersHalf(viewerLanguage: string, k: string, e: Explanation, shown: string) {
    && (viewerLanguage == k ==> shown == e.targetLanguageText)
    && (viewerLanguage != k ==> shown == e.sourceLanguageText)
  }

  datatype Icon = Smile | Frown | Meh | MehFaint

  /** The icon for a sentiment label, with the unknown-sentiment icon for any other label. */
  function SentimentIcon(sentiment: string): (icon: Icon)
    ensures icon == Smile <==> sentiment == "positive"
    ensures icon == Frown <==> sentiment == "negative"
    ensures icon == Meh <==> sentiment == "neutral"
    ensures icon == MehFaint <==> sentiment != "positive" && sentiment != "negative" && sentiment != "neutral"
  {
    match sentiment
    case "positive" => Smile
    case "negative" => Frown
    case "neutral" => Meh
    case _ => MehFaint
  }

  /** The label of the sender's language; an absent language matches no row. */
  function SenderLanguageLabel(message: BubbleMessage): string {
    match message.senderLanguage
    case Some(code) => GetLanguageLabel(code)
    case None => UnknownLabel
  }

  /** One translation in the details panel, with the explanations the viewer reads. */
  datatype DetailEntry = DetailEntry(
    languageLabel: string,
    translatedText: string,
    context: string,
    tone: string,
    formality: string,
    phrase: string,
    phraseTranslation: string,
    nuggetExplanation: string)

  datatype DetailsPanel = DetailsPanel(originalLanguageLabel: string, originalText: string, entries: map<string, DetailEntry>)

  /** The details of the translation into `language`, as `viewer` reads them. */
  function Entry(viewer: Viewer, language: string, t: TranslationDetail): DetailEntry {
    DetailEntry(
      GetLanguageLabel(language),
      t.translatedText,
      ExplanationText(viewer, t.contextExplanation, language),
      ExplanationText(viewer, t.toneExplanation, language),
      t.formality,
      t.learningNugget.phrase,
      t.learningNugget.translation,
      ExplanationText(viewer, t.learningNugget.explanation, language))
  }

  /**
   * The details panel of `message` as `viewer` reads it: the original text
   * under the sender's language label, and one entry per translation, keyed
   * by its language, whose explanations are the recipient's half exactly when
   * the viewer's language is that entry's language.
   */
  function Details(message: BubbleMessage, viewer: Viewer): (panel: DetailsPanel)
    requires HasLanguage(viewer)
    ensures panel.originalLanguageLabel == SenderLanguageLabel(message)
    ensures panel.originalText == message.originalText
    ensures panel.entries.Keys == message.translations.Keys
    ensures forall k | k in panel.entries ::
      && panel.entries[k].languageLabel == GetLanguageLabel(k)
      && panel.entries[k].translatedText == message.translations[k].translatedText
      && panel.entries[k].formality == message.translations[k].formality
      && panel.entries[k].phrase == message.translations[k].learningNugget.phrase
      && panel.entries[k].phraseTranslation == message.translations[k].learningNugget.translation
      && ShowsViewersHalf(viewer.language.value, k, message.translations[k].contextExplanation, panel.entries[k].context)
      && ShowsViewersHalf(viewer.language.value, k, message.translations[k].toneExplanation, panel.entries[k].tone)
      && ShowsViewersHalf(viewer.language.value, k, message.translations[k].learningNugget.explanation,
                          panel.entries[k].nuggetExplanation)
  {
    DetailsPanel(
      SenderLanguageLabel(message),
      message.originalText,
      map k | k in message.translations :: Entry(viewer, k, message.translations[k]))
  }

  /** The rendered bubble. */
  datatype BubbleView = BubbleView(
    isSender: bool,
    showSenderName: bool,
    text: string,
    isTranslated: bool,
    translatedFromLabel: Option<string>,
    icon: Icon,
    showDetailsToggle: bool,
    details: Option<DetailsPanel>)

  /**
   * `MessageBubble` for `message`, seen by `viewer`, with the details toggle
   * in state `detailsOpen`.
   *
   * Nothing is rendered without a viewer language. A viewer whose language
   * is the sender's sees the original text, untranslated; a viewer with
   * another language that has an entry sees that entry's translated text,
   * marked translated with the label of the sender's language; a viewer with
   * another language and no entry sees the original, untranslated. The
   * bubble is the viewer's own exactly when the uids match. The details
   * toggle appears only when there are translations, and the panel (see
   * `Details`) only when there are and it is open. An unrecognised sentiment
   * gets the faint icon.
   */
  function RenderBubble(message: BubbleMessage, viewer: Option<Viewer>, detailsOpen: bool): (r: Option<BubbleView>)
    ensures r.Some? <==> viewer.Some? && HasLanguage(viewer.value)
    ensures r.Some? ==>
      var v := viewer.value;
      var lang := v.language.value;
      var bubble := r.value;
      && (bubble.isSender <==> message.sender.uid == v.uid)
      && bubble.showSenderName == !bubble.isSender
      && (bubble.isTranslated <==> Some(lang) != message.senderLanguage && lang in message.translations)
      && (Some(lang) == message.senderLanguage ==> bubble.text == message.originalText)
      && (bubble.isTranslated ==> bubble.text == message.translations[lang].translatedText)
      && (bubble.translatedFromLabel.Some? <==> bubble.isTranslated)
      && (bubble.isTranslated ==> bubble.translatedFromLabel.value == SenderLanguageLabel(message))
      && (!bubble.isTranslated ==> bubble.text == message.originalText)
      && bubble.icon == SentimentIcon(message.sentiment)
      && (bubble.showDetailsToggle <==> |message.translations| > 0)
      && (bubble.details.Some? <==> |message.translations| > 0 && detailsOpen)
      && (bubble.details.Some? ==> bubble.details.value == Details(message, v))
  {
    if viewer.None? || !HasLanguage(viewer.value) then None
    else
      var v := viewer.value;
      var viewerLanguage := v.language.value;
      var isSender := message.sender.uid == v.uid;
      var hasTranslations := |message.translations| > 0;
      var translated := Some(viewerLanguage) != message.senderLanguage && viewerLanguage in message.translations;
      var text := if translated then message.translations[viewerLanguage].translatedText else message.originalText;
      var details := if hasTranslations && detailsOpen then Some(Details(message, v)) else None;
      Some(BubbleView(
        isSender, !isSender, text, translated,
        if translated then Some(SenderLanguageLabel(message)) else None,
        SentimentIcon(message.sentiment), hasTranslations, details))
  }
}
