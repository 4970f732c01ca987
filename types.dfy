/** The records declared for the application: users, messages and translation details. */
module Types {

  /** A chat participant; `language` is a language code such as "es-ES". */
  datatype User = User(id: string, name: string, language: string)

  /** An explanation written twice: for the sender's language and for the recipient's. */
  datatype Explanation = Explanation(sourceLanguageText: string, targetLanguageText: string)

  datatype LearningNugget = LearningNugget(phrase: string, translation: string, explanation: Explanation)

  /** A translation together with its cultural and tonal annotations. */
  datatype TranslationDetail = TranslationDetail(
    translatedText: string,
    source: string,
    contextExplanation: Explanation,
    toneExplanation: Explanation,
    formality: string,
    learningNugget: LearningNugget)

  /** A message with its translations keyed by target language code. */
  datatype Message = Message(
    id: string,
    sender: User,
    originalText: string,
    timestamp: int,
    sentiment: string,
    translations: map<string, TranslationDetail>)
}
