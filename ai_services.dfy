/**
 * The two AI flows, seen from their callers. A send makes one sentiment
 * request, whose answer (or error) is a parameter of the send, and then a
 * series of translation requests, answered by an oracle: a function from the
 * ordinal of a request within the send and the request itself to either an
 * answer or an error. Every pattern of answers and failures a real service
 * can produce is given by some answer and some oracle.
 */
module AiServices {
  import opened Wrappers
  import opened Types

  /** What the sentiment prompt answers: a label (free text) and a confidence. */
  datatype SentimentOutput = SentimentOutput(sentiment: string, confidence: real)

  datatype TranslateInput = TranslateInput(text: string, sourceLanguage: string, targetLanguage: string)

  /** The translation flow answers with the full annotated record. */
  type TranslateOutput = TranslationDetail

  /** Why a call failed (network, quota, schema validation, ...). */
  datatype AiError = AiError(reason: string)

  type TranslationModel = (nat, TranslateInput) -> Result<TranslateOutput, AiError>

  const TranslationSourceName: string := "ConvoSense"

  /**
   * The translation flow: passes the prompt's answer through but overwrites
   * its `source` attribution with "ConvoSense"; a failed prompt stays failed.
   */
  function TranslateFlow(prompt: Result<TranslateOutput, AiError>): (r: Result<TranslateOutput, AiError>)
    ensures r.Ok? <==> prompt.Ok?
    ensures r.Err? ==> r == prompt
    ensures r.Ok? ==> r.value.source == TranslationSourceName
    ensures r.Ok? ==> r.value.(source := prompt.value.source) == prompt.value
  {
    match prompt
    case Ok(output) => Ok(output.(source := TranslationSourceName))
    case Err(e) => Err(e)
  }
}
