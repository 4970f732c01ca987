/**
 * The in-memory chat state: the roster of users, the current user, whether the
 * chat has started, the append-only message list and the `isSending` flag,
 * with the operations that change them (`addUser`, `startChat`,
 * `setCurrentUser`, `sendMessage`).
 */
module ChatSession {
  import opened Wrappers
  import opened JsStrings
  import opened Languages
  import opened Types
  import opened AiServices

  /**
   * What the provider stores for one target language: only the translated
   * text and its attribution, not the full annotated record.
   */
  datatype StoredTranslation = StoredTranslation(text: string, source: string)

  /** A message as the provider builds it. */
  datatype ChatMessage = ChatMessage(
    id: string,
    sender: User,
    originalText: string,
    timestamp: int,
    sentiment: string,
    translations: map<string, StoredTranslation>)

  datatype Toast = Toast(variant: string, title: string, description: string)

  /** The toast shown when a send fails. */
  const SendFailedToast: Toast :=
    Toast("destructive", "Error", "Could not send message. AI service may be unavailable.")

  /**
   * One request made to an AI flow during a send, the answer it got, and the
   * value of `isSending` while the request was pending. A translation request
   * also records the recipient language code it was made for.
   */
  datatype AiCall =
    | SentimentCall(message: string, sentimentAnswer: Result<SentimentOutput, AiError>, whileSending: bool)
    | TranslateCall(
        recipientLanguage: string,
        request: TranslateInput,
        translateAnswer: Result<TranslateOutput, AiError>,
        whileSending: bool)

  /** How a send ended: ignored by the guard, sent, or failed with a toast. */
  datatype SendOutcome = Ignored | Sent(message: ChatMessage) | Failed(toast: Toast)

  /** An id made of a prefix followed by the clock reading in decimal; the reading is passed in. */
  function StampedId(prefix: string, now: nat): (r: string)
    ensures |r| > |prefix| && r[..|prefix|] == prefix
  {
    prefix + DecimalString(now)
  }

  /** Two ids stamped with the same prefix are equal only when the clock readings are. */
  lemma StampedIdInjective(prefix: string, a: nat, b: nat)
    requires StampedId(prefix, a) == StampedId(prefix, b)
    ensures a == b
  {
    assert StampedId(prefix, a)[|prefix|..] == DecimalString(a);
    assert StampedId(prefix, b)[|prefix|..] == DecimalString(b);
    DecimalStringRoundTrip(a);
    DecimalStringRoundTrip(b);
  }

  /** The roster without the current user: every entry whose id differs from theirs. */
  function OtherUsers(users: seq<User>, me: User): (r: seq<User>)
    ensures |r| <= |users|
    ensures forall u :: u in r <==> u in users && u.id != me.id
  {
    if users == [] then []
    else (if users[0].id != me.id then [users[0]] else []) + OtherUsers(users[1..], me)
  }

  /**
   * Filtering distributes over concatenation: the kept users stay in roster
   * order, and each is kept as many times as it occurs.
   */
  lemma {:induction false} OtherUsersAppend(a: seq<User>, b: seq<User>, me: User)
    ensures OtherUsers(a + b, me) == OtherUsers(a, me) + OtherUsers(b, me)
  {
    if a == [] {
      assert a + b == b;
    } else {
      assert (a + b)[0] == a[0];
      assert (a + b)[1..] == a[1..] + b;
      OtherUsersAppend(a[1..], b, me);
    }
  }

  /**
   * The recipient languages the send loop translates into, one per user it
   * visits whose language differs from the sender's, in roster order
   * (repeats included).
   */
  function TranslationTargets(others: seq<User>, senderLanguage: string): (r: seq<string>)
    ensures |r| <= |others|
  {
    if others == [] then []
    else
      var last := others[|others| - 1];
      TranslationTargets(others[..|others| - 1], senderLanguage)
        + (if last.language != senderLanguage then [last.language] else [])
  }

  /** A language is a target exactly when some visited user speaks it and it is not the sender's. */
  lemma {:induction false} TranslationTargetsMembers(others: seq<User>, senderLanguage: string)
    ensures forall t :: t in TranslationTargets(others, senderLanguage) <==>
      exists u :: u in others && u.language == t && t != senderLanguage
  {
    if others != [] {
      var n := |others| - 1;
      TranslationTargetsMembers(others[..n], senderLanguage);
      assert others == others[..n] + [others[n]];
    }
  }

  /**
   * The request for one recipient language, made as the `ordinal`-th call of
   * the send while the sending flag is `sending`, with the flow's answer.
   */
  function TranslationCall(ordinal: nat, target: string, text: string, sourceLabel: string, model: TranslationModel, sending: bool): AiCall
  {
    var request := TranslateInput(text, sourceLabel, GetLanguageLabel(target));
    TranslateCall(target, request, TranslateFlow(model(ordinal, request)), sending)
  }

  /**
   * The translation requests of one send, one per target, numbered after the
   * sentiment request (which is call 0).
   */
  function TranslationCalls(targets: seq<string>, text: string, sourceLabel: string, model: TranslationModel): (r: seq<AiCall>)
    ensures |r| == |targets|
  {
    if targets == [] then []
    else
      var n := |targets| - 1;
      TranslationCalls(targets[..n], text, sourceLabel, model) + [TranslationCall(n + 1, targets[n], text, sourceLabel, model, true)]
  }

  /**
   * The `j`-th translation request of a send is the one for `targets[j]`,
   * numbered `j + 1`, made while `isSending` holds; its answer is the flow's,
   * so a success is attributed to "ConvoSense".
   */
  lemma {:induction false} TranslationCallAt(targets: seq<string>, text: string, sourceLabel: string, model: TranslationModel, j: nat)
    requires j < |targets|
    ensures var c := TranslationCalls(targets, text, sourceLabel, model)[j];
      && c == TranslationCall(j + 1, targets[j], text, sourceLabel, model, true)
      && c.TranslateCall? && c.recipientLanguage == targets[j] && c.whileSending
      && (c.translateAnswer.Ok? ==> c.translateAnswer.value.source == TranslationSourceName)
  {
    var n := |targets| - 1;
    if j < n {
      TranslationCallAt(targets[..n], text, sourceLabel, model, j);
      assert targets[..n][j] == targets[j];
    }
  }

  /** The translation requests `sendMessage` makes for sender `me` over the roster `users`. */
  function SendTranslationCalls(users: seq<User>, me: User, text: string, model: TranslationModel): seq<AiCall>
  {
    TranslationCalls(TranslationTargets(OtherUsers(users, me), me.language), text, GetLanguageLabel(me.language), model)
  }

  /** The call is a translation for language `k` that came back with an answer. */
  predicate Succeeded(c: AiCall, k: string) {
    c.TranslateCall? && c.recipientLanguage == k && c.translateAnswer.Ok?
  }

  /**
   * The translations record the send loop fills: each successful translation
   * writes its language's entry; a failed one writes nothing.
   */
  function Collect(calls: seq<AiCall>): map<string, StoredTranslation>
  {
    if calls == [] then map[]
    else
      var m := Collect(calls[..|calls| - 1]);
      match calls[|calls| - 1]
      case TranslateCall(k, _, Ok(out), _) => m[k := StoredTranslation(out.translatedText, out.source)]
      case _ => m
  }

  /** Visiting one more user extends the targets by that user's language when it differs. */
  lemma TranslationTargetsStep(others: seq<User>, i: nat, senderLanguage: string)
    requires i < |others|
    ensures TranslationTargets(others[..i + 1], senderLanguage) == TranslationTargets(others[..i], senderLanguage)
      + (if others[i].language != senderLanguage then [others[i].language] else [])
  {
    assert others[..i + 1][..i] == others[..i];
  }

  /** One more target adds one more request, numbered after the earlier ones. */
  lemma TranslationCallsStep(targets: seq<string>, target: string, text: string, sourceLabel: string, model: TranslationModel)
    ensures TranslationCalls(targets + [target], text, sourceLabel, model)
      == TranslationCalls(targets, text, sourceLabel, model) + [TranslationCall(|targets| + 1, target, text, sourceLabel, model, true)]
  {
  }

  /**
   * Visiting user `i` of the loop adds one request, numbered after the earlier
   * ones, exactly when that user's language differs from the sender's.
   */
  lemma SendLoopStep(others: seq<User>, i: nat, senderLanguage: string, text: string, sourceLabel: string, model: TranslationModel,
                     calls: seq<AiCall>)
    requires i < |others|
    requires calls == TranslationCalls(TranslationTargets(others[..i], senderLanguage), text, sourceLabel, model)
    ensures others[i].language != senderLanguage ==>
      TranslationCalls(TranslationTargets(others[..i + 1], senderLanguage), text, sourceLabel, model)
        == calls + [TranslationCall(|calls| + 1, others[i].language, text, sourceLabel, model, true)]
    ensures others[i].language == senderLanguage ==>
      TranslationCalls(TranslationTargets(others[..i + 1], senderLanguage), text, sourceLabel, model) == calls
  {
    var targets := TranslationTargets(others[..i], senderLanguage);
    TranslationTargetsStep(others, i, senderLanguage);
    if others[i].language != senderLanguage {
      TranslationCallsStep(targets, others[i].language, text, sourceLabel, model);
    } else {
      assert targets + [] == targets;
    }
  }

  /** One more call updates the record as the loop body does. */
  lemma CollectStep(calls: seq<AiCall>, call: AiCall)
    ensures Collect(calls + [call]) ==
      if call.TranslateCall? && call.translateAnswer.Ok?
      then Collect(calls)[call.recipientLanguage :=
             StoredTranslation(call.translateAnswer.value.translatedText, call.translateAnswer.value.source)]
      else Collect(calls)
  {
  }

  /** A language is a key of the record exactly when some translation for it succeeded. */
  lemma {:induction false} CollectKeys(calls: seq<AiCall>)
    ensures forall k :: k in Collect(calls) <==> exists j | 0 <= j < |calls| :: Succeeded(calls[j], k)
  {
    if calls != [] {
      var n := |calls| - 1;
      CollectKeys(calls[..n]);
      forall k | k in Collect(calls)
        ensures exists j | 0 <= j < |calls| :: Succeeded(calls[j], k)
      {
        if !Succeeded(calls[n], k) {
          assert k in Collect(calls[..n]);
          var j :| 0 <= j < n && Succeeded(calls[..n][j], k);
          assert calls[j] == calls[..n][j];
        }
      }
      forall k, j | 0 <= j < |calls| && Succeeded(calls[j], k)
        ensures k in Collect(calls)
      {
        if j < n {
          assert calls[..n][j] == calls[j];
        }
      }
    }
  }

  /**
   * When several translations for one language succeed, the entry holds the
   * last of them.
   */
  lemma {:induction false} CollectLastWins(calls: seq<AiCall>, k: string, j: nat)
    requires j < |calls| && Succeeded(calls[j], k)
    requires forall i | j < i < |calls| :: !Succeeded(calls[i], k)
    ensures k in Collect(calls)
    ensures Collect(calls)[k] ==
      StoredTranslation(calls[j].translateAnswer.value.translatedText, calls[j].translateAnswer.value.source)
  {
    var n := |calls| - 1;
    if j < n {
      forall i | j < i < n ensures !Succeeded(calls[..n][i], k) {
        assert calls[..n][i] == calls[i];
      }
      assert calls[..n][j] == calls[j];
      CollectLastWins(calls[..n], k, j);
    }
  }

  /** Every entry the loop stores carries the attribution the translation flow forces. */
  lemma {:induction false} CollectSources(calls: seq<AiCall>)
    requires forall j | 0 <= j < |calls| :: calls[j].TranslateCall? && calls[j].translateAnswer.Ok? ==>
      calls[j].translateAnswer.value.source == TranslationSourceName
    ensures forall k | k in Collect(calls) :: Collect(calls)[k].source == TranslationSourceName
  {
    if calls != [] {
      var n := |calls| - 1;
      forall j | 0 <= j < n && calls[..n][j].TranslateCall? && calls[..n][j].translateAnswer.Ok?
        ensures calls[..n][j].translateAnswer.value.source == TranslationSourceName
      {
        assert calls[..n][j] == calls[j];
      }
      CollectSources(calls[..n]);
    }
  }

  /**
   * The translations record of a sent message. Its keys are languages of other
   * users, never the sender's own; a key is present exactly when a translation
   * for it succeeded (so a failure only omits that key); when every translation
   * succeeds, every other user's differing language is a key; and every entry
   * is attributed to "ConvoSense".
   */
  lemma SentTranslations(users: seq<User>, me: User, text: string, model: TranslationModel)
    ensures var calls := SendTranslationCalls(users, me, text, model);
      var m := Collect(calls);
      && (forall k | k in m :: k != me.language)
      && (forall k | k in m :: exists u :: u in users && u.id != me.id && u.language == k)
      && (forall k :: k in m <==> exists j | 0 <= j < |calls| :: Succeeded(calls[j], k))
      && (forall k | k in m :: m[k].source == TranslationSourceName)
      && ((forall j | 0 <= j < |calls| :: calls[j].TranslateCall? && calls[j].translateAnswer.Ok?) ==>
            forall u | u in users && u.id != me.id && u.language != me.language :: u.language in m)
  {
    var targets := TranslationTargets(OtherUsers(users, me), me.language);
    var calls := SendTranslationCalls(users, me, text, model);
    var m := Collect(calls);
    CollectKeys(calls);
    TranslationTargetsMembers(OtherUsers(users, me), me.language);
    forall j | 0 <= j < |calls| && calls[j].TranslateCall? && calls[j].translateAnswer.Ok?
      ensures calls[j].translateAnswer.value.source == TranslationSourceName
    {
      TranslationCallAt(targets, text, GetLanguageLabel(me.language), model, j);
    }
    CollectSources(calls);
    forall k | k in m ensures k != me.language && exists u :: u in users && u.id != me.id && u.language == k {
      var j :| 0 <= j < |calls| && Succeeded(calls[j], k);
      TranslationCallAt(targets, text, GetLanguageLabel(me.language), model, j);
      assert targets[j] in targets;
      var u :| u in OtherUsers(users, me) && u.language == k && k != me.language;
    }
    if forall j | 0 <= j < |calls| :: calls[j].TranslateCall? && calls[j].translateAnswer.Ok? {
      forall u | u in users && u.id != me.id && u.language != me.language
        ensures u.language in m
      {
        assert u in OtherUsers(users, me);
        assert u.language in targets;
        var j :| 0 <= j < |targets| && targets[j] == u.language;
        TranslationCallAt(targets, text, GetLanguageLabel(me.language), model, j);
        assert Succeeded(calls[j], u.language);
      }
    }
  }

  /** The translations of a sent message have no entry for the sender's language, and every entry is attributed. */
  lemma SentMessageWellFormed(users: seq<User>, me: User, text: string, model: TranslationModel)
    ensures var m := Collect(SendTranslationCalls(users, me, text, model));
      && me.language !in m
      && forall k | k in m :: m[k].source == TranslationSourceName
  {
    SentTranslations(users, me, text, model);
  }

  /** Every request in the log was pending while `isSending` was true. */
  predicate MadeWhileSending(calls: seq<AiCall>) {
    forall c | c in calls :: c.whileSending
  }

  /** What every message in the list satisfies: non-blank text, no entry for the sender's own language, attributed entries. */
  predicate WellFormedMessage(m: ChatMessage) {
    && Trim(m.originalText) != ""
    && m.sender.language !in m.translations
    && forall k | k in m.translations :: m.translations[k].source == TranslationSourceName
  }

  /** The provider's state. */
  class Session {
    var users: seq<User>
    var messages: seq<ChatMessage>
    var currentUser: Option<User>
    var chatStarted: bool
    var isSending: bool

    /**
     * Between operations no send is in progress, a started chat has at least
     * two users, and every message is well formed.
     */
    ghost predicate Valid()
      reads this
    {
      && !isSending
      && (chatStarted ==> |users| >= 2)
      && forall i | 0 <= i < |messages| :: WellFormedMessage(messages[i])
    }

    /** The initial state: no users, no messages, no current user, not started, not sending. */
    constructor ()
      ensures Valid()
      ensures users == [] && messages == [] && currentUser == None && !chatStarted && !isSending
    {
      users := [];
      messages := [];
      currentUser := None;
      chatStarted := false;
      isSending := false;
    }

    /**
     * `addUser`: appends one user with the given name and language and an id
     * made from the clock reading; the new user becomes current only when
     * there is none.
     */
    method AddUser(name: string, language: string, now: nat)
      requires Valid()
      modifies this
      ensures Valid()
      ensures users == old(users) + [User(StampedId("user-", now), name, language)]
      ensures old(currentUser).None? ==> currentUser == Some(users[|users| - 1])
      ensures old(currentUser).Some? ==> currentUser == old(currentUser)
      ensures messages == old(messages) && chatStarted == old(chatStarted) && isSending == old(isSending)
    {
      var newUser := User(StampedId("user-", now), name, language);
      users := users + [newUser];
      if currentUser.None? {
        currentUser := Some(newUser);
      }
    }

    /** `setCurrentUser`: replaces the current user and nothing else. */
    method SetCurrentUser(user: Option<User>)
      requires Valid()
      modifies this`currentUser
      ensures Valid()
      ensures currentUser == user
    {
      currentUser := user;
    }

    /**
     * `startChat`: marks the chat started when there are at least two users;
     * otherwise nothing changes. It never resets the flag.
     */
    method StartChat()
      requires Valid()
      modifies this`chatStarted
      ensures Valid()
      ensures chatStarted == (old(chatStarted) || |users| >= 2)
    {
      if |users| >= 2 {
        chatStarted := true;
      }
    }

    /**
     * The loop of `sendMessage` over the other users: for each whose language
     * differs from the sender's it requests a translation (while `isSending`
     * holds) and, when the request succeeds, stores it under that user's
     * language; a failed request is skipped.
     */
    method TranslateForRecipients(others: seq<User>, me: User, text: string, model: TranslationModel)
      returns (translations: map<string, StoredTranslation>, calls: seq<AiCall>)
      requires isSending
      ensures calls == TranslationCalls(TranslationTargets(others, me.language), text, GetLanguageLabel(me.language), model)
      ensures translations == Collect(calls)
      ensures MadeWhileSending(calls)
    {
      translations, calls := map[], [];
      var sourceLabel := GetLanguageLabel(me.language);
      var i := 0;
      while i < |others|
        invariant 0 <= i <= |others|
        invariant calls == TranslationCalls(TranslationTargets(others[..i], me.language), text, sourceLabel, model)
        invariant translations == Collect(calls)
        invariant MadeWhileSending(calls)
      {
        var user := others[i];
        SendLoopStep(others, i, me.language, text, sourceLabel, model, calls);
        if user.language != me.language {
          var call := TranslationCall(|calls| + 1, user.language, text, sourceLabel, model, isSending);
          assert call == TranslationCall(|calls| + 1, user.language, text, sourceLabel, model, true);
          CollectStep(calls, call);
          calls := calls + [call];
          if call.translateAnswer.Ok? {
            var answer := call.translateAnswer.value;
            translations := translations[user.language := StoredTranslation(answer.translatedText, answer.source)];
          }
        }
        i := i + 1;
      }
      assert others[..i] == others;
    }

    /**
     * The successful path of `sendMessage`, once sentiment has answered: the
     * translations for the other users, then the message appended with the
     * lower-cased sentiment label and the collected translations. The new
     * message is well formed.
     */
    method Deliver(me: User, text: string, now: nat, sentiment: SentimentOutput, model: TranslationModel)
      returns (message: ChatMessage, translationCalls: seq<AiCall>)
      requires isSending && Trim(text) != ""
      requires forall i | 0 <= i < |messages| :: WellFormedMessage(messages[i])
      modifies this`messages
      ensures translationCalls == SendTranslationCalls(users, me, text, model)
      ensures MadeWhileSending(translationCalls)
      ensures message == ChatMessage(StampedId("msg-", now), me, text, now, ToLowerCase(sentiment.sentiment), Collect(translationCalls))
      ensures WellFormedMessage(message)
      ensures messages == old(messages) + [message]
      ensures forall i | 0 <= i < |messages| :: WellFormedMessage(messages[i])
    {
      var translations;
      translations, translationCalls := TranslateForRecipients(OtherUsers(users, me), me, text, model);
      message := ChatMessage(StampedId("msg-", now), me, text, now, ToLowerCase(sentiment.sentiment), translations);
      SentMessageWellFormed(users, me, text, model);
      messages := messages + [message];
    }

    /**
     * `sendMessage`. Without a current user, or with blank text, nothing
     * happens and no AI request is made. Otherwise `isSending` is raised for
     * the AI requests: first sentiment (call 0); if it fails the list is
     * unchanged and the error toast is returned; if it succeeds, one
     * translation is requested per other user whose language differs from
     * the sender's, failures are skipped, and exactly one message is appended.
     * `isSending` is false again on every path.
     */
    method SendMessage(text: string, now: nat, sentimentAnswer: Result<SentimentOutput, AiError>, translationModel: TranslationModel)
      returns (outcome: SendOutcome, calls: seq<AiCall>)
      requires Valid()
      modifies this`messages, this`isSending
      ensures Valid()
      ensures MadeWhileSending(calls)
      ensures old(currentUser).None? || Trim(text) == "" ==>
        outcome == Ignored && calls == [] && messages == old(messages)
      ensures outcome.Failed? <==> currentUser.Some? && Trim(text) != "" && sentimentAnswer.Err?
      ensures outcome.Failed? ==>
        && outcome.toast == SendFailedToast
        && calls == [SentimentCall(text, sentimentAnswer, true)]
        && messages == old(messages)
      ensures outcome.Sent? <==> currentUser.Some? && Trim(text) != "" && sentimentAnswer.Ok?
      ensures outcome.Sent? ==>
        && calls == [SentimentCall(text, sentimentAnswer, true)]
                    + SendTranslationCalls(users, currentUser.value, text, translationModel)
        && outcome.message == ChatMessage(
             StampedId("msg-", now), currentUser.value, text, now,
             ToLowerCase(sentimentAnswer.value.sentiment),
             Collect(SendTranslationCalls(users, currentUser.value, text, translationModel)))
        && messages == old(messages) + [outcome.message]
    {
      if currentUser.None? || Trim(text) == "" {
        return Ignored, [];
      }
      isSending := true;
      calls := [SentimentCall(text, sentimentAnswer, isSending)];
      if sentimentAnswer.Err? {
        outcome := Failed(SendFailedToast);
      } else {
        var message, translationCalls := Deliver(currentUser.value, text, now, sentimentAnswer.value, translationModel);
        calls := calls + translationCalls;
        outcome := Sent(message);
      }
      isSending := false;
    }
  }
}
