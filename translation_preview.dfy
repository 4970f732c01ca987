/**
 * The translation preview dialog: which target languages it lists (the
 * distinct languages of the other users that differ from the viewer's, in
 * roster order) and what it shows for each.
 */
module TranslationPreview {
  import opened Wrappers
  import opened Types
  import opened Languages

  /** A user the dialog lists a language for: someone else, speaking another language. */
  predicate IsRecipient(u: User, me: User) {
    u.id != me.id && u.language != me.language
  }

  /** The language of each recipient, one entry per recipient, in roster order. */
  function RecipientLanguages(users: seq<User>, me: User): (r: seq<string>)
    ensures |r| <= |users|
    ensures forall l :: l in r <==> exists u :: u in users && IsRecipient(u, me) && u.language == l
  {
    if users == [] then []
    else (if IsRecipient(users[0], me) then [users[0].language] else []) + RecipientLanguages(users[1..], me)
  }

  /** The list of recipient languages is empty exactly when nobody in the roster is a recipient. */
  lemma {:induction false} RecipientLanguagesEmpty(users: seq<User>, me: User)
    ensures RecipientLanguages(users, me) == [] <==> forall u | u in users :: !IsRecipient(u, me)
  {
    if users != [] {
      RecipientLanguagesEmpty(users[1..], me);
    }
  }

  /**
   * Collecting recipient languages distributes over concatenation: the
   * languages keep the roster order and each recipient contributes exactly one.
   */
  lemma {:induction false} RecipientLanguagesAppend(a: seq<User>, b: seq<User>, me: User)
    ensures RecipientLanguages(a + b, me) == RecipientLanguages(a, me) + RecipientLanguages(b, me)
  {
    if a == [] {
      assert a + b == b;
    } else {
      assert (a + b)[0] == a[0];
      assert (a + b)[1..] == a[1..] + b;
      RecipientLanguagesAppend(a[1..], b, me);
    }
  }

  /** Array search as JavaScript does it: the first position of `x` in `s`, or -1 if absent. */
  function IndexOf(s: seq<string>, x: string): int {
    if s == [] then -1
    else if s[0] == x then 0
    else
      var k := IndexOf(s[1..], x);
      if k == -1 then -1 else k + 1
  }

  /** `IndexOf` is -1 exactly for an absent element, and otherwise the first position holding it. */
  lemma {:induction false} IndexOfSpec(s: seq<string>, x: string)
    ensures -1 <= IndexOf(s, x) < |s|
    ensures IndexOf(s, x) == -1 <==> x !in s
    ensures IndexOf(s, x) >= 0 ==> s[IndexOf(s, x)] == x && forall j | 0 <= j < IndexOf(s, x) :: s[j] != x
  {
    if s != [] && s[0] != x {
      IndexOfSpec(s[1..], x);
      assert s == [s[0]] + s[1..];
      if IndexOf(s, x) >= 0 {
        forall j | 0 <= j < IndexOf(s, x) ensures s[j] != x {
          if j > 0 {
            assert s[j] == s[1..][j - 1];
          }
        }
      }
    }
  }

  /**
   * Deduplication by first occurrence, over the positions `from ..` of
   * `self`: a position is kept when the search for its element lands on it.
   * What it keeps are the elements whose first occurrence is at or after
   * `from`, in the order of those first occurrences (so no element twice).
   */
  function KeepFirstOccurrences(self: seq<string>, from: nat): seq<string>
    requires from <= |self|
    decreases |self| - from
  {
    if from == |self| then []
    else (if IndexOf(self, self[from]) == from then [self[from]] else []) + KeepFirstOccurrences(self, from + 1)
  }

  /** An element is kept exactly when its first occurrence is at or after `from`. */
  lemma {:induction false} KeepFirstOccurrencesMembers(self: seq<string>, from: nat)
    requires from <= |self|
    ensures forall x :: x in KeepFirstOccurrences(self, from) <==> IndexOf(self, x) >= from
    decreases |self| - from
  {
    if from < |self| {
      KeepFirstOccurrencesMembers(self, from + 1);
    }
    forall x ensures x in KeepFirstOccurrences(self, from) <==> IndexOf(self, x) >= from {
      IndexOfSpec(self, x);
    }
  }

  /** The kept elements are ordered by their first occurrence, so none is kept twice. */
  lemma {:induction false} KeepFirstOccurrencesOrder(self: seq<string>, from: nat, a: nat, b: nat)
    requires from <= |self|
    requires a < b < |KeepFirstOccurrences(self, from)|
    ensures IndexOf(self, KeepFirstOccurrences(self, from)[a]) < IndexOf(self, KeepFirstOccurrences(self, from)[b])
    decreases |self| - from
  {
    var rest := KeepFirstOccurrences(self, from + 1);
    var r := KeepFirstOccurrences(self, from);
    if IndexOf(self, self[from]) != from {
      assert r == rest;
      KeepFirstOccurrencesOrder(self, from + 1, a, b);
    } else {
      assert r == [self[from]] + rest;
      KeepFirstOccurrencesMembers(self, from + 1);
      assert r[b] == rest[b - 1] && rest[b - 1] in rest;
      assert IndexOf(self, rest[b - 1]) > from;
      if a == 0 {
        assert r[a] == self[from];
      } else {
        assert r[a] == rest[a - 1];
        KeepFirstOccurrencesOrder(self, from + 1, a - 1, b - 1);
      }
    }
  }

  /** `targetLanguages` of the dialog, for the current user `me`. */
  function TargetLanguages(users: seq<User>, me: User): seq<string> {
    var candidates := RecipientLanguages(users, me);
    KeepFirstOccurrences(candidates, 0)
  }

  /**
   * The target languages are distinct; each is the language of some other
   * user and never the current user's; every other user whose language
   * differs contributes theirs; and they keep the order in which the
   * languages first occur among those users.
   */
  lemma TargetLanguagesSpec(users: seq<User>, me: User)
    ensures var r := TargetLanguages(users, me);
      && (forall a, b | 0 <= a < b < |r| :: r[a] != r[b])
      && (forall l | l in r :: l != me.language && exists u :: u in users && u.id != me.id && u.language == l)
      && (forall u | u in users && u.id != me.id && u.language != me.language :: u.language in r)
      && (forall a, b | 0 <= a < b < |r| ::
            IndexOf(RecipientLanguages(users, me), r[a]) < IndexOf(RecipientLanguages(users, me), r[b]))
  {
    var c := RecipientLanguages(users, me);
    var r := TargetLanguages(users, me);
    assert r == KeepFirstOccurrences(c, 0);
    KeepFirstOccurrencesMembers(c, 0);
    forall a, b | 0 <= a < b < |r|
      ensures IndexOf(c, r[a]) < IndexOf(c, r[b]) && r[a] != r[b]
    {
      KeepFirstOccurrencesOrder(c, 0, a, b);
    }
    forall l ensures l in r <==> l in c {
      IndexOfSpec(c, l);
    }
    forall u | u in users && u.id != me.id && u.language != me.language
      ensures u.language in r
    {
      assert IsRecipient(u, me);
      assert u.language in c;
    }
  }

  /** One accordion item: the language, its heading (the language label) and the translation shown. */
  datatype PreviewItem = PreviewItem(language: string, heading: string, translation: TranslationDetail)

  /** Either the "no translations needed" note, or an accordion opened on its first language. */
  datatype PreviewBody =
    | NoTranslationsNeeded
    | Accordion(defaultLanguage: string, items: seq<PreviewItem>)

  datatype PreviewDialog = PreviewDialog(originalText: string, body: PreviewBody, buttonsDisabled: bool)

  /**
   * The accordion items: one per target language that has a translation, in
   * target order; a language without an entry is skipped.
   */
  function PreviewItems(targets: seq<string>, translations: map<string, TranslationDetail>): (r: seq<PreviewItem>)
    ensures |r| <= |targets|
    ensures forall it | it in r ::
      && it.language in targets && it.language in translations
      && it.translation == translations[it.language]
      && it.heading == GetLanguageLabel(it.language)
    ensures forall l | l in targets && l in translations :: exists it :: it in r && it.language == l
  {
    if targets == [] then []
    else
      var l := targets[0];
      var rest := PreviewItems(targets[1..], translations);
      if l in translations then [PreviewItem(l, GetLanguageLabel(l), translations[l])] + rest else rest
  }

  /**
   * The dialog. Nothing is rendered without both a preview message and a
   * current user; otherwise it shows the original text and, when there is no
   * target language, the "no translations needed" note, else the accordion
   * of the target languages that have a translation. The buttons are
   * disabled while sending.
   */
  function RenderPreviewDialog(preview: Option<Message>, currentUser: Option<User>, users: seq<User>, isSending: bool)
    : (r: Option<PreviewDialog>)
    ensures r.Some? <==> preview.Some? && currentUser.Some?
    ensures r.Some? ==>
      && r.value.originalText == preview.value.originalText
      && r.value.buttonsDisabled == isSending
      && (r.value.body.NoTranslationsNeeded? <==> TargetLanguages(users, currentUser.value) == [])
    ensures r.Some? && r.value.body.Accordion? ==>
      var targets := TargetLanguages(users, currentUser.value);
      && r.value.body.defaultLanguage == targets[0]
      && (forall l :: (exists it :: it in r.value.body.items && it.language == l)
                      <==> l in targets && l in preview.value.translations)
      && (forall it | it in r.value.body.items :: it.translation == preview.value.translations[it.language])
  {
    if preview.None? || currentUser.None? then None
    else
      var targets := TargetLanguages(users, currentUser.value);
      var body := if |targets| > 0
        then Accordion(targets[0], PreviewItems(targets, preview.value.translations))
        else NoTranslationsNeeded;
      Some(PreviewDialog(preview.value.originalText, body, isSending))
  }

  /** When every other user shares the current user's language, the dialog says no translation is needed. */
  lemma SharedLanguageNeedsNoTranslation(preview: Message, me: User, users: seq<User>, isSending: bool)
    requires forall u | u in users :: u.id == me.id || u.language == me.language
    ensures RenderPreviewDialog(Some(preview), Some(me), users, isSending).value.body == NoTranslationsNeeded
  {
    RecipientLanguagesEmpty(users, me);
  }
}
