/** The fixed table of supported languages and the label lookup over it. */
module Languages {
  import opened Wrappers

  /** One row of the table: a language code (`value`) and its display label. */
  datatype LanguageOption = LanguageOption(value: string, display: string)

  const Table: seq<LanguageOption> := [
    LanguageOption("en-US", "English"),
    LanguageOption("es-ES", "Spanish"),
    LanguageOption("fr-FR", "French"),
    LanguageOption("de-DE", "German"),
    LanguageOption("ja-JP", "Japanese"),
    LanguageOption("zh-CN", "Chinese"),
    LanguageOption("ru-RU", "Russian"),
    LanguageOption("ar-SA", "Arabic"),
    LanguageOption("pt-BR", "Portuguese"),
    LanguageOption("hi-IN", "Hindi")
  ]

  const UnknownLabel: string := "Unknown"

  /** The code is one of the table's codes. */
  predicate IsKnownCode(code: string) {
    exists i | 0 <= i < |Table| :: Table[i].value == code
  }

  /** The table has ten rows, no two share a code, and every label is non-empty and not "Unknown". */
  lemma TableWellFormed()
    ensures |Table| == 10
    ensures forall i, j | 0 <= i < j < |Table| :: Table[i].value != Table[j].value
    ensures forall i | 0 <= i < |Table| :: Table[i].display != "" && Table[i].display != UnknownLabel
  {
  }

  /**
   * `Array.prototype.find` with the predicate `lang.value === code`: the first
   * row with that code, or None when no row has it.
   */
  function Find(table: seq<LanguageOption>, code: string): (r: Option<LanguageOption>)
    ensures r.Some? ==> r.value in table && r.value.value == code
    ensures r.None? <==> forall i | 0 <= i < |table| :: table[i].value != code
  {
    if table == [] then None
    else if table[0].value == code then Some(table[0])
    else Find(table[1..], code)
  }

  /** Find returns the row at the first index carrying the code. */
  lemma {:induction false} FindReturnsFirst(table: seq<LanguageOption>, code: string, k: nat)
    requires k < |table| && table[k].value == code
    requires forall j | 0 <= j < k :: table[j].value != code
    ensures Find(table, code) == Some(table[k])
  {
    if k > 0 {
      FindReturnsFirst(table[1..], code, k - 1);
    }
  }

  /**
   * `getLanguageLabel`: the label of the row for `code`, falling back to
   * "Unknown" when there is no such row (or its label were empty).
   */
  function GetLanguageLabel(code: string): (r: string)
    ensures r != ""
    ensures r != UnknownLabel ==> exists i | 0 <= i < |Table| :: Table[i].value == code && Table[i].display == r
  {
    match Find(Table, code)
    case Some(row) => if row.display != "" then row.display else UnknownLabel
    case None => UnknownLabel
  }

  /**
   * The label is never empty, is one of the table's labels or "Unknown", and
   * is "Unknown" exactly for the codes outside the table.
   */
  lemma LabelRange(code: string)
    ensures GetLanguageLabel(code) != ""
    ensures GetLanguageLabel(code) == UnknownLabel || exists i | 0 <= i < |Table| :: GetLanguageLabel(code) == Table[i].display
    ensures GetLanguageLabel(code) == UnknownLabel <==> !IsKnownCode(code)
  {
    TableWellFormed();
  }

  /** Each code of the table is labelled with its own row's label. */
  lemma LabelOfKnownCode(i: nat)
    requires i < |Table|
    ensures GetLanguageLabel(Table[i].value) == Table[i].display
  {
    TableWellFormed();
    FindReturnsFirst(Table, Table[i].value, i);
  }

  /** Any code outside the table is labelled "Unknown". */
  lemma LabelOfUnknownCode(code: string)
    requires forall i | 0 <= i < |Table| :: Table[i].value != code
    ensures GetLanguageLabel(code) == UnknownLabel
  {
  }
}
