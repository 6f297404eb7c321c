/** The fixed table of language pairs and the lookup of the user's selection in it. */
module LanguageCatalog {
  import opened Common

  datatype LanguageOption = LanguageOption(
    id: string, sourceLanguage: string, targetLanguage: string, labelText: string, fileName: string)

  const Options: seq<LanguageOption> := [
    LanguageOption("es-en", "es-ES", "en-US", "Spanish → English", "words_es_en"),
    LanguageOption("en-es", "en-US", "es-ES", "English → Spanish", "words_en_es"),
    LanguageOption("de-en", "de-DE", "en-US", "German → English", "words_de_en"),
    LanguageOption("it-en", "it-IT", "en-US", "Italian → English", "words_it_en")
  ]

  const DefaultID: string := "es-en"

  /** `options.first(where: { $0.id == id })`. */
  function FirstWithId(options: seq<LanguageOption>, id: string): (r: Option<nat>)
    ensures r.None? <==> forall k :: 0 <= k < |options| ==> options[k].id != id
    ensures r.Some? ==> r.value < |options| && options[r.value].id == id
    ensures r.Some? ==> forall k :: 0 <= k < r.value ==> options[k].id != id
  {
    if options == [] then None
    else if options[0].id == id then Some(0)
    else match FirstWithId(options[1..], id)
      case None => None
      case Some(k) => Some(k + 1)
  }

  /** `option(for:)`: the option with the given id, or the first option when there is none. */
  function OptionFor(id: Option<string>): (r: LanguageOption)
    ensures r in Options
    ensures id.None? ==> r == Options[0]
    ensures id.Some? && (exists k :: 0 <= k < |Options| && Options[k].id == id.value) ==> r.id == id.value
    ensures id.Some? && (forall k :: 0 <= k < |Options| ==> Options[k].id != id.value) ==> r == Options[0]
  {
    match id
    case None => Options[0]
    case Some(s) =>
      match FirstWithId(Options, s)
      case None => Options[0]
      case Some(k) => Options[k]
  }

  /** The fallback option is the one named by `defaultID`. */
  lemma DefaultIsFirst()
    ensures Options[0].id == DefaultID
    ensures OptionFor(None) == Options[0] && OptionFor(Some(DefaultID)) == Options[0]
  {
  }

  /** The table's ids are distinct. */
  lemma OptionIdsDistinct()
    ensures forall i, j :: 0 <= i < j < |Options| ==> Options[i].id != Options[j].id
  {
  }

  /** Looking up an entry's own id gives back that entry. */
  lemma OptionForOwnId(k: nat)
    requires k < |Options|
    ensures OptionFor(Some(Options[k].id)) == Options[k]
  {
    OptionIdsDistinct();
  }
}
