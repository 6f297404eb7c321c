/** Which levels and categories of words the user wants; empty lists mean "everything". */
module FilterSettings {

  datatype WordFilterSettings = WordFilterSettings(levels: seq<string>, categories: seq<string>)

  /** `WordFilterSettings.all`. */
  const All: WordFilterSettings := WordFilterSettings([], [])

  predicate SelectsAllLevels(f: WordFilterSettings) {
    |f.levels| == 0
  }

  predicate SelectsAllCategories(f: WordFilterSettings) {
    |f.categories| == 0
  }

  /** `all` has no restrictions and therefore selects every level and every category. */
  lemma AllSelectsEverything()
    ensures All.levels == [] && All.categories == []
    ensures SelectsAllLevels(All) && SelectsAllCategories(All)
  {
  }

  /** A filter naming a level or a category restricts it. */
  lemma NonEmptyRestricts(f: WordFilterSettings)
    ensures SelectsAllLevels(f) <==> f.levels == []
    ensures SelectsAllCategories(f) <==> f.categories == []
  {
  }
}
