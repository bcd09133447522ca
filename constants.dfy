/** The game's fixed configuration: stage length and the cosmetic option lists. */
module Constants {

  /** Number of questions in one stage. */
  const QuestionsPerStage: int := 20

  const Colors: seq<string> := ["#3b82f6", "#ef4444", "#22c55e", "#f97316", "#a855f7", "#ec4899"]
  const Hats: seq<string> := ["none", "Top Hat", "Party Hat", "Crown", "Beanie"]
  const Accessories: seq<string> := ["none", "Glasses", "Bowtie", "Scarf"]

  /** The profile defaults used when nothing (or nothing usable) is stored. */
  const DefaultColor: string := "#3b82f6"
  const NoCosmetic: string := "none"

  predicate NoDuplicates<T(==)>(s: seq<T>) {
    forall i, j :: 0 <= i < j < |s| ==> s[i] != s[j]
  }

  /** A stage is twenty questions long. */
  lemma StageLength()
    ensures QuestionsPerStage == 20 && QuestionsPerStage >= 1
  {
  }

  /** Six colours, five hats and four accessories, none listed twice. */
  lemma OptionListShapes()
    ensures |Colors| == 6 && |Hats| == 5 && |Accessories| == 4
    ensures NoDuplicates(Colors) && NoDuplicates(Hats) && NoDuplicates(Accessories)
  {
  }

  /** Both unlockable lists start with "none"; the default colour is the first colour. */
  lemma DefaultsAreFirstOptions()
    ensures Hats[0] == NoCosmetic && Accessories[0] == NoCosmetic
    ensures Colors[0] == DefaultColor
    ensures DefaultColor != "" && NoCosmetic != ""
  {
  }
}
