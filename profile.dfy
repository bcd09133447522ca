/**
 * The player's profile (the hook's `character` state) and the pure pieces of
 * the hook that produce a new profile: the `setCharacter` updaters of
 * `startNextStage` and `applyCustomization`, and the load/save effects.
 */
module Profile {
  import opened Wrappers
  import opened Constants

  datatype Character = Character(
    stagesCleared: int,
    clearedDates: seq<string>,   // "YYYY-MM-DD" day keys
    color: string,
    hat: string,
    accessory: string)

  /** The profile the hook starts from before anything is loaded. */
  const DefaultCharacter: Character := Character(0, [], DefaultColor, NoCosmetic, NoCosmetic)

  /** `Partial<Pick<Character, 'color' | 'hat' | 'accessory'>>`: each field present or absent. */
  datatype Customization = Customization(color: Option<string>, hat: Option<string>, accessory: Option<string>)

  // ------------------------------------------------------------ stage clear

  /** The updater passed to `setCharacter` by `startNextStage`, given today's day key. */
  function RecordStageCleared(prev: Character, today: string): (next: Character)
    ensures next.stagesCleared == prev.stagesCleared + 1
    ensures forall d :: d in next.clearedDates <==> d in prev.clearedDates || d == today
    ensures |prev.clearedDates| <= |next.clearedDates| <= |prev.clearedDates| + 1
    ensures next.clearedDates[..|prev.clearedDates|] == prev.clearedDates
    ensures today in prev.clearedDates <==> next.clearedDates == prev.clearedDates
    ensures NoDuplicates(prev.clearedDates) ==> NoDuplicates(next.clearedDates)
    ensures next.color == prev.color && next.hat == prev.hat && next.accessory == prev.accessory
  {
    var dates := if today in prev.clearedDates then prev.clearedDates else prev.clearedDates + [today];
    prev.(stagesCleared := prev.stagesCleared + 1, clearedDates := dates)
  }

  /** A value that occurs in a duplicate-free list occurs exactly once. */
  lemma {:induction false} OccursOnce<T>(s: seq<T>, x: T)
    requires NoDuplicates(s) && x in s
    ensures multiset(s)[x] == 1
  {
    if s[0] == x {
      assert x !in s[1..];
      assert s == [s[0]] + s[1..];
    } else {
      assert s == [s[0]] + s[1..];
      OccursOnce(s[1..], x);
    }
  }

  /**
   * Clearing two stages on the same day counts two stages but records the day
   * once: the date list grows by at most one entry and holds today exactly once.
   */
  lemma TwoClearsSameDay(c: Character, today: string)
    requires NoDuplicates(c.clearedDates)
    ensures var twice := RecordStageCleared(RecordStageCleared(c, today), today);
      && twice.stagesCleared == c.stagesCleared + 2
      && |twice.clearedDates| <= |c.clearedDates| + 1
      && multiset(twice.clearedDates)[today] == 1
  {
    var twice := RecordStageCleared(RecordStageCleared(c, today), today);
    OccursOnce(twice.clearedDates, today);
  }

  // ----------------------------------------------------------- customization

  /** The updater of `applyCustomization`: `{ ...prev, ...customization }`. */
  function Customize(prev: Character, change: Customization): (next: Character)
    ensures next.stagesCleared == prev.stagesCleared && next.clearedDates == prev.clearedDates
    ensures change.color.Some? ==> next.color == change.color.value
    ensures change.color.None? ==> next.color == prev.color
    ensures change.hat.Some? ==> next.hat == change.hat.value
    ensures change.hat.None? ==> next.hat == prev.hat
    ensures change.accessory.Some? ==> next.accessory == change.accessory.value
    ensures change.accessory.None? ==> next.accessory == prev.accessory
  {
    Character(
      prev.stagesCleared,
      prev.clearedDates,
      if change.color.Some? then change.color.value else prev.color,
      if change.hat.Some? then change.hat.value else prev.hat,
      if change.accessory.Some? then change.accessory.value else prev.accessory)
  }

  /** An empty partial leaves the profile as it is; applying the same partial twice is applying it once. */
  lemma CustomizeIdempotent(c: Character, change: Customization)
    ensures Customize(c, Customization(None, None, None)) == c
    ensures Customize(Customize(c, change), change) == Customize(c, change)
  {
  }

  // ------------------------------------------------------------ persistence

  /**
   * A stored profile after `JSON.parse`: every field may be missing. `level`
   * is the field older versions stored instead of `stagesCleared`.
   */
  datatype StoredCharacter = StoredCharacter(
    stagesCleared: Option<int>,
    level: Option<int>,
    clearedDates: Option<seq<string>>,
    color: Option<string>,
    hat: Option<string>,
    accessory: Option<string>)

  /**
   * What the character key of storage yields: nothing (a missing or empty
   * entry), text on which reading the profile throws, or a parsed record.
   */
  datatype SavedCharacter = NothingSaved | Unreadable | Saved(record: StoredCharacter)

  /** JavaScript truthiness of a stored number. */
  predicate Truthy(v: Option<int>) {
    v.Some? && v.value != 0
  }

  /** `v || fallback` for a stored string: a missing or empty string is replaced. */
  function StringOr(v: Option<string>, fallback: string): string {
    if v.Some? && v.value != "" then v.value else fallback
  }

  /** `parsed.stagesCleared ?? (parsed.level ? parsed.level - 1 : 0)`. */
  function LoadedStages(p: StoredCharacter): (stages: int)
    ensures p.stagesCleared.Some? ==> stages == p.stagesCleared.value
    ensures p.stagesCleared.None? && Truthy(p.level) ==> stages == p.level.value - 1
    ensures p.stagesCleared.None? && !Truthy(p.level) ==> stages == 0
  {
    match p.stagesCleared
    case Some(s) => s
    case None => if Truthy(p.level) then p.level.value - 1 else 0
  }

  /** The profile the load effect leaves in place. */
  function LoadCharacter(saved: SavedCharacter): (c: Character)
    ensures !saved.Saved? ==> c == DefaultCharacter
    ensures saved.Saved? ==> c.stagesCleared == LoadedStages(saved.record)
    ensures saved.Saved? && saved.record.clearedDates.Some? ==> c.clearedDates == saved.record.clearedDates.value
    ensures saved.Saved? && saved.record.clearedDates.None? ==> c.clearedDates == []
    ensures c.color != "" && c.hat != "" && c.accessory != ""
    ensures saved.Saved? && saved.record.color.Some? && saved.record.color.value != "" ==> c.color == saved.record.color.value
    ensures saved.Saved? && saved.record.hat.Some? && saved.record.hat.value != "" ==> c.hat == saved.record.hat.value
    ensures saved.Saved? && saved.record.accessory.Some? && saved.record.accessory.value != "" ==> c.accessory == saved.record.accessory.value
    ensures saved.Saved? && (saved.record.color.None? || saved.record.color.value == "") ==> c.color == DefaultColor
    ensures saved.Saved? && (saved.record.hat.None? || saved.record.hat.value == "") ==> c.hat == NoCosmetic
    ensures saved.Saved? && (saved.record.accessory.None? || saved.record.accessory.value == "") ==> c.accessory == NoCosmetic
  {
    match saved
    case NothingSaved => DefaultCharacter
    case Unreadable => DefaultCharacter
    case Saved(p) =>
      Character(
        LoadedStages(p),
        if p.clearedDates.Some? then p.clearedDates.value else [],
        StringOr(p.color, DefaultColor),
        StringOr(p.hat, NoCosmetic),
        StringOr(p.accessory, NoCosmetic))
  }

  /**
   * The question number the load effect leaves in place: the stored one when
   * present, except that a throw while reading the profile skips it.
   */
  function LoadQuestionNumber(saved: SavedCharacter, savedNumber: Option<int>): (n: int)
    ensures saved.Unreadable? || savedNumber.None? ==> n == 1
    ensures !saved.Unreadable? && savedNumber.Some? ==> n == savedNumber.value
  {
    if saved.Unreadable? then 1
    else if savedNumber.Some? then savedNumber.value
    else 1
  }

  /** What the save effect writes: `JSON.stringify(character)` keeps all five fields. */
  function Stored(c: Character): (r: StoredCharacter)
    ensures r.stagesCleared.Some? && LoadedStages(r) == c.stagesCleared
    ensures r.clearedDates == Some(c.clearedDates)
  {
    StoredCharacter(Some(c.stagesCleared), None, Some(c.clearedDates), Some(c.color), Some(c.hat), Some(c.accessory))
  }

  /** A legacy record `{level: 3}` loads as two stages cleared, with default cosmetics. */
  lemma LegacyLevelMigrates()
    ensures LoadCharacter(Saved(StoredCharacter(None, Some(3), None, None, None, None)))
            == Character(2, [], DefaultColor, NoCosmetic, NoCosmetic)
  {
  }

  /** A stored `stagesCleared` wins over `level`, even when it is 0. */
  lemma StoredStagesWin(level: int)
    ensures LoadCharacter(Saved(StoredCharacter(Some(0), Some(level), None, None, None, None))).stagesCleared == 0
  {
  }

  /** Unreadable storage gives the same profile as empty storage. */
  lemma UnreadableIsLikeNothing()
    ensures LoadCharacter(Unreadable) == LoadCharacter(NothingSaved) == DefaultCharacter
  {
  }

  /**
   * Saving then loading restores the profile and the question number, as long
   * as no cosmetic is the empty string (which loads as the default).
   */
  lemma SaveLoadRoundTrip(c: Character, questionNumber: int)
    requires c.color != "" && c.hat != "" && c.accessory != ""
    ensures LoadCharacter(Saved(Stored(c))) == c
    ensures LoadQuestionNumber(Saved(Stored(c)), Some(questionNumber)) == questionNumber
  {
  }

  /** An empty stored cosmetic does not survive the round trip. */
  lemma EmptyColorNotRestored(c: Character)
    requires c.color == ""
    ensures LoadCharacter(Saved(Stored(c))).color == DefaultColor
  {
  }
}
