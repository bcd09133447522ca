/**
 * The customization screen: which hats and accessories are unlocked after a
 * number of cleared stages, and the partial profile each option button applies.
 */
module Unlocks {
  import opened Wrappers
  import opened Constants
  import opened Profile

  function Min(a: int, b: int): int {
    if a <= b then a else b
  }

  /**
   * `list.slice(0, end)` as JavaScript computes it: a negative end counts back
   * from the end of the list, and the end is clipped to the list's bounds.
   */
  function SliceTo<T>(list: seq<T>, end: int): (r: seq<T>)
    ensures |r| <= |list| && r == list[..|r|]
    ensures 0 <= end <= |list| ==> |r| == end
    ensures end > |list| ==> r == list
    ensures end < 0 ==> |r| == if |list| + end < 0 then 0 else |list| + end
  {
    var stop := if end < 0 then (if |list| + end < 0 then 0 else |list| + end)
                else if end > |list| then |list| else end;
    list[..stop]
  }

  /**
   * `equivalentLevel`: the level a profile of the older, level-based format
   * would show; from no stage cleared on it is at least 1.
   */
  function EquivalentLevel(stagesCleared: int): (level: int)
    ensures stagesCleared >= 0 ==> level >= 1
  {
    stagesCleared + 1
  }

  /** A legacy profile that stored a truthy `level` is shown at that very level again. */
  lemma LegacyLevelShownAgain(level: int)
    requires level != 0
    ensures EquivalentLevel(LoadCharacter(Saved(StoredCharacter(None, Some(level), None, None, None, None))).stagesCleared) == level
  {
  }

  /** `hats.slice(0, Math.min(equivalentLevel, hats.length))`. */
  function UnlockedHats(stagesCleared: int): (r: seq<string>)
    ensures IsPrefix(r, Hats)
  {
    SliceTo(Hats, Min(EquivalentLevel(stagesCleared), |Hats|))
  }

  /** `accessories.slice(0, Math.min(Math.floor(equivalentLevel / 2) + 1, accessories.length))`. */
  function UnlockedAccessories(stagesCleared: int): (r: seq<string>)
    ensures IsPrefix(r, Accessories)
  {
    // `/` by a positive divisor rounds down, as Math.floor does
    SliceTo(Accessories, Min(EquivalentLevel(stagesCleared) / 2 + 1, |Accessories|))
  }

  predicate IsPrefix<T(==)>(a: seq<T>, b: seq<T>) {
    |a| <= |b| && a == b[..|a|]
  }

  /** After s stages the first min(s + 1, 5) hats are unlocked. */
  lemma UnlockedHatsCount(s: int)
    requires s >= 0
    ensures UnlockedHats(s) == Hats[..Min(s + 1, |Hats|)]
    ensures 1 <= |UnlockedHats(s)| <= |Hats|
  {
  }

  /** After s stages the first min(floor((s + 1) / 2) + 1, 4) accessories are unlocked. */
  lemma UnlockedAccessoriesCount(s: int)
    requires s >= 0
    ensures UnlockedAccessories(s) == Accessories[..Min((s + 1) / 2 + 1, |Accessories|)]
    ensures 1 <= |UnlockedAccessories(s)| <= |Accessories|
  {
  }

  /** Unlocks only grow: what is unlocked at s is a prefix of what is unlocked at any t >= s. */
  lemma UnlocksGrow(s: int, t: int)
    requires 0 <= s <= t
    ensures IsPrefix(UnlockedHats(s), UnlockedHats(t))
    ensures IsPrefix(UnlockedAccessories(s), UnlockedAccessories(t))
  {
    UnlockedHatsCount(s);
    UnlockedHatsCount(t);
    UnlockedAccessoriesCount(s);
    UnlockedAccessoriesCount(t);
  }

  /** "none" is always offered; at the start it is the only hat and the only accessory. */
  lemma NoneAlwaysUnlocked(s: int)
    requires s >= 0
    ensures NoCosmetic in UnlockedHats(s) && NoCosmetic in UnlockedAccessories(s)
    ensures UnlockedHats(0) == [NoCosmetic] && UnlockedAccessories(0) == [NoCosmetic]
  {
    UnlockedHatsCount(s);
    UnlockedAccessoriesCount(s);
    assert UnlockedHats(s)[0] == Hats[0];
    assert UnlockedAccessories(s)[0] == Accessories[0];
  }

  /** Every hat is unlocked exactly from four cleared stages on, whatever the count. */
  lemma AllHatsUnlockedIff(s: int)
    ensures UnlockedHats(s) == Hats <==> s >= 4
  {
    if s < 0 {
      assert |UnlockedHats(s)| < |Hats|;
    } else {
      UnlockedHatsCount(s);
      if s < 4 {
        assert |UnlockedHats(s)| < |Hats|;
      }
    }
  }

  /** Every accessory is unlocked exactly from five cleared stages on, whatever the count. */
  lemma AllAccessoriesUnlockedIff(s: int)
    ensures UnlockedAccessories(s) == Accessories <==> s >= 5
  {
    if s < 0 {
      assert |UnlockedAccessories(s)| < |Accessories|;
    } else {
      UnlockedAccessoriesCount(s);
      if s < 5 {
        assert |UnlockedAccessories(s)| < |Accessories|;
      }
    }
  }

  /**
   * A negative count (reachable only from stored data) goes through
   * JavaScript's negative slice end: at -2 four hats and no accessory show.
   */
  lemma NegativeStagesSlice()
    ensures UnlockedHats(-2) == Hats[..4]
    ensures UnlockedAccessories(-2) == []
  {
  }

  /**
   * A negative count (a stored `level` of -1 loads as -2) leaves the slice
   * arithmetic of the non-negative case: clearing one stage from there takes
   * "none" out of the unlocked hats, so the hat the profile wears is locked.
   */
  lemma NegativeCountLosesHat(today: string)
    ensures var c := LoadCharacter(Saved(StoredCharacter(None, Some(-1), None, None, None, None)));
      && c.stagesCleared == -2
      && c.hat in UnlockedHats(c.stagesCleared)
      && c.hat !in UnlockedHats(RecordStageCleared(c, today).stagesCleared)
  {
    var c := LoadCharacter(Saved(StoredCharacter(None, Some(-1), None, None, None, None)));
    assert UnlockedHats(-2)[0] == NoCosmetic;
    assert UnlockedHats(-1) == [];
  }

  // ----------------------------------------------------------------- buttons

  /** The partial each colour button applies: one per colour, in list order. */
  function ColorButtons(): (r: seq<Customization>)
    ensures |r| == |Colors|
    ensures forall b :: b in r ==> b.color.Some? && b.color.value in Colors && b.hat.None? && b.accessory.None?
    ensures forall c :: c in Colors ==> Customization(Some(c), None, None) in r
  {
    var r := seq(|Colors|, i requires 0 <= i < |Colors| => Customization(Some(Colors[i]), None, None));
    assert forall c :: c in Colors ==> Customization(Some(c), None, None) in r by {
      forall c | c in Colors ensures Customization(Some(c), None, None) in r {
        var i :| 0 <= i < |Colors| && Colors[i] == c;
        assert r[i] == Customization(Some(c), None, None);
      }
    }
    r
  }

  /** The partial each hat button applies: one per unlocked hat. */
  function HatButtons(stagesCleared: int): (r: seq<Customization>)
    ensures |r| == |UnlockedHats(stagesCleared)|
    ensures forall b :: b in r ==> b.hat.Some? && b.hat.value in UnlockedHats(stagesCleared) && b.color.None? && b.accessory.None?
    ensures forall h :: h in UnlockedHats(stagesCleared) ==> Customization(None, Some(h), None) in r
  {
    var hats := UnlockedHats(stagesCleared);
    var r := seq(|hats|, i requires 0 <= i < |hats| => Customization(None, Some(hats[i]), None));
    assert forall h :: h in hats ==> Customization(None, Some(h), None) in r by {
      forall h | h in hats ensures Customization(None, Some(h), None) in r {
        var i :| 0 <= i < |hats| && hats[i] == h;
        assert r[i] == Customization(None, Some(h), None);
      }
    }
    r
  }

  /** The partial each accessory button applies: one per unlocked accessory. */
  function AccessoryButtons(stagesCleared: int): (r: seq<Customization>)
    ensures |r| == |UnlockedAccessories(stagesCleared)|
    ensures forall b :: b in r ==> b.accessory.Some? && b.accessory.value in UnlockedAccessories(stagesCleared) && b.color.None? && b.hat.None?
    ensures forall a :: a in UnlockedAccessories(stagesCleared) ==> Customization(None, None, Some(a)) in r
  {
    var accessories := UnlockedAccessories(stagesCleared);
    var r := seq(|accessories|, i requires 0 <= i < |accessories| => Customization(None, None, Some(accessories[i])));
    assert forall a :: a in accessories ==> Customization(None, None, Some(a)) in r by {
      forall a | a in accessories ensures Customization(None, None, Some(a)) in r {
        var i :| 0 <= i < |accessories| && accessories[i] == a;
        assert r[i] == Customization(None, None, Some(a));
      }
    }
    r
  }

  /** Some button on the screen applies this partial. */
  predicate Offered(stagesCleared: int, change: Customization) {
    change in ColorButtons() || change in HatButtons(stagesCleared) || change in AccessoryButtons(stagesCleared)
  }

  /** Every cosmetic of the profile is one the screen offers at its stage count. */
  predicate CosmeticsUnlocked(c: Character) {
    c.color in Colors && c.hat in UnlockedHats(c.stagesCleared) && c.accessory in UnlockedAccessories(c.stagesCleared)
  }

  /** The default profile wears only what is unlocked from the start. */
  lemma DefaultIsUnlocked()
    ensures CosmeticsUnlocked(DefaultCharacter)
  {
    NoneAlwaysUnlocked(0);
  }

  /** Pressing any offered button keeps every cosmetic unlocked. */
  lemma OfferedKeepsUnlocked(c: Character, change: Customization)
    requires CosmeticsUnlocked(c) && Offered(c.stagesCleared, change)
    ensures CosmeticsUnlocked(Customize(c, change))
  {
  }

  /** Clearing a stage never takes away a cosmetic the player is wearing. */
  lemma StageClearKeepsUnlocked(c: Character, today: string)
    requires CosmeticsUnlocked(c) && c.stagesCleared >= 0
    ensures CosmeticsUnlocked(RecordStageCleared(c, today))
  {
    UnlocksGrow(c.stagesCleared, c.stagesCleared + 1);
  }

  /** The store itself does not check: a partial that no button offers is applied as given. */
  lemma StoreTrustsCaller(c: Character)
    requires c.stagesCleared == 0
    ensures !Offered(0, Customization(None, Some("Crown"), None))
    ensures Customize(c, Customization(None, Some("Crown"), None)).hat == "Crown"
    ensures !CosmeticsUnlocked(Customize(c, Customization(None, Some("Crown"), None)))
  {
    NoneAlwaysUnlocked(0);
  }
}
