/** The progress card: the stored coin and experience totals and title, the
    teaching level and the experience within it, and the next title with the
    coins still needed for it. */
module UserProgress {
  import opened Wrappers
  import opened Storage
  import Rewards

  /** One rung of the card's ladder; the colour is the badge style. */
  datatype Rung = Rung(threshold: int, name: string, icon: string, color: string)

  const ExperiencePerLevel: nat := 100

  /** The card's title ladder, in ascending order of threshold. */
  const ProgressLadder: seq<Rung> := [
    Rung(0, "Beginner", "🌱", "bg-green-100 text-green-800"),
    Rung(100, "Student", "📚", "bg-blue-100 text-blue-800"),
    Rung(300, "Scholar", "🎓", "bg-purple-100 text-purple-800"),
    Rung(600, "Expert", "⭐", "bg-yellow-100 text-yellow-800"),
    Rung(1000, "Master Teacher", "👨‍🏫", "bg-orange-100 text-orange-800"),
    Rung(1500, "Professor", "🎯", "bg-red-100 text-red-800"),
    Rung(2500, "Guru", "🧙‍♂️", "bg-indigo-100 text-indigo-800"),
    Rung(5000, "Legend", "👑", "bg-gradient-to-r from-yellow-400 to-orange-500 text-white")
  ]

  /** The card and the rewards dialog use the same titles, thresholds and icons,
      in the same order. */
  lemma LaddersAgree()
    ensures |ProgressLadder| == |Rewards.TitleLadder|
    ensures forall i :: 0 <= i < |ProgressLadder| ==>
      && ProgressLadder[i].threshold == Rewards.TitleLadder[i].threshold
      && ProgressLadder[i].name == Rewards.TitleLadder[i].name
      && ProgressLadder[i].icon == Rewards.TitleLadder[i].icon
  {
  }

  /** No two rungs share a name; the last one is `Legend`; thresholds rise. */
  lemma ProgressLadderNames()
    ensures |ProgressLadder| == 8 && ProgressLadder[7].name == "Legend"
    ensures forall i :: 0 <= i < |ProgressLadder| - 1 ==> ProgressLadder[i].threshold < ProgressLadder[i + 1].threshold
    ensures forall i, j :: 0 <= i < j < |ProgressLadder| ==> ProgressLadder[i].name != ProgressLadder[j].name
  {
  }

  // ---------------------------------------------------------------------------
  // Loading

  datatype Progress = Progress(totalCoins: int, totalExperience: int, currentTitle: string)

  /** The one-time load; missing entries give 0 coins, 0 experience and
      `Beginner`. */
  function LoadProgress(store: Store): (p: Progress)
    ensures CoinsKey !in store.numbers ==> p.totalCoins == 0
    ensures ExperienceKey !in store.numbers ==> p.totalExperience == 0
    ensures TitleKey !in store.texts ==> p.currentTitle == Rewards.DefaultTitle
    ensures TitleKey in store.texts ==>
      p.currentTitle == (if store.texts[TitleKey] == [] then Rewards.DefaultTitle else store.texts[TitleKey])
    ensures CoinsKey in store.numbers ==> p.totalCoins == store.numbers[CoinsKey]
    ensures ExperienceKey in store.numbers ==> p.totalExperience == store.numbers[ExperienceKey]
  {
    Progress(ReadNumber(store, CoinsKey), ReadNumber(store, ExperienceKey),
             ReadText(store, TitleKey, Rewards.DefaultTitle))
  }

  // ---------------------------------------------------------------------------
  // Titles

  /** `findIndex(t => t.title === name)`: the first rung with that name, or -1. */
  function IndexOfName(rungs: seq<Rung>, name: string): (i: int)
    ensures -1 <= i < |rungs|
    ensures i >= 0 ==> rungs[i].name == name && forall k :: 0 <= k < i ==> rungs[k].name != name
    ensures i == -1 <==> forall k :: 0 <= k < |rungs| ==> rungs[k].name != name
  {
    if rungs == [] then -1
    else if rungs[0].name == name then 0
    else
      var i := IndexOfName(rungs[1..], name);
      if i == -1 then -1 else i + 1
  }

  function TitleIndex(title: string): int {
    IndexOfName(ProgressLadder, title)
  }

  /** `titles[currentTitleIndex]`: the rung of the stored title, absent for a
      name that is not on the ladder. */
  function CurrentTitleData(title: string): Option<Rung> {
    var i := TitleIndex(title);
    if 0 <= i then Some(ProgressLadder[i]) else None
  }

  /** `titles[currentTitleIndex + 1]`. */
  function NextTitle(title: string): Option<Rung> {
    var i := TitleIndex(title) + 1;
    if 0 <= i < |ProgressLadder| then Some(ProgressLadder[i]) else None
  }

  /** The next title is the rung right after the current one; there is none
      exactly for `Legend`; a name that is not on the ladder is found at -1, so
      its next title is the first rung. */
  lemma NextTitleSpec(title: string)
    ensures NextTitle(title).None? <==> title == "Legend"
    ensures forall k :: 0 <= k < |ProgressLadder| - 1 && ProgressLadder[k].name == title ==>
      NextTitle(title) == Some(ProgressLadder[k + 1])
    ensures CurrentTitleData(title).None? ==> NextTitle(title) == Some(ProgressLadder[0])
  {
    ProgressLadderNames();
    var i := TitleIndex(title);
    if i == 7 {
      assert title == "Legend";
    }
    if title == "Legend" {
      assert ProgressLadder[7].name == title;
      assert i == 7;
    }
  }

  /** The coins still needed for the next title, shown only when there is one. */
  function CoinsToUnlock(totalCoins: int, title: string): (r: Option<int>)
    ensures r.Some? <==> NextTitle(title).Some?
    ensures r.Some? ==> r.value + totalCoins == NextTitle(title).value.threshold
  {
    match NextTitle(title)
    case None => None
    case Some(next) => Some(next.threshold - totalCoins)
  }

  /** `part / whole * 100` on exact reals. */
  function Percentage(part: int, whole: int): (r: real)
    requires whole > 0
    ensures 0 <= part < whole ==> 0.0 <= r < 100.0
  {
    var q := part as real / whole as real;
    assert part as real == q * whole as real;
    q * 100.0
  }

  /** `progressToNext`, the percentage bar towards the next title, on exact
      reals: 100 at the top of the ladder; absent when the stored title is not
      on the ladder but a next title exists, where the component reads a field
      of `undefined`. */
  function ProgressToNext(totalCoins: int, title: string): Option<real> {
    match NextTitle(title)
    case None => Some(100.0)
    case Some(next) =>
      match CurrentTitleData(title)
      case None => None
      case Some(cur) =>
        if next.threshold <= cur.threshold then None
        else Some(Percentage(totalCoins - cur.threshold, next.threshold - cur.threshold))
  }

  /** For a title on the ladder the bar is defined; below `Legend` it lies in
      [0, 100) while the coins are between the current and the next
      threshold; `Legend` shows a full bar. */
  lemma ProgressToNextBounds(totalCoins: int, title: string)
    ensures title == "Legend" ==> ProgressToNext(totalCoins, title) == Some(100.0)
    ensures CurrentTitleData(title).Some? ==> ProgressToNext(totalCoins, title).Some?
    ensures CurrentTitleData(title).Some? && NextTitle(title).Some?
      && CurrentTitleData(title).value.threshold <= totalCoins < NextTitle(title).value.threshold
      ==> 0.0 <= ProgressToNext(totalCoins, title).value < 100.0
  {
    NextTitleSpec(title);
    ProgressLadderNames();
    var i := TitleIndex(title);
    if 0 <= i && i + 1 < |ProgressLadder| {
      assert ProgressLadder[i].threshold < ProgressLadder[i + 1].threshold;
    }
  }

  /** The achievement message is shown for `Legend` only. */
  predicate ShowsLegendMessage(title: string) {
    title == "Legend"
  }

  /** Exactly the titles with no next title show the achievement message. */
  lemma LegendMessageWhenTop(title: string)
    ensures ShowsLegendMessage(title) <==> CoinsToUnlock(0, title).None?
  {
    NextTitleSpec(title);
  }

  // ---------------------------------------------------------------------------
  // Level

  /** `Math.floor(xp / 100) + 1`; for a positive divisor Dafny's division is
      the floor. */
  function Level(xp: int): (level: int)
    ensures (level - 1) * ExperiencePerLevel <= xp < level * ExperiencePerLevel
    ensures xp >= 0 ==> level >= 1
  {
    xp / ExperiencePerLevel + 1
  }

  /** `xp % 100` with JavaScript's `%`, whose sign follows the dividend: for a
      non-negative total, the experience within the current level, so that the
      level and it give back the total; for a negative total, not above zero. */
  function XpProgress(xp: int): (r: int)
    ensures xp >= 0 ==> 0 <= r < ExperiencePerLevel && (Level(xp) - 1) * ExperiencePerLevel + r == xp
    ensures xp < 0 ==> -(ExperiencePerLevel as int) < r <= 0
  {
    if xp >= 0 then xp % ExperiencePerLevel else -((-xp) % ExperiencePerLevel)
  }
}
