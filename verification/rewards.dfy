/** The reward bookkeeping done when the rewards dialog opens at the end of a
    session: the earned coins and experience are added to the stored totals,
    and the title is taken from a ladder of coin thresholds. */
module Rewards {
  import opened Wrappers
  import opened Storage

  datatype Title = Title(threshold: int, name: string, icon: string)

  const DefaultTitle: string := "Beginner"

  /** The title ladder, in ascending order of threshold. */
  const TitleLadder: seq<Title> := [
    Title(0, "Beginner", "🌱"),
    Title(100, "Student", "📚"),
    Title(300, "Scholar", "🎓"),
    Title(600, "Expert", "⭐"),
    Title(1000, "Master Teacher", "👨‍🏫"),
    Title(1500, "Professor", "🎯"),
    Title(2500, "Guru", "🧙‍♂️"),
    Title(5000, "Legend", "👑")
  ]

  predicate StrictlyIncreasing(ts: seq<Title>) {
    forall i, j :: 0 <= i < j < |ts| ==> ts[i].threshold < ts[j].threshold
  }

  /** Eight titles, thresholds strictly increasing from 0 to 5000. */
  lemma LadderShape()
    ensures |TitleLadder| == 8 && StrictlyIncreasing(TitleLadder)
    ensures TitleLadder[0].threshold == 0 && TitleLadder[0].name == DefaultTitle
    ensures TitleLadder[7].threshold == 5000 && TitleLadder[7].name == "Legend"
  {
  }

  /** `reverse().find(t => coins >= t.threshold)`: the ladder is searched from
      its last entry down, and the first entry whose threshold the coins reach
      is taken. */
  function FindFromTop(ts: seq<Title>, coins: int): (r: Option<Title>)
    ensures r.Some? ==> r.value in ts && r.value.threshold <= coins
    ensures r.None? <==> forall i :: 0 <= i < |ts| ==> coins < ts[i].threshold
  {
    if ts == [] then None
    else if coins >= ts[|ts| - 1].threshold then Some(ts[|ts| - 1])
    else FindFromTop(ts[..|ts| - 1], coins)
  }

  /** The title for a coin total. */
  function TitleFor(coins: int): Option<Title> {
    FindFromTop(TitleLadder, coins)
  }

  /** On an ascending ladder the search from the top finds the entry with the
      greatest threshold the coins reach: there is one exactly when the lowest
      threshold is reached, and every entry the coins reach has a threshold no
      greater than the one found. */
  lemma {:induction false} TopDownSearch(ts: seq<Title>, coins: int)
    requires StrictlyIncreasing(ts)
    ensures var r := FindFromTop(ts, coins);
      && (r.Some? <==> ts != [] && ts[0].threshold <= coins)
      && (r.Some? ==> forall i :: 0 <= i < |ts| && ts[i].threshold <= coins ==> ts[i].threshold <= r.value.threshold)
  {
    if ts != [] {
      var last := ts[|ts| - 1];
      var init := ts[..|ts| - 1];
      if coins < last.threshold {
        TopDownSearch(init, coins);
        assert init != [] ==> init[0] == ts[0];
        assert init == [] ==> ts[0] == last;
        var r := FindFromTop(ts, coins);
        if r.Some? {
          forall i | 0 <= i < |ts| && ts[i].threshold <= coins
            ensures ts[i].threshold <= r.value.threshold
          {
            assert i < |init| && ts[i] == init[i];
          }
        }
      } else {
        assert ts[0].threshold <= last.threshold;
      }
    }
  }

  /** The chosen title: some title exactly when the coins are not negative, and
      then a ladder entry within reach whose threshold is the greatest within
      reach; thresholds being distinct, it is the only such entry. */
  lemma TitleForSpec(coins: int)
    ensures TitleFor(coins).Some? <==> coins >= 0
    ensures TitleFor(coins).Some? ==>
      && TitleFor(coins).value in TitleLadder
      && TitleFor(coins).value.threshold <= coins
      && forall t :: t in TitleLadder && t.threshold <= coins ==> t.threshold <= TitleFor(coins).value.threshold
    ensures TitleFor(coins).Some? ==>
      forall t :: t in TitleLadder && t.threshold <= coins && t != TitleFor(coins).value ==>
        t.threshold < TitleFor(coins).value.threshold
  {
    LadderShape();
    TopDownSearch(TitleLadder, coins);
    if TitleFor(coins).Some? {
      var v := TitleFor(coins).value;
      forall t | t in TitleLadder && t.threshold <= coins && t != v
        ensures t.threshold < v.threshold
      {
        var i :| 0 <= i < |TitleLadder| && TitleLadder[i] == t;
        var j :| 0 <= j < |TitleLadder| && TitleLadder[j] == v;
        assert i != j;
      }
    }
  }

  /** What opening the dialog does to the store, and the title to announce. */
  datatype Outcome = Outcome(store: Store, newTitle: Option<string>)

  /** The effect as a function of the store: the coin and experience totals
      grow by the earned amounts; the title is written and announced only when
      the chosen one differs from the stored one (default `Beginner`). */
  function ApplyRewards(store: Store, coinsEarned: int, experienceEarned: int): (o: Outcome)
    ensures ReadNumber(o.store, CoinsKey) == ReadNumber(store, CoinsKey) + coinsEarned
    ensures ReadNumber(o.store, ExperienceKey) == ReadNumber(store, ExperienceKey) + experienceEarned
    ensures forall k :: k != CoinsKey && k != ExperienceKey ==> ReadNumber(o.store, k) == ReadNumber(store, k)
    ensures var t := TitleFor(ReadNumber(store, CoinsKey) + coinsEarned);
      if t.Some? && t.value.name != ReadText(store, TitleKey, DefaultTitle)
      then o.newTitle == Some(t.value.name) && o.store.texts == store.texts[TitleKey := t.value.name]
      else o.newTitle == None && o.store.texts == store.texts
  {
    var coins := ReadNumber(store, CoinsKey) + coinsEarned;
    var current := ReadText(store, TitleKey, DefaultTitle);
    var t := TitleFor(coins);
    var s1 := if t.Some? && t.value.name != current then WriteText(store, TitleKey, t.value.name) else store;
    var s2 := WriteNumber(s1, CoinsKey, coins);
    var xp := ReadNumber(store, ExperienceKey) + experienceEarned;
    Outcome(WriteNumber(s2, ExperienceKey, xp), if t.Some? && t.value.name != current then Some(t.value.name) else None)
  }

  /** The dialog's state and the store it updates. */
  class RewardsModal {
    var store: Store
    var newTitle: Option<string>
    var showAnimation: bool

    constructor(store: Store)
      ensures this.store == store && newTitle == None && !showAnimation
    {
      this.store := store;
      newTitle := None;
      showAnimation := false;
    }

    /** The effect run when the dialog's inputs change: nothing while the
        dialog is closed; otherwise the reads and writes of `ApplyRewards`, in
        the order the component does them. */
    method OnOpenEffect(isOpen: bool, coinsEarned: int, experienceEarned: int)
      modifies this
      ensures !isOpen ==> store == old(store) && newTitle == old(newTitle) && showAnimation == old(showAnimation)
      ensures isOpen ==>
        var o := ApplyRewards(old(store), coinsEarned, experienceEarned);
        && store == o.store
        && newTitle == (if o.newTitle.Some? then o.newTitle else old(newTitle))
        && showAnimation
    {
      if !isOpen {
        return;
      }
      showAnimation := true;
      var currentCoins := ReadNumber(store, CoinsKey) + coinsEarned;
      var currentTitle := ReadText(store, TitleKey, DefaultTitle);
      var found := TitleFor(currentCoins);
      if found.Some? && found.value.name != currentTitle {
        newTitle := Some(found.value.name);
        store := WriteText(store, TitleKey, found.value.name);
      }
      store := WriteNumber(store, CoinsKey, currentCoins);
      var currentXP := ReadNumber(store, ExperienceKey) + experienceEarned;
      store := WriteNumber(store, ExperienceKey, currentXP);
    }
  }
}
