/** The session lengths a teacher can pick, with the coins and experience a
    full session of each length earns, and the lookup of the selected one. */
module DurationSelector {
  import opened Wrappers
  import opened Text

  datatype DurationOption = DurationOption(value: nat, caption: string, coins: nat, experience: nat, difficulty: string)

  /** The table, in the order the menu lists it; `value` is in minutes. */
  const DurationOptions: seq<DurationOption> := [
    DurationOption(15, "15 minutes", 10, 25, "Quick"),
    DurationOption(30, "30 minutes", 25, 50, "Standard"),
    DurationOption(45, "45 minutes", 40, 75, "Extended"),
    DurationOption(60, "1 hour", 60, 100, "Full Session"),
    DurationOption(90, "1.5 hours", 100, 150, "Master Class")
  ]

  /** Five options; longer sessions come later and earn strictly more coins
      and strictly more experience. */
  lemma TableShape()
    ensures |DurationOptions| == 5
    ensures forall i, j :: 0 <= i < j < |DurationOptions| ==>
      && DurationOptions[i].value < DurationOptions[j].value
      && DurationOptions[i].coins < DurationOptions[j].coins
      && DurationOptions[i].experience < DurationOptions[j].experience
  {
  }

  predicate DistinctValues(opts: seq<DurationOption>) {
    forall i, j :: 0 <= i < j < |opts| ==> opts[i].value != opts[j].value
  }

  /** `find(option => option.value === d)`: the first option with that value. */
  function FindOption(opts: seq<DurationOption>, d: int): (r: Option<DurationOption>)
    ensures r.Some? ==> r.value in opts && r.value.value == d
    ensures r.None? <==> forall i :: 0 <= i < |opts| ==> opts[i].value != d
  {
    if opts == [] then None
    else if opts[0].value == d then Some(opts[0])
    else FindOption(opts[1..], d)
  }

  /** With distinct values, the lookup of an option's value finds that very
      option. */
  lemma {:induction false} FindUnique(opts: seq<DurationOption>, k: nat)
    requires DistinctValues(opts)
    requires k < |opts|
    ensures FindOption(opts, opts[k].value) == Some(opts[k])
  {
    if k > 0 {
      assert opts[0].value != opts[k].value;
      assert opts[1..][k - 1] == opts[k];
      FindUnique(opts[1..], k - 1);
    }
  }

  /** The option previewed for the selected duration. */
  function SelectedOption(d: int): Option<DurationOption> {
    FindOption(DurationOptions, d)
  }

  /** The preview shows exactly the listed option of the selected length; an
      unlisted length shows no preview. */
  lemma SelectedOptionSpec(d: int)
    ensures SelectedOption(d).None? <==> forall i :: 0 <= i < |DurationOptions| ==> DurationOptions[i].value != d
    ensures forall i :: 0 <= i < |DurationOptions| && DurationOptions[i].value == d ==> SelectedOption(d) == Some(DurationOptions[i])
  {
    TableShape();
    forall i | 0 <= i < |DurationOptions| && DurationOptions[i].value == d
      ensures SelectedOption(d) == Some(DurationOptions[i])
    {
      FindUnique(DurationOptions, i);
    }
  }

  /** `onValueChange`: the menu hands back the item's text and the component
      passes `parseInt` of it on. */
  function OnValueChange(item: string): Option<nat> {
    ParseInt(item)
  }

  /** Choosing the item of an option selects that option: the item text is the
      printed value, and reading it back gives the value, whose lookup is the
      option. */
  lemma SelectRoundTrip(k: nat)
    requires k < |DurationOptions|
    ensures OnValueChange(NatToString(DurationOptions[k].value)) == Some(DurationOptions[k].value)
    ensures SelectedOption(DurationOptions[k].value) == Some(DurationOptions[k])
  {
    ParseIntOfNatToString(DurationOptions[k].value);
    SelectedOptionSpec(DurationOptions[k].value);
  }
}
