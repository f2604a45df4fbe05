/** Label dispatch: the `if "A" in label: … elif "B" in label: …` chains of
    the detail extractors, read as an ordered table of (pattern, target). */
module Dispatch {
  import opened Outcomes
  import opened Text

  /** The position of the first pattern of `table` that occurs in `caption`:
      the branch of the if/elif chain that runs. */
  function FirstMatch<L>(caption: string, table: seq<(string, L)>): (r: Option<nat>)
    ensures r.Some? ==> r.value < |table| && Contains(caption, table[r.value].0)
    ensures r.Some? ==> forall j :: 0 <= j < r.value ==> !Contains(caption, table[j].0)
    ensures r.None? <==> forall j :: 0 <= j < |table| ==> !Contains(caption, table[j].0)
  {
    if table == [] then None
    else if Contains(caption, table[0].0) then Some(0)
    else match FirstMatch(caption, table[1..])
      case None => None
      case Some(k) => Some(k + 1)
  }

  /** The target of the first matching pattern, if any. */
  function Classify<L>(caption: string, table: seq<(string, L)>): (r: Option<L>)
    ensures r.None? <==> forall j :: 0 <= j < |table| ==> !Contains(caption, table[j].0)
    ensures r.Some? ==> exists i :: 0 <= i < |table| && table[i].1 == r.value && Contains(caption, table[i].0)
                                   && forall j :: 0 <= j < i ==> !Contains(caption, table[j].0)
  {
    match FirstMatch(caption, table)
    case None => None
    case Some(i) => Some(table[i].1)
  }

  /** The branch at position `i` runs when its pattern occurs and no earlier
      one does. */
  lemma ClassifyAt<L>(caption: string, table: seq<(string, L)>, i: nat)
    requires i < |table| && Contains(caption, table[i].0)
    requires forall j :: 0 <= j < i ==> !Contains(caption, table[j].0)
    ensures Classify(caption, table) == Some(table[i].1)
  {
    var m := FirstMatch(caption, table);
    assert m.Some?;
    assert m.value == i;
  }

  /** A caption that contains the first pattern goes to the first target,
      whatever else it contains. */
  lemma FirstPatternWins<L>(caption: string, table: seq<(string, L)>)
    requires table != [] && Contains(caption, table[0].0)
    ensures Classify(caption, table) == Some(table[0].1)
  {
  }
}
