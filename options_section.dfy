/** The analysis options checklist
    (apk-tools-client/components/options-section.tsx): the list of selected
    option ids and how a checkbox change updates it. */
module OptionsSection {
  import opened Wrappers
  import opened Seqs

  /** The selection when the checklist is mounted. */
  const INITIAL: seq<string> := []

  /** `selected.filter((id) => id !== optionId)`. */
  function Without(selected: seq<string>, id: string): (r: seq<string>)
    ensures id !in r
    ensures forall x :: x != id ==> (x in r <==> x in selected)
    ensures |r| <= |selected|
  {
    if selected == [] then []
    else if selected[0] != id then [selected[0]] + Without(selected[1..], id)
    else Without(selected[1..], id)
  }

  /** Filtering keeps the order: it distributes over concatenation. */
  lemma {:induction false} WithoutAppend(a: seq<string>, b: seq<string>, id: string)
    ensures Without(a + b, id) == Without(a, id) + Without(b, id)
  {
    if a != [] {
      assert (a + b)[0] == a[0] && (a + b)[1..] == a[1..] + b;
      WithoutAppend(a[1..], b, id);
    } else {
      assert a + b == b;
    }
  }

  /** Filtering removes every occurrence of `id` and keeps every other id as
      often as it was there. */
  lemma {:induction false} WithoutCounts(selected: seq<string>, id: string)
    ensures multiset(Without(selected, id)) == multiset(selected)[id := 0]
  {
    if selected != [] {
      assert selected == [selected[0]] + selected[1..];
      WithoutCounts(selected[1..], id);
    }
  }

  /** A list without `id` is left as it is. */
  lemma {:induction false} WithoutAbsent(selected: seq<string>, id: string)
    requires id !in selected
    ensures Without(selected, id) == selected
  {
    if selected != [] {
      WithoutAbsent(selected[1..], id);
    }
  }

  /** `handleOptionChange`'s new list: the id appended when checked (even if
      already there), every occurrence filtered out when unchecked. */
  function NewSelection(selected: seq<string>, id: string, checked: bool): (r: seq<string>)
    ensures checked ==> |r| == |selected| + 1 && r[..|selected|] == selected && r[|selected|] == id
    ensures !checked ==> r == Without(selected, id)
  {
    if checked then selected + [id] else Without(selected, id)
  }

  /** The checkbox of `id` is ticked: `selectedOptions.includes(option.id)`. */
  predicate IsChecked(selected: seq<string>, id: string) {
    id in selected
  }

  /** A change: the new state and the list passed to `onChange`. */
  datatype Change = Change(state: seq<string>, notified: seq<string>)

  function HandleOptionChange(selected: seq<string>, id: string, checked: bool): (c: Change)
    ensures c.notified == c.state
    ensures IsChecked(c.state, id) == checked
    ensures forall other :: other != id ==> IsChecked(c.state, other) == IsChecked(selected, other)
  {
    var next := NewSelection(selected, id, checked);
    Change(next, next)
  }

  /** Checking an id already checked lists it twice. */
  lemma CheckTwiceDuplicates(selected: seq<string>, id: string)
    requires IsChecked(selected, id)
    ensures Count(NewSelection(selected, id, true), id) == Count(selected, id) + 1 >= 2
  {
    CountAppend(selected, id, id);
  }

  /** Unchecking undoes checking an id that was not checked. */
  lemma UncheckUndoesCheck(selected: seq<string>, id: string)
    requires !IsChecked(selected, id)
    ensures NewSelection(NewSelection(selected, id, true), id, false) == selected
  {
    WithoutAppend(selected, [id], id);
    WithoutAbsent(selected, id);
  }

  /** The selection after a series of checkbox changes, from the initial one. */
  function Replay(events: seq<(string, bool)>): seq<string> {
    if events == [] then INITIAL
    else NewSelection(Replay(events[..|events| - 1]), events[|events| - 1].0, events[|events| - 1].1)
  }

  /** The last change made to `id`, if any. */
  function LastChange(events: seq<(string, bool)>, id: string): (r: Option<bool>)
    ensures r.Some? ==> exists k :: 0 <= k < |events| && events[k] == (id, r.value)
  {
    if events == [] then None
    else if events[|events| - 1].0 == id then Some(events[|events| - 1].1)
    else LastChange(events[..|events| - 1], id)
  }

  /** Starting from nothing checked, an option is ticked exactly when its
      last change was a check. */
  lemma {:induction false} CheckedIffLastChecked(events: seq<(string, bool)>, id: string)
    ensures IsChecked(Replay(events), id) <==> LastChange(events, id) == Some(true)
  {
    if events != [] {
      CheckedIffLastChecked(events[..|events| - 1], id);
      var (e, checked) := events[|events| - 1];
      var before := Replay(events[..|events| - 1]);
      var c := HandleOptionChange(before, e, checked);
      assert Replay(events) == c.state;
    }
  }
}
