/**
 * The widgets process and decision nodes carry: the assigned-people list, the
 * three-state automation indicator and the applications picker. Each keeps its
 * own local state; none of them touches the graph store.
 */
module NodeComponents {
  import Strings

  /** `list.filter(x => x !== item)`. */
  function RemoveAll(list: seq<string>, item: string): (r: seq<string>)
    ensures item !in r
    ensures forall x :: x != item ==> multiset(r)[x] == multiset(list)[x]
    ensures forall x :: x in r <==> x in list && x != item
  {
    if list == [] then []
    else
      var rest := RemoveAll(list[1..], item);
      assert list == [list[0]] + list[1..];
      if list[0] == item then rest else [list[0]] + rest
  }

  /** Filtering distributes over concatenation, so the entries kept stay in their relative order. */
  lemma {:induction false} RemoveAllAppend(a: seq<string>, b: seq<string>, item: string)
    ensures RemoveAll(a + b, item) == RemoveAll(a, item) + RemoveAll(b, item)
  {
    if a != [] {
      assert (a + b)[0] == a[0] && (a + b)[1..] == a[1..] + b;
      RemoveAllAppend(a[1..], b, item);
      if a[0] == item {
        assert RemoveAll(a + b, item) == RemoveAll(a[1..] + b, item);
        assert RemoveAll(a, item) == RemoveAll(a[1..], item);
      } else {
        assert RemoveAll(a + b, item) == [a[0]] + RemoveAll(a[1..] + b, item);
        assert RemoveAll(a, item) == [a[0]] + RemoveAll(a[1..], item);
      }
    } else {
      assert a + b == b;
    }
  }

  /** Removing an absent entry changes nothing. */
  lemma {:induction false} RemoveAllAbsent(list: seq<string>, item: string)
    requires item !in list
    ensures RemoveAll(list, item) == list
  {
    if list != [] {
      RemoveAllAbsent(list[1..], item);
    }
  }

  /** No entry occurs twice. */
  predicate NoDuplicates(list: seq<string>) {
    forall i, j :: 0 <= i < j < |list| ==> list[i] != list[j]
  }

  /** Appending an entry that is not there yet keeps a list free of duplicates. */
  lemma AppendFresh(list: seq<string>, item: string)
    requires NoDuplicates(list) && item !in list
    ensures NoDuplicates(list + [item])
  {
  }

  /** Removing entries keeps a list free of duplicates. */
  lemma {:induction false} RemoveAllNoDuplicates(list: seq<string>, item: string)
    requires NoDuplicates(list)
    ensures NoDuplicates(RemoveAll(list, item))
  {
    if list != [] {
      RemoveAllNoDuplicates(list[1..], item);
      var rest := RemoveAll(list[1..], item);
      assert list[0] !in list[1..];
      assert list[0] !in rest;
    }
  }

  // ---------------------------------------------------------------- people

  /** The assigned-people dropdown. */
  class PeopleAssigned {
    var people: seq<string>
    var newPerson: string

    constructor ()
      ensures people == ["Bob", "Sue"] && newPerson == ""
    {
      people := ["Bob", "Sue"];
      newPerson := "";
    }

    method SetNewPerson(text: string)
      modifies this
      ensures newPerson == text && people == old(people)
    {
      newPerson := text;
    }

    /** Appends the trimmed input and clears it; whitespace-only input changes nothing. Duplicates are accepted. */
    method AddPerson()
      modifies this
      ensures Strings.AllWhitespace(old(newPerson)) ==>
        people == old(people) && newPerson == old(newPerson)
      ensures !Strings.AllWhitespace(old(newPerson)) ==>
        people == old(people) + [Strings.Trim(old(newPerson))] && newPerson == ""
    {
      Strings.TrimEmptyIff(newPerson);
      if Strings.Trim(newPerson) != [] {
        people := people + [Strings.Trim(newPerson)];
        newPerson := "";
      }
    }

    /** Removes every entry equal to the given name. */
    method RemovePerson(person: string)
      modifies this
      ensures people == RemoveAll(old(people), person) && newPerson == old(newPerson)
    {
      people := RemoveAll(people, person);
    }

    /** Enter in the input adds the person; other keys do nothing. */
    method HandleKeyPress(key: string)
      modifies this
      ensures key != "Enter" ==> people == old(people) && newPerson == old(newPerson)
      ensures key == "Enter" && !Strings.AllWhitespace(old(newPerson)) ==>
        people == old(people) + [Strings.Trim(old(newPerson))] && newPerson == ""
      ensures key == "Enter" && Strings.AllWhitespace(old(newPerson)) ==>
        people == old(people) && newPerson == old(newPerson)
    {
      if key == "Enter" {
        AddPerson();
      }
    }
  }

  // ------------------------------------------------------------ automation

  datatype AutomationStatus = None | Partial | Full

  /** The order the indicator cycles through. */
  const States: seq<AutomationStatus> := [None, Partial, Full]

  /** `states.indexOf(status)`; every status is listed, so the index is never -1. */
  function IndexOf(status: AutomationStatus): (i: nat)
    ensures i < |States| && States[i] == status
  {
    match status
    case None => 0
    case Partial => 1
    case Full => 2
  }

  /** `states[(indexOf(status) + 1) % states.length]`. */
  function Next(status: AutomationStatus): (r: AutomationStatus)
    ensures r != status
    ensures IndexOf(r) == (IndexOf(status) + 1) % 3
  {
    States[(IndexOf(status) + 1) % |States|]
  }

  /** none → partial → full → none, so three toggles return to the start. */
  lemma NextCycles(status: AutomationStatus)
    ensures Next(None) == Partial && Next(Partial) == Full && Next(Full) == None
    ensures Next(Next(Next(status))) == status
  {
  }

  class AutomationIndicator {
    var status: AutomationStatus

    constructor ()
      ensures status == None
    {
      status := None;
    }

    method ToggleStatus()
      modifies this
      ensures status == Next(old(status))
    {
      var states := [None, Partial, Full];
      var currentIndex := IndexOf(status);
      var nextIndex := (currentIndex + 1) % |states|;
      status := states[nextIndex];
    }
  }

  // ---------------------------------------------------------- applications

  const DefaultApps: seq<string> :=
    ["Slack", "Jira", "GitHub", "Gmail", "Salesforce", "Notion", "Trello", "Asana"]

  /** The app names matching the search term without regard to ASCII case. */
  predicate Matches(app: string, term: string)
    ensures Matches(app, term) <==> exists i :: Strings.OccursAt(Strings.ToLower(app), Strings.ToLower(term), i)
  {
    Strings.IncludesIff(Strings.ToLower(app), Strings.ToLower(term));
    assert Strings.Includes(Strings.ToLower(app), Strings.ToLower(term)) <==>
           exists i :: Strings.OccursAt(Strings.ToLower(app), Strings.ToLower(term), i);
    Strings.Includes(Strings.ToLower(app), Strings.ToLower(term))
  }

  /** `apps.filter(app => app.toLowerCase().includes(term.toLowerCase()))`. */
  function Matching(apps: seq<string>, term: string): (r: seq<string>)
    ensures |r| <= |apps|
    ensures forall a :: a in r <==> a in apps && Matches(a, term)
  {
    if apps == [] then []
    else
      var rest := Matching(apps[1..], term);
      assert apps == [apps[0]] + apps[1..];
      if Matches(apps[0], term) then [apps[0]] + rest else rest
  }

  /** The filter distributes over concatenation: matching apps keep their order. */
  lemma {:induction false} MatchingAppend(a: seq<string>, b: seq<string>, term: string)
    ensures Matching(a + b, term) == Matching(a, term) + Matching(b, term)
  {
    if a != [] {
      assert (a + b)[0] == a[0] && (a + b)[1..] == a[1..] + b;
      MatchingAppend(a[1..], b, term);
      if Matches(a[0], term) {
        assert Matching(a + b, term) == [a[0]] + Matching(a[1..] + b, term);
        assert Matching(a, term) == [a[0]] + Matching(a[1..], term);
      } else {
        assert Matching(a + b, term) == Matching(a[1..] + b, term);
        assert Matching(a, term) == Matching(a[1..], term);
      }
    } else {
      assert a + b == b;
    }
  }

  /** An empty search term lists every app. */
  lemma {:induction false} MatchingEmptyTerm(apps: seq<string>)
    ensures Matching(apps, "") == apps
  {
    if apps != [] {
      Strings.IncludesEmpty(Strings.ToLower(apps[0]));
      MatchingEmptyTerm(apps[1..]);
    }
  }

  /** `selected.includes(app) ? selected.filter(a => a !== app) : [...selected, app]`. */
  function Toggle(selected: seq<string>, app: string): (r: seq<string>)
    ensures app in selected ==> app !in r
    ensures app !in selected ==> app in r
    ensures forall x :: x != app ==> (x in r <==> x in selected)
    ensures app in selected ==> r == RemoveAll(selected, app)
    ensures app !in selected ==> r == selected + [app]
  {
    if app in selected then RemoveAll(selected, app) else selected + [app]
  }

  /** Toggling the same app twice restores membership of every app; starting from an unselected app it restores the list. */
  lemma ToggleTwice(selected: seq<string>, app: string)
    ensures forall x :: x in Toggle(Toggle(selected, app), app) <==> x in selected
    ensures app !in selected ==> Toggle(Toggle(selected, app), app) == selected
  {
    if app !in selected {
      RemoveAllAppend(selected, [app], app);
      RemoveAllAbsent(selected, app);
    }
  }

  /** Every selected app is available, and neither list repeats an entry. */
  ghost predicate PickerInvariant(selected: seq<string>, available: seq<string>) {
    (forall a :: a in selected ==> a in available) && NoDuplicates(selected) && NoDuplicates(available)
  }

  /** Adding an app that is not available yet to both lists keeps the invariant. */
  lemma AddFreshApp(selected: seq<string>, available: seq<string>, app: string)
    requires PickerInvariant(selected, available) && app !in available
    ensures PickerInvariant(selected + [app], available + [app])
  {
    AppendFresh(available, app);
    AppendFresh(selected, app);
  }

  /** A custom app name is added only when it is non-blank and not listed yet. */
  predicate Addable(name: string, available: seq<string>) {
    name != [] && name !in available
  }

  /** The applications picker. */
  class ApplicationsList {
    var selectedApps: seq<string>
    var searchTerm: string
    var customApp: string
    var availableApps: seq<string>

    ghost predicate Valid()
      reads this
    {
      PickerInvariant(selectedApps, availableApps)
    }

    constructor ()
      ensures Valid()
      ensures availableApps == DefaultApps && selectedApps == [] && searchTerm == "" && customApp == ""
    {
      selectedApps := [];
      searchTerm := "";
      customApp := "";
      availableApps := DefaultApps;
    }

    /** The checkbox list shown under the search box. */
    function FilteredApps(): (r: seq<string>)
      reads this
      ensures forall a :: a in r <==> a in availableApps && Matches(a, searchTerm)
    {
      Matching(availableApps, searchTerm)
    }

    method SetSearchTerm(text: string)
      modifies this
      ensures searchTerm == text
      ensures selectedApps == old(selectedApps) && availableApps == old(availableApps) && customApp == old(customApp)
    {
      searchTerm := text;
    }

    method SetCustomApp(text: string)
      modifies this
      ensures customApp == text
      ensures selectedApps == old(selectedApps) && availableApps == old(availableApps) && searchTerm == old(searchTerm)
    {
      customApp := text;
    }

    /**
     * Adds the trimmed input to the available and the selected apps and clears
     * both inputs, provided it is non-blank and not available yet; otherwise
     * nothing changes.
     */
    method AddCustomApp()
      modifies this
      ensures old(Valid()) ==> Valid()
      ensures Addable(Strings.Trim(old(customApp)), old(availableApps)) ==>
        availableApps == old(availableApps) + [Strings.Trim(old(customApp))] &&
        selectedApps == old(selectedApps) + [Strings.Trim(old(customApp))] &&
        customApp == "" && searchTerm == ""
      ensures !Addable(Strings.Trim(old(customApp)), old(availableApps)) ==>
        availableApps == old(availableApps) && selectedApps == old(selectedApps) &&
        customApp == old(customApp) && searchTerm == old(searchTerm)
    {
      var t := Strings.Trim(customApp);
      if Addable(t, availableApps) {
        if Valid() {
          AddFreshApp(selectedApps, availableApps, t);
        }
        availableApps := availableApps + [t];
        selectedApps := selectedApps + [t];
        customApp := "";
        searchTerm := "";
      }
    }

    /** Deselects a selected app, selects an unselected one. */
    method ToggleApp(app: string)
      modifies this
      ensures selectedApps == Toggle(old(selectedApps), app)
      ensures availableApps == old(availableApps) && searchTerm == old(searchTerm) && customApp == old(customApp)
      ensures old(Valid()) && app in old(availableApps) ==> Valid()
    {
      if app in selectedApps {
        if Valid() {
          RemoveAllNoDuplicates(selectedApps, app);
        }
        selectedApps := RemoveAll(selectedApps, app);
      } else {
        selectedApps := selectedApps + [app];
      }
    }

    /** The checkbox of the `index`-th listed app toggles that app, so the picker's invariant is kept. */
    method ToggleListedApp(index: nat)
      requires Valid() && index < |FilteredApps()|
      modifies this
      ensures Valid()
      ensures selectedApps == Toggle(old(selectedApps), old(FilteredApps())[index])
      ensures availableApps == old(availableApps)
      ensures searchTerm == old(searchTerm) && customApp == old(customApp)
    {
      var app := FilteredApps()[index];
      assert app in FilteredApps();
      ToggleApp(app);
    }

    /** The chip of a selected app removes it from the selection. */
    method RemoveApp(app: string)
      modifies this
      ensures selectedApps == RemoveAll(old(selectedApps), app)
      ensures availableApps == old(availableApps) && searchTerm == old(searchTerm) && customApp == old(customApp)
      ensures old(Valid()) ==> Valid()
    {
      if Valid() {
        RemoveAllNoDuplicates(selectedApps, app);
      }
      selectedApps := RemoveAll(selectedApps, app);
    }

    /** Enter adds the custom app when the input is non-blank. */
    method HandleKeyPress(key: string)
      modifies this
      ensures old(Valid()) ==> Valid()
      ensures key != "Enter" ==>
        availableApps == old(availableApps) && selectedApps == old(selectedApps) &&
        customApp == old(customApp) && searchTerm == old(searchTerm)
      ensures key == "Enter" && Addable(Strings.Trim(old(customApp)), old(availableApps)) ==>
        availableApps == old(availableApps) + [Strings.Trim(old(customApp))] &&
        selectedApps == old(selectedApps) + [Strings.Trim(old(customApp))] &&
        customApp == "" && searchTerm == ""
      ensures key == "Enter" && !Addable(Strings.Trim(old(customApp)), old(availableApps)) ==>
        availableApps == old(availableApps) && selectedApps == old(selectedApps) &&
        customApp == old(customApp) && searchTerm == old(searchTerm)
    {
      if key == "Enter" && Strings.Trim(customApp) != [] {
        AddCustomApp();
      }
    }
  }
}
