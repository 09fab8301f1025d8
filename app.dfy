/** The browser component: its state fields, the handlers the page wires to
    the search box and the buttons, and the request issued on each change. */
module CharacterBrowser {
  import opened Wrappers
  import opened Filters
  import Query
  import Render

  /** How a request ends: the parsed `results` field (absent in a response
      without one) or a network or parse failure. */
  datatype FetchOutcome = Received(results: Option<seq<Render.Character>>) | Failed

  class App {
    var characterList: Option<seq<Render.Character>>
    var searchTerm: string
    var statusFilter: string
    var speciesFilter: string
    var genderFilter: string

    /** The four filter fields as one value. */
    function Snapshot(): FilterState
      reads this
    {
      FilterState(searchTerm, statusFilter, speciesFilter, genderFilter)
    }

    /** Mount: an empty list and every filter cleared. */
    constructor ()
      ensures characterList == Some([])
      ensures Snapshot() == Cleared
    {
      characterList := Some([]);
      searchTerm, statusFilter, speciesFilter, genderFilter := "", "", "", "";
    }

    /** The search box sets the search term to its text and nothing else. */
    method HandleSearchChange(text: string)
      modifies this
      ensures searchTerm == text
      ensures statusFilter == old(statusFilter) && speciesFilter == old(speciesFilter) && genderFilter == old(genderFilter)
      ensures characterList == old(characterList)
      ensures Snapshot() == Step(old(Snapshot()), SearchChanged(text))
    {
      searchTerm := text;
    }

    /** A status button selects its value, or clears it when already selected. */
    method HandleStatusFilter(status: string)
      modifies this
      ensures statusFilter == (if old(statusFilter) == status then "" else status)
      ensures searchTerm == old(searchTerm) && speciesFilter == old(speciesFilter) && genderFilter == old(genderFilter)
      ensures characterList == old(characterList)
      ensures Snapshot() == Step(old(Snapshot()), StatusClicked(status))
      ensures FromButtons(old(Snapshot())) && status in StatusButtons ==> FromButtons(Snapshot())
    {
      statusFilter := Toggle(statusFilter, status);
    }

    /** A species button selects its value, or clears it when already selected. */
    method HandleSpeciesFilter(species: string)
      modifies this
      ensures speciesFilter == (if old(speciesFilter) == species then "" else species)
      ensures searchTerm == old(searchTerm) && statusFilter == old(statusFilter) && genderFilter == old(genderFilter)
      ensures characterList == old(characterList)
      ensures Snapshot() == Step(old(Snapshot()), SpeciesClicked(species))
      ensures FromButtons(old(Snapshot())) && species in SpeciesButtons ==> FromButtons(Snapshot())
    {
      speciesFilter := Toggle(speciesFilter, species);
    }

    /** A gender button selects its value, or clears it when already selected. */
    method HandleGenderFilter(gender: string)
      modifies this
      ensures genderFilter == (if old(genderFilter) == gender then "" else gender)
      ensures searchTerm == old(searchTerm) && statusFilter == old(statusFilter) && speciesFilter == old(speciesFilter)
      ensures characterList == old(characterList)
      ensures Snapshot() == Step(old(Snapshot()), GenderClicked(gender))
      ensures FromButtons(old(Snapshot())) && gender in GenderButtons ==> FromButtons(Snapshot())
    {
      genderFilter := Toggle(genderFilter, gender);
    }

    /** The reset button clears all four filter fields and leaves the list alone. */
    method ResetFilters()
      modifies this
      ensures Snapshot() == Cleared
      ensures characterList == old(characterList)
      ensures Snapshot() == Step(old(Snapshot()), ResetClicked)
    {
      searchTerm := "";
      statusFilter := "";
      speciesFilter := "";
      genderFilter := "";
    }

    /** The class of a status button: active exactly when it is the selected status. */
    function IsActiveStatus(status: string): (c: string)
      reads this
      ensures c == Render.ActiveClass <==> statusFilter == status
      ensures c == Render.ActiveClass || c == Render.InactiveClass
    {
      Render.ButtonClass(statusFilter, status)
    }

    /** The class of a species button: active exactly when it is the selected species. */
    function IsActiveSpecies(species: string): (c: string)
      reads this
      ensures c == Render.ActiveClass <==> speciesFilter == species
      ensures c == Render.ActiveClass || c == Render.InactiveClass
    {
      Render.ButtonClass(speciesFilter, species)
    }

    /** The class of a gender button: active exactly when it is the selected gender. */
    function IsActiveGender(gender: string): (c: string)
      reads this
      ensures c == Render.ActiveClass <==> genderFilter == gender
      ensures c == Render.ActiveClass || c == Render.InactiveClass
    {
      Render.ButtonClass(genderFilter, gender)
    }

    /** Builds the request URL from the current fields by appending each
        non-empty filter to the name query. */
    method BuildUrl() returns (url: string)
      ensures url == Query.RequestUrl(Snapshot())
    {
      url := Query.Base + searchTerm;
      if statusFilter != "" {
        url := url + ("&status=" + statusFilter);
      }
      if speciesFilter != "" {
        url := url + ("&species=" + speciesFilter);
      }
      if genderFilter != "" {
        url := url + ("&gender=" + genderFilter);
      }
    }

    /** One request for the current filters: returns the URL it asks for, and
        replaces the list with the response's `results` on success, keeping
        the old list on failure. */
    method FetchCharacters(outcome: FetchOutcome) returns (url: string)
      modifies this`characterList
      ensures url == Query.RequestUrl(Snapshot())
      ensures characterList == (if outcome.Received? then outcome.results else old(characterList))
    {
      url := BuildUrl();
      if outcome.Received? {
        characterList := outcome.results;
      }
    }

    /** The result area for the current list. */
    function ResultArea(): (v: Render.View)
      reads this
      ensures v.Message? <==> characterList.None? || characterList.value == []
    {
      Render.Show(characterList)
    }
  }

  /** Each of the page's button groups shows one active button when its filter
      is set and none when it is cleared. */
  lemma OneActivePerGroup(f: FilterState)
    requires FromButtons(f)
    ensures Render.ActiveButtons(f.status, StatusButtons) == if f.status == "" then 0 else 1
    ensures Render.ActiveButtons(f.species, SpeciesButtons) == if f.species == "" then 0 else 1
    ensures Render.ActiveButtons(f.gender, GenderButtons) == if f.gender == "" then 0 else 1
  {
    Render.ActiveIsSelection(f.status, StatusButtons);
    Render.ActiveIsSelection(f.species, SpeciesButtons);
    Render.ActiveIsSelection(f.gender, GenderButtons);
  }

  /** Selecting "dead" twice from mount leaves the status unset and the URL
      without a status parameter. */
  lemma DeadTwiceClearsStatus()
    ensures Run(Cleared, [StatusClicked("dead"), StatusClicked("dead")]) == Cleared
    ensures Query.RequestUrl(Run(Cleared, [StatusClicked("dead"), StatusClicked("dead")])) == Query.Base
  {
    var once := Step(Cleared, StatusClicked("dead"));
    assert once.status == "dead";
    assert Run(Cleared, [StatusClicked("dead"), StatusClicked("dead")]) == Run(once, [StatusClicked("dead")]);
  }

  /** Any state reached from mount by the page's own events, with a search term
      free of `&`, has a URL that parses back to that state. */
  lemma {:induction false} ReachableUrlParses(events: seq<Event>)
    requires forall i :: 0 <= i < |events| ==> Producible(events[i])
    requires '&' !in Run(Cleared, events).searchTerm
    ensures FromButtons(Run(Cleared, events))
    ensures Query.ParseUrl(Query.RequestUrl(Run(Cleared, events))) == Some(Run(Cleared, events))
  {
    RunKeepsButtons(Cleared, events);
    var f := Run(Cleared, events);
    assert '&' !in f.status && '&' !in f.species && '&' !in f.gender;
    Query.ParseRequestUrl(f);
  }
}
