/** The filter state of the character browser: a search term and three
    single-select button groups (status, species, gender), each of which is
    either cleared ("") or holds the value of one of its buttons. */
module Filters {

  /** The values the status, species and gender buttons pass to their handlers. */
  const StatusButtons: seq<string> := ["alive", "dead", "unknown"]
  const SpeciesButtons: seq<string> := ["human", "alien"]
  const GenderButtons: seq<string> := ["male", "female", "unknown"]

  /** A snapshot of the four filter fields. */
  datatype FilterState = FilterState(searchTerm: string, status: string, species: string, gender: string)

  /** The state at mount: every field is the empty string. */
  const Cleared := FilterState("", "", "", "")

  /** Single-select with deselect: choosing the value already selected clears
      the field, choosing any other value replaces the selection. */
  function Toggle(current: string, value: string): (r: string)
    ensures current == value ==> r == ""
    ensures current != value ==> r == value
  {
    if current == value then "" else value
  }

  /** A field that is cleared or holds one of its group's button values. */
  predicate UnsetOrIn(field: string, buttons: seq<string>)
  {
    field == "" || field in buttons
  }

  /** The invariant of the button groups. */
  predicate FromButtons(f: FilterState)
  {
    && UnsetOrIn(f.status, StatusButtons)
    && UnsetOrIn(f.species, SpeciesButtons)
    && UnsetOrIn(f.gender, GenderButtons)
  }

  /** The user actions that change the filter state. */
  datatype Event =
    | SearchChanged(text: string)
    | StatusClicked(status: string)
    | SpeciesClicked(species: string)
    | GenderClicked(gender: string)
    | ResetClicked

  /** An event the page can produce: a button click passes its own group's
      value; the search box may pass any text. */
  predicate Producible(e: Event)
  {
    match e
    case SearchChanged(_) => true
    case StatusClicked(s) => s in StatusButtons
    case SpeciesClicked(s) => s in SpeciesButtons
    case GenderClicked(g) => g in GenderButtons
    case ResetClicked => true
  }

  /** The effect of one event on the filter state. */
  function Step(f: FilterState, e: Event): FilterState
  {
    match e
    case SearchChanged(text) => f.(searchTerm := text)
    case StatusClicked(s) => f.(status := Toggle(f.status, s))
    case SpeciesClicked(s) => f.(species := Toggle(f.species, s))
    case GenderClicked(g) => f.(gender := Toggle(f.gender, g))
    case ResetClicked => Cleared
  }

  /** The effect of a sequence of events, first to last. */
  function Run(f: FilterState, events: seq<Event>): FilterState
    decreases |events|
  {
    if events == [] then f else Run(Step(f, events[0]), events[1..])
  }

  /** Toggling the same value twice restores a field that was cleared or held
      that value. */
  lemma ToggleTwice(current: string, value: string)
    requires current == "" || current == value
    ensures Toggle(Toggle(current, value), value) == current
  {
  }

  /** Toggling a different value replaces the selection instead of combining
      with it: the group stays single-select. */
  lemma ToggleReplaces(current: string, first: string, second: string)
    requires first != second
    ensures Toggle(Toggle(current, first), second) == second
  {
  }

  /** Any event other than reset changes only the field it is about. */
  lemma StepFrame(f: FilterState, e: Event)
    ensures !e.ResetClicked? && !e.SearchChanged? ==> Step(f, e).searchTerm == f.searchTerm
    ensures e.SearchChanged? ==> Step(f, e) == f.(searchTerm := e.text)
    ensures e.StatusClicked? ==> Step(f, e) == f.(status := Toggle(f.status, e.status))
    ensures e.SpeciesClicked? ==> Step(f, e) == f.(species := Toggle(f.species, e.species))
    ensures e.GenderClicked? ==> Step(f, e) == f.(gender := Toggle(f.gender, e.gender))
  {
  }

  /** One producible event keeps every button group cleared or on a button value. */
  lemma StepKeepsButtons(f: FilterState, e: Event)
    requires FromButtons(f) && Producible(e)
    ensures FromButtons(Step(f, e))
  {
  }

  /** Any run of producible events from a state satisfying the invariant keeps it. */
  lemma {:induction false} RunKeepsButtons(f: FilterState, events: seq<Event>)
    requires FromButtons(f)
    requires forall i :: 0 <= i < |events| ==> Producible(events[i])
    ensures FromButtons(Run(f, events))
    decreases |events|
  {
    if events != [] {
      StepKeepsButtons(f, events[0]);
      RunKeepsButtons(Step(f, events[0]), events[1..]);
    }
  }

  /** Running one more event is one more step. */
  lemma {:induction false} RunSnoc(f: FilterState, events: seq<Event>, e: Event)
    ensures Run(f, events + [e]) == Step(Run(f, events), e)
    decreases |events|
  {
    if events == [] {
      assert events + [e] == [e];
    } else {
      assert (events + [e])[1..] == events[1..] + [e];
      RunSnoc(Step(f, events[0]), events[1..], e);
    }
  }

  /** Whatever happened before, a reset clears all four fields, and a second
      reset changes nothing. */
  lemma ResetClears(f: FilterState, events: seq<Event>)
    ensures Run(f, events + [ResetClicked]) == Cleared
    ensures Run(f, events + [ResetClicked, ResetClicked]) == Run(f, events + [ResetClicked])
  {
    RunSnoc(f, events, ResetClicked);
    RunSnoc(f, events + [ResetClicked], ResetClicked);
    assert events + [ResetClicked] + [ResetClicked] == events + [ResetClicked, ResetClicked];
  }
}
