/** What the page shows: the class of each filter button and either the grid
    of character cards or the empty-state message. */
module Render {
  import opened Wrappers

  /** A character as the API returns it; its fields are shown unchanged. */
  datatype Character = Character(id: int, name: string, image: string, status: string, species: string, gender: string)

  /** One card of the grid, keyed by the character's id. */
  datatype Card = Card(key: int, image: string, title: string, status: string, species: string, gender: string)

  /** The result area: the placeholder message or the grid of cards. */
  datatype View = Message(text: string) | Grid(cards: seq<Card>)

  const NoCharacters := "No characters found."
  const ActiveClass := "btn-primary active"
  const InactiveClass := "btn-light"

  /** The class of the button for `value` in a group whose selection is `selected`. */
  function ButtonClass(selected: string, value: string): (c: string)
    ensures c == ActiveClass <==> selected == value
    ensures c != ActiveClass ==> c == InactiveClass
  {
    if selected == value then ActiveClass else InactiveClass
  }

  /** The number of buttons in a group that are drawn as active. */
  function ActiveButtons(selected: string, group: seq<string>): nat
  {
    if group == [] then 0
    else (if ButtonClass(selected, group[0]) == ActiveClass then 1 else 0) + ActiveButtons(selected, group[1..])
  }

  /** In a group of distinct button values exactly the selected button is active,
      and none is when the selection is cleared. */
  lemma {:induction false} ActiveIsSelection(selected: string, group: seq<string>)
    requires forall i, j :: 0 <= i < j < |group| ==> group[i] != group[j]
    ensures ActiveButtons(selected, group) == if selected in group then 1 else 0
    decreases |group|
  {
    if group != [] {
      ActiveIsSelection(selected, group[1..]);
      if selected == group[0] {
        assert selected !in group[1..] by {
          forall k | 0 <= k < |group[1..]| ensures group[1..][k] != selected {
            assert group[1..][k] == group[k + 1];
          }
        }
      } else {
        assert selected in group <==> selected in group[1..] by {
          assert group == [group[0]] + group[1..];
        }
      }
    }
  }

  /** The card drawn for one character. */
  function CardFor(c: Character): Card
  {
    Card(c.id, c.image, c.name, c.status, c.species, c.gender)
  }

  /** One card per character, in list order. */
  function Cards(list: seq<Character>): (cards: seq<Card>)
    ensures |cards| == |list|
    ensures forall i :: 0 <= i < |list| ==> cards[i] == CardFor(list[i])
  {
    if list == [] then [] else [CardFor(list[0])] + Cards(list[1..])
  }

  /** The result area for the current list, which the response may have left
      undefined. */
  function Show(list: Option<seq<Character>>): (v: View)
    ensures v.Message? <==> list.None? || list.value == []
    ensures v.Message? ==> v.text == NoCharacters
    ensures v.Grid? ==> |v.cards| == |list.value|
    ensures v.Grid? ==> forall i :: 0 <= i < |v.cards| ==> v.cards[i] == CardFor(list.value[i])
  {
    if list.Some? && |list.value| > 0 then Grid(Cards(list.value)) else Message(NoCharacters)
  }
}
