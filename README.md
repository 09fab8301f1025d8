# Rick and Morty character browser: filter state and request URL

This project models the logic inside the single `App` component of a React page.
The page lists characters from the public Rick and Morty API. The model covers:

- **Filter state.** The component holds a search term and three filters: status, species and gender. All four start as the empty string at mount.
- **Handlers.** The search box sets the search term. Each filter button toggles its value: it selects the value, or clears it when it is already selected. A reset button clears all four fields.
- **Request URL.** `fetchCharacters` builds the URL string it passes to `fetch` by concatenation. It starts from `https://rickandmortyapi.com/api/character/?name=` and the raw search term. It then appends `&status=`, `&species=` and `&gender=` segments, in that order, for each non-empty filter.
- **Rendering decisions.** Each button's class is `btn-primary active` when its value is the one selected, and `btn-light` otherwise. The result area shows one card per character, in list order. It shows "No characters found." when the list is missing or empty.

Modules:

- `Wrappers`: the `Option` type.
- `Filters`: the `FilterState` snapshot, `Toggle`, and a specification of the user events. `Step` applies one event and `Run` applies a sequence. The button-value invariant `FromButtons` is proved over any sequence of events the page can produce.
- `Query`: `RequestUrl`, the specification of the URL. `ParseUrl` is an independent inverse of it. The module proves the round trip in both directions and shows where it breaks.
- `Render`: the button classes, the cards and the result area.
- `CharacterBrowser`: the class `App`. Its fields are the component's state hooks. Its methods are the handlers, `BuildUrl` (which grows a local `url` the way the source does) and `FetchCharacters`. In `FetchCharacters` the network response is a parameter.

Some behaviour of the code is easy to miss:

- The handlers accept any string. The invariant "each filter is cleared or one of its button values" therefore holds only because the buttons pass fixed literals. The model states it that way: `Filters.Producible` describes the events the page can produce.
- A JS string filter is "set" when it is non-empty. The model tests `!= ""`.
- The response's `results` field may be absent, and the source then stores `undefined`. The model stores `None`, and the page shows the placeholder for it.
- The source does no URL encoding. A search term containing `&status=dead` produces the same URL as the status filter `dead` (`Query.SearchTermCanMimicFilter`). So the model proves that the URL determines the state when no field contains `&` (`Query.UrlInjective`). A field holding `&status=…`, `&species=…` or `&gender=…` can make two states share a URL.

## Model

| member | source | states |
|---|---|---|
| `Filters.Toggle` | src/App.js:48-58 | choosing the selected value clears the field; choosing any other value selects it |
| `Filters.ToggleTwice` | src/App.js:49 | toggling the same value twice restores a field that was empty or held that value |
| `Filters.ToggleReplaces` | src/App.js:48-58 | toggling a second, different value leaves exactly that value selected: a group is single-select |
| `Filters.StepFrame` | src/App.js:44-58 | for every state, a search edit changes only the search term, and a button click changes only its own group's field, by a toggle |
| `Filters.StepKeepsButtons` | src/App.js:44-65 | one page event keeps every filter empty or on one of its button values |
| `Filters.RunKeepsButtons` | src/App.js:103-159 | any sequence of page events, starting from a state where each filter is empty or a button value, keeps that invariant |
| `Filters.ResetClears` | src/App.js:60-65 | after any history, reset leaves all four fields empty, and a second reset changes nothing |
| `Query.UrlStartsWithName` | src/App.js:24 | the URL begins with the endpoint, `?name=` and the search term verbatim, even when the term is empty |
| `Query.UrlLength` | src/App.js:24-33 | with no filter set the URL is exactly the base plus the search term; each non-empty filter adds the length of `&key=` plus the length of its value |
| `Query.UrlFields` | src/App.js:25-33 | split at `&`, the query is the search term followed by one `key=value` pair per non-empty filter, in the order status, species, gender, when no field holds `&` |
| `Query.ParseRequestUrl` | src/App.js:24-33 | parsing the built URL gives back the filter state when no field holds `&` |
| `Query.ParsedUrlRebuilds` | src/App.js:24-33 | every URL the parser accepts is the URL built from the state it returns |
| `Query.UrlInjective` | src/App.js:24-33 | two states whose fields hold no `&` build the same URL only if they are equal |
| `Query.SearchTermCanMimicFilter` | src/App.js:24-26 | because nothing is encoded, a search term holding `&status=dead` yields the same URL as the status filter `dead` |
| `Render.ButtonClass` | src/App.js:67-77 | a button is `btn-primary active` exactly when its value is the selected one, otherwise `btn-light` |
| `Render.ActiveIsSelection` | src/App.js:67-77 | in a group of distinct button values, exactly one button is active when the selection is in the group, and none otherwise |
| `CharacterBrowser.OneActivePerGroup` | src/App.js:102-163 | in each of the page's three button groups, one button is active when its filter is set and none when it is cleared |
| `Render.Cards` | src/App.js:178-192 | one card per character, in list order, each keyed by the character's id and showing its image, name, status, species and gender |
| `Render.Show` | src/App.js:177-197 | the placeholder "No characters found." is shown exactly when the list is missing or empty; otherwise the cards match the list element by element |
| `CharacterBrowser.App.constructor` | src/App.js:15-19 | at mount the list is empty and all four filter fields are empty |
| `CharacterBrowser.App.HandleSearchChange` | src/App.js:44-46 | sets the search term to the input text and changes nothing else |
| `CharacterBrowser.App.HandleStatusFilter` | src/App.js:48-50 | toggles the status and leaves the other fields and the list unchanged; a status button's value keeps the invariant |
| `CharacterBrowser.App.HandleSpeciesFilter` | src/App.js:52-54 | toggles the species and leaves the other fields and the list unchanged; a species button's value keeps the invariant |
| `CharacterBrowser.App.HandleGenderFilter` | src/App.js:56-58 | toggles the gender and leaves the other fields and the list unchanged; a gender button's value keeps the invariant |
| `CharacterBrowser.App.ResetFilters` | src/App.js:60-65 | clears all four filter fields and keeps the list |
| `CharacterBrowser.App.IsActiveStatus` | src/App.js:67-69 | active class exactly when the status filter equals the button's value, inactive class otherwise |
| `CharacterBrowser.App.IsActiveSpecies` | src/App.js:71-73 | active class exactly when the species filter equals the button's value, inactive class otherwise |
| `CharacterBrowser.App.IsActiveGender` | src/App.js:75-77 | active class exactly when the gender filter equals the button's value, inactive class otherwise |
| `CharacterBrowser.App.BuildUrl` | src/App.js:24-33 | the URL grown by conditional appends equals the URL specification for the current fields |
| `CharacterBrowser.App.FetchCharacters` | src/App.js:22-41 | requests the URL of the current filters; the list becomes the response's results on success and stays as it was on failure |
| `CharacterBrowser.App.ResultArea` | src/App.js:177 | the placeholder is shown exactly when the list is missing or empty |
| `CharacterBrowser.DeadTwiceClearsStatus` | src/App.js:48-50 | selecting "dead" twice from mount leaves the status empty, and the URL has no status segment |
| `CharacterBrowser.ReachableUrlParses` | src/App.js:16-33 | every state the page can reach keeps its filters on button values, and its URL parses back to it when the search term holds no `&` |

## Left out

- The browser's own parsing of the URL string handed to `fetch` is not modelled. The browser percent-encodes spaces and non-ASCII characters, and it drops everything from a `#` on as a fragment that is never sent. The model's URL is the string the component builds, not the request line that goes out.
- The network request, `response.json()` and `console.error` are not modelled. `FetchCharacters` takes the outcome of the request as a parameter: the parsed `results` field, or a failure.
- The effect's trigger timing is not modelled: a new request is issued after each filter change. Overlapping requests, where the last one to complete wins, are not modelled either. Both are asynchronous scheduling.
- The JSX layout, react-bootstrap components, CSS imports and the reset button's label are not modelled. Only the decisions they render are: button classes, the cards and the placeholder.
- Character fields are modelled as integers and strings as the API documents them. The source does not check the shapes of the JSON values it receives.
- `Query.ParseUrl` has no counterpart in the source. It is an independent inverse of the URL builder, used to state what the URL determines.
