# Trademark-search page logic, modelled in Dafny

The repository is the client-side code of a trademark-search site: a home
page (`script.js`) and a search-results page (`honda-search.js`). Most of it
is DOM and network glue. This project models the pure rules inside it:

- **Dotted-path resolution** (`getNestedValue`): a path such as `hero.title`
  is split on `.` and folded over a JSON payload. The fold keeps the current
  node only while it is truthy and has the next key (module `Path`).
- **The bind pass** (`bindHomeData`, `updateElement`): every element with a
  `data-bind` attribute whose path resolves is written. A bound `<img>` gets
  `src`; any other element gets its text. `href` is never touched. The three
  link lists are then rendered as literal, unescaped markup and joined with
  `''` or `' | '`. A `TypeError` stops the call where it is raised, leaving
  the writes before it in place. It comes either from a value that
  `String(v)` rejects (an object with an own `toString` property, or an
  array holding one) or from a list binder (module `Binder`).
- **Action dispatch** (`handleAction` and the delegated click listener), and
  the empty-query guard of `handleSearch` (module `Actions`).
- **Image checks**. The home page's `handleFile` checks the type prefix
  `image/` first and then size ≤ 5 MiB. The search page's
  `handleImageUpload` checks size first and then a four-type allowlist; its
  drop handler adds a pre-filter. An accepted file only gets a success
  alert there; nothing is sent (module `Uploads`).
- **Advanced-search state**: both `toggleAdvancedSearch` functions and
  `clearAdvancedSearch` (module `AdvancedSearch`).

Supporting modules:

- `Maybe` holds `Option`, where `None` is JavaScript's `undefined`, and
  `Result`, where `Thrown` is a `TypeError`.
- `Strings` holds `split`, `join`, `trim`, `startsWith`, `endsWith` and
  ASCII lower-casing.
- `Json` holds the payload datatype, JavaScript truthiness, property access,
  `String(v)`, and the predicate `Stringable` saying when `String(v)` does
  not throw.

Proved properties:

- The fold is proved equal to a top-down descent, and path resolution to an
  "every intermediate node is truthy and has the key" predicate.
- `bindHomeData` throws exactly when some bound value cannot be converted
  to a string, or some list has a container and fails to render. The
  document it leaves is characterised in both cases: the elements before the
  failing one are written, and everything from it on keeps its state.
- `split` is proved inverse to `join`.
- `bindHomeData` is proved idempotent.
- The rendered lists are characterised offset by offset.
- The two toggles are shown to flip state.
- `clearAdvancedSearch` is proved idempotent.

## Model

| member | source | states |
|---|---|---|
| `Json.Truthy` | script.js:133 | `null`, `false`, `0` and `""` are exactly the falsy values; every array and every object, even an empty one, is truthy |
| `Json.Get` | script.js:152 | `current[key]` is defined exactly when `current` is an object with that own property, and is then that property's value |
| `Json.Decimal` | script.js:156-164 | `String(n)` for a natural number is a canonical numeral (digits only, no leading zero) that denotes `n`; JavaScript prints this only for `n` ≤ 2^53 (see Left out) |
| `Json.ToStr` | script.js:156-164 | on a value it accepts, `String(v)` gives `"null"` for `null`, `"true"` or `"false"` for a boolean, `"[object Object]"` for an object, and a string unchanged. An integer gives the canonical numeral of its magnitude, prefixed by `-` when negative (agreeing with JavaScript up to 2^53, see Left out). An array gives its element texts in order, one `,` between each two, with `null` elements as `""`; an empty array gives `""` |
| `Strings.Split` | script.js:151 | `path.split('.')` yields at least one segment, no segment contains `.`, and joining the segments with `.` gives the path back |
| `Strings.SplitJoin` | script.js:151 | the other direction: splitting a `.`-join of dot-free segments returns exactly those segments |
| `Strings.SplitConcat` | script.js:151 | splitting `p + "." + q` gives the segments of `p` followed by those of `q` |
| `Strings.Join` | script.js:188-190 | `join(sep)` of no parts is `""`; otherwise the result is as long as the parts plus one separator between each two, and it opens with the first part |
| `Strings.Trim` | script.js:217 | `value.trim()` is the substring between leading and trailing ECMAScript white space; it is empty iff the value is all white space, and otherwise starts and ends with a non-space |
| `Strings.TrimIdempotent` | script.js:217 | trimming twice is trimming once |
| `Path.Step` | script.js:152 | one reduce step is defined exactly when the current node is defined, truthy and an object holding the key, and is then that child |
| `Path.Fold` | script.js:151-153 | once the reduce yields `undefined` it stays `undefined` for every later key; a defined result needs a defined start; no keys return the start |
| `Path.GetNestedValue` | script.js:150-154 | a path without a dot is one property lookup on a truthy root; any path resolves exactly when every node met along it is truthy and has the next key |
| `Path.FoldIsDescend` | script.js:150-154 | the left `reduce` equals the top-down descent that enters a child only when the node is truthy and has the key |
| `Path.FoldAppend` | script.js:151-153 | reducing over `ks1 + ks2` is reducing over `ks1` and then over `ks2` from that result |
| `Path.ResolvesIff` | script.js:151-153 | a path resolves if and only if every node met before each key is truthy and has that key |
| `Path.LastStep` | script.js:152 | the value returned is the last key's property of the node reached before it, even when that value is falsy (`null`, `false`, `0`, `""`) |
| `Path.ShortCircuit` | script.js:152 | a falsy intermediate node, or one lacking the next key, makes the whole path `undefined` |
| `Path.PathComposition` | script.js:150-154 | `getNestedValue(o, p + "." + q)` is `undefined` when `getNestedValue(o, p)` is; otherwise it is `getNestedValue(getNestedValue(o, p), q)` |
| `Path.FalsyRootUndefined` | script.js:152 | every path on a falsy root is `undefined` |
| `Binder.UpdateElement` | script.js:156-164 | the write throws exactly when `String` rejects the value, which is an object with an own `toString` or an array holding one; otherwise a bound `IMG` gets `src = String(value)` with its content kept; every other element, a link with `href` included, gets text content (`null` empties it) with `src` kept; tag, `href` and `data-bind` never change |
| `Binder.UpdateOverwrites` | script.js:156-164 | a second `updateElement` fully replaces the first, so the element keeps no trace of the earlier value |
| `Binder.BindElement` | script.js:136-142 | an element changes only when it has `data-bind` and its path resolves, and then it is `updateElement(element, value)`: it throws exactly when `String` rejects that value; tag, `href` and `data-bind` never change |
| `Binder.BindPass` | script.js:136-142 | the `forEach` throws exactly when some bound element's value is rejected by `String`. Before the first such element, each element whose path resolves is updated with its own value and every other element is unchanged; from it on nothing changes; no `data-bind` changes |
| `Binder.FieldText` | script.js:171 | `${link.field}` throws on a `null` link and on a value `String` rejects; a missing property prints `undefined`, and any other value prints as `String(value)` |
| `Binder.ItemHtml` | script.js:170-190 | a link's template throws exactly when one of the two fields it reads throws; otherwise the link renders to its literal template: the info and FAQ items open with their `view-article` or `view-faq` link carrying the article or FAQ id, the footer item with its own action, and every item ends with the title, unescaped, followed by the closing tags; the fragment is exactly as long as the template text plus the two printed fields |
| `Binder.Items` | script.js:170-172 | `links.map(...)` succeeds iff every link renders (it is not `null`, and `String` accepts both fields it reads); on success it yields one fragment per link, in order, each the literal template of that link |
| `Binder.Render` | script.js:168-172 | the list renders nothing when it is missing or falsy; it throws when it is truthy but not an array, or holds a link that does not render |
| `Binder.FirstBound` | script.js:167 | `querySelector('[data-bind="…"]')` returns the first element in document order with that `data-bind`, or none |
| `Binder.BindList` | script.js:166-191 | with no container or a falsy list nothing changes; it throws exactly when a container exists and rendering throws; otherwise only the container's content changes, and it becomes the rendered markup |
| `Binder.BindLists` | script.js:145-147 | running the list binders in order changes element contents only, and it throws exactly when some list has a container and fails to render. Every list before the first throwing one, or every list when none throws, has its container hold its markup, or keep its state when the list renders nothing. Every other element keeps its state, including the containers of the throwing list and of the lists after it |
| `Binder.BindHomeData` | script.js:132-148 | a missing or falsy payload changes nothing, and any payload leaves every element's tag, `href` and `data-bind` as they were. With a truthy payload the call throws exactly when some bound value is rejected by `String` or some list has a container and fails to render. A throwing bind pass leaves its partial result and binds no list; otherwise the lists before the throwing one (all of them when none throws) are written over the bind pass's result, and every other element keeps that result |
| `Binder.UnresolvedKeepsState` | script.js:136-142 | an element whose path is `undefined`, and which no list binder uses as its container, keeps its exact prior state |
| `Binder.ResolvedIsUpdated` | script.js:136-142 | an element whose path resolves to `v`, and which is no list container, ends as `updateElement(element, v)` when it comes before every bound element whose write throws, and keeps its state otherwise |
| `Binder.BindHomeDataIdempotent` | script.js:132-148 | binding the same payload twice gives the same document as binding it once, and throws exactly when the first call did |
| `Binder.LoadAndBind` | script.js:453-462 | the live payload is bound when the request succeeded; otherwise the embedded template is bound; with no template, or a malformed one, the document is unchanged |
| `Binder.ItemListIsConcatenation` | script.js:166-182 | the info and FAQ lists render as the in-order concatenation of one `<li>` per link with nothing between; an empty list renders as `""` |
| `Binder.LinksInOrder` | script.js:166-191 | an array of links that all render gives markup; in the rendered markup, link `i`'s fragment `ItemHtml(k, links[i])` sits at its offset, a separator follows it unless it is the last, and the last ends the markup |
| `Binder.FooterSeparatorCount` | script.js:188-190 | for n ≥ 1 footer links whose action and title print without a `\|`, the footer markup contains exactly n − 1 `\|` characters |
| `Actions.HandleAction` | script.js:237-274 | exactly the eleven `view-*`, `saved-*`, `tracked-*`, `pricing` and `login` names open the login popup; names with no case do nothing; `change-language` acts only with a non-empty `data-lang`; `search` acts only when the input exists, and then searches its trimmed value |
| `Actions.OnClick` | script.js:229-234 | a click with no `data-action` on its path does nothing; any effect is `handleAction` of the innermost element on the path carrying a non-empty `data-action`, with that element's `data-lang` |
| `Actions.Closest` | script.js:230 | `closest('[data-action]')` picks the innermost element on the click path that carries the attribute |
| `Actions.ClosestActionWins` | script.js:229-234 | a click is routed with the innermost action name and that element's `data-lang`, whatever its ancestors carry |
| `Actions.HandleSearch` | script.js:276-280 | an empty query gives the error notice and no API call; any other query is passed on unchanged |
| `Actions.SearchButton` | script.js:214-218 | the button refuses an all-white-space input with the empty-query notice; any other input is searched trimmed |
| `Actions.SearchKeypress` | script.js:220-225 | only Enter searches, and it searches exactly as the button does |
| `Actions.SearchActionIsButton` | script.js:239-244 | the `search` action searches exactly as the button does |
| `Uploads.HandleFile` | script.js:432-450 | with no file, nothing; the type check comes first, so a non-`image/` type gets the format notice whatever the size; an `image/` type over 5·1024·1024 bytes gets the size notice; only the remaining files are previewed and reach the image search |
| `Uploads.HomeFilesChosen` | script.js:479-484 | the drop zone and the file input hand over only the first file: with none, nothing happens; otherwise the outcome is exactly `handleFile` of the first file, so the image search starts exactly when that file has an `image/` type and is at most 5 MiB, and any other first file gets `handleFile`'s notice |
| `Uploads.HandleImageUpload` | honda-search.js:50-70 | with no file, nothing; the size check comes first (over 5·1024·1024 bytes gets the size alert); then a type outside the four-type allowlist gets the type alert; only the remaining files get the success alert |
| `Uploads.DropOnSearchPage` | honda-search.js:103-123 | an empty drop does nothing; a dropped first file whose type does not start with `image/` gets the drop alert and never reaches `handleImageUpload`; any other is passed to `handleImageUpload` as a one-file list |
| `Uploads.DropAcceptsAsUpload` | honda-search.js:108-121 | the drop pre-filter never changes acceptance: a drop gets the success alert exactly when choosing the same files would |
| `Uploads.OnlyFirstFileCounts` | honda-search.js:108-118 | on both pages only the first file decides the outcome |
| `Uploads.SizeBoundary` | honda-search.js:54-57 | exactly 5 MiB (5242880 bytes) is accepted on both pages, and one byte more is refused for size |
| `Uploads.OppositeCheckOrder` | script.js:434-441 | an oversize non-image file is refused for its type at home, and for its size on the search page |
| `Uploads.SizeBeforeType` | honda-search.js:54-64 | an oversize file with a type outside the allowlist reports the size error |
| `Uploads.WebpDiffers` | honda-search.js:60-64 | `image/webp` within the size limit is accepted at home and refused on the search page |
| `AdvancedSearch.TogglePanel` | honda-search.js:23-34 | the toggle flips hidden (`none` or `""`) and shown; the result is `block` or `none`, with `▲` when shown and `▼` when hidden |
| `AdvancedSearch.ToggleTwice` | honda-search.js:27-33 | two toggles starting from `block` or `none` restore the display, and restore the panel when the caret already matched |
| `AdvancedSearch.UnsetDisplayBecomesNone` | honda-search.js:27-33 | starting from an unset display, two toggles end at `none`, not `""` |
| `AdvancedSearch.ToggleHome` | script.js:307-317 | with both elements present, the home toggle flips `advanced-open` and leaves the other body classes alone; it then sets `aria-hidden` and the label from the new state; with either element missing, nothing changes |
| `AdvancedSearch.ToggleHomeTwice` | script.js:311 | two home toggles restore the body's set of classes |
| `AdvancedSearch.ClearInput` | honda-search.js:39-46 | a checkbox is unchecked, a text input is emptied, and any other input is unchanged |
| `AdvancedSearch.ClearInputIdempotent` | honda-search.js:39-46 | clearing an input twice is clearing it once |
| `AdvancedSearch.ClearAdvancedSearch` | honda-search.js:36-47 | every checkbox ends unchecked with its value kept; every text input ends empty with `checked` kept; all other inputs are unchanged; clearing the result again changes nothing |

## Left out

- `HomeAPI` network calls (`performSearch`, `performImageSearch`, `changeLanguage`, `hideBanner`, the `/home` fetch) and `loadAPIConfig`. They are network I/O. `LoadAndBind` takes the decoded `/home` response as an input instead.
- `performSearch`'s failure path, which redirects when the lower-cased query is `honda`. It needs a network failure and Unicode case mapping.
- The effects behind each routed action: the login popup, notifications and their timer, the file picker click, banner hiding and the language label update. These are DOM, timer and network side effects, so `Effect` only names them.
- CSS injection, drag-over colours, `scrollIntoView` and `window.location` redirects. They are presentation only.
- All of `honda.js` (clipboard, date formatting, hover effects, shortcuts, alerts). It only calls browser APIs.
- Property lookup on strings, arrays and the prototype chain. `Get` treats any lookup on a non-object as `undefined` and ignores inherited properties such as `length`, array indices or `constructor`.
- Json.ToStr: an integer prints as `Decimal` gives it, so it agrees with JavaScript only for magnitudes ≤ 2^53, as the `Json.Decimal` line says. It is defined only on values `String(v)` accepts (`Stringable`). The `TypeError` for the other values is modelled where the conversion happens: in `FieldText` and `UpdateElement`. Own `toString` and `valueOf` properties are JSON data, never callable, so the conversion throws exactly when an object has its own `toString`.
- Json.Decimal: gives the exact digits of `n`, which is what JavaScript prints only for `n` ≤ 2^53. A JSON number is an IEEE-754 double: `JSON.parse` rounds larger integers, and `String` prints an integer-valued double as its shortest round-tripping digits padded with zeros, so 2^60 prints as `1152921504606847000`. From 10^21 on it switches to exponent form. Double rounding and formatting are not modelled.
- Non-integer numbers. Numbers in `Json` are integers.
- The DOM tree. The document is a flat list of elements in order. Setting `textContent` on an element that contains other bound elements would detach them, and that is not modelled. Markup written through `innerHTML` is kept as a string and not parsed, so the elements it would create are not added to the document, including any that a link title could inject.
- Resolution of `img.src` against the page URL. The model keeps the string that was assigned.
- The input `type` property. Only `input[type=text]` and `input[type=checkbox]` are cleared, and for both the property equals the ASCII-lower-cased attribute, so the model uses that.
- AdvancedSearch.TogglePanel: assumes `#advancedSearchForm` and `.hs-caret` exist. In the source a missing element raises a `TypeError`, which the model does not represent.
- AdvancedSearch.ClearAdvancedSearch: assumes `#advancedSearchForm` exists. In the source a missing form raises a `TypeError`.
- Uploads.HandleFile: assumes `#dropZone` exists when a file is accepted. This holds because the listeners are installed only when it exists (script.js:468).
- The order and duplicates of class tokens on `<body>`. `classList.toggle` re-appends `advanced-open` at the end and drops duplicate tokens (script.js:311). `HomePage.bodyClasses` is a set, so `ToggleHomeTwice` restores the set of classes, not the attribute text.
- Concurrency and the ordering of asynchronous handlers. The code does nothing to coordinate them.

## Behaviour of the code worth knowing

- The three list binders write link fields into `innerHTML` without escaping (script.js:170-190). A title holding markup becomes markup. The bind pass itself only ever sets `textContent` or `src` (script.js:156-164).
- A payload whose list is missing or falsy returns early and keeps the container's old markup (script.js:168, 177, 186). Re-binding replaces a list only when the new payload carries it (`BindList`, `BindLists`).
- A footer title or action that contains `|` adds to the number of `|` characters in the footer markup. For this reason `FooterSeparatorCount` requires `PipeFree` links, while `LinksInOrder` gives the exact layout for any links that render.
- A `/home` response whose body is JSON `null` is not a failure (script.js:72-73 returns it, and script.js:457 skips the bind). The embedded template is then not consulted, and nothing is bound (`LoadAndBind`).
