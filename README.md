# Klaukol registration: validator, participant results and reference stores

This project models the core of the Klaukol event-registration site in Dafny. The core has three parts:

- **The registration-form validator** (`useParticipanteValidation`). There are seven field validators: given name, family name, city, phone, e-mail, trade and terms. Each one writes a fixed Spanish message, or `null`, into one slot of a shared `errors` record, and says whether its field passed. `validateForm` runs all seven without short-circuiting. The e-mail validator may also ask a duplicate check.
- **The participant service's pure result logic** (`useParticipanteService`):
  - how a form is prepared for the `participantes` table (trimmed fields, an e-mail normalised as `trim().toLowerCase()`);
  - how the answer of the duplicate-count query is read (a failed query reads as "not registered");
  - how the answer of the insert is read.
- **Four Pinia stores of reference data.** `stores/eventosKlaukol.js` and `store/eventosKlaukol.js` hold events; `stores/oficios.js` and `store/oficios.js` hold trades.
  - Each keeps `{ list, loading, error }`.
  - Each puts a key/value cache in front of its remote table.
  - Each offers sorted and derived views as getters.
  - Each has three actions: a fetch that serves the cache and schedules a background refresh, the refresh itself, and a lookup by id that asks the table only when the list has no match.

The model is arranged by module:

- `JsText`: the JavaScript builtins the core relies on. These are truthiness, `trim` (with the whitespace class of ECMAScript), `toLowerCase`, `replace(/\D/g, '')` and string ordering.
- `Sorting`: a stable insertion sort by key, standing in for `Array.prototype.sort`, and its facts.
- `ParticipanteService` and `ParticipanteValidation`: the two composables.
- `ReferenceStore`: what the four stores share.
  - The cache is a class with a `map` field.
  - Each action is a pure transition on `{ list, loading, error }` and the cache map, given the answer the remote table would give.
- `StoresEventosKlaukol`, `StoreEventosKlaukol` and `Oficios`: one module per store file. The two trade files differ only in layout and comments, so `Oficios` models both.
  - Each store is a class with the fields `list`, `loading` and `error`.
  - Its methods update those fields and the cache in place.
  - Each method's postcondition ties the new state to the matching transition of `ReferenceStore` applied to the old state.
  - The getters are functions, except the loop of `ciudadesDisponibles` in `store/eventosKlaukol.js`, which is a method with a loop.

Remote reads and the duplicate check are parameters:

- each store action receives the `Fetched` answer (rows or an error message) that the table would give;
- the validator receives the duplicate check as an oracle `string -> bool`;
- `EmailExistsOracle` builds that oracle from `checkEmailExists` over any query answer.

Behaviours of the code that the model keeps as written:

- The length rule of `validateNombre`/`validateApellido` counts the untrimmed value (`value.length < 2`). A whitespace character followed by a single letter is therefore accepted (`PaddedOneLetterNameAccepted`).
- A cached value is served whenever the key was ever stored. An expired entry is still served, because `getFromCache` in this model ignores the time-to-live. An empty cached array is truthy in JavaScript and so is also a hit.
- A successful fetch does not clear an earlier `error`. Nothing in these stores ever resets it (`ErrorIsSticky`).
- Store ids are compared with `===`, so the number `3` and the text `"3"` are different ids.

## Model

| member | source | states |
|---|---|---|
| JsText.Trim | composables/useParticipanteValidation.js:7 | `trim` removes exactly the leading and trailing whitespace run: the result is a slice whose ends are not whitespace and around which everything is whitespace |
| JsText.TrimEmptyIffAllWhitespace | composables/useParticipanteValidation.js:7 | `value.trim() === ''` holds exactly when every character is whitespace |
| JsText.TrimStart | composables/useParticipanteValidation.js:7 | the text left after dropping leading whitespace is a suffix preceded only by whitespace, and does not start with whitespace |
| JsText.TrimEnd | composables/useParticipanteValidation.js:7 | the text left after dropping trailing whitespace is a prefix followed only by whitespace, and does not end with whitespace |
| JsText.TrimNoWhitespace | composables/useParticipanteValidation.js:58-67 | a text without whitespace is its own trim |
| JsText.TrimIdempotent | composables/useParticipanteService.js:45-51 | trimming an already trimmed text changes nothing |
| JsText.TrimUnique | composables/useParticipanteValidation.js:7 | any slice of a text with only whitespace around it and no whitespace at its ends is its trim, so `Trim` is the one result `trim` can give |
| JsText.TrimIgnoresPadding | composables/useParticipanteService.js:45-49 | whitespace added on either side of a text does not change its trim |
| JsText.ToLowerCase | composables/useParticipanteService.js:49 | lower-casing keeps the length, turns every ASCII and Latin-1 capital into its small letter and keeps every other character, so no capital is left; whitespace, '@' and '.' stay exactly where they were |
| JsText.ToLowerCaseIdempotent | composables/useParticipanteService.js:49 | lower-casing twice equals lower-casing once |
| JsText.TrimToLowerCase | composables/useParticipanteService.js:49 | trimming and lower-casing can be done in either order |
| JsText.DigitsOfConcat | composables/useParticipanteValidation.js:46 | `replace(/\D/g, '')` distributes over concatenation |
| JsText.DigitsOfIgnoresNonDigit | composables/useParticipanteValidation.js:46 | inserting a non-digit character anywhere leaves the extracted digits unchanged |
| JsText.DigitsOfNotBlank | composables/useParticipanteValidation.js:43-46 | a text containing a digit is not all whitespace |
| JsText.CodePointLeTotal | stores/eventosKlaukol.js:28 | the code-point string order standing in for the default `sort` relates any two strings one way or the other |
| JsText.CodePointLeTransitive | stores/eventosKlaukol.js:28 | the code-point string order is transitive |
| JsText.CodePointLeAntisymmetric | stores/eventosKlaukol.js:28 | two strings ordered both ways are equal |
| Sorting.InsertByKey | stores/oficios.js:18-20 | inserting into a key-sorted list keeps it sorted and adds exactly the one element, as a multiset |
| Sorting.SortByKey | stores/oficios.js:18-20 | the sort returns a permutation of its input that is ordered by the key, for any total preorder |
| Sorting.MapSeq | stores/oficios.js:25-27 | `map` keeps the length and applies the function at every index |
| Sorting.InsertByKeyMap | stores/oficios.js:25-28 | inserting and then projecting equals projecting and then inserting, when the projection keeps the key |
| Sorting.SortByKeyMap | stores/oficios.js:25-28 | sorting the projected list equals projecting the sorted list, when the projection keeps the key |
| Sorting.NoDuplicatesCount | stores/eventosKlaukol.js:26 | in a list without repeats every element occurs at most once |
| Sorting.CountsAtMostOneNoDuplicates | stores/eventosKlaukol.js:26-28 | a list in which every element occurs at most once has no two equal entries |
| Sorting.PermutationKeepsNoDuplicates | stores/eventosKlaukol.js:28 | a permutation of a list without repeats has no repeats |
| Sorting.CodePointLeIsTotalPreorder | stores/eventosKlaukol.js:28 | the default `sort` order is a total preorder, so the sort facts apply to it |
| Sorting.LocaleLeIsTotalPreorder | stores/oficios.js:19 | the `localeCompare` order is a total preorder, so the sort facts apply to it |
| ParticipanteService.NormalizeEmail | composables/useParticipanteService.js:49 | the key is the lower-cased form of the slice of the e-mail that has only whitespace around it and none at its ends, i.e. `trim().toLowerCase()`; it is its own lower-case form and neither starts nor ends with whitespace |
| ParticipanteService.NormalizedEmailIsFixed | composables/useParticipanteService.js:49 | normalising an e-mail twice equals normalising it once |
| ParticipanteService.NormalizeEmailIgnoresCase | composables/useParticipanteService.js:49 | an e-mail and its lower-cased form have the same key |
| ParticipanteService.NormalizeEmailIgnoresPadding | composables/useParticipanteService.js:49 | whitespace on either side of an e-mail does not change its key |
| ParticipanteService.SameKeyUpToCaseAndPadding | composables/useParticipanteService.js:49 | e-mails differing only in letter case and surrounding whitespace (" A@B.com " and "a@b.com") are stored and looked up under the same key |
| ParticipanteService.PrepareParticipanteData | composables/useParticipanteService.js:43-51 | name, family name and phone come out as the trimmed inputs, the e-mail comes out as the key of the form's e-mail (`NormalizeEmail`), and city, trade and terms pass through unchanged under their column names |
| ParticipanteService.PrepareRoundTrip | composables/useParticipanteService.js:43-54 | preparation is idempotent: preparing a prepared row again leaves it unchanged |
| ParticipanteService.CheckEmailExists | composables/useParticipanteService.js:27-41 | the e-mail counts as registered exactly when the query raised no error and returned a positive count; a failed query reads as not registered |
| ParticipanteService.EmailExistsOracle | composables/useParticipanteService.js:27-41 | the duplicate check the validator sees reports an e-mail registered exactly when its count query succeeded with a positive count, so a failing query never reports it |
| ParticipanteService.CountWithEmail | composables/useParticipanteService.js:29-32 | the exact count of rows with the e-mail never exceeds the table size |
| ParticipanteService.CountWithEmailPositive | composables/useParticipanteService.js:29-36 | the exact count is positive exactly when some row has that e-mail |
| ParticipanteService.CheckEmailExistsAgainstTable | composables/useParticipanteService.js:27-36 | given the exact count over a table, `checkEmailExists` is true exactly when some row has the e-mail |
| ParticipanteService.CreateParticipante | composables/useParticipanteService.js:8-25 | the insert yields `null` when it raised an error, and otherwise the row it returned |
| ParticipanteValidation.BlankIffAllWhitespace | composables/useParticipanteValidation.js:7 | the blank test holds exactly for an unset value or one made only of whitespace |
| ParticipanteValidation.NombreError | composables/useParticipanteValidation.js:6-17 | "obligatorio" exactly when unset or all whitespace; "al menos 2" exactly when otherwise shorter than two characters; no error exactly when neither |
| ParticipanteValidation.ApellidoError | composables/useParticipanteValidation.js:19-30 | the same three-way verdict with the family-name messages |
| ParticipanteValidation.PaddedOneLetterNameAccepted | composables/useParticipanteValidation.js:7-10 | whitespace followed by one visible character passes the name rule, and trims to the single character |
| ParticipanteValidation.CiudadError | composables/useParticipanteValidation.js:32-40 | accepted exactly when the value is truthy, otherwise "Debe seleccionar una ciudad" |
| ParticipanteValidation.OficioError | composables/useParticipanteValidation.js:78-86 | accepted exactly when the value is truthy, otherwise "Debe seleccionar un oficio" |
| ParticipanteValidation.TerminosError | composables/useParticipanteValidation.js:88-96 | accepted exactly when the value is truthy, otherwise the terms message |
| ParticipanteValidation.TelefonoError | composables/useParticipanteValidation.js:42-53 | "obligatorio" exactly when unset or all whitespace; accepted exactly when the value has 7 to 15 decimal digits; otherwise the length message |
| ParticipanteValidation.TelefonoBlankFacts | composables/useParticipanteValidation.js:43-46 | the blank test is "unset or all whitespace", and a phone with a digit is never blank |
| ParticipanteValidation.TelefonoIgnoresNonDigits | composables/useParticipanteValidation.js:46 | inserting a formatting character (space, dash, parenthesis, …) never changes whether a phone is accepted |
| ParticipanteValidation.DigitsOfDigitString | composables/useParticipanteValidation.js:46 | stripping non-digits from a string of digits leaves it unchanged |
| ParticipanteValidation.EmailPatternGivesShape | composables/useParticipanteValidation.js:56 | every string the e-mail regex accepts has no whitespace, exactly one '@' with a non-empty local part, and a '.' strictly inside the domain |
| ParticipanteValidation.EmailShapeGivesPattern | composables/useParticipanteValidation.js:56 | every string of that shape is accepted by the e-mail regex |
| ParticipanteValidation.EmailPatternIffShape | composables/useParticipanteValidation.js:56-61 | the e-mail regex accepts exactly the strings of that shape |
| ParticipanteValidation.EmailShapeNotBlank | composables/useParticipanteValidation.js:58-61 | a string the regex accepts is never blank, and trimming leaves it unchanged |
| ParticipanteValidation.EmailBlankFacts | composables/useParticipanteValidation.js:58-67 | on an e-mail value: blank means unset or all whitespace, the regex means the shape, and for a well-shaped value the duplicate key is just its lower-case form |
| ParticipanteValidation.EmailQuery | composables/useParticipanteValidation.js:66-67 | the duplicate check is asked exactly when the value has the e-mail shape and the check is enabled, and then with the lower-cased value |
| ParticipanteValidation.EmailError | composables/useParticipanteValidation.js:55-76 | "obligatorio" exactly when unset or all whitespace; "no es válido" exactly when otherwise not of the e-mail shape; "ya está registrado" exactly when the check was asked and answered yes; no error exactly when well-shaped and not reported registered |
| ParticipanteValidation.EmailOracleOnlyOnQuery | composables/useParticipanteValidation.js:66-72 | the verdict depends on the duplicate check only through its answer for the one key asked |
| ParticipanteValidation.DuplicateCheckFailsOpen | composables/useParticipanteValidation.js:66-71 | with `checkEmailExists` as the check, a failing count query lets a well-shaped e-mail through |
| ParticipanteValidation.ValidateNombre | composables/useParticipanteValidation.js:6-17 | writes the given-name verdict into its slot, changes no other slot, and returns true exactly when the slot is clear |
| ParticipanteValidation.ValidateApellido | composables/useParticipanteValidation.js:19-30 | writes the family-name verdict into its slot only, and returns true exactly when it is clear |
| ParticipanteValidation.ValidateCiudad | composables/useParticipanteValidation.js:32-40 | writes the city verdict into its slot only, and returns true exactly when it is clear |
| ParticipanteValidation.ValidateTelefono | composables/useParticipanteValidation.js:42-53 | writes the phone verdict into its slot only, and returns true exactly when it is clear |
| ParticipanteValidation.ValidateEmail | composables/useParticipanteValidation.js:55-76 | writes the e-mail verdict into its slot only, returns true exactly when it is clear, and asks the duplicate check exactly the key of `EmailQuery` |
| ParticipanteValidation.ValidateOficio | composables/useParticipanteValidation.js:78-86 | writes the trade verdict into its slot only, and returns true exactly when it is clear |
| ParticipanteValidation.ValidateTerminos | composables/useParticipanteValidation.js:88-96 | writes the terms verdict into its slot only, and returns true exactly when it is clear |
| ParticipanteValidation.FormErrors | composables/useParticipanteValidation.js:98-109 | all seven slots clear exactly when every field satisfies its own rule |
| ParticipanteValidation.ValidateForm | composables/useParticipanteValidation.js:98-109 | after it, every slot holds its own field's verdict, because no validator is skipped; it returns true exactly when all slots are clear |
| ParticipanteValidation.ClearErrors | composables/useParticipanteValidation.js:111-119 | every slot is `null` afterwards |
| ParticipanteValidation.AcceptedFormPrepares | composables/useParticipanteService.js:43-54 | an accepted form can be prepared, with non-empty name, family name and phone, and its stored e-mail is exactly the key the duplicate check cleared |
| ReferenceStore.Lookup | stores/eventosKlaukol.js:37-38 | the cache answers exactly when something was stored under the key |
| ReferenceStore.Store | stores/eventosKlaukol.js:55 | after storing, the key gives the new value with its time-to-live, every other key gives what it gave before, and the key set gains only that key |
| ReferenceStore.Cache.Save | stores/eventosKlaukol.js:55 | writing the cache object replaces its entries by `Store` of the old entries |
| ReferenceStore.Initial | stores/eventosKlaukol.js:6-10 | a store starts with an empty list, not loading, and no error |
| ReferenceStore.FetchList | stores/eventosKlaukol.js:33-62 | on a hit the cached list is served and a refresh scheduled, with nothing else changed; on a miss the rows become the list and are cached for 60 minutes, or the message becomes the error with the list kept; a miss always ends with `loading` false |
| ReferenceStore.Refresh | stores/eventosKlaukol.js:64-80 | a success makes the rows the list and stores them under the key for the given time-to-live, exactly as `saveToCache` does, with nothing else changed; a failure changes nothing; `loading` and `error` never change |
| ReferenceStore.FindById | stores/eventosKlaukol.js:86 | `find` gives an element exactly when one has that id, and then the first such element |
| ReferenceStore.FetchById | stores/eventosKlaukol.js:83-107 | a local match is returned without asking the table or changing state; otherwise the table's row is returned, or `null` with the message recorded as the error; the list and `loading` never change |
| ReferenceStore.MissThenHit | stores/eventosKlaukol.js:37-55 | after a miss that loaded, the next fetch is a hit: it serves the same rows, leaves the cache alone and schedules a refresh |
| ReferenceStore.FetchSettlesLoading | stores/eventosKlaukol.js:44-61 | a fetch never leaves the store loading unless it served the cache; it schedules a refresh exactly on a hit |
| ReferenceStore.FailureKeepsList | stores/eventosKlaukol.js:56-79 | a failed fetch keeps the list it had (or the cached one on a hit), and a failed refresh leaves the state as it was |
| ReferenceStore.ErrorIsSticky | stores/eventosKlaukol.js:54-57 | once set, `error` is never cleared by a fetch, a refresh or a lookup by id |
| ReferenceStore.HitThenRefresh | stores/eventosKlaukol.js:38-76 | a refresh after a hit makes the table's rows the list and the cached value, so the next fetch serves them |
| ReferenceStore.LocalHitIsFirstMatch | stores/eventosKlaukol.js:85-88 | looking up the id of an element already in the list is answered locally, with the first element at or before it carrying that id |
| StoresEventosKlaukol.EventosOrdenados | stores/eventosKlaukol.js:17-21 | a permutation of the events, most recent date first |
| StoresEventosKlaukol.Distinct | stores/eventosKlaukol.js:26 | `[...new Set(xs)]` contains each element of `xs` exactly once and nothing else |
| StoresEventosKlaukol.CiudadesDisponibles | stores/eventosKlaukol.js:24-29 | every city of some event, each exactly once and nothing else, strictly ascending in code-point order |
| StoresEventosKlaukol.CiudadesOfEventos | stores/eventosKlaukol.js:26 | a city is among the mapped cities exactly when some event has it |
| StoresEventosKlaukol.EventosStore.FetchEventos | stores/eventosKlaukol.js:33-62 | the new store state, the new cache and the "refresh scheduled" flag are those of `FetchList` on the old ones, under `eventos_klaukol_data` for 60 minutes |
| StoresEventosKlaukol.EventosStore.RefreshEventosInBackground | stores/eventosKlaukol.js:64-80 | the new state and cache are those of `Refresh` on the old ones |
| StoresEventosKlaukol.EventosStore.FetchEventoPorId | stores/eventosKlaukol.js:83-107 | the row returned, the new state and whether the table was asked are those of `FetchById` on the old state |
| StoreEventosKlaukol.EventosOrdenados | store/eventosKlaukol.js:16-20 | a permutation of the events in `localeCompare` order of city name |
| StoreEventosKlaukol.FirstById | store/eventosKlaukol.js:23-32 | the values of the map the loop builds have distinct ids, each is `{id, nombre}` of the first qualifying event with that id, and every qualifying event's id is present |
| StoreEventosKlaukol.FirstByIdStep | store/eventosKlaukol.js:25-32 | one loop step keeps those three facts |
| StoreEventosKlaukol.CiudadesDisponibles | store/eventosKlaukol.js:22-35 | the loop builds exactly the map values of `FirstById`; the sorted result is a permutation of them with distinct ids, each from the first qualifying event with its id, covering every qualifying id, in name order |
| StoreEventosKlaukol.SortedCiudadesFacts | store/eventosKlaukol.js:34 | sorting the map values keeps distinct ids, their origin and every qualifying id, and orders them by name |
| StoreEventosKlaukol.EventosStore.FetchEventos | store/eventosKlaukol.js:41-70 | the new state, cache and "refresh scheduled" flag are those of `FetchList` on the old ones |
| StoreEventosKlaukol.EventosStore.RefreshEventosInBackground | store/eventosKlaukol.js:72-88 | the new state and cache are those of `Refresh` on the old ones |
| StoreEventosKlaukol.EventosStore.FetchEventoPorId | store/eventosKlaukol.js:90-112 | the row returned, the new state and whether the table was asked are those of `FetchById` on the old state |
| Oficios.OficiosOrdenados | stores/oficios.js:17-21 | a permutation of the trades in `localeCompare` order of name (the same getter is `store/oficios.js` lines 16-20) |
| Oficios.OficiosParaSelect | stores/oficios.js:24-29 | one option `{value: id, label: nombre}` per trade, exactly the projected trades as a multiset, ordered by label (the same getter is `store/oficios.js` lines 22-29) |
| Oficios.ProjectedOptions | stores/oficios.js:25-28 | every option of the sorted projection comes from some trade, in label order |
| Oficios.ParaSelectIsOrdenadosProjected | stores/oficios.js:17-29 | the select list is exactly the sorted trades list projected to options, because both sort stably on the same name |
| Oficios.OficiosStore.FetchOficios | stores/oficios.js:33-62 | the new state, cache and "refresh scheduled" flag are those of `FetchList` on the old ones, under `oficios_data` for 60 minutes (the same action is `store/oficios.js` lines 33-62) |
| Oficios.OficiosStore.RefreshOficiosInBackground | stores/oficios.js:64-80 | the new state and cache are those of `Refresh` on the old ones (the same action is `store/oficios.js` lines 64-80) |
| Oficios.OficiosStore.FetchOficioPorId | stores/oficios.js:83-107 | the row returned, the new state and whether the table was asked are those of `FetchById` on the old state (the same action is `store/oficios.js` lines 82-104) |

## Left out

- Supabase, the cache backend and the clock: `useSupabaseCache` and the Supabase client are not part of this model. Each remote read is a `Fetched` parameter, and `getFromCache` is a plain key lookup (see the next line).
- Cache expiry: a stored entry records its time-to-live but never expires.
- Async interleaving: a store action is one atomic step. The background refresh started by a hit is a separate call (`RefreshEventosInBackground`, `RefreshOficiosInBackground`). Its result flag `refreshScheduled` records that it was started. The `loading = true` that the source sets while awaiting the table cannot be observed from outside an atomic step, so only its final value is stated.
- `forceRefresh`, `getEventos`, `getOficios` and `isLoading`: one-line delegations to `fetchX` or to a field, so they need no model of their own.
- `console.error`, toasts and logging: no effect on state.
- `fecha_registro` in `prepareParticipanteData`: the wall-clock timestamp is left out of the prepared row.
- `prepareParticipanteData` on a form with an unset text field throws in the source. The model requires the fields to be set (`Preparable`) and does not model the exception.
- Text inputs are `string` or unset. A truthy non-string value reaching `trim()` would throw in the source, and that is not modelled.
- JsValue: the other form values (`ciudad`, `oficio`, `terminos`) and the store ids range over `undefined`, `null`, booleans, integers and strings. Objects, arrays, fractional numbers and `NaN` are not modelled, so truthiness and `===` are stated only on that domain.
- `localeCompare` is modelled as code-point order (`LocaleLe`). Locale collation rules are not modelled.
- CodePointLe: Dafny characters are Unicode scalar values, so the default `sort` is modelled as code-point order, not UTF-16 code-unit order. The two differ only when a character above U+FFFF is compared with one in U+E000-U+FFFF: JavaScript puts the former first.
- ToLowerCase: maps only ASCII and Latin-1 capitals. Other Unicode case mappings are not modelled.
- String length counts characters, so UTF-16 surrogate pairs are not distinguished from single code units.
- `StoresEventosKlaukol.EventosOrdenados`: `fecha` is modelled as an integer timestamp. Invalid dates (`NaN` differences) are not modelled.
- Null or non-string `ciudad`/`nombre_ciudad`/`nombre` values in table rows are not modelled. Rows are typed datatypes.
- Every payload type has its own `Cache` object, because the Dafny type of a cached value is fixed. The shared key space of the real cache across payload types is therefore not modelled.
- The insert and count queries themselves (`insert`, `select ... count: 'exact'`) are represented only by their answers. `CheckEmailExistsAgainstTable` relates a count answer to a table when the count is exact.
