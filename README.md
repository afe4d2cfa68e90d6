# Checklists — a verified model of the checklist store

The checklists app is a single React page (`src/app/page.tsx`). It keeps:

- a store holding one checklist per checklist type: Compras, Viagem, Doméstico, Trabalho, Livre;
- the type currently shown;
- a "new item" text buffer per category;
- the item being edited and its text;
- the category whose name is being edited, and its text;
- the text of the "new category" field.

A checklist is an ordered list of category names plus a map from each category name to its ordered list of items `{text, checked}`. Each event handler of the page computes the next state from the current one.

This project models those handlers and proves what they do.

- `Text`:
  - `trim` over the ECMAScript whitespace and line-terminator set;
  - its characterisation as the longest infix with non-space ends;
  - blankness and idempotence.
- `Model`:
  - the types, the default category lists and the shape of the store;
  - the store invariant: category names are distinct, and the keys of `items` are exactly the category names;
  - the restoring of the saved type.
- `ListOps`: the position-wise `filter` and `map` the handlers apply to one category's list.
- `Transitions`: each handler's new checklist as a pure function of the current one, with lemmas stating its effect, its error (no-op) cases and that it keeps the invariant.
- `Builders`: the loops the page uses to build fresh objects, proved equal to their specification functions:
  - `getEmptyItems` and `getEmptyNewItems`;
  - the initial store;
  - the re-keying `forEach` of a rename.
- `Startup`: the rule that switches edit mode on at start-up, as written and as intended (see Findings).
- `Store`: the page state as a class. Each handler is a method that updates its fields, keeps `Valid()` and states its new state through the `Transitions` functions.

Each handler is one atomic step on the current state, as the page's single-threaded event handling makes it. The answer of the removal confirmation prompt is a boolean parameter. What storage held under the type key is an `Option<string>` parameter of the constructor.

## Model

| member | source | states |
|---|---|---|
| Text.TrimStartSpec | src/app/page.tsx:164 | the leading-trim result is a suffix of the input, everything dropped is whitespace, and it does not start with whitespace |
| Text.TrimEndSpec | src/app/page.tsx:164 | the trailing-trim result is a prefix of the input, everything dropped is whitespace, and it does not end with whitespace |
| Text.TrimIsInfix | src/app/page.tsx:164 | `trim` returns an infix of its input with only whitespace on either side |
| Text.TrimEnds | src/app/page.tsx:164 | a non-empty trimmed text neither starts nor ends with whitespace |
| Text.TrimEmptyIff | src/app/page.tsx:164-165 | the trimmed text is empty exactly when every character is whitespace (both directions) |
| Text.TrimStartPadding | src/app/page.tsx:241 | whitespace in front of a text starting with a non-space is exactly what the leading trim removes |
| Text.TrimEndPadding | src/app/page.tsx:241 | whitespace after a text ending with a non-space is exactly what the trailing trim removes |
| Text.TrimPadded | src/app/page.tsx:280 | converse of `TrimIsInfix`: trimming whitespace-padded text with non-space ends gives that text back |
| Text.TrimIdempotent | src/app/page.tsx:280 | trimming twice equals trimming once |
| Model.StoreValidUpdate | src/app/page.tsx:166-175 | replacing one type's checklist by a well-formed one keeps every type present and well-formed |
| Model.DefaultChecklistsValid | src/app/page.tsx:101-110 | the default store has every type, each with its default categories, distinct names, keys in lock-step, and only empty lists |
| Model.CategoriasPadraoDistinct | src/app/page.tsx:17-50 | no type's default category list repeats a name |
| Model.NameInjective | src/app/page.tsx:7-13 | distinct types have distinct names |
| Model.ParseTipo | src/app/page.tsx:93 | the `includes` test succeeds exactly for the five type names, and yields the type with that name |
| Model.InitialTipo | src/app/page.tsx:90-98 | a saved value that names a type restores that type; anything else, or nothing saved, gives Compras |
| Model.InitialTipoRoundTrip | src/app/page.tsx:92-94 | restoring the stored name of any type gives that type back |
| ListOps.DropIndex | src/app/page.tsx:190 | the filter by position drops exactly the element at `index` when it is in range, and otherwise returns the list unchanged |
| ListOps.UpdateAt | src/app/page.tsx:204-206 | the map by position keeps the length and rewrites only the element at `index` |
| ListOps.DropIndexShifts | src/app/page.tsx:190 | removal in range shortens the list by one, shifts every later element down one place and keeps the earlier ones |
| ListOps.ToggleAtEffect | src/app/page.tsx:204-206 | toggling flips only `checked` at `index`, keeping every text, the other items and the length |
| ListOps.ToggleTwice | src/app/page.tsx:204-206 | toggling the same position twice restores the list |
| ListOps.SetTextAtEffect | src/app/page.tsx:228-230 | the edit rewrite sets the text at `index` verbatim, keeps its flag and every other item |
| ListOps.DropLastOfAppend | src/app/page.tsx:172 | removing the last position of a list after appending to it restores the list |
| Transitions.AddItemAppends | src/app/page.tsx:163-178 | a non-blank trimmed text is appended unchecked at the end of its category; categories, keys and other lists unchanged; invariant kept |
| Transitions.AddBlankIsNoop | src/app/page.tsx:164-165 | for any buffer map, a missing (`?.`), empty or whitespace-only buffer reads as blank and leaves the checklist unchanged |
| Transitions.RemoveItemEffect | src/app/page.tsx:181-194 | declining changes nothing; confirming drops the item at an in-range index keeping order, changes nothing for other indices, and leaves other categories and the invariant intact |
| Transitions.RemoveUndoesAdd | src/app/page.tsx:172 | adding an item and then removing the last position of that category restores the checklist |
| Transitions.ToggleCheckEffect | src/app/page.tsx:197-210 | only the `checked` flag at `index` of that category changes; lengths, texts, other categories and the invariant are kept |
| Transitions.ToggleCheckTwice | src/app/page.tsx:197-210 | toggling the same item twice restores the checklist |
| Transitions.SaveEditEffect | src/app/page.tsx:219-234 | with both halves of `editing` set, the item's text becomes the edit text verbatim (no trim, empty allowed) with its flag kept; with either half null nothing changes |
| Transitions.RenameRejected | src/app/page.tsx:242-246 | an empty new name, the old name itself or a name in use leaves the checklist and the buffers unchanged |
| Transitions.ReplaceDistinct | src/app/page.tsx:248-250 | mapping the old name to a new, unused name keeps the category names distinct |
| Transitions.ReplaceElems | src/app/page.tsx:248-250 | the renamed list's name set is the old set with the old name swapped for the new one |
| Transitions.RenameEffect | src/app/page.tsx:248-270 | an accepted rename keeps the length, puts the new name at the old position, moves the old items under the new name, drops the old key, keeps other categories' items and the invariant |
| Transitions.RenameInputsEffect | src/app/page.tsx:253-262 | the buffers are re-keyed likewise: one per new category, the new name taking the old name's pending text |
| Transitions.RenameMissingIsIdentity | src/app/page.tsx:248-262 | renaming a name that is not a category leaves a well-formed checklist unchanged |
| Transitions.RenameKeepsInvariant | src/app/page.tsx:240-272 | whatever the names, a rename keeps the categories distinct and in lock-step with the item keys |
| Transitions.RenameRoundTrip | src/app/page.tsx:240-272 | renaming a category to an unused name and back restores the checklist |
| Transitions.AddCategoryEffect | src/app/page.tsx:279-296 | a blank or existing name changes nothing; otherwise the name is appended with an empty list and other lists are kept; the invariant is kept |
| Transitions.NoItemsCases | src/app/page.tsx:136 | a checklist with an added item has items; a default checklist has none |
| Builders.GetEmptyItems | src/app/page.tsx:70-76 | the keys are exactly the given categories, each mapped to the empty list |
| Builders.GetEmptyNewItems | src/app/page.tsx:78-84 | the keys are exactly the given categories, each mapped to the empty text |
| Builders.InitialChecklists | src/app/page.tsx:101-110 | the loop builds the default store: every type with its default categories, all lists empty, invariant holding |
| Builders.RekeyAppend | src/app/page.tsx:254-262 | one more iteration of the rename's `forEach` adds exactly that category's entry |
| Builders.RebuildAfterRename | src/app/page.tsx:252-262 | the loop builds the re-keyed item map and buffer map of the rename |
| Builders.RenameCategoria | src/app/page.tsx:241-272 | the rename body gives exactly the specified renamed checklist and buffers, or the inputs unchanged when the guard rejects |
| Startup.EditModeAsWrittenAlwaysOn | src/app/page.tsx:129-137 | as written, the page starts in edit mode whatever storage held |
| Startup.EditModeAsWrittenIgnoresSavedItems | src/app/page.tsx:131-137 | a saved shopping list with one item still starts in edit mode as written, while the intended rule keeps it off |
| Startup.EditModeIntendedCases | src/app/page.tsx:135-137 | by the intended rule, nothing saved starts in edit mode, and a saved current checklist with an item does not |
| Store.ChecklistStore.constructor | src/app/page.tsx:87-126 | the first render: restored type, default store, empty buffers for the shopping categories, nothing being edited, edit mode off |
| Store.ChecklistStore.Montar | src/app/page.tsx:129-141 | edit mode becomes on exactly when the current checklist has no items, and the buffers follow its categories |
| Store.ChecklistStore.SelecionarTipo | src/app/page.tsx:309-310 | the chosen type becomes current and, through the effect at lines 151-153 that follows it, the buffers are one empty text per category of its checklist |
| Store.ChecklistStore.SincronizarNovosItens | src/app/page.tsx:151-153 | the buffers become one empty text per category of the current checklist, and no other key |
| Store.ChecklistStore.DefinirModoEdicao | src/app/page.tsx:349-350 | the edit-mode flag takes the checkbox value |
| Store.ChecklistStore.DigitarItem | src/app/page.tsx:420-422 | only the typed category's buffer changes, to the typed text |
| Store.ChecklistStore.AddItem | src/app/page.tsx:163-178 | only the current type's checklist changes, by the add rule on the trimmed buffer; the buffer is cleared exactly when the text was non-blank; the store stays valid |
| Store.ChecklistStore.RemoveItem | src/app/page.tsx:181-194 | declining changes nothing; otherwise only the current type's checklist changes, by the remove rule; the store stays valid |
| Store.ChecklistStore.ToggleCheck | src/app/page.tsx:197-210 | only the current type's checklist changes, by the toggle rule; the store stays valid |
| Store.ChecklistStore.StartEdit | src/app/page.tsx:213-216 | the edited position is remembered and the edit field holds that item's text |
| Store.ChecklistStore.DigitarEdicao | src/app/page.tsx:445 | the edit field holds the typed text |
| Store.ChecklistStore.SaveEdit | src/app/page.tsx:219-237 | only the current type's checklist changes, by the edit rule; the edit resets to null/null and empty text; the store stays valid |
| Store.ChecklistStore.EditarCategoria | src/app/page.tsx:400-404 | the category becomes the one being renamed and its name fills the name field |
| Store.ChecklistStore.DigitarNomeCategoria | src/app/page.tsx:383 | the name field holds the typed text |
| Store.ChecklistStore.SalvarNomeCategoria | src/app/page.tsx:240-275 | the current checklist and the buffers change by the rename rule on the trimmed name; the name field always closes and clears; the store stays valid |
| Store.ChecklistStore.DigitarNovaCategoria | src/app/page.tsx:365 | the new-category field holds the typed text |
| Store.ChecklistStore.AdicionarCategoria | src/app/page.tsx:279-296 | the current checklist changes by the add-category rule on the trimmed name; an accepted name gets an empty buffer and clears the field, a rejected one changes nothing; the store stays valid |

## Left out

- Browser storage and JSON (`src/app/page.tsx:92, 131-134, 144-148, 156-160`) are not modelled, nor is the serialise/deserialise round trip of the store. The saved type reaches the constructor as a parameter, and a loaded store reaches `Startup` as one. No schema check of a loaded blob is modelled, since the page does none.
- `window.confirm` (`src/app/page.tsx:182`) is the boolean parameter `confirm`.
- React scheduling is not modelled: setter batching, effect ordering and the `isClient` gate (`src/app/page.tsx:87, 130, 299`). The effect at `src/app/page.tsx:151-153` runs after every change of `checklists` or `tipoAtual` and replaces every buffer with an empty one, so in the page it supersedes the buffer writes of `addItem` (line 176), of the rename (line 271) and of `adicionarCategoria` (line 293). For those handlers the effect is its own method (`SincronizarNovosItens`) that a caller runs afterwards; their methods state only the handler's own writes. `SelecionarTipo` is the one method that includes the effect, since the selector at line 310 changes nothing else.
- Handlers read the `checklists` of the render they were created in, while their updates go through `prev`. The model treats both as the current state, which is what they are when one event is handled per render.
- JSX, styles and icons are not modelled. The edit-mode flag is modelled only as a field that the checkbox sets and that the mount effect initialises; its gating of what is shown is left out.
- Category names are keys of plain JS objects in the page, and the model stores them in Dafny maps. A category named `__proto__` is therefore not modelled. In the page, the plain assignments `obj[cat] = …` (`src/app/page.tsx:73, 81, 256-257, 259-260`) go through the inherited prototype setter and create no own key. The computed keys of object literals (`src/app/page.tsx:172, 290, 293, 421`) do create one. So adding a `__proto__` category keeps its items as in the model, but the rename (lines 256 and 259) loses the own key of its items, which then drop out of the saved JSON, and every rebuild of the buffers through `getEmptyNewItems` (the effect at lines 151-153) loses its buffer key. In the model it is an ordinary name, and `RenameEffect`, `RenameKeepsInvariant` and `RenameInputsEffect` treat it like any other.
- Characters are Unicode scalar values, not UTF-16 code units. `trim` strips the fixed ECMAScript WhiteSpace and LineTerminator set listed in `Text.SpaceChars`.
- A handler that dereferences a missing category in the page throws a `TypeError`. The methods require the category to exist exactly where the page dereferences it: `AddItem` only with a non-blank text, `RemoveItem` only when confirmed, `ToggleCheck` always, `SaveEdit` only with both halves of `editing` set. `StartEdit` also requires the index to be in range, since the page reads `.text` of the item.
- `Store.ChecklistStore.Montar`: models the mount effect without the storage read, so it applies the rule to the store as it stands. The stale-closure behaviour of the page is modelled in `Startup`.

## Findings

| source | as written | input that shows it | evidently intended | confidence | as-written member | corrected member |
|---|---|---|---|---|---|---|
| src/app/page.tsx:136 | the mount effect computes "no item at all" from the `checklists` of the first render, which is always the default store, even after loading a saved store at line 133 | storage holds a store whose Compras list has "Leite" under "Padaria", and the saved type is Compras | edit mode is off when the loaded current checklist has an item, as the comment at line 135 says | not executed; high | Startup.EditModeAsWrittenIgnoresSavedItems | Startup.EditModeIntendedCases |
