# Verified model of the production admin screens

This project models, in Dafny, the controller logic of five screens of an Angular admin
front-end for a production plant:

- the product catalogue (`CreacionProductoComponent`);
- the formula editor (`FormulaComponent`);
- user administration (`SettingsComponent`);
- the stock inventory (`InventarioComponent`);
- the production (packing) report (`PagesComponent`).

Every screen is a small state machine over in-memory lists. The outcome of each HTTP call is an
input value: `Ok(items)` or `Err(status)` for a list load, and a success flag for a write. An
answered confirmation dialog is a boolean input.

Modules:

- `Text`: the JavaScript string operations the screens use. These are `trim` (ECMAScript
  whitespace set), `toLowerCase` (ASCII letters), `includes`, and number-to-string.
- `Delimited`: `Array.prototype.join` and `String.prototype.split` with a one-character
  separator, and their round trips.
- `ListView`: what every list screen shares.
  - The load handler with the benign statuses 404, 0 and 500.
  - An order-preserving filter.
  - `Math.ceil` page counts and `slice` pages.
  - The proof that the pages rebuild the list.
- `ProductCatalog`, `Formulas`, `Settings`, `Inventario`, `Packing`: one module per screen.
  - Each screen's fields are a `class` whose methods assign them as the component does.
  - The decisions (validators, request choice, filters, CSV assembly) are functions.
  - Lemmas state what those decisions guarantee.

Screen-specific modelling:

- Inventory components are objects (`StockItem`), because `editStock` makes the edit form share
  the listed object itself.
- A formula's ingredient array is an object (`IngredientList`), because `push`/`splice` change it
  in place. `editarFormula` deep-copies it, while `guardarFormula` hands the draft's own array to
  the formula it sends.

Behaviour worth knowing:

- Only the product screen trims its search term. On the user and inventory screens, a term of
  spaces still filters (`Settings.SpaceTermFilters`).
- The packing screen's `filterPackings` resets the page to 1; the product screen's filter does not.
- On the product screen, `findIndex` returns -1 for a product that is not in the list. Since
  -1 is not `null`, saving such a product still takes the update path
  (`ProductCatalog.UnlistedProductIsUpdated`).
- Changing the product filter does not reset the page, so the screen can sit on an empty page
  past the last one (`ProductCatalog.FilterChangeCanLeaveEmptyPage`).

## Model

| member | source | states |
|---|---|---|
| ListView.AfterLoad | src/app/creacion-producto/creacion-producto.component.ts:51-73 | a success replaces the list; a failure with status 404, 0 or 500 empties it without an alert; any other failure alerts and keeps the list |
| ListView.Filter | src/app/creacion-producto/creacion-producto.component.ts:106-108 | every kept element comes from the list and passes the predicate, every element that passes is kept, and the j-th kept element is the element at the j-th passing position, so the order is kept |
| ListView.SelectIsOrderedSelection | src/app/creacion-producto/creacion-producto.component.ts:106-108 | the filtered list is exactly the flagged elements in their original order: its j-th element is the element at the j-th flagged position |
| ListView.CeilDiv | src/app/creacion-producto/creacion-producto.component.ts:117-119 | `Math.ceil(n / k)`: the least page count whose pages hold all n items |
| ListView.JsSlice | src/app/creacion-producto/creacion-producto.component.ts:114 | `slice` with 0 <= start <= end is the sub-sequence clamped to the end, with 0 <= end < start it is empty, and it never fails |
| ListView.Page | src/app/creacion-producto/creacion-producto.component.ts:111-115 | page p is the items from (p-1)*k up to p*k clamped to the end: at most k items, none once the start is past the end |
| ListView.PagesUpToIsPrefix | src/app/creacion-producto/creacion-producto.component.ts:111-119 | pages 1..n put together are the first n*k items, or all of them |
| ListView.PagesReconstruct | src/app/creacion-producto/creacion-producto.component.ts:111-119 | pages 1..totalPages put together rebuild the filtered list with no gap or overlap |
| ListView.PageInRange | src/app/creacion-producto/creacion-producto.component.ts:111-125 | every page from 1 to totalPages holds an item, and every page before the last is full |
| ListView.PageBeyondCount | src/app/creacion-producto/creacion-producto.component.ts:111-119 | every page after totalPages is empty |
| ListView.PageEmptyIff | src/app/creacion-producto/creacion-producto.component.ts:111-119 | a page numbered 1 or more is empty exactly when it lies past the page count |
| Text.Trim | src/app/creacion-producto/creacion-producto.component.ts:103 | `trim()` is empty exactly for a blank string, keeps no whitespace at either end, and is the original with only whitespace removed before and after it |
| Delimited.SplitJoin | src/app/pages/pages.component.ts:86 | joining one or more cells that hold no separator and splitting on that separator gives the cells back |
| Delimited.JoinSplit | src/app/pages/pages.component.ts:86 | splitting on a separator and joining with it gives the text back |
| ProductCatalog.EmptyProduct | src/app/creacion-producto/creacion-producto.component.ts:37-45 | the blank draft has empty texts, quantity 0, and no id or dates |
| ProductCatalog.FilterProducts | src/app/creacion-producto/creacion-producto.component.ts:102-109 | a blank filter (after trimming) keeps the list as it is; the result is never longer than the list and holds only listed products |
| ProductCatalog.FilterProductsSpec | src/app/creacion-producto/creacion-producto.component.ts:102-109 | a blank filter (after trimming) keeps every product; otherwise exactly the products whose lower-cased name contains the lower-cased untrimmed filter, in their order |
| ProductCatalog.BlankFilterKeepsAll | src/app/creacion-producto/creacion-producto.component.ts:103-105 | a filter of one space keeps a product whose name has no space |
| ProductCatalog.ProductPagesSpec | src/app/creacion-producto/creacion-producto.component.ts:111-119 | the product pages hold at most 5 items each, rebuild the filtered list, are non-empty in range and empty past it |
| ProductCatalog.FindIndexById | src/app/creacion-producto/creacion-producto.component.ts:81 | `findIndex` by id: the first position with that id, or -1 exactly when no product has it |
| ProductCatalog.CheckImage | src/app/creacion-producto/creacion-producto.component.ts:300-328 | a file is accepted iff its type is jpeg, png or gif and its size is at most 5 MiB; the type is reported first |
| ProductCatalog.ValidateProducto | src/app/creacion-producto/creacion-producto.component.ts:217-239 | passes iff the trimmed name and the trimmed category are non-empty; the name is reported first |
| ProductCatalog.SaveDecision | src/app/creacion-producto/creacion-producto.component.ts:150-213 | an invalid draft sends nothing; a valid one is an update stamped with updateDate iff editIndex is not null and the id is truthy, otherwise a create stamped with creationDate |
| ProductCatalog.InvalidDraftSendsNothing | src/app/creacion-producto/creacion-producto.component.ts:151 | a draft with a blank name or category never produces a request |
| ProductCatalog.UnlistedProductIsUpdated | src/app/creacion-producto/creacion-producto.component.ts:156 | a valid product with a truthy id that no listed product carries gets editIndex -1 and is still saved as an update of that id, stamped with updateDate |
| ProductCatalog.CreacionProducto.constructor | src/app/creacion-producto/creacion-producto.component.ts:16-28 | the screen starts with no products, a blank draft, an empty filter, no edit index or image, the modal closed, on page 1 |
| ProductCatalog.CreacionProducto.CargarProductos | src/app/creacion-producto/creacion-producto.component.ts:48-75 | the product list becomes what the load handler leaves, and an alert is shown exactly for a non-benign failure |
| ProductCatalog.CreacionProducto.SetFiltro | src/app/creacion-producto/creacion-producto.component.ts:19 | typing a filter does not move the page |
| ProductCatalog.CreacionProducto.ProductosFiltrados | src/app/creacion-producto/creacion-producto.component.ts:102-109 | the shown list holds only loaded products, and all of them when the filter is blank |
| ProductCatalog.CreacionProducto.TotalPages | src/app/creacion-producto/creacion-producto.component.ts:117-119 | the least page count whose pages of 5 hold every filtered product |
| ProductCatalog.CreacionProducto.PaginatedProducts | src/app/creacion-producto/creacion-producto.component.ts:111-115 | the shown page holds at most 5 products and is empty exactly when the current page lies past the page count |
| ProductCatalog.CreacionProducto.GoToPage | src/app/creacion-producto/creacion-producto.component.ts:121-125 | the page changes only to a page between 1 and totalPages, which then shows at least one product; currentPage stays at least 1 |
| ProductCatalog.CreacionProducto.AbrirModal | src/app/creacion-producto/creacion-producto.component.ts:78-88 | opening with a product copies it and records its index (or -1); opening without one resets the draft and the index; both open the modal with no image |
| ProductCatalog.CreacionProducto.ResetForm | src/app/creacion-producto/creacion-producto.component.ts:95-99 | the draft, the edit index and the image go back to their defaults |
| ProductCatalog.CreacionProducto.CerrarModal | src/app/creacion-producto/creacion-producto.component.ts:90-93 | the modal closes and the draft, the edit index and the image are reset |
| ProductCatalog.CreacionProducto.SeleccionarImagen | src/app/creacion-producto/creacion-producto.component.ts:300-328 | the file is stored only when it passes the image checks; otherwise, or with no file, the stored image is unchanged |
| ProductCatalog.CreacionProducto.GuardarProducto | src/app/creacion-producto/creacion-producto.component.ts:150-213 | the request chosen is the save decision for the current draft, and the draft carries the stamped date that is sent |
| ProductCatalog.CreacionProducto.FinishSave | src/app/creacion-producto/creacion-producto.component.ts:159-211 | on success the list becomes what the load handler leaves, an alert is shown exactly for a non-benign reload failure, and the modal closes with a reset draft; on failure an alert is shown and nothing changes |
| ProductCatalog.FilterChangeCanLeaveEmptyPage | src/app/creacion-producto/creacion-producto.component.ts:102-125 | after moving to page 2 of six products, a filter matching none leaves the screen on page 2 of 0 with nothing shown |
| Formulas.SpliceOne | src/app/formula/formula.component.ts:186-188 | `splice(i, 1)` for an index in range removes exactly element i and keeps the others in order; an index past the end removes nothing |
| Formulas.SpliceUndoesPush | src/app/formula/formula.component.ts:182-188 | removing the row just pushed restores the ingredient list |
| Formulas.SpliceNegative | src/app/formula/formula.component.ts:186-188 | a negative index removes the element that many places from the end |
| Formulas.CheckFormula | src/app/formula/formula.component.ts:191-210 | a product id of 0 or none is reported first, then an empty ingredient list; the formula passes only with a product and at least one ingredient |
| Formulas.FormulaWindow | src/app/formula/formula.component.ts:145-149 | the one-per-page window is the formula at the index when there is one, and empty otherwise |
| Formulas.OneFormulaPerPage | src/app/formula/formula.component.ts:118 | with one formula per page, the page count is the number of formulas |
| Formulas.FormulaEditor.constructor | src/app/formula/formula.component.ts:21-40 | the editor starts at index 0 with no formulas, no pages, an empty draft and the modal closed |
| Formulas.FormulaEditor.ActualizarFormulasPaginadas | src/app/formula/formula.component.ts:145-149 | the shown window is the formula at the current index |
| Formulas.FormulaEditor.GetRecipe | src/app/formula/formula.component.ts:113-142 | a success sets the formulas, the page count and the window without resetting the index; a benign failure empties the list and the page count but keeps the old window; any other failure alerts and changes nothing |
| Formulas.FormulaEditor.IrAFormulaAnterior | src/app/formula/formula.component.ts:151-156 | steps back only from an index above 0, so the index stays at least 0 |
| Formulas.FormulaEditor.IrAFormulaSiguiente | src/app/formula/formula.component.ts:158-163 | steps forward only while the index is below totalPages - 1, otherwise nothing changes |
| Formulas.FormulaEditor.AbrirModal | src/app/formula/formula.component.ts:166-173 | opens the modal; create mode clears the product, the ingredients and the edit index, edit mode keeps them |
| Formulas.FormulaEditor.CerrarModal | src/app/formula/formula.component.ts:175-180 | closes the modal and clears the product, the ingredients (a new empty array) and the edit index |
| Formulas.FormulaEditor.AgregarIngrediente | src/app/formula/formula.component.ts:182-184 | appends exactly one default ingredient and leaves the earlier rows as they were |
| Formulas.FormulaEditor.EliminarIngrediente | src/app/formula/formula.component.ts:186-188 | the ingredient array becomes its one-element splice at the index |
| Formulas.FormulaEditor.GuardarFormula | src/app/formula/formula.component.ts:191-216 | nothing is sent when the checks fail; otherwise the formula sent carries the product and the draft's own ingredient array |
| Formulas.FormulaEditor.FinishGuardar | src/app/formula/formula.component.ts:216-239 | on success the modal closes, the edit index is cleared and the formulas are reloaded with the outcomes of getRecipe (a list sets formulas, pages and window; a benign failure empties list and pages; any other failure alerts and keeps them); on failure an alert is shown and nothing changes |
| Formulas.FormulaEditor.EditarFormula | src/app/formula/formula.component.ts:243-247 | opens the modal on the formula's product and a new array equal to its ingredients |
| Formulas.EditingLeavesSourceFormula | src/app/formula/formula.component.ts:243-247 | after editing, adding and removing rows, the edited formula's own ingredients are unchanged |
| Formulas.FailedSaveSharesIngredients | src/app/formula/formula.component.ts:212-239 | after a failed save, a row added in the still open modal also appears in the formula that was sent |
| Settings.FilterUsers | src/app/settings/settings.component.ts:55-60 | the empty term keeps the list as it is; otherwise the result is never longer and holds only listed users whose lower-cased username contains the lower-cased term |
| Settings.FilterUsersIsFilter | src/app/settings/settings.component.ts:55-60 | the user list is exactly the users whose lower-cased username contains the lower-cased term, in their order (the j-th shown user is the j-th matching one), the empty term keeping all |
| Settings.SpaceTermFilters | src/app/settings/settings.component.ts:56 | the term is not trimmed: a single space hides a user whose name has no space |
| Settings.SelectionFor | src/app/settings/settings.component.ts:82 | the selection is "admin" exactly for the ADMIN role, and never empty |
| Settings.RoleFor | src/app/settings/settings.component.ts:192 | the role sent is ADMIN exactly when the selection is "admin" |
| Settings.RoleRoundTrip | src/app/settings/settings.component.ts:82 | the selection set when editing a user maps back to the same role |
| Settings.Payload | src/app/settings/settings.component.ts:187-193 | the request carries the names and password as typed, the role from the selection, and no id |
| Settings.ValidateUser | src/app/settings/settings.component.ts:137-185 | the checks run in the order first name, last name, username (all trimmed), role selection, then password only when creating; the first failure is reported, and none iff all pass |
| Settings.RegisterDecision | src/app/settings/settings.component.ts:135-249 | an invalid form sends nothing; in edit mode an update of the id is sent iff the id is present (0 included), otherwise an id error; in create mode a registration is sent |
| Settings.EditThenSaveUpdates | src/app/settings/settings.component.ts:78-84 | editing a listed user and saving it unchanged sends an update of that id with its names, its role and an empty password |
| Settings.DeleteDecision | src/app/settings/settings.component.ts:97-125 | a delete is sent iff the dialog is confirmed and the id is present; a confirmed dialog without an id shows an error; a declined dialog does nothing |
| Settings.UserSettings.constructor | src/app/settings/settings.component.ts:17-30 | the screen starts with no users, an empty search, the modal closed and the blank user |
| Settings.UserSettings.FilteredUsers | src/app/settings/settings.component.ts:55-60 | the shown users are listed users matching the search term, and all of them for the empty term |
| Settings.UserSettings.LoadUsers | src/app/settings/settings.component.ts:39-52 | a success replaces the users; every failure alerts and keeps them |
| Settings.UserSettings.OpenNewUsersForm | src/app/settings/settings.component.ts:63-75 | create mode with the blank user (role USER, id 0), no role selected, modal open |
| Settings.UserSettings.EditUser | src/app/settings/settings.component.ts:78-84 | edit mode with a copy of the user whose password is blank, the selection following its role, modal open |
| Settings.UserSettings.CloseModal | src/app/settings/settings.component.ts:130-132 | only the modal flag changes |
| Settings.UserSettings.Register | src/app/settings/settings.component.ts:135-249 | the request chosen is the register decision for the current form |
| Settings.UserSettings.FinishRegister | src/app/settings/settings.component.ts:199-247 | on success the modal closes, the users become the reloaded list when the reload succeeds and stay otherwise, and an alert is shown exactly when the reload fails; on failure an alert is shown and nothing changes |
| Inventario.StockItem.Blank | src/app/inventario/inventario.component.ts:22 | a new component has an empty name and unit, quantity 0, and empty stock fields |
| Inventario.StockStatus | src/app/inventario/inventario.component.ts:36-39 | the status is "bajo" or "suficiente" |
| Inventario.StockStatusLowIff | src/app/inventario/inventario.component.ts:36-39 | with a positive minimum, the stock is low exactly when 2 * current <= 3 * minimum |
| Inventario.StockStatusExamples | src/app/inventario/inventario.component.ts:28-39 | 40/100 and 150/100 (the boundary) are low, 160/100 is sufficient |
| Inventario.StatusColor | src/app/inventario/inventario.component.ts:41-43 | "bajo" gets the low badge and every other status the sufficient one |
| Inventario.BadgeOfComponent | src/app/inventario/inventario.component.ts:36-43 | a component's badge is low exactly when 2 * current <= 3 * minimum |
| Inventario.StockFieldsFilled | src/app/inventario/inventario.component.ts:77 | the form passes exactly when the name and unit are non-empty and the current and minimum stock are neither empty text nor 0 (the same check as line 114) |
| Inventario.FilterComponents | src/app/inventario/inventario.component.ts:61-69 | the empty term keeps the list as it is; the result is never longer than the list and holds only listed components |
| Inventario.FilterComponentsSpec | src/app/inventario/inventario.component.ts:61-69 | the filtered list is the selection by a mask that flags exactly the components whose lower-cased name contains the lower-cased term: those components, in their order; the empty term (not trimmed) keeps every component |
| Inventario.ComponentPagesSpec | src/app/inventario/inventario.component.ts:45-53 | pages hold at most 4 components, rebuild the filtered list, are non-empty in range and empty past it |
| Inventario.InventarioScreen.constructor | src/app/inventario/inventario.component.ts:18-27 | the screen starts with no components, page 1, and two distinct blank forms |
| Inventario.InventarioScreen.GetFilteredComponents | src/app/inventario/inventario.component.ts:61-69 | the shown components are listed ones, and all of them for the empty term |
| Inventario.InventarioScreen.TotalPages | src/app/inventario/inventario.component.ts:51-53 | the least page count whose pages of 4 hold every filtered component |
| Inventario.InventarioScreen.PaginatedComponents | src/app/inventario/inventario.component.ts:45-49 | the shown page holds at most 4 components and is empty exactly when the current page lies past the page count |
| Inventario.InventarioScreen.FetchComponents | src/app/inventario/inventario.component.ts:202-211 | a success replaces the list; a failure changes nothing |
| Inventario.InventarioScreen.GoToPage | src/app/inventario/inventario.component.ts:55-59 | the page changes only to a page between 1 and totalPages, which then shows a component |
| Inventario.InventarioScreen.EditStock | src/app/inventario/inventario.component.ts:71-73 | the edit form becomes the given object itself |
| Inventario.InventarioScreen.CloseModal | src/app/inventario/inventario.component.ts:188-190 | the edit form becomes a new blank object |
| Inventario.InventarioScreen.OpenCreateModal | src/app/inventario/inventario.component.ts:197-200 | the create modal opens on a new blank form |
| Inventario.InventarioScreen.CloseCreateModal | src/app/inventario/inventario.component.ts:192-195 | the create modal closes and the form is a new blank one |
| Inventario.InventarioScreen.SaveStockProduct | src/app/inventario/inventario.component.ts:76-87 | the create request is sent iff name, unit, current and minimum stock are all non-empty; quantity is not checked, nothing is trimmed |
| Inventario.InventarioScreen.UpdateStockProduct | src/app/inventario/inventario.component.ts:113-124 | the update request for the form's id is sent iff the same four fields are non-empty |
| Inventario.InventarioScreen.FinishCreate | src/app/inventario/inventario.component.ts:88-108 | on success the create modal closes and the list is fetched again; on failure an alert is shown and nothing changes |
| Inventario.InventarioScreen.FinishUpdate | src/app/inventario/inventario.component.ts:125-145 | on success the edit form is detached and the list is fetched again; on failure an alert is shown and nothing changes |
| Inventario.EditingSharesListElement | src/app/inventario/inventario.component.ts:71-73 | after editStock, typing a name in the form changes the listed component |
| Inventario.ClosedFormIsDetached | src/app/inventario/inventario.component.ts:188-190 | after closeModal, typing in the form leaves the listed component as it was |
| Packing.MatchesText | src/app/pages/pages.component.ts:38-40 | the empty search text matches every packing |
| Packing.MatchesDates | src/app/pages/pages.component.ts:41-44 | with no bound set every packing matches; with a bound set only a packing with a creation date can match |
| Packing.FilterPackingList | src/app/pages/pages.component.ts:36-46 | the filtered list is never longer than the list and holds only listed packings that match the text and the dates |
| Packing.FilterPackingListSpec | src/app/pages/pages.component.ts:36-46 | the filtered list is exactly the packings whose name or type name contains the term and whose creation date lies within the set bounds, in their order |
| Packing.EmptyCriteriaKeepAll | src/app/pages/pages.component.ts:36-46 | with no text and no dates every packing is kept |
| Packing.DateBoundDropsUndated | src/app/pages/pages.component.ts:41-44 | once a date bound is set, a packing without a creation date is dropped |
| Packing.CollapseLineBreaks | src/app/pages/pages.component.ts:122 | the text has no line feed or carriage return left and is no longer than before |
| Packing.CollapseLineBreaksNoOp | src/app/pages/pages.component.ts:122 | text without line breaks is left as it is |
| Packing.ReplaceSemicolons | src/app/pages/pages.component.ts:123 | every ';' becomes ',' and every other character stays in place |
| Packing.SanitizeText | src/app/pages/pages.component.ts:119-125 | a sanitised cell has no ';', line feed or carriage return, and no whitespace at either end |
| Packing.SanitizeIdempotent | src/app/pages/pages.component.ts:119-125 | sanitising twice is the same as sanitising once |
| Packing.SanitizeSeparatorsExample | src/app/pages/pages.component.ts:119-125 | "A;B\nC" becomes "A,B C" |
| Packing.SanitizeCrLfExample | src/app/pages/pages.component.ts:122 | a CRLF pair becomes a single space |
| Packing.CollapseLineBreaksPointwise | src/app/pages/pages.component.ts:122 | in text with no CRLF pair each line feed and each lone carriage return becomes a space at the same position and every other character stays |
| Packing.LoneCrBecomesSpace | src/app/pages/pages.component.ts:122 | a lone carriage return becomes one space: "a\rb" becomes "a b" |
| Packing.CrLfBecomesOneSpace | src/app/pages/pages.component.ts:122 | a CRLF pair between two texts becomes exactly one space, each side being collapsed on its own |
| Packing.CollapseLineBreaksKeeps | src/app/pages/pages.component.ts:122 | the collapsed text adds no character other than a space, and is blank exactly when the input is |
| Packing.ReplaceSemicolonsKeeps | src/app/pages/pages.component.ts:123 | the replaced text adds no character other than a comma, and is blank exactly when the input is |
| Packing.SanitizeTextMeaning | src/app/pages/pages.component.ts:119-125 | a sanitised cell is empty exactly when the text is blank, and holds only characters of the text, spaces and commas |
| Packing.PlainTextIsTrimmed | src/app/pages/pages.component.ts:119-125 | text without a line break or ';' is only trimmed |
| Packing.TypeLabel | src/app/pages/pages.component.ts:81 | a missing or empty type name becomes "Sin tipo", any other is kept |
| Packing.IdCell | src/app/pages/pages.component.ts:78 | the id cell is empty exactly when the packing has no id |
| Packing.RowCells | src/app/pages/pages.component.ts:77-83 | each row has as many cells as the header |
| Packing.FormatDate | src/app/pages/pages.component.ts:103-104 | a missing date prints "Sin fecha", and with a day format that never yields ';' or a line feed no date cell breaks a row or a line |
| Packing.RowCellsSafe | src/app/pages/pages.component.ts:77-83 | no cell of a row contains ';' or a line feed |
| Packing.HeaderLineRoundTrip | src/app/pages/pages.component.ts:74-86 | the header line has no line feed and splits back into its five headings |
| Packing.RowLineRoundTrip | src/app/pages/pages.component.ts:77-86 | each packing's line has no line feed and splits back into its five cells |
| Packing.CsvLines | src/app/pages/pages.component.ts:86 | the report has one line more than there are packings |
| Packing.CsvDocument | src/app/pages/pages.component.ts:86-90 | the report starts with the byte order mark U+FEFF |
| Packing.CsvParseBack | src/app/pages/pages.component.ts:74-90 | after the byte order mark, the report splits into the header and one line per filtered packing, each splitting back into exactly its cells |
| Packing.PackingReport.constructor | src/app/pages/pages.component.ts:15-23 | the screen starts empty, on page 1 of 1, with no search text or dates |
| Packing.PackingReport.UpdatePaginatedPackings | src/app/pages/pages.component.ts:53-57 | the shown packings become the current page of the filtered list |
| Packing.PackingReport.Init | src/app/pages/pages.component.ts:27-34 | the loaded packings are shown unfiltered, with the page count of all of them |
| Packing.PackingReport.FilterPackings | src/app/pages/pages.component.ts:36-51 | the filtered list is recomputed, the page count follows it, and the screen goes back to page 1 |
| Packing.PackingReport.NextPage | src/app/pages/pages.component.ts:59-64 | moves forward only while a later page exists, and the shown page follows |
| Packing.PackingReport.PreviousPage | src/app/pages/pages.component.ts:66-71 | moves back only from a page after the first, and the shown page follows |
| Packing.PackingReport.DescargarInforme | src/app/pages/pages.component.ts:73-90 | the downloaded text is the report of the filtered packings, every page included |
| Packing.ShownPageNonEmpty | src/app/pages/pages.component.ts:53-71 | while the filtered list is non-empty, the shown page holds between 1 and 10 packings |
| Packing.PagesCoverFilteredList | src/app/pages/pages.component.ts:48-57 | in every reachable state, reading pages 1..totalPages shows every filtered packing exactly once, in order |

## Left out

- HTTP services and their transport are not modelled. Each call's outcome is an input (`Fetch` or
  a success flag). The formula screen's `getProducts`/`getComponents` lists only feed its
  dropdowns and are not part of this model.
- SweetAlert dialogs and console logging are not modelled. An alert is a returned flag, and a
  confirmation dialog is a boolean input.
- The `isLoading` and `errorMessage` flags, Angular decorators, templates, CSS, and the log-only
  `filterData` are not modelled.
- Two-way template bindings are not methods of the components. They appear only as direct field
  writes, plus `ProductCatalog.CreacionProducto.SetFiltro` for the product filter.
- The image upload after a product create (`subirImagen`) and the asynchronous ordering of that
  create's callback are not modelled. In the source an upload failure skips the reload and the
  modal close.
- The delete flows `eliminarProducto`, `eliminarFormula` and `deleteStockProduct` are not
  modelled. They are a confirmation dialog followed by a request and a reload. Only the user
  screen's `deleteUser` decision is modelled (`Settings.DeleteDecision`).
- Blob, object URL and download-link creation in `descargarInforme` are browser I/O. The model
  stops at the report text.
- Dates are modelled as optional integers (timestamps), compared as numbers. `new Date` parsing,
  invalid dates ("Fecha inválida") and the es-CO locale format are not modelled. The day
  formatter is a parameter `formatDay`.
- Packing.CsvParseBack: the round trip needs the extra assumption that the day format never
  produces ';' or a line feed, which holds for the es-CO "dd/mm/yyyy" format.
- A packing without a packaging-type object throws a TypeError in `filterPackings` when its
  name does not match; the model treats its type name as not matching instead.
- `toLowerCase` folds ASCII letters only, and `trim` uses the fixed ECMAScript whitespace set;
  other Unicode case mappings are not modelled.
- Inventario.StockStatus: requires a positive minimum. With a minimum of 0 or below, JavaScript
  divides into Infinity or NaN. The percentage is computed with exact reals, not IEEE doubles.
- The numeric coercion of `currentStock`/`minimumStock`, which start as strings, is not
  modelled. A form value is either text or a number, and only its truthiness is used.
- Product `creationDate`/`updateDate` are stamped with `now`, an input that stands for the clock.
- A `null` body on a successful product or formula load (`|| []`) is not modelled. A success
  always carries a list.
- `editarProducto` only calls `abrirModal` with the product and is covered by
  `ProductCatalog.CreacionProducto.AbrirModal`.
- The callbacks of `deleteUser`'s request (reload or error alert) are not modelled beyond the
  decision, for the same reason as the other delete flows.
- In the formula screen, `guardarFormula` writes the product and the ingredient array into the
  one `formula` object. The model replaces the `FormulaDto` value held in that field, which keeps
  the sharing of the ingredient array (`Formulas.FailedSaveSharesIngredients`).
- The inventory screen's delete-modal fields (`showDeleteModal`, `itemToDelete`) and `newChemical`
  are never used by its logic and are not modelled.
- A packing's creation date is present or absent. The source's truthiness test on the raw date
  value, and a date that does not parse, are not modelled.
