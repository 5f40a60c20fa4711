/** The formula screen (`FormulaComponent`): formulas browsed one per page by a 0-based index,
    and a modal that edits a formula's ingredient array in place. */
module Formulas {
  import opened ListView

  /** One ingredient row: the component id (`nombre`), its name, quantity and unit. */
  datatype Ingredient = Ingredient(nombre: int, name: string, cantidad: int, unidad: string)

  /** The row `agregarIngrediente` pushes. */
  const DefaultIngredient: Ingredient := Ingredient(0, "", 0, "")

  /** A JavaScript array of ingredients: one object that `push` and `splice` change in place. */
  class IngredientList {
    var items: seq<Ingredient>

    constructor (items: seq<Ingredient>)
      ensures this.items == items
    {
      this.items := items;
    }
  }

  /** A formula: the product it belongs to and a reference to its ingredient array. */
  datatype FormulaDto = FormulaDto(producto: int, ingredientes: IngredientList)

  const ItemsPerPage: nat := 1

  /** `s.splice(index, 1)` on what remains: a negative index counts from the end, and an index
      at or past the end removes nothing. */
  function SpliceOne<T>(s: seq<T>, index: int): (r: seq<T>)
    ensures 0 <= index < |s| ==>
              && |r| == |s| - 1
              && (forall j :: 0 <= j < index ==> r[j] == s[j])
              && (forall j :: index <= j < |r| ==> r[j] == s[j + 1])
    ensures index >= |s| ==> r == s
  {
    var start := SliceIndex(index, |s|);
    if start < |s| then s[..start] + s[start + 1..] else s
  }

  /** Removing the row just added restores the list. */
  lemma SpliceUndoesPush<T>(s: seq<T>, x: T)
    ensures SpliceOne(s + [x], |s|) == s
  {
  }

  /** A negative index removes the element that many places from the end. */
  lemma SpliceNegative<T>(s: seq<T>, index: int)
    requires -|s| <= index < 0
    ensures SpliceOne(s, index) == SpliceOne(s, |s| + index)
  {
  }

  /** Why `guardarFormula` refuses to send the formula. */
  datatype FormulaWarning = ProductRequired | IngredientsRequired

  /** A JavaScript product id is falsy when it is undefined or 0. */
  predicate ProductFalsy(selected: Option<int>) {
    selected == None || selected == Some(0)
  }

  /** The checks of `guardarFormula`: a product must be chosen, then at least one ingredient. */
  function CheckFormula(selected: Option<int>, ingredientCount: nat): (r: Option<FormulaWarning>)
    ensures r == Some(ProductRequired) <==> ProductFalsy(selected)
    ensures r == Some(IngredientsRequired) <==> !ProductFalsy(selected) && ingredientCount == 0
    ensures r == None ==> selected.Some? && selected.value != 0 && ingredientCount > 0
  {
    if ProductFalsy(selected) then Some(ProductRequired)
    else if ingredientCount == 0 then Some(IngredientsRequired)
    else None
  }

  /** `formulas.slice(i * ItemsPerPage, i * ItemsPerPage + ItemsPerPage)`: the formula at index
      `i` when there is one, and nothing otherwise. */
  function FormulaWindow(formulas: seq<FormulaDto>, i: int): (r: seq<FormulaDto>)
    requires i >= 0
    ensures |r| <= 1
    ensures i < |formulas| ==> r == [formulas[i]]
    ensures i >= |formulas| ==> r == []
  {
    JsSlice(formulas, i * ItemsPerPage, i * ItemsPerPage + ItemsPerPage)
  }

  /** With one formula per page, the page count is the number of formulas. */
  lemma OneFormulaPerPage(n: nat)
    ensures CeilDiv(n, ItemsPerPage) == n
  {
  }

  class FormulaEditor {
    var formulas: seq<FormulaDto>
    var currentFormulaIndex: int
    var totalPages: int
    var formulasPaginadas: seq<FormulaDto>
    var selectedProducto: Option<int>
    var ingredientes: IngredientList
    var editingFormulaIndex: Option<int>
    var isModalOpen: bool
    var formula: FormulaDto

    ghost predicate Valid()
      reads this
    {
      currentFormulaIndex >= 0
    }

    constructor ()
      ensures Valid()
      ensures formulas == [] && currentFormulaIndex == 0 && totalPages == 0 && formulasPaginadas == []
      ensures selectedProducto == None && fresh(ingredientes) && ingredientes.items == []
      ensures editingFormulaIndex == None && !isModalOpen
      ensures formula.producto == 0 && fresh(formula.ingredientes) && formula.ingredientes.items == []
    {
      formulas := [];
      currentFormulaIndex := 0;
      totalPages := 0;
      formulasPaginadas := [];
      selectedProducto := None;
      ingredientes := new IngredientList([]);
      editingFormulaIndex := None;
      isModalOpen := false;
      var empty := new IngredientList([]);
      formula := FormulaDto(0, empty);
    }

    /** `actualizarFormulasPaginadas`. */
    method ActualizarFormulasPaginadas()
      requires Valid()
      modifies this`formulasPaginadas
      ensures Valid()
      ensures formulasPaginadas == FormulaWindow(formulas, currentFormulaIndex)
    {
      formulasPaginadas := FormulaWindow(formulas, currentFormulaIndex);
    }

    /** `getRecipe` with the outcome of the request; returns whether an alert was shown.
        The index is never reset, and a benign failure leaves the shown window as it was. */
    method GetRecipe(outcome: Fetch<FormulaDto>) returns (alert: bool)
      requires Valid()
      modifies this`formulas, this`totalPages, this`formulasPaginadas
      ensures Valid() && currentFormulaIndex == old(currentFormulaIndex)
      ensures alert <==> outcome.Err? && !IsBenignStatus(outcome.status)
      ensures outcome.Ok? ==>
                && formulas == outcome.items
                && totalPages == |outcome.items|
                && formulasPaginadas == FormulaWindow(formulas, currentFormulaIndex)
      ensures outcome.Err? && IsBenignStatus(outcome.status) ==>
                formulas == [] && totalPages == 0 && formulasPaginadas == old(formulasPaginadas)
      ensures alert ==>
                formulas == old(formulas) && totalPages == old(totalPages)
                && formulasPaginadas == old(formulasPaginadas)
    {
      alert := false;
      match outcome
      case Ok(items) =>
        formulas := items;
        totalPages := CeilDiv(|formulas|, ItemsPerPage);
        OneFormulaPerPage(|formulas|);
        ActualizarFormulasPaginadas();
      case Err(status) =>
        if IsBenignStatus(status) {
          formulas := [];
          totalPages := 0;
        } else {
          alert := true;
        }
    }

    /** `irAFormulaAnterior`: steps back only from an index above 0. */
    method IrAFormulaAnterior()
      requires Valid()
      modifies this`currentFormulaIndex, this`formulasPaginadas
      ensures Valid()
      ensures old(currentFormulaIndex) > 0 ==>
                currentFormulaIndex == old(currentFormulaIndex) - 1
                && formulasPaginadas == FormulaWindow(formulas, currentFormulaIndex)
      ensures old(currentFormulaIndex) == 0 ==>
                currentFormulaIndex == 0 && formulasPaginadas == old(formulasPaginadas)
    {
      if currentFormulaIndex > 0 {
        currentFormulaIndex := currentFormulaIndex - 1;
        ActualizarFormulasPaginadas();
      }
    }

    /** `irAFormulaSiguiente`: steps forward only while below the last page. */
    method IrAFormulaSiguiente()
      requires Valid()
      modifies this`currentFormulaIndex, this`formulasPaginadas
      ensures Valid()
      ensures old(currentFormulaIndex) < totalPages - 1 ==>
                currentFormulaIndex == old(currentFormulaIndex) + 1
                && formulasPaginadas == FormulaWindow(formulas, currentFormulaIndex)
      ensures old(currentFormulaIndex) >= totalPages - 1 ==>
                currentFormulaIndex == old(currentFormulaIndex) && formulasPaginadas == old(formulasPaginadas)
    {
      if currentFormulaIndex < totalPages - 1 {
        currentFormulaIndex := currentFormulaIndex + 1;
        ActualizarFormulasPaginadas();
      }
    }

    /** `abrirModal(isEditMode)`: opens the modal; only the create mode clears the draft,
        with a new empty ingredient array. */
    method AbrirModal(isEditMode: bool)
      requires Valid()
      modifies this`isModalOpen, this`selectedProducto, this`ingredientes, this`editingFormulaIndex
      ensures Valid() && isModalOpen
      ensures !isEditMode ==>
                selectedProducto == Some(0) && fresh(ingredientes) && ingredientes.items == []
                && editingFormulaIndex == None
      ensures isEditMode ==>
                selectedProducto == old(selectedProducto) && ingredientes == old(ingredientes)
                && editingFormulaIndex == old(editingFormulaIndex)
    {
      isModalOpen := true;
      if !isEditMode {
        selectedProducto := Some(0);
        ingredientes := new IngredientList([]);
        editingFormulaIndex := None;
      }
    }

    /** `cerrarModal`: closes the modal and clears the draft, with a new empty ingredient array. */
    method CerrarModal()
      requires Valid()
      modifies this`isModalOpen, this`selectedProducto, this`ingredientes, this`editingFormulaIndex
      ensures Valid() && !isModalOpen
      ensures selectedProducto == Some(0) && fresh(ingredientes) && ingredientes.items == []
      ensures editingFormulaIndex == None
    {
      isModalOpen := false;
      selectedProducto := Some(0);
      ingredientes := new IngredientList([]);
      editingFormulaIndex := None;
    }

    /** `agregarIngrediente`: pushes one default row onto the draft's array. */
    method AgregarIngrediente()
      requires Valid()
      modifies ingredientes
      ensures Valid()
      ensures ingredientes.items == old(ingredientes.items) + [DefaultIngredient]
    {
      ingredientes.items := ingredientes.items + [DefaultIngredient];
    }

    /** `eliminarIngrediente(index)`: splices one row out of the draft's array. */
    method EliminarIngrediente(index: int)
      requires Valid()
      modifies ingredientes
      ensures Valid()
      ensures ingredientes.items == SpliceOne(old(ingredientes.items), index)
    {
      ingredientes.items := SpliceOne(ingredientes.items, index);
    }

    /** The synchronous part of `guardarFormula`: check the draft, then point the formula to
        be sent at the selected product and at the draft's own ingredient array (no copy). */
    method GuardarFormula() returns (warning: Option<FormulaWarning>)
      requires Valid()
      modifies this`formula
      ensures Valid()
      ensures warning == CheckFormula(selectedProducto, |ingredientes.items|)
      ensures warning == None ==> formula == FormulaDto(selectedProducto.value, ingredientes)
      ensures warning != None ==> formula == old(formula)
    {
      warning := CheckFormula(selectedProducto, |ingredientes.items|);
      if warning == None {
        formula := FormulaDto(selectedProducto.value, ingredientes);
      }
    }

    /** The request's callbacks: on success the modal closes and the formulas are fetched
        again; on failure everything stays for a retry. */
    method FinishGuardar(succeeded: bool, reload: Fetch<FormulaDto>) returns (alert: bool)
      requires Valid()
      modifies this`isModalOpen, this`selectedProducto, this`ingredientes, this`editingFormulaIndex
      modifies this`formulas, this`totalPages, this`formulasPaginadas
      ensures Valid()
      ensures succeeded ==>
                && !isModalOpen && selectedProducto == Some(0) && fresh(ingredientes) && ingredientes.items == []
                && editingFormulaIndex == None
                && (alert <==> reload.Err? && !IsBenignStatus(reload.status))
      ensures succeeded && reload.Ok? ==>
                && formulas == reload.items && totalPages == |reload.items|
                && formulasPaginadas == FormulaWindow(formulas, currentFormulaIndex)
      ensures succeeded && reload.Err? && IsBenignStatus(reload.status) ==>
                formulas == [] && totalPages == 0 && formulasPaginadas == old(formulasPaginadas)
      ensures succeeded && alert ==>
                formulas == old(formulas) && totalPages == old(totalPages)
                && formulasPaginadas == old(formulasPaginadas)
      ensures !succeeded ==>
                && alert && isModalOpen == old(isModalOpen) && selectedProducto == old(selectedProducto)
                && ingredientes == old(ingredientes) && editingFormulaIndex == old(editingFormulaIndex)
                && formulas == old(formulas) && totalPages == old(totalPages)
                && formulasPaginadas == old(formulasPaginadas)
      ensures formula == old(formula) && currentFormulaIndex == old(currentFormulaIndex)
    {
      if succeeded {
        CerrarModal();
        alert := GetRecipe(reload);
      } else {
        alert := true;
      }
    }

    /** `editarFormula(f)`: opens the modal on the formula's product and on a deep copy of
        its ingredients; `editingFormulaIndex` is left as it was. */
    method EditarFormula(f: FormulaDto)
      requires Valid()
      modifies this`isModalOpen, this`selectedProducto, this`ingredientes
      ensures Valid() && isModalOpen
      ensures selectedProducto == Some(f.producto)
      ensures fresh(ingredientes) && ingredientes.items == f.ingredientes.items
      ensures editingFormulaIndex == old(editingFormulaIndex)
    {
      isModalOpen := true;
      selectedProducto := Some(f.producto);
      ingredientes := new IngredientList(f.ingredientes.items);
    }
  }

  /** Editing a formula works on a copy: adding and removing rows afterwards never changes the
      formula's own ingredients. */
  method EditingLeavesSourceFormula(e: FormulaEditor, f: FormulaDto, index: int)
    requires e.Valid()
    modifies e, e.ingredientes
    ensures f.ingredientes.items == old(f.ingredientes.items)
    ensures e.ingredientes.items == SpliceOne(old(f.ingredientes.items) + [DefaultIngredient], index)
  {
    e.EditarFormula(f);
    e.AgregarIngrediente();
    e.EliminarIngrediente(index);
  }

  /** Saving hands over the draft's array itself: after a failed request, a row added in the
      still open modal also shows up in the formula that was sent. */
  method FailedSaveSharesIngredients(e: FormulaEditor)
    requires e.Valid()
    requires CheckFormula(e.selectedProducto, |e.ingredientes.items|) == None
    modifies e, e.ingredientes
    ensures e.formula.ingredientes == e.ingredientes
    ensures e.formula.ingredientes.items == old(e.ingredientes.items) + [DefaultIngredient]
  {
    var warning := e.GuardarFormula();
    var alert := e.FinishGuardar(false, Ok([]));
    e.AgregarIngrediente();
  }
}
