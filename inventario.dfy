/** The inventory screen (`InventarioComponent`): stock components with a low/sufficient status,
    a filtered list paginated four at a time, and create/edit modals. The list holds objects:
    `editStock` makes the edit form share the list element itself. */
module Inventario {
  import opened Text
  import opened ListView

  /** A form value that may hold text (the initial '') or a number. */
  datatype FieldValue = Str(s: string) | Num(n: int)

  /** JavaScript truthiness of a form value. */
  predicate Truthy(v: FieldValue) {
    match v
    case Str(s) => s != ""
    case Num(n) => n != 0
  }

  /** A stock component, an object shared between the list and the edit form. */
  class StockItem {
    var idcomponent: Option<int>
    var name: string
    var quantity: int
    var currentStock: FieldValue
    var minimumStock: FieldValue
    var unitOfMeasurement: string

    /** The literal `{ name: '', quantity: 0, currentStock: '', minimumStock: '', unitOfMeasurement: '' }`. */
    constructor Blank()
      ensures IsBlankItem()
    {
      idcomponent := None;
      name := "";
      quantity := 0;
      currentStock := Str("");
      minimumStock := Str("");
      unitOfMeasurement := "";
    }

    ghost predicate IsBlankItem()
      reads this
    {
      idcomponent == None && name == "" && quantity == 0 && currentStock == Str("")
      && minimumStock == Str("") && unitOfMeasurement == ""
    }
  }

  const ItemsPerPage: nat := 4
  const StockThreshold: int := 50

  /** `getStockStatus`: "bajo" when stock exceeds the minimum by at most 50 percent of it. */
  function StockStatus(currentStock: int, minimumStock: int): (r: string)
    requires minimumStock > 0
    ensures r == "bajo" || r == "suficiente"
  {
    var difference := ((currentStock - minimumStock) as real / minimumStock as real) * 100.0;
    if difference <= StockThreshold as real then "bajo" else "suficiente"
  }

  /** The percentage rule in integers: low exactly when 2 * current <= 3 * minimum. */
  lemma StockStatusLowIff(currentStock: int, minimumStock: int)
    requires minimumStock > 0
    ensures StockStatus(currentStock, minimumStock) == "bajo" <==> 2 * currentStock <= 3 * minimumStock
  {
    var c, m := currentStock as real, minimumStock as real;
    var q := (c - m) / m;
    assert q * m == c - m;
    assert q * 100.0 <= 50.0 <==> q <= 0.5;
    ScaleByPositive(q, 0.5, m);
  }

  /** Multiplying both sides by a positive number keeps an inequality between reals. */
  lemma ScaleByPositive(x: real, y: real, m: real)
    requires m > 0.0
    ensures x <= y <==> x * m <= y * m
  {
  }

  /** The status of the sample components 40/100, 150/100 (the boundary) and 160/100. */
  lemma StockStatusExamples()
    ensures StockStatus(40, 100) == "bajo"
    ensures StockStatus(150, 100) == "bajo"
    ensures StockStatus(160, 100) == "suficiente"
  {
    StockStatusLowIff(40, 100);
    StockStatusLowIff(150, 100);
    StockStatusLowIff(160, 100);
  }

  /** `getStatusColor`: only "bajo" gets the low badge. */
  function StatusColor(status: string): (r: string)
    ensures r == "badge-low" <==> status == "bajo"
    ensures r == "badge-low" || r == "badge-sufficient"
  {
    if status == "bajo" then "badge-low" else "badge-sufficient"
  }

  /** The badge a component shows. */
  lemma BadgeOfComponent(currentStock: int, minimumStock: int)
    requires minimumStock > 0
    ensures StatusColor(StockStatus(currentStock, minimumStock)) ==
            if 2 * currentStock <= 3 * minimumStock then "badge-low" else "badge-sufficient"
  {
    StockStatusLowIff(currentStock, minimumStock);
  }

  /** The required-field check of `saveStockProduct` and `updateStockProduct`: name, unit,
      current and minimum stock truthy, nothing trimmed, quantity not looked at. */
  predicate StockFieldsFilled(name: string, unitOfMeasurement: string, currentStock: FieldValue, minimumStock: FieldValue): (b: bool)
    ensures b <==> name != "" && unitOfMeasurement != ""
                   && currentStock !in {Str(""), Num(0)} && minimumStock !in {Str(""), Num(0)}
  {
    name != "" && unitOfMeasurement != "" && Truthy(currentStock) && Truthy(minimumStock)
  }

  /** Whether each component's lower-cased name contains `term`. */
  function NameMask(items: seq<StockItem>, term: string): (m: seq<bool>)
    reads items
    ensures |m| == |items|
    ensures forall i :: 0 <= i < |items| ==> m[i] == Contains(Lower(items[i].name), term)
  {
    seq(|items|, i reads items requires 0 <= i < |items| => Contains(Lower(items[i].name), term))
  }

  /** `getFilteredComponents`: the whole list for the empty term (not trimmed); otherwise the
      components whose lower-cased name contains the lower-cased term. */
  function FilterComponents(items: seq<StockItem>, searchTerm: string): (r: seq<StockItem>)
    reads items
    ensures searchTerm == "" ==> r == items
    ensures |r| <= |items| && forall x :: x in r ==> x in items
  {
    if searchTerm == "" then items else Select(items, NameMask(items, Lower(searchTerm)))
  }

  /** The filtered list is the matching components, in their order; the empty term matches all. */
  lemma FilterComponentsSpec(items: seq<StockItem>, searchTerm: string)
    ensures searchTerm == "" ==> FilterComponents(items, searchTerm) == items
    ensures var mask := NameMask(items, Lower(searchTerm));
      && FilterComponents(items, searchTerm) == Select(items, mask)
      && |FilterComponents(items, searchTerm)| == |Positions(mask)|
      && forall j :: 0 <= j < |Positions(mask)| ==>
           FilterComponents(items, searchTerm)[j] == items[Positions(mask)[j]]
  {
    var mask := NameMask(items, Lower(searchTerm));
    if searchTerm == "" {
      forall i | 0 <= i < |items| ensures mask[i] {
        ContainsEmpty(Lower(items[i].name));
      }
      SelectAll(items, mask);
    }
    SelectIsOrderedSelection(items, mask);
  }

  class InventarioScreen {
    var componentes: seq<StockItem>
    var searchTerm: string
    var selectedItem: StockItem
    var showCreateModal: bool
    var stock: StockItem
    var currentPage: int

    ghost predicate Valid()
      reads this
    {
      currentPage >= 1
    }

    constructor ()
      ensures Valid()
      ensures componentes == [] && searchTerm == "" && !showCreateModal && currentPage == 1
      ensures fresh(selectedItem) && selectedItem.IsBlankItem()
      ensures fresh(stock) && stock.IsBlankItem() && stock != selectedItem
    {
      componentes := [];
      searchTerm := "";
      selectedItem := new StockItem.Blank();
      showCreateModal := false;
      stock := new StockItem.Blank();
      currentPage := 1;
    }

    function GetFilteredComponents(): (r: seq<StockItem>)
      reads this, componentes
      ensures searchTerm == "" ==> r == componentes
      ensures forall x :: x in r ==> x in componentes
    {
      FilterComponents(componentes, searchTerm)
    }

    function TotalPages(): (n: nat)
      reads this, componentes
      ensures n * ItemsPerPage >= |GetFilteredComponents()|
      ensures n == 0 || (n - 1) * ItemsPerPage < |GetFilteredComponents()|
    {
      CeilDiv(|GetFilteredComponents()|, ItemsPerPage)
    }

    function PaginatedComponents(): (r: seq<StockItem>)
      requires Valid()
      reads this, componentes
      ensures |r| <= ItemsPerPage
      ensures r == [] <==> currentPage > TotalPages()
    {
      PageEmptyIff(GetFilteredComponents(), currentPage, ItemsPerPage);
      Page(GetFilteredComponents(), currentPage, ItemsPerPage)
    }

    /** `fetchComponents`: the list is replaced on success; a failure is only logged. */
    method FetchComponents(outcome: Fetch<StockItem>)
      requires Valid()
      modifies this`componentes
      ensures Valid()
      ensures componentes == if outcome.Ok? then outcome.items else old(componentes)
    {
      if outcome.Ok? {
        componentes := outcome.items;
      }
    }

    /** `goToPage`: moves only to a page between 1 and the page count. */
    method GoToPage(page: int)
      requires Valid()
      modifies this`currentPage
      ensures Valid()
      ensures currentPage == if 1 <= page <= old(TotalPages()) then page else old(currentPage)
      ensures 1 <= page <= old(TotalPages()) ==> PaginatedComponents() != []
    {
      if 1 <= page <= TotalPages() {
        currentPage := page;
        PageInRange(GetFilteredComponents(), page, ItemsPerPage);
      }
    }

    /** `editStock(item)`: the form now edits `item` itself, not a copy. */
    method EditStock(item: StockItem)
      requires Valid()
      modifies this`selectedItem
      ensures Valid() && selectedItem == item
    {
      selectedItem := item;
    }

    /** `closeModal`: the form gets a new blank object; the object it held is not touched. */
    method CloseModal()
      requires Valid()
      modifies this`selectedItem
      ensures Valid() && fresh(selectedItem) && selectedItem.IsBlankItem()
    {
      selectedItem := new StockItem.Blank();
    }

    /** `openCreateModal`. */
    method OpenCreateModal()
      requires Valid()
      modifies this`showCreateModal, this`stock
      ensures Valid() && showCreateModal && fresh(stock) && stock.IsBlankItem()
    {
      showCreateModal := true;
      stock := new StockItem.Blank();
    }

    /** `closeCreateModal`. */
    method CloseCreateModal()
      requires Valid()
      modifies this`showCreateModal, this`stock
      ensures Valid() && !showCreateModal && fresh(stock) && stock.IsBlankItem()
    {
      stock := new StockItem.Blank();
      showCreateModal := false;
    }

    /** The check of `saveStockProduct`: whether the create request is sent. */
    method SaveStockProduct() returns (requested: bool)
      ensures requested <==> StockFieldsFilled(stock.name, stock.unitOfMeasurement, stock.currentStock, stock.minimumStock)
    {
      requested := StockFieldsFilled(stock.name, stock.unitOfMeasurement, stock.currentStock, stock.minimumStock);
    }

    /** The check of `updateStockProduct`: whether the update request is sent, and for which id. */
    method UpdateStockProduct() returns (requested: bool, id: Option<int>)
      ensures requested <==>
                StockFieldsFilled(selectedItem.name, selectedItem.unitOfMeasurement, selectedItem.currentStock, selectedItem.minimumStock)
      ensures id == selectedItem.idcomponent
    {
      requested := StockFieldsFilled(selectedItem.name, selectedItem.unitOfMeasurement,
                                     selectedItem.currentStock, selectedItem.minimumStock);
      id := selectedItem.idcomponent;
    }

    /** The callbacks of the create request: on success the create modal closes and the list
        is fetched again; on failure an error alert is shown and nothing changes. */
    method FinishCreate(succeeded: bool, reload: Fetch<StockItem>) returns (alert: bool)
      requires Valid()
      modifies this`showCreateModal, this`stock, this`componentes
      ensures Valid() && (alert <==> !succeeded)
      ensures succeeded ==>
                && !showCreateModal && fresh(stock) && stock.IsBlankItem()
                && componentes == (if reload.Ok? then reload.items else old(componentes))
      ensures !succeeded ==>
                showCreateModal == old(showCreateModal) && stock == old(stock) && componentes == old(componentes)
    {
      alert := !succeeded;
      if succeeded {
        CloseCreateModal();
        FetchComponents(reload);
      }
    }

    /** The callbacks of the update request: on success the form is detached and the list is
        fetched again; on failure an error alert is shown and nothing changes. */
    method FinishUpdate(succeeded: bool, reload: Fetch<StockItem>) returns (alert: bool)
      requires Valid()
      modifies this`selectedItem, this`componentes
      ensures Valid() && (alert <==> !succeeded)
      ensures succeeded ==>
                && fresh(selectedItem) && selectedItem.IsBlankItem()
                && componentes == (if reload.Ok? then reload.items else old(componentes))
      ensures !succeeded ==> selectedItem == old(selectedItem) && componentes == old(componentes)
    {
      alert := !succeeded;
      if succeeded {
        CloseModal();
        FetchComponents(reload);
      }
    }
  }

  /** `paginatedComponents` and `totalPages`: every page holds at most four components, the
      pages rebuild the filtered list, and a page in range is never empty. */
  lemma ComponentPagesSpec(screen: InventarioScreen, page: int)
    ensures var f := screen.GetFilteredComponents();
      && PagesUpTo(f, ItemsPerPage, screen.TotalPages()) == f
      && (page >= 1 ==> |Page(f, page, ItemsPerPage)| <= ItemsPerPage)
      && (1 <= page <= screen.TotalPages() ==> Page(f, page, ItemsPerPage) != [])
      && (page > screen.TotalPages() ==> Page(f, page, ItemsPerPage) == [])
  {
    var f := screen.GetFilteredComponents();
    PagesReconstruct(f, ItemsPerPage);
    if 1 <= page <= screen.TotalPages() {
      PageInRange(f, page, ItemsPerPage);
    }
    if page > screen.TotalPages() {
      PageBeyondCount(f, page, ItemsPerPage);
    }
  }

  /** Typing in the edit form after `editStock` changes the listed component itself. */
  method EditingSharesListElement(screen: InventarioScreen, i: nat, newName: string)
    requires screen.Valid() && i < |screen.componentes|
    modifies screen, screen.componentes[i]
    ensures screen.componentes == old(screen.componentes)
    ensures screen.componentes[i].name == newName
  {
    screen.EditStock(screen.componentes[i]);
    screen.selectedItem.name := newName;
  }

  /** After `closeModal` the form holds a new object: typing in it leaves every listed
      component as it was. */
  method ClosedFormIsDetached(screen: InventarioScreen, i: nat, newName: string)
    requires screen.Valid() && i < |screen.componentes|
    modifies screen
    ensures screen.componentes == old(screen.componentes)
    ensures screen.componentes[i].name == old(screen.componentes[i].name)
  {
    screen.EditStock(screen.componentes[i]);
    screen.CloseModal();
    screen.selectedItem.name := newName;
  }
}
