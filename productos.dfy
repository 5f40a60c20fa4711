/** The product catalogue screen (`CreacionProductoComponent`): a filtered, paginated product
    list, a create/edit modal over a draft product, image selection, and the save decision. */
module ProductCatalog {
  import opened Text
  import opened ListView

  /** A product as the screen holds it. Dates are abstract day numbers. */
  datatype Product = Product(
    idproduct: Option<int>,
    name: string,
    quantity: int,
    unitOfMeasurement: string,
    category: string,
    imageUrl: string,
    creationDate: Option<int>,
    updateDate: Option<int>)

  /** An image chosen in the file input: its MIME type and its size in bytes. */
  datatype File = File(mimeType: string, size: nat)

  const ItemsPerPage: nat := 5
  const MaxImageSize: nat := 5 * 1024 * 1024
  const AllowedImageTypes: seq<string> := ["image/jpeg", "image/png", "image/gif"]

  /** The draft `resetProducto` builds: empty texts, quantity 0, no id and no dates. */
  function EmptyProduct(): (p: Product)
    ensures p.idproduct == None && p.creationDate == None && p.updateDate == None
    ensures p.name == "" && p.category == "" && p.unitOfMeasurement == "" && p.imageUrl == ""
    ensures p.quantity == 0
  {
    Product(None, "", 0, "", "", "", None, None)
  }

  /** A JavaScript id is truthy when it is present and not 0. */
  predicate IdTruthy(id: Option<int>) {
    id.Some? && id.value != 0
  }

  // ---------------------------------------------------------------------------
  // Filtering and pagination

  /** `productosFiltrados`: the whole list when the filter is blank after trimming; otherwise
      the products whose lower-cased name contains the lower-cased, untrimmed filter. */
  function FilterProducts(ps: seq<Product>, filtro: string): (r: seq<Product>)
    ensures IsBlank(filtro) ==> r == ps
    ensures |r| <= |ps| && forall p :: p in r ==> p in ps
  {
    if Trim(filtro) == [] then ps
    else Filter(ps, (p: Product) => NameMatches(p, filtro))
  }

  /** Whether a product's lower-cased name contains the lower-cased filter. */
  predicate NameMatches(p: Product, filtro: string) {
    Contains(Lower(p.name), Lower(filtro))
  }

  /** The filter keeps exactly the matching products, in their order, and a blank filter keeps all. */
  lemma FilterProductsSpec(ps: seq<Product>, filtro: string)
    ensures IsBlank(filtro) ==> FilterProducts(ps, filtro) == ps
    ensures !IsBlank(filtro) ==>
      var r := FilterProducts(ps, filtro);
      && (forall p :: p in r ==> p in ps && NameMatches(p, filtro))
      && (forall i :: 0 <= i < |ps| && NameMatches(ps[i], filtro) ==> ps[i] in r)
      && (var pos := Positions(MaskOf(ps, (p: Product) => NameMatches(p, filtro)));
          |r| == |pos| && forall j :: 0 <= j < |pos| ==> r[j] == ps[pos[j]])
  {
  }

  /** A filter that is whitespace only keeps every product, even though a name need not
      contain that whitespace. */
  lemma BlankFilterKeepsAll()
    ensures FilterProducts([EmptyProduct().(name := "Jabon")], " ") == [EmptyProduct().(name := "Jabon")]
  {
    assert IsBlank(" ");
  }

  /** `paginatedProducts` and `totalPages` of the list: every page fits, the pages rebuild the
      filtered list, and pages past the count are empty. */
  lemma ProductPagesSpec(ps: seq<Product>, filtro: string, page: int)
    ensures var f := FilterProducts(ps, filtro);
      && PagesUpTo(f, ItemsPerPage, CeilDiv(|f|, ItemsPerPage)) == f
      && (page >= 1 ==> |Page(f, page, ItemsPerPage)| <= ItemsPerPage)
      && (1 <= page <= CeilDiv(|f|, ItemsPerPage) ==> Page(f, page, ItemsPerPage) != [])
      && (page > CeilDiv(|f|, ItemsPerPage) ==> Page(f, page, ItemsPerPage) == [])
  {
    var f := FilterProducts(ps, filtro);
    PagesReconstruct(f, ItemsPerPage);
    if 1 <= page <= CeilDiv(|f|, ItemsPerPage) {
      PageInRange(f, page, ItemsPerPage);
    }
    if page > CeilDiv(|f|, ItemsPerPage) {
      PageBeyondCount(f, page, ItemsPerPage);
    }
  }

  // ---------------------------------------------------------------------------
  // Modal, image selection, validation and saving

  /** `findIndex(p => p.idproduct === id)`: the first position with that id, or -1. */
  function FindIndexById(ps: seq<Product>, id: Option<int>): (r: int)
    ensures -1 <= r < |ps|
    ensures r >= 0 ==> ps[r].idproduct == id && forall j :: 0 <= j < r ==> ps[j].idproduct != id
    ensures r == -1 <==> forall j :: 0 <= j < |ps| ==> ps[j].idproduct != id
  {
    if ps == [] then -1
    else if ps[0].idproduct == id then 0
    else
      var k := FindIndexById(ps[1..], id);
      if k == -1 then -1 else k + 1
  }

  /** Why `seleccionarImagen` refuses a file. */
  datatype ImageWarning = FormatNotAllowed | FileTooLarge

  /** The checks of `seleccionarImagen`, the type before the size. */
  function CheckImage(f: File): (r: Option<ImageWarning>)
    ensures r == None <==> f.mimeType in AllowedImageTypes && f.size <= 5242880
    ensures r == Some(FormatNotAllowed) <==> f.mimeType !in AllowedImageTypes
  {
    if f.mimeType !in AllowedImageTypes then Some(FormatNotAllowed)
    else if f.size > MaxImageSize then Some(FileTooLarge)
    else None
  }

  /** Why `validateProducto` refuses a draft. */
  datatype ProductWarning = NameRequired | CategoryRequired

  /** `validateProducto`: the trimmed name, then the trimmed category, must be non-empty. */
  function ValidateProducto(p: Product): (r: Option<ProductWarning>)
    ensures r == None <==> !IsBlank(p.name) && !IsBlank(p.category)
    ensures r == Some(NameRequired) <==> IsBlank(p.name)
    ensures r == Some(CategoryRequired) <==> !IsBlank(p.name) && IsBlank(p.category)
  {
    if Trim(p.name) == [] then Some(NameRequired)
    else if Trim(p.category) == [] then Some(CategoryRequired)
    else None
  }

  /** What `guardarProducto` does: warn and stop, or send one update or one create request. */
  datatype SaveAction =
    | Rejected(warning: ProductWarning)
    | UpdateRequest(id: int, body: Product)
    | CreateRequest(body: Product)

  /** The decision of `guardarProducto` at time `now`. */
  function SaveDecision(draft: Product, editIndex: Option<int>, now: int): (r: SaveAction)
    ensures r.Rejected? <==> ValidateProducto(draft).Some?
    ensures r.Rejected? ==> r.warning == ValidateProducto(draft).value
    ensures r.UpdateRequest? <==> ValidateProducto(draft) == None && editIndex.Some? && IdTruthy(draft.idproduct)
    ensures r.UpdateRequest? ==> r.id == draft.idproduct.value && r.body == draft.(updateDate := Some(now))
    ensures r.CreateRequest? ==> r.body == draft.(creationDate := Some(now))
  {
    match ValidateProducto(draft)
    case Some(w) => Rejected(w)
    case None =>
      if editIndex.Some? && IdTruthy(draft.idproduct) then UpdateRequest(draft.idproduct.value, draft.(updateDate := Some(now)))
      else CreateRequest(draft.(creationDate := Some(now)))
  }

  /** A draft with a blank name or category never reaches the network. */
  lemma InvalidDraftSendsNothing(draft: Product, editIndex: Option<int>, now: int)
    requires IsBlank(draft.name) || IsBlank(draft.category)
    ensures SaveDecision(draft, editIndex, now).Rejected?
  {
  }

  /** A product opened for editing whose id is not in the list gets editIndex -1, which is
      not null, so saving it still updates that id. */
  lemma UnlistedProductIsUpdated(ps: seq<Product>, p: Product, now: int)
    requires forall j :: 0 <= j < |ps| ==> ps[j].idproduct != p.idproduct
    requires IdTruthy(p.idproduct) && !IsBlank(p.name) && !IsBlank(p.category)
    ensures FindIndexById(ps, p.idproduct) == -1
    ensures SaveDecision(p, Some(FindIndexById(ps, p.idproduct)), now) == UpdateRequest(p.idproduct.value, p.(updateDate := Some(now)))
  {
  }

  // ---------------------------------------------------------------------------
  // The component

  class CreacionProducto {
    var productos: seq<Product>
    var nuevoProducto: Product
    var filtro: string
    var editIndex: Option<int>
    var imagenProducto: Option<File>
    var modalAbierto: bool
    var currentPage: int

    ghost predicate Valid()
      reads this
    {
      currentPage >= 1
    }

    constructor ()
      ensures Valid()
      ensures productos == [] && nuevoProducto == EmptyProduct() && filtro == ""
      ensures editIndex == None && imagenProducto == None && !modalAbierto && currentPage == 1
    {
      productos := [];
      nuevoProducto := EmptyProduct();
      filtro := "";
      editIndex := None;
      imagenProducto := None;
      modalAbierto := false;
      currentPage := 1;
    }

    function ProductosFiltrados(): (r: seq<Product>)
      reads this
      ensures IsBlank(filtro) ==> r == productos
      ensures forall p :: p in r ==> p in productos
    {
      FilterProducts(productos, filtro)
    }

    function TotalPages(): (n: nat)
      reads this
      ensures n * ItemsPerPage >= |ProductosFiltrados()|
      ensures n == 0 || (n - 1) * ItemsPerPage < |ProductosFiltrados()|
    {
      CeilDiv(|ProductosFiltrados()|, ItemsPerPage)
    }

    function PaginatedProducts(): (r: seq<Product>)
      requires Valid()
      reads this
      ensures |r| <= ItemsPerPage
      ensures r == [] <==> currentPage > TotalPages()
    {
      PageEmptyIff(ProductosFiltrados(), currentPage, ItemsPerPage);
      Page(ProductosFiltrados(), currentPage, ItemsPerPage)
    }

    /** `cargarProductos` with the outcome of the request; returns whether an alert was shown. */
    method CargarProductos(outcome: Fetch<Product>) returns (alert: bool)
      requires Valid()
      modifies this`productos
      ensures Valid()
      ensures alert <==> outcome.Err? && !IsBenignStatus(outcome.status)
      ensures productos == AfterLoad(old(productos), outcome).items
    {
      var effect := AfterLoad(productos, outcome);
      productos := effect.items;
      alert := effect.alert;
    }

    /** Typing in the search box: the page is not reset. */
    method SetFiltro(text: string)
      requires Valid()
      modifies this`filtro
      ensures Valid() && filtro == text && currentPage == old(currentPage)
    {
      filtro := text;
    }

    /** `goToPage`: moves only to a page between 1 and the page count. */
    method GoToPage(page: int)
      requires Valid()
      modifies this`currentPage
      ensures Valid()
      ensures currentPage == if 1 <= page <= old(TotalPages()) then page else old(currentPage)
      ensures 1 <= page <= old(TotalPages()) ==> PaginatedProducts() != []
    {
      if 1 <= page <= TotalPages() {
        currentPage := page;
        PageInRange(ProductosFiltrados(), page, ItemsPerPage);
      }
    }

    /** `abrirModal(producto?)`: copies the product in (remembering where it is in the list)
        or resets the draft, then opens the modal with no image selected. */
    method AbrirModal(producto: Option<Product>)
      requires Valid()
      modifies this`nuevoProducto, this`editIndex, this`modalAbierto, this`imagenProducto
      ensures Valid() && modalAbierto && imagenProducto == None
      ensures producto.Some? ==>
                nuevoProducto == producto.value
                && editIndex == Some(FindIndexById(productos, producto.value.idproduct))
      ensures producto.None? ==> nuevoProducto == EmptyProduct() && editIndex == None
    {
      if producto.Some? {
        nuevoProducto := producto.value;
        editIndex := Some(FindIndexById(productos, producto.value.idproduct));
      } else {
        nuevoProducto := EmptyProduct();
        editIndex := None;
      }
      modalAbierto := true;
      imagenProducto := None;
    }

    /** `resetForm`. */
    method ResetForm()
      requires Valid()
      modifies this`nuevoProducto, this`editIndex, this`imagenProducto
      ensures Valid() && nuevoProducto == EmptyProduct() && editIndex == None && imagenProducto == None
    {
      nuevoProducto := EmptyProduct();
      editIndex := None;
      imagenProducto := None;
    }

    /** `cerrarModal`: closes the modal and discards the draft. */
    method CerrarModal()
      requires Valid()
      modifies this`modalAbierto, this`nuevoProducto, this`editIndex, this`imagenProducto
      ensures Valid() && !modalAbierto
      ensures nuevoProducto == EmptyProduct() && editIndex == None && imagenProducto == None
    {
      modalAbierto := false;
      ResetForm();
    }

    /** `seleccionarImagen`: keeps the chosen file only when it passes `CheckImage`. */
    method SeleccionarImagen(file: Option<File>) returns (warning: Option<ImageWarning>)
      requires Valid()
      modifies this`imagenProducto
      ensures Valid()
      ensures warning == (if file.Some? then CheckImage(file.value) else None)
      ensures imagenProducto == if file.Some? && warning == None then file else old(imagenProducto)
    {
      warning := None;
      if file.Some? {
        warning := CheckImage(file.value);
        if warning == None {
          imagenProducto := file;
        }
      }
    }

    /** The synchronous part of `guardarProducto`: validate, stamp the draft's date, and
        choose the request. */
    method GuardarProducto(now: int) returns (action: SaveAction)
      requires Valid()
      modifies this`nuevoProducto
      ensures Valid()
      ensures action == SaveDecision(old(nuevoProducto), editIndex, now)
      ensures nuevoProducto == match action
        case Rejected(_) => old(nuevoProducto)
        case UpdateRequest(_, body) => body
        case CreateRequest(body) => body
    {
      action := SaveDecision(nuevoProducto, editIndex, now);
      match action
      case Rejected(_) =>
      case UpdateRequest(_, body) => nuevoProducto := body;
      case CreateRequest(body) => nuevoProducto := body;
    }

    /** The request's callbacks: on success the list is fetched again and the modal closes;
        on failure the modal and the draft stay as they are for a retry. */
    method FinishSave(succeeded: bool, reload: Fetch<Product>) returns (alert: bool)
      requires Valid()
      modifies this`productos, this`modalAbierto, this`nuevoProducto, this`editIndex, this`imagenProducto
      ensures Valid()
      ensures succeeded ==>
                && productos == AfterLoad(old(productos), reload).items
                && alert == AfterLoad(old(productos), reload).alert
                && !modalAbierto && nuevoProducto == EmptyProduct() && editIndex == None && imagenProducto == None
      ensures !succeeded ==>
                && alert && productos == old(productos) && modalAbierto == old(modalAbierto)
                && nuevoProducto == old(nuevoProducto) && editIndex == old(editIndex)
                && imagenProducto == old(imagenProducto)
    {
      if succeeded {
        alert := CargarProductos(reload);
        CerrarModal();
      } else {
        alert := true;
      }
    }
  }

  /** Narrowing the filter does not reset the page, so the screen can be left past the last
      page: six products, page 2, then a filter that matches none of them. */
  method FilterChangeCanLeaveEmptyPage() returns (page: int, totalPages: nat, shown: seq<Product>)
    ensures page == 2 && totalPages == 0 && shown == []
  {
    var c := new CreacionProducto();
    var a := EmptyProduct().(name := "a");
    var _ := c.CargarProductos(Ok([a, a, a, a, a, a]));
    assert IsBlank(c.filtro);
    assert c.TotalPages() == 2;
    c.GoToPage(2);
    c.SetFiltro("z");
    assert !IsWhitespace("z"[0]);
    assert Lower("a") == "a" && Lower("z") == ['z'];
    AbsentCharNotContained("a", 'z');
    FilterNone([a, a, a, a, a, a], (p: Product) => NameMatches(p, "z"));
    assert c.ProductosFiltrados() == [];
    page, totalPages, shown := c.currentPage, c.TotalPages(), c.PaginatedProducts();
  }
}
