/**
 * The product grids: how one `products` row becomes a card (image, stock badge,
 * link, delete button), what each grid shows for a failed, empty or non-empty
 * listing, and how a click on a card moves the location hash.
 */
module Products {
  import opened Wrappers
  import opened Text
  import opened Seqs

  const CardPlaceholder := "https://via.placeholder.com/600x600?text=No+Image"
  const ProductLink := "#product?id="
  const ShopHash := "#shop"
  const DefaultTitle := "Product"

  /** A `products` row as the grid selects it; a missing number is `None`, a missing text "". */
  datatype ProductRecord = ProductRecord(
    id: string, name: string, itemType: string,
    imageUrls: Option<string>, stock: Option<int>, price: Option<int>)

  /** `firstImage`: the first entry of the image list, or the card placeholder. */
  function CardImage(csv: Option<string>): (r: string)
    ensures r == CardPlaceholder || IsEntry(r)
    ensures r != CardPlaceholder ==> csv.Some? && ParseCsv(csv.value) != [] && r == ParseCsv(csv.value)[0]
  {
    FirstEntryOr(if csv.Some? then csv.value else "", CardPlaceholder)
  }

  /** The placeholder shows exactly when the row has no image entry (or its first entry is the placeholder's own address). */
  lemma CardImageFallbackIff(csv: Option<string>)
    ensures CardImage(csv) == CardPlaceholder <==>
      csv.None? || ParseCsv(csv.value) == [] || ParseCsv(csv.value)[0] == CardPlaceholder
  {
  }

  /** `(p.stock ?? 0) <= 0`. */
  predicate OutOfStock(stock: Option<int>) {
    (if stock.Some? then stock.value else 0) <= 0
  }

  /** The link of a card; the id is taken as `encodeURIComponent` leaves it. */
  function CardHref(id: string): (r: string)
    ensures StartsWith(r, ProductLink)
    ensures r[|ProductLink|..] == id
  {
    ProductLink + id
  }

  /** What a rendered card shows. */
  datatype Card = Card(
    href: string, image: string, title: string, outOfStock: bool, deletable: bool,
    name: string, itemType: string, price: int)

  /** `productCard(p, { deletable })`. */
  function ProductCard(p: ProductRecord, deletable: bool): (c: Card)
    ensures c.href == CardHref(p.id) && c.deletable == deletable
    ensures c.outOfStock <==> OutOfStock(p.stock)
    ensures c.image == CardImage(p.imageUrls)
    ensures c.title != []
  {
    Card(CardHref(p.id), CardImage(p.imageUrls), if p.name != [] then p.name else DefaultTitle,
      OutOfStock(p.stock), deletable, p.name, p.itemType, if p.price.Some? then p.price.value else 0)
  }

  /** A card shows the out-of-stock badge for a missing stock or one of at most zero, and never for a positive stock. */
  lemma CardStockBadge(p: ProductRecord, deletable: bool)
    ensures p.stock.None? ==> ProductCard(p, deletable).outOfStock
    ensures p.stock.Some? && p.stock.value <= 0 ==> ProductCard(p, deletable).outOfStock
    ensures p.stock.Some? && p.stock.value > 0 ==> !ProductCard(p, deletable).outOfStock
  {
  }

  /** Distinct products get distinct links. */
  lemma CardHrefInjective(a: string, b: string)
    requires CardHref(a) == CardHref(b)
    ensures a == b
  {
    assert a == CardHref(a)[|ProductLink|..];
  }

  /** The cards of a grid, one per row. */
  function Cards(rows: seq<ProductRecord>, deletable: bool): seq<Card>
  {
    Map(p => ProductCard(p, deletable), rows)
  }

  /** The grid has one card per row, the `j`-th showing the `j`-th row. */
  lemma CardsInOrder(rows: seq<ProductRecord>, deletable: bool, j: nat)
    requires j < |rows|
    ensures |Cards(rows, deletable)| == |rows|
    ensures Cards(rows, deletable)[j] == ProductCard(rows[j], deletable)
  {
    MapAt(p => ProductCard(p, deletable), rows, j);
  }

  /** Every card of a grid is the card of the row at its position. */
  lemma CardsAll(rows: seq<ProductRecord>, deletable: bool)
    ensures |Cards(rows, deletable)| == |rows|
    ensures forall j :: 0 <= j < |rows| ==> Cards(rows, deletable)[j] == ProductCard(rows[j], deletable)
  {
    if rows != [] {
      CardsInOrder(rows, deletable, 0);
    }
    forall j | 0 <= j < |rows|
      ensures Cards(rows, deletable)[j] == ProductCard(rows[j], deletable)
    {
      CardsInOrder(rows, deletable, j);
    }
  }

  /** The two grids: the shop's and the maintenance page's. */
  datatype GridKind = ShopGrid | MaintenanceGrid

  /** The outcome of the listing query: an error, no data, or the rows newest first. */
  datatype Listing = ListFailed | NoData | Listed(rows: seq<ProductRecord>)

  /** What a grid holds after loading. */
  datatype GridContent = FailedMessage | NoProductsYet | Filled(cards: seq<Card>)

  /**
   * The content one grid gets from the listing: the failure message, "No
   * products yet." for no rows, and otherwise one card per row, in order, each
   * linking to its row's product, with the row's stock badge, and deletable
   * exactly in the maintenance grid.
   */
  function GridFor(g: GridKind, listing: Listing): (c: GridContent)
    ensures c.FailedMessage? <==> listing.ListFailed?
    ensures c.NoProductsYet? <==> listing.NoData? || listing == Listed([])
    ensures c.Filled? <==> listing.Listed? && listing.rows != []
    ensures c.Filled? ==> |c.cards| == |listing.rows|
    ensures c.Filled? ==> forall j :: 0 <= j < |c.cards| ==>
      && c.cards[j].href == CardHref(listing.rows[j].id)
      && c.cards[j].image == CardImage(listing.rows[j].imageUrls)
      && (c.cards[j].outOfStock <==> OutOfStock(listing.rows[j].stock))
      && (c.cards[j].deletable <==> g == MaintenanceGrid)
    ensures c.Filled? ==> c.cards == Cards(listing.rows, g == MaintenanceGrid)
  {
    match listing
    case ListFailed => FailedMessage
    case NoData => NoProductsYet
    case Listed(rows) =>
      if rows == [] then NoProductsYet
      else
        CardsAll(rows, g == MaintenanceGrid);
        Filled(Cards(rows, g == MaintenanceGrid))
  }

  /** A filled grid has a card per row, in order, with a delete button exactly in the maintenance grid. */
  lemma FilledGrid(g: GridKind, rows: seq<ProductRecord>, j: nat)
    requires j < |rows|
    ensures GridFor(g, Listed(rows)).Filled?
    ensures |GridFor(g, Listed(rows)).cards| == |rows|
    ensures GridFor(g, Listed(rows)).cards[j].href == CardHref(rows[j].id)
    ensures GridFor(g, Listed(rows)).cards[j].deletable <==> g == MaintenanceGrid
  {
    CardsInOrder(rows, g == MaintenanceGrid, j);
  }

  /** The grids present on the page, in document order. */
  function PresentGrids(shop: bool, maintenance: bool): (gs: seq<GridKind>)
    ensures |gs| <= 2
    ensures ShopGrid in gs <==> shop
    ensures MaintenanceGrid in gs <==> maintenance
    ensures shop && maintenance ==> gs == [ShopGrid, MaintenanceGrid]
    ensures forall i, j :: 0 <= i < j < |gs| ==> gs[i] != gs[j]
  {
    (if shop then [ShopGrid] else []) + (if maintenance then [MaintenanceGrid] else [])
  }

  /** The cards of one grid, appended row by row. */
  method RenderCards(rows: seq<ProductRecord>, deletable: bool) returns (cs: seq<Card>)
    ensures cs == Cards(rows, deletable)
  {
    cs := [];
    for k := 0 to |rows|
      invariant cs == Cards(rows[..k], deletable)
    {
      assert rows[..k + 1][..k] == rows[..k];
      cs := cs + [ProductCard(rows[k], deletable)];
    }
    assert rows[..|rows|] == rows;
  }

  /**
   * `loadProducts`: every present grid, in order, shows the listing's outcome;
   * with no grid on the page nothing is shown.
   */
  method LoadProducts(shop: bool, maintenance: bool, listing: Listing) returns (shown: seq<(GridKind, GridContent)>)
    ensures |shown| == |PresentGrids(shop, maintenance)|
    ensures forall i :: 0 <= i < |shown| ==>
      shown[i] == (PresentGrids(shop, maintenance)[i], GridFor(PresentGrids(shop, maintenance)[i], listing))
  {
    var grids := PresentGrids(shop, maintenance);
    shown := [];
    if |grids| == 0 {
      return;
    }
    for i := 0 to |grids|
      invariant |shown| == i
      invariant forall j :: 0 <= j < i ==> shown[j] == (grids[j], GridFor(grids[j], listing))
    {
      var content;
      match listing {
        case ListFailed => content := FailedMessage;
        case NoData => content := NoProductsYet;
        case Listed(rows) =>
          if |rows| == 0 {
            content := NoProductsYet;
          } else {
            var cs := RenderCards(rows, grids[i] == MaintenanceGrid);
            content := Filled(cs);
          }
      }
      shown := shown + [(grids[i], content)];
    }
  }

  /**
   * The hashes a click on a card's link assigns, in order: none for a link that
   * is not a product link; the link itself when it is not the current hash; and
   * `#shop` then the link again when it is, so the page routes afresh.
   */
  function ClickSteps(href: Option<string>, current: string): (steps: seq<string>)
    ensures steps != [] <==> href.Some? && StartsWith(href.value, ProductLink)
    ensures steps != [] ==> steps[|steps| - 1] == href.value
    ensures |steps| == 2 <==> href.Some? && StartsWith(href.value, ProductLink) && current == href.value
    ensures |steps| <= 2
    ensures |steps| == 2 ==> steps[0] == ShopHash
  {
    if href.None? || !StartsWith(href.value, ProductLink) then []
    else if current != href.value then [href.value]
    else [ShopHash, href.value]
  }

  /** Every step changes the hash, so each one is seen as a navigation, and the last lands on the card's product. */
  lemma ClickStepsNavigate(href: Option<string>, current: string)
    ensures forall i :: 0 <= i < |ClickSteps(href, current)| ==>
      ClickSteps(href, current)[i] != (if i == 0 then current else ClickSteps(href, current)[i - 1])
  {
    var steps := ClickSteps(href, current);
    if |steps| == 2 {
      assert steps[1][1] == 'p' && steps[0][1] == 's';
    }
  }

  /** A click on any rendered card navigates to that card's link. */
  lemma CardClickNavigates(p: ProductRecord, deletable: bool, current: string)
    ensures ClickSteps(Some(ProductCard(p, deletable).href), current) != []
    ensures ClickSteps(Some(ProductCard(p, deletable).href), current)[|ClickSteps(Some(ProductCard(p, deletable).href), current)| - 1]
      == CardHref(p.id)
  {
  }
}
