/**
 * The cart page of js/cartView.js: the rows the page shows for a guest or a
 * signed-in user, the total and the checkout button, and the optimistic
 * remove that updates the page before the store confirms.
 */
module CartView {
  import opened Wrappers
  import opened Text
  import opened Seqs
  import opened Cart

  /** The thumbnail shown when a product has no image. */
  const NoImage: string := "https://via.placeholder.com/120?text=No+Image"

  /** `firstImage(csv)`: the first non-blank comma-separated entry of `csv || ''`, else the placeholder. */
  function FirstImage(csv: Option<string>): (r: string)
    ensures r == NoImage || IsEntry(r)
    ensures r != NoImage ==> csv.Some? && ParseCsv(csv.value) != [] && r == ParseCsv(csv.value)[0]
  {
    FirstEntryOr(if csv.Some? then csv.value else "", NoImage)
  }

  /** The first image of a list written as `a, b, c` is `a`; a missing or blank list shows the placeholder. */
  lemma FirstImageOfList(xs: seq<string>)
    requires forall i :: 0 <= i < |xs| ==> IsEntry(xs[i])
    ensures xs != [] ==> FirstImage(Some(Join(xs, ", "))) == xs[0]
    ensures xs == [] ==> FirstImage(Some(Join(xs, ", "))) == NoImage
    ensures FirstImage(None) == NoImage
  {
    ParseCsvOfJoin(xs);
  }

  /** One line of the cart page: `{product_id, name, qty, price, image_urls}`. */
  datatype ViewItem = ViewItem(productId: ProductId, name: string, qty: int, price: int, imageUrls: string)

  /** A row of the `products` table as the join reads it: `name` and `image_urls`. */
  datatype ProductInfo = ProductInfo(name: string, imageUrls: string)

  /** How a guest line is shown: no images are stored with it. */
  function GuestLine(it: GuestItem): ViewItem {
    ViewItem(it.id, it.name, it.qty, it.price, "")
  }

  /** `local.map(...)`. */
  function GuestView(items: seq<GuestItem>): seq<ViewItem> {
    if items == [] then [] else [GuestLine(items[0])] + GuestView(items[1..])
  }

  /** How a `cart_items` row is shown: the product's name or `Product`, its images or nothing, the price at add. */
  function RowLine(r: ItemRow, products: map<ProductId, ProductInfo>): (v: ViewItem)
    ensures v.productId == r.productId && v.qty == r.qty && v.price == r.priceAtAdd
    ensures v.name != ""
    ensures v.name == (if r.productId in products && products[r.productId].name != "" then products[r.productId].name else "Product")
    ensures v.imageUrls == (if r.productId in products then products[r.productId].imageUrls else "")
  {
    var info := if r.productId in products then Some(products[r.productId]) else None;
    ViewItem(
      r.productId,
      if info.Some? && info.value.name != "" then info.value.name else "Product",
      r.qty,
      r.priceAtAdd,
      if info.Some? then info.value.imageUrls else "")
  }

  /** `items.map(...)` over the rows of one cart. */
  function RowsView(rows: seq<ItemRow>, products: map<ProductId, ProductInfo>): seq<ViewItem> {
    if rows == [] then [] else [RowLine(rows[0], products)] + RowsView(rows[1..], products)
  }

  /** What a signed-in user's cart page lists: one line per `cart_items` row of cart `c`, in table order. */
  function AuthView(items: seq<ItemRow>, c: CartId, products: map<ProductId, ProductInfo>): seq<ViewItem> {
    RowsView(Filter(items, InCart(c)), products)
  }

  /** Guest lines map one-to-one, in order, to `{product_id: id, name, qty, price, image_urls: ''}`. */
  lemma {:induction false} GuestViewSpec(items: seq<GuestItem>)
    ensures |GuestView(items)| == |items|
    ensures forall i :: 0 <= i < |items| ==>
      GuestView(items)[i] == ViewItem(items[i].id, items[i].name, items[i].qty, items[i].price, "")
  {
    if items != [] {
      GuestViewSpec(items[1..]);
    }
  }

  /** Row lines map one-to-one, in order, to the rows they show. */
  lemma {:induction false} RowsViewSpec(rows: seq<ItemRow>, products: map<ProductId, ProductInfo>)
    ensures |RowsView(rows, products)| == |rows|
    ensures forall i :: 0 <= i < |rows| ==> RowsView(rows, products)[i] == RowLine(rows[i], products)
    ensures forall i :: 0 <= i < |rows| ==>
      var v := RowsView(rows, products)[i];
      v.productId == rows[i].productId && v.qty == rows[i].qty && v.price == rows[i].priceAtAdd && v.name != ""
  {
    if rows != [] {
      RowsViewSpec(rows[1..], products);
    }
  }

  // ---------------------------------------------------------------------------
  // Totals and the badge
  // ---------------------------------------------------------------------------

  function Subtotal(it: ViewItem): int {
    it.qty * it.price
  }

  /** The sum of `qty × price` over the lines. */
  function Total(items: seq<ViewItem>): int {
    if items == [] then 0 else Total(items[..|items| - 1]) + Subtotal(items[|items| - 1])
  }

  /** The badge count the page sets by itself: the sum of the quantities. */
  function QtySum(items: seq<ViewItem>): int {
    if items == [] then 0 else QtySum(items[..|items| - 1]) + items[|items| - 1].qty
  }

  lemma {:induction false} TotalConcat(a: seq<ViewItem>, b: seq<ViewItem>)
    ensures Total(a + b) == Total(a) + Total(b)
  {
    if b != [] {
      assert (a + b)[..|a + b| - 1] == a + b[..|b| - 1];
      TotalConcat(a, b[..|b| - 1]);
    } else {
      assert a + b == a;
    }
  }

  lemma {:induction false} QtySumConcat(a: seq<ViewItem>, b: seq<ViewItem>)
    ensures QtySum(a + b) == QtySum(a) + QtySum(b)
  {
    if b != [] {
      assert (a + b)[..|a + b| - 1] == a + b[..|b| - 1];
      QtySumConcat(a, b[..|b| - 1]);
    } else {
      assert a + b == a;
    }
  }

  /** A guest cart's page shows a badge equal to the number of its lines, the count the store reports. */
  lemma {:induction false} GuestBadgeIsCount(items: seq<GuestItem>)
    requires GuestListValid(items)
    ensures QtySum(GuestView(items)) == |items|
  {
    if items != [] {
      var tail := items[1..];
      assert GuestListValid(tail) by {
        forall i, j | 0 <= i < j < |tail| ensures GuestId(tail[i]) != GuestId(tail[j]) {
          assert tail[i] == items[i + 1] && tail[j] == items[j + 1];
        }
        forall i | 0 <= i < |tail| ensures tail[i].qty == 1 {
          assert tail[i] == items[i + 1];
        }
      }
      GuestBadgeIsCount(tail);
      QtySumConcat([GuestLine(items[0])], GuestView(tail));
      assert QtySum([GuestLine(items[0])]) == 1 by {
        assert [GuestLine(items[0])][..0] == [];
      }
    }
  }

  /** A signed-in cart's page shows a badge equal to the number of its rows, the count the store reports. */
  lemma AuthBadgeIsCount(items: seq<ItemRow>, c: CartId, products: map<ProductId, ProductInfo>)
    requires RowsValid(items)
    ensures QtySum(AuthView(items, c, products)) == CountInCart(items, c)
  {
    var rows := Filter(items, InCart(c));
    assert forall i :: 0 <= i < |rows| ==> rows[i].qty == 1 by {
      forall i | 0 <= i < |rows| ensures rows[i].qty == 1 {
        assert rows[i] in items;
      }
    }
    UnitRowsBadge(rows, products);
  }

  lemma {:induction false} UnitRowsBadge(rows: seq<ItemRow>, products: map<ProductId, ProductInfo>)
    requires forall i :: 0 <= i < |rows| ==> rows[i].qty == 1
    ensures QtySum(RowsView(rows, products)) == |rows|
  {
    if rows != [] {
      UnitRowsBadge(rows[1..], products);
      QtySumConcat([RowLine(rows[0], products)], RowsView(rows[1..], products));
      assert QtySum([RowLine(rows[0], products)]) == 1 by {
        assert [RowLine(rows[0], products)][..0] == [];
      }
    }
  }

  // ---------------------------------------------------------------------------
  // Optimistic remove
  // ---------------------------------------------------------------------------

  function KeepOtherLine(id: ProductId): ViewItem -> bool {
    (it: ViewItem) => it.productId != id
  }

  /** `currentItems.filter(it => String(it.product_id) !== String(id))`. */
  function OptimisticRemoved(items: seq<ViewItem>, id: ProductId): seq<ViewItem> {
    Filter(items, KeepOtherLine(id))
  }

  /** The optimistic remove drops every line of the product and keeps every other line, so the total drops by exactly their subtotals. */
  lemma {:induction false} OptimisticRemoveTotal(items: seq<ViewItem>, id: ProductId)
    ensures Total(OptimisticRemoved(items, id)) + Total(Filter(items, (it: ViewItem) => it.productId == id)) == Total(items)
  {
    var same := (it: ViewItem) => it.productId == id;
    if items != [] {
      var init := items[..|items| - 1];
      var last := items[|items| - 1];
      assert items == init + [last];
      OptimisticRemoveTotal(init, id);
      FilterConcat(init, [last], KeepOtherLine(id));
      FilterConcat(init, [last], same);
      TotalConcat(Filter(init, KeepOtherLine(id)), Filter([last], KeepOtherLine(id)));
      TotalConcat(Filter(init, same), Filter([last], same));
      assert Filter([last], KeepOtherLine(id)) == (if last.productId != id then [last] else []);
      assert Filter([last], same) == (if last.productId == id then [last] else []);
      assert Total([last]) == Subtotal(last) by {
        assert [last][..0] == [];
      }
    }
  }

  /** For a guest, removing on the page and then in the store leaves the page showing what the store holds. */
  lemma {:induction false} GuestRemoveCommutes(items: seq<GuestItem>, id: ProductId)
    ensures GuestView(GuestRemoved(items, id)) == OptimisticRemoved(GuestView(items), id)
  {
    if items != [] {
      GuestRemoveCommutes(items[1..], id);
      assert GuestView(items)[1..] == GuestView(items[1..]);
      assert GuestView(items)[0] == GuestLine(items[0]);
      var kept := if items[0].id != id then [items[0]] else [];
      assert GuestRemoved(items, id) == kept + GuestRemoved(items[1..], id);
      GuestViewConcat(kept, GuestRemoved(items[1..], id));
    }
  }

  lemma {:induction false} GuestViewConcat(a: seq<GuestItem>, b: seq<GuestItem>)
    ensures GuestView(a + b) == GuestView(a) + GuestView(b)
  {
    if a != [] {
      assert (a + b)[1..] == a[1..] + b;
      GuestViewConcat(a[1..], b);
    } else {
      assert a + b == b;
    }
  }

  lemma {:induction false} RowsViewConcat(a: seq<ItemRow>, b: seq<ItemRow>, products: map<ProductId, ProductInfo>)
    ensures RowsView(a + b, products) == RowsView(a, products) + RowsView(b, products)
  {
    if a != [] {
      assert (a + b)[1..] == a[1..] + b;
      RowsViewConcat(a[1..], b, products);
    } else {
      assert a + b == b;
    }
  }

  function OtherProduct(id: ProductId): ItemRow -> bool {
    (r: ItemRow) => r.productId != id
  }

  /** Deleting (c, id) and then taking cart `c` is taking cart `c` and then dropping product `id`. */
  lemma {:induction false} RemoveThenCart(items: seq<ItemRow>, c: CartId, id: ProductId)
    ensures Filter(AuthRemoved(items, c, id), InCart(c)) == Filter(Filter(items, InCart(c)), OtherProduct(id))
  {
    if items != [] {
      RemoveThenCart(items[1..], c, id);
      var x := items[0];
      var removed := if OtherKey(c, id)(x) then [x] else [];
      assert AuthRemoved(items, c, id) == removed + AuthRemoved(items[1..], c, id);
      FilterConcat(removed, AuthRemoved(items[1..], c, id), InCart(c));
      var inCart := if InCart(c)(x) then [x] else [];
      assert Filter(items, InCart(c)) == inCart + Filter(items[1..], InCart(c));
      FilterConcat(inCart, Filter(items[1..], InCart(c)), OtherProduct(id));
    }
  }

  lemma {:induction false} RowsViewDropsProduct(rows: seq<ItemRow>, id: ProductId, products: map<ProductId, ProductInfo>)
    ensures RowsView(Filter(rows, OtherProduct(id)), products) == OptimisticRemoved(RowsView(rows, products), id)
  {
    if rows != [] {
      RowsViewDropsProduct(rows[1..], id, products);
      assert RowsView(rows, products)[1..] == RowsView(rows[1..], products);
      assert RowsView(rows, products)[0] == RowLine(rows[0], products);
      var kept := if rows[0].productId != id then [rows[0]] else [];
      assert Filter(rows, OtherProduct(id)) == kept + Filter(rows[1..], OtherProduct(id));
      RowsViewConcat(kept, Filter(rows[1..], OtherProduct(id)), products);
    }
  }

  /** For a signed-in user, removing on the page and then in the store leaves the page showing what the store holds. */
  lemma AuthRemoveCommutes(items: seq<ItemRow>, c: CartId, id: ProductId, products: map<ProductId, ProductInfo>)
    ensures AuthView(AuthRemoved(items, c, id), c, products) == OptimisticRemoved(AuthView(items, c, products), id)
  {
    RemoveThenCart(items, c, id);
    RowsViewDropsProduct(Filter(items, InCart(c)), id, products);
  }

  // ---------------------------------------------------------------------------
  // The page
  // ---------------------------------------------------------------------------

  /** What `render` leaves on the page: the total in cents, whether the empty message shows, whether checkout is enabled. */
  datatype Shown = Shown(total: int, emptyMessage: bool, checkoutEnabled: bool)

  /** `render(items)`: an empty cart shows the message, total 0 and a disabled checkout; otherwise the lines, their total and an enabled checkout. */
  method Render(items: seq<ViewItem>) returns (s: Shown)
    ensures s.emptyMessage <==> items == []
    ensures s.checkoutEnabled <==> items != []
    ensures s.total == Total(items)
  {
    if |items| == 0 {
      return Shown(0, true, false);
    }
    var total := 0;
    for i := 0 to |items|
      invariant total == Total(items[..i])
    {
      assert items[..i + 1][..i] == items[..i];
      total := total + items[i].qty * items[i].price;
    }
    assert items[..|items|] == items;
    s := Shown(total, false, true);
  }

  /**
   * `getCartItems`: a guest (no user from `auth.getUser`) sees the guest list; a
   * signed-in user sees the rows of the active cart joined with `products`.
   */
  method GetCartItems(store: CartStore, products: map<ProductId, ProductInfo>, createFails: bool)
    returns (r: Result<seq<ViewItem>, CartError>)
    requires store.Valid()
    modifies store`cachedUser, store`cachedCart, store`carts, store`nextCartId
    ensures store.Valid()
    ensures store.guest == old(store.guest) && store.items == old(store.items)
    ensures !Truthy(store.authUser) ==> r == Ok(GuestView(store.guest)) && store.cachedUser == old(store.cachedUser)
    ensures Truthy(store.authUser) ==> store.cachedUser == Memoised(old(store.CurrentUser()))
    ensures Truthy(store.authUser) && r.Ok? && r.value != [] ==>
      && old(store.CurrentUser()).Some? && store.cachedCart.Some?
      && store.carts[store.cachedCart.value].userId == old(store.CurrentUser()).value
      && r.value == AuthView(store.items, store.cachedCart.value, products)
  {
    if !Truthy(store.authUser) {
      return Ok(GuestView(store.guest));
    }
    var cid := store.GetActiveCartId(createFails);
    if cid.Err? {
      return Err(cid.error);
    }
    if cid.value.None? {
      return Ok([]);
    }
    var rows := Filter(store.items, InCart(cid.value.value));
    if |rows| == 0 {
      return Ok([]);
    }
    r := Ok(RowsView(rows, products));
  }

  /** The page's module state: `currentItems`, what `render` last showed, and the badge text. */
  class CartPage {
    var current: seq<ViewItem>
    var shown: Shown
    var badge: int

    constructor ()
      ensures current == [] && shown == Shown(0, true, false) && badge == 0
    {
      current, shown, badge := [], Shown(0, true, false), 0;
    }

    /** `loadCartPage`: reload the lines from the store, render them and refresh the badge from the store's count. */
    method Load(store: CartStore, products: map<ProductId, ProductInfo>, createFails: bool)
      returns (r: Result<(), CartError>)
      requires store.Valid()
      modifies this, store`cachedUser, store`cachedCart, store`carts, store`nextCartId
      ensures store.Valid()
      ensures store.guest == old(store.guest) && store.items == old(store.items)
      ensures r.Err? ==> current == old(current) && shown == old(shown) && badge == old(badge)
      ensures r.Ok? ==> shown.total == Total(current) && (shown.checkoutEnabled <==> current != [])
      ensures r.Ok? && !Truthy(store.authUser) ==> current == GuestView(store.guest)
      ensures r.Ok? && !Truthy(store.authUser) && old(store.CurrentUser()).None? ==> badge == |store.guest|
      ensures Truthy(store.authUser) ==> store.cachedUser == Memoised(old(store.CurrentUser()))
      ensures r.Ok? && Truthy(store.authUser) && current != [] ==>
        && old(store.CurrentUser()).Some? && store.cachedCart.Some?
        && store.carts[store.cachedCart.value].userId == old(store.CurrentUser()).value
        && current == AuthView(store.items, store.cachedCart.value, products)
    {
      r := Fill(store, products, createFails);
      if r.Err? {
        return;
      }
      var n := store.GetCartSummaryCount(createFails);
      if n.Ok? {
        badge := n.value;
      }
    }

    /** The first half of `loadCartPage`: `currentItems = await getCartItems(); render(currentItems)`. */
    method Fill(store: CartStore, products: map<ProductId, ProductInfo>, createFails: bool)
      returns (r: Result<(), CartError>)
      requires store.Valid()
      modifies this`current, this`shown, store`cachedUser, store`cachedCart, store`carts, store`nextCartId
      ensures store.Valid()
      ensures store.guest == old(store.guest) && store.items == old(store.items)
      ensures r.Err? ==> current == old(current) && shown == old(shown)
      ensures r.Ok? ==> shown.total == Total(current) && (shown.checkoutEnabled <==> current != [])
      ensures r.Ok? && !Truthy(store.authUser) ==>
        current == GuestView(store.guest) && store.cachedUser == old(store.cachedUser)
      ensures Truthy(store.authUser) ==> store.cachedUser == Memoised(old(store.CurrentUser()))
      ensures r.Ok? && Truthy(store.authUser) && current != [] ==>
        && old(store.CurrentUser()).Some? && store.cachedCart.Some?
        && store.carts[store.cachedCart.value].userId == old(store.CurrentUser()).value
        && current == AuthView(store.items, store.cachedCart.value, products)
    {
      var items := GetCartItems(store, products, createFails);
      if items.Err? {
        return Err(items.error);
      }
      current := items.value;
      shown := Render(current);
      r := Ok(());
    }

    /**
     * The remove link: drop the product's lines from the page and re-render at once,
     * set the badge from what is left, then ask the store; when the store fails,
     * reload the page from the store. `reload` is the reload's outcome, `None` when
     * no reload was needed; a failed reload leaves the optimistic page.
     */
    method RemoveClicked(store: CartStore, id: ProductId, products: map<ProductId, ProductInfo>,
                         createFails: bool, deleteFails: bool)
      returns (removed: Result<bool, CartError>, reload: Option<Result<(), CartError>>)
      requires store.Valid()
      modifies this, store`guest, store`items, store`cachedUser, store`cachedCart, store`carts, store`nextCartId
      ensures store.Valid()
      ensures shown.total == Total(current) && (shown.checkoutEnabled <==> current != [])
      ensures removed.Ok? ==> current == OptimisticRemoved(old(current), id) && badge == QtySum(current)
      ensures removed.Err? ==> store.guest == old(store.guest) && store.items == old(store.items)
      ensures reload.Some? <==> removed.Err?
      ensures reload.Some? && reload.value.Err? ==> current == OptimisticRemoved(old(current), id)
      ensures reload.Some? && reload.value.Ok? && !Truthy(store.authUser) ==> current == GuestView(store.guest)
      ensures reload.Some? && reload.value.Ok? && Truthy(store.authUser) && current != [] ==>
        && old(store.CurrentUser()).Some? && store.cachedCart.Some?
        && store.carts[store.cachedCart.value].userId == old(store.CurrentUser()).value
        && current == AuthView(store.items, store.cachedCart.value, products)
      ensures old(store.CurrentUser()).None? && old(current) == GuestView(old(store.guest)) ==>
        removed.Ok? && current == GuestView(store.guest)
      ensures (old(store.CurrentUser()).Some? && old(store.cachedCart).Some? && removed.Ok? &&
               old(current) == AuthView(old(store.items), old(store.cachedCart).value, products)) ==>
        current == AuthView(store.items, old(store.cachedCart).value, products)
    {
      GuestRemoveCommutes(store.guest, id);
      if store.cachedCart.Some? {
        AuthRemoveCommutes(store.items, store.cachedCart.value, id, products);
      }
      ShowWithout(id);
      removed := store.RemoveFromCart(id, createFails, deleteFails);
      reload := None;
      if removed.Err? {
        var loaded := Load(store, products, createFails);
        reload := Some(loaded);
      }
    }

    /** The optimistic half of the remove link: the lines go, the page re-renders and the badge is recounted. */
    method ShowWithout(id: ProductId)
      modifies this
      ensures current == OptimisticRemoved(old(current), id)
      ensures shown.total == Total(current) && (shown.checkoutEnabled <==> current != [])
      ensures badge == QtySum(current)
    {
      current := OptimisticRemoved(current, id);
      shown := Render(current);
      badge := QtySum(current);
    }
  }
}
