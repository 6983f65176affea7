/**
 * The cart store of js/cart.js.
 *
 * A guest's cart is a list kept in browser local storage under the key `cart`,
 * read, changed and written back whole on every operation. A signed-in user's
 * cart is a row of the remote `carts` table (one `active` cart per user) with
 * its lines in the remote `cart_items` table. Quantity is pinned to one: adding
 * a product that is already in the cart reports `alreadyInCart` instead of
 * incrementing. Two memo caches, the user id and the active cart id, live for
 * the page and are cleared by the `auth:changed` event.
 */
module Cart {
  import opened Wrappers
  import opened Seqs

  /** Product ids are compared as `String(id)`, so the model keeps them as strings. */
  type ProductId = string
  type UserId = string
  /** Ids the backend assigns to new `carts` rows; they start at 1, since the source reads a 0 id as "no cart". */
  type CartId = x: nat | x > 0 witness 1

  /** A product as handed to `addToCart`; prices are integer cents, a missing price is `None`. */
  datatype Product = Product(id: ProductId, name: string, price: Option<int>)

  /** One entry of the guest list: `{id, name, price, qty}`. */
  datatype GuestItem = GuestItem(id: ProductId, name: string, price: int, qty: int)

  datatype CartStatus = Active | CheckedOut

  /** A row of the `carts` table. */
  datatype CartRow = CartRow(userId: UserId, status: CartStatus)

  /** A row of the `cart_items` table. */
  datatype ItemRow = ItemRow(cartId: CartId, productId: ProductId, qty: int, priceAtAdd: int)

  /** A module-level cache: `undefined` until first filled. */
  datatype Memo<T> = Unset | Memoised(value: T)

  /** What `addToCart` resolves to: `{local, alreadyInCart}` (an absent flag is false). */
  datatype AddOutcome = AddOutcome(local: bool, alreadyInCart: bool)

  /** The backend errors the store rethrows to its caller. */
  datatype CartError = CartInsertFailed | ItemInsertFailed | ItemDeleteFailed

  /** `Number(price || 0)`. */
  function PriceOrZero(price: Option<int>): int {
    if price.Some? then price.value else 0
  }

  /** A user id is usable only when present and non-empty (`if (id)`). */
  predicate Truthy(u: Option<UserId>) {
    u.Some? && u.value != ""
  }

  /** `getUserId` without a memo: the session's user if any, else what `auth.getUser` reports, else null. */
  function ResolveUser(session: Option<UserId>, user: Option<UserId>): (r: Option<UserId>)
    ensures r.Some? ==> r.value != ""
    ensures r.None? <==> !Truthy(session) && !Truthy(user)
    ensures Truthy(session) ==> r == session
    ensures !Truthy(session) && Truthy(user) ==> r == user
  {
    if Truthy(session) then session else if Truthy(user) then user else None
  }

  // ---------------------------------------------------------------------------
  // The guest list
  // ---------------------------------------------------------------------------

  /** `items.findIndex(x => String(x.id) === String(id))`. */
  function FindIndex(items: seq<GuestItem>, id: ProductId): (r: int)
    ensures -1 <= r < |items|
    ensures r == -1 <==> forall i :: 0 <= i < |items| ==> items[i].id != id
    ensures r >= 0 ==> items[r].id == id && forall i :: 0 <= i < r ==> items[i].id != id
  {
    if items == [] then -1
    else if items[0].id == id then 0
    else
      var k := FindIndex(items[1..], id);
      if k == -1 then -1 else k + 1
  }

  function GuestId(x: GuestItem): ProductId {
    x.id
  }

  /** The guest list never holds two lines for one product. */
  predicate GuestListValid(items: seq<GuestItem>) {
    DistinctBy(items, GuestId) && forall i :: 0 <= i < |items| ==> items[i].qty == 1
  }

  /** The line a guest add appends: the `qty` argument is ignored. */
  function NewGuestItem(p: Product): GuestItem {
    GuestItem(p.id, p.name, PriceOrZero(p.price), 1)
  }

  /** The guest list after a guest `addToCart(p)`. */
  function GuestAdded(items: seq<GuestItem>, p: Product): seq<GuestItem> {
    if FindIndex(items, p.id) >= 0 then items else items + [NewGuestItem(p)]
  }

  function KeepOtherId(id: ProductId): GuestItem -> bool {
    (x: GuestItem) => x.id != id
  }

  /** The guest list after a guest `removeFromCart(id)`. */
  function GuestRemoved(items: seq<GuestItem>, id: ProductId): seq<GuestItem> {
    Filter(items, KeepOtherId(id))
  }

  /** Adding a product already listed leaves the list as it was. */
  lemma GuestAddPresent(items: seq<GuestItem>, p: Product, k: nat)
    requires k < |items| && items[k].id == p.id
    ensures GuestAdded(items, p) == items
  {
  }

  /** Adding a new product appends exactly one qty-1 line and keeps the earlier lines in order. */
  lemma GuestAddNew(items: seq<GuestItem>, p: Product)
    requires forall i :: 0 <= i < |items| ==> items[i].id != p.id
    ensures |GuestAdded(items, p)| == |items| + 1
    ensures GuestAdded(items, p)[..|items|] == items
    ensures GuestAdded(items, p)[|items|] == GuestItem(p.id, p.name, PriceOrZero(p.price), 1)
  {
    assert (items + [NewGuestItem(p)])[..|items|] == items;
  }

  /** Adding twice is adding once. */
  lemma GuestAddIdempotent(items: seq<GuestItem>, p: Product)
    ensures GuestAdded(GuestAdded(items, p), p) == GuestAdded(items, p)
  {
    var once := GuestAdded(items, p);
    if FindIndex(items, p.id) < 0 {
      assert once[|items|].id == p.id;
    }
  }

  /** Guest adds keep the list free of duplicates with every quantity at one. */
  lemma GuestAddKeepsValid(items: seq<GuestItem>, p: Product)
    requires GuestListValid(items)
    ensures GuestListValid(GuestAdded(items, p))
  {
    if FindIndex(items, p.id) < 0 {
      var r := items + [NewGuestItem(p)];
      forall i, j | 0 <= i < j < |r| ensures GuestId(r[i]) != GuestId(r[j]) {
        if j < |items| {
          assert r[i] == items[i] && r[j] == items[j];
        } else {
          assert r[i] == items[i];
        }
      }
    }
  }

  /** Guest remove drops every line of that id and keeps every other line. */
  lemma GuestRemovedSpec(items: seq<GuestItem>, id: ProductId)
    ensures forall i :: 0 <= i < |GuestRemoved(items, id)| ==> GuestRemoved(items, id)[i].id != id
    ensures forall i :: 0 <= i < |items| && items[i].id != id ==> items[i] in GuestRemoved(items, id)
    ensures forall x :: x in GuestRemoved(items, id) ==> x in items
    ensures GuestListValid(items) ==> GuestListValid(GuestRemoved(items, id))
  {
    var r := GuestRemoved(items, id);
    assert forall i :: 0 <= i < |r| ==> KeepOtherId(id)(r[i]);
    if GuestListValid(items) {
      FilterDistinct(items, KeepOtherId(id), GuestId);
    }
  }

  /** Removing a product that a guest add just appended gives the earlier list back. */
  lemma GuestRemoveUndoesAdd(items: seq<GuestItem>, p: Product)
    requires forall i :: 0 <= i < |items| ==> items[i].id != p.id
    ensures GuestRemoved(GuestAdded(items, p), p.id) == items
  {
    FilterConcat(items, [NewGuestItem(p)], KeepOtherId(p.id));
    FilterKeepsAll(items, KeepOtherId(p.id));
  }

  // ---------------------------------------------------------------------------
  // The cart_items table
  // ---------------------------------------------------------------------------

  function RowKey(r: ItemRow): (CartId, ProductId) {
    (r.cartId, r.productId)
  }

  function SameKey(c: CartId, pid: ProductId): ItemRow -> bool {
    (r: ItemRow) => r.cartId == c && r.productId == pid
  }

  function OtherKey(c: CartId, pid: ProductId): ItemRow -> bool {
    (r: ItemRow) => !(r.cartId == c && r.productId == pid)
  }

  function InCart(c: CartId): ItemRow -> bool {
    (r: ItemRow) => r.cartId == c
  }

  /** Some row of cart `c` is for product `pid`. */
  predicate HasRow(rows: seq<ItemRow>, c: CartId, pid: ProductId) {
    exists i :: 0 <= i < |rows| && rows[i].cartId == c && rows[i].productId == pid
  }

  /** No two rows share a (cart, product) key and every quantity is one. */
  predicate RowsValid(rows: seq<ItemRow>) {
    DistinctBy(rows, RowKey) && forall i :: 0 <= i < |rows| ==> rows[i].qty == 1
  }

  /** `.eq('cart_id', c).eq('product_id', pid).maybeSingle()`: the row when exactly one matches. */
  function MaybeSingleRow(rows: seq<ItemRow>, c: CartId, pid: ProductId): Option<ItemRow> {
    var m := Filter(rows, SameKey(c, pid));
    if |m| == 1 then Some(m[0]) else None
  }

  /** The row an authenticated add inserts. */
  function NewRow(c: CartId, p: Product): ItemRow {
    ItemRow(c, p.id, 1, PriceOrZero(p.price))
  }

  /** `existing && existing.qty > 0`: the add is refused as already in the cart. */
  predicate AlreadyInRemoteCart(rows: seq<ItemRow>, c: CartId, pid: ProductId) {
    var existing := MaybeSingleRow(rows, c, pid);
    existing.Some? && existing.value.qty > 0
  }

  /** The `cart_items` table after an authenticated `addToCart(p)` on cart `c`. */
  function AuthAdded(rows: seq<ItemRow>, c: CartId, p: Product): seq<ItemRow> {
    if AlreadyInRemoteCart(rows, c, p.id) then rows else rows + [NewRow(c, p)]
  }

  /** The `cart_items` table after `delete().eq('cart_id', c).eq('product_id', pid)`. */
  function AuthRemoved(rows: seq<ItemRow>, c: CartId, pid: ProductId): seq<ItemRow> {
    Filter(rows, OtherKey(c, pid))
  }

  /** `select('product_id').eq('cart_id', c)` then `.length`. */
  function CountInCart(rows: seq<ItemRow>, c: CartId): nat {
    Count(rows, InCart(c))
  }

  /** With keys distinct, at most one row matches a key. */
  lemma {:induction false} AtMostOneMatch(rows: seq<ItemRow>, c: CartId, pid: ProductId)
    requires DistinctBy(rows, RowKey)
    ensures |Filter(rows, SameKey(c, pid))| <= 1
  {
    if rows != [] {
      var tail := rows[1..];
      assert DistinctBy(tail, RowKey) by {
        forall i, j | 0 <= i < j < |tail| ensures RowKey(tail[i]) != RowKey(tail[j]) {
          assert tail[i] == rows[i + 1] && tail[j] == rows[j + 1];
        }
      }
      if SameKey(c, pid)(rows[0]) {
        forall i | 0 <= i < |tail| ensures !SameKey(c, pid)(tail[i]) {
          assert tail[i] == rows[i + 1];
          assert RowKey(rows[0]) != RowKey(rows[i + 1]);
        }
        FilterDropsAll(tail, SameKey(c, pid));
      } else {
        AtMostOneMatch(tail, c, pid);
      }
    }
  }

  /** On a valid table, `existing && existing.qty > 0` holds exactly when a row for the key exists. */
  lemma AlreadyInRemoteCartIff(rows: seq<ItemRow>, c: CartId, pid: ProductId)
    requires RowsValid(rows)
    ensures AlreadyInRemoteCart(rows, c, pid) <==> HasRow(rows, c, pid)
  {
    var m := Filter(rows, SameKey(c, pid));
    AtMostOneMatch(rows, c, pid);
    if HasRow(rows, c, pid) {
      var i :| 0 <= i < |rows| && rows[i].cartId == c && rows[i].productId == pid;
      assert SameKey(c, pid)(rows[i]);
      assert rows[i] in m;
    }
    if |m| == 1 {
      assert m[0] in rows && SameKey(c, pid)(m[0]);
    }
  }

  /** An authenticated add inserts no row when the product is already in cart `c`, else exactly one qty-1 row at `price_at_add` = price. */
  lemma AuthAddedSpec(rows: seq<ItemRow>, c: CartId, p: Product)
    requires RowsValid(rows)
    ensures HasRow(rows, c, p.id) ==> AuthAdded(rows, c, p) == rows
    ensures !HasRow(rows, c, p.id) ==> AuthAdded(rows, c, p) == rows + [ItemRow(c, p.id, 1, PriceOrZero(p.price))]
    ensures RowsValid(AuthAdded(rows, c, p))
    ensures CountInCart(AuthAdded(rows, c, p), c) == CountInCart(rows, c) + (if HasRow(rows, c, p.id) then 0 else 1)
  {
    AlreadyInRemoteCartIff(rows, c, p.id);
    if !HasRow(rows, c, p.id) {
      var row := NewRow(c, p);
      DistinctConcat(rows, [row], RowKey);
      FilterConcat(rows, [row], InCart(c));
    }
  }

  /** An authenticated remove deletes exactly the rows matching both cart and product. */
  lemma AuthRemovedSpec(rows: seq<ItemRow>, c: CartId, pid: ProductId, other: CartId)
    requires other != c
    ensures forall r :: r in AuthRemoved(rows, c, pid) ==> !(r.cartId == c && r.productId == pid)
    ensures forall i :: 0 <= i < |rows| && !(rows[i].cartId == c && rows[i].productId == pid) ==> rows[i] in AuthRemoved(rows, c, pid)
    ensures Filter(AuthRemoved(rows, c, pid), InCart(other)) == Filter(rows, InCart(other))
    ensures RowsValid(rows) ==> RowsValid(AuthRemoved(rows, c, pid))
  {
    var r := AuthRemoved(rows, c, pid);
    assert forall i :: 0 <= i < |r| ==> OtherKey(c, pid)(r[i]);
    FilterThenFilter(rows, OtherKey(c, pid), InCart(other));
    if RowsValid(rows) {
      FilterDistinct(rows, OtherKey(c, pid), RowKey);
    }
  }

  // ---------------------------------------------------------------------------
  // Guest-to-account merge
  // ---------------------------------------------------------------------------

  /** `existMap[pid]` where `existMap` is built with `Object.fromEntries` over the rows of cart `c`: the last one wins. */
  function ExistingQty(rows: seq<ItemRow>, c: CartId, pid: ProductId): Option<int> {
    if rows == [] then None
    else
      var later := ExistingQty(rows[1..], c, pid);
      if later.Some? then later
      else if rows[0].cartId == c && rows[0].productId == pid then Some(rows[0].qty)
      else None
  }

  /** `!existMap[it.id]`: no row, or a row whose quantity is falsy. */
  function MissingRemotely(rows: seq<ItemRow>, c: CartId): GuestItem -> bool {
    (it: GuestItem) => var q := ExistingQty(rows, c, it.id); !(q.Some? && q.value != 0)
  }

  /** The rows `mergeLocalCartToDb` inserts: one qty-1 row per guest line not already on the server. */
  function MergeRows(guest: seq<GuestItem>, rows: seq<ItemRow>, c: CartId): seq<ItemRow> {
    var missing := Filter(guest, MissingRemotely(rows, c));
    seq(|missing|, i requires 0 <= i < |missing| => ItemRow(c, missing[i].id, 1, missing[i].price))
  }

  /** When every quantity is one, `existMap[pid]` is set, and then truthy, exactly when a row for the key exists. */
  lemma {:induction false} ExistingQtyIff(rows: seq<ItemRow>, c: CartId, pid: ProductId)
    requires forall i :: 0 <= i < |rows| ==> rows[i].qty == 1
    ensures ExistingQty(rows, c, pid).Some? <==> HasRow(rows, c, pid)
    ensures ExistingQty(rows, c, pid).Some? ==> ExistingQty(rows, c, pid).value == 1
    ensures (ExistingQty(rows, c, pid).Some? && ExistingQty(rows, c, pid).value != 0) <==> HasRow(rows, c, pid)
  {
    if rows != [] {
      var tail := rows[1..];
      ExistingQtyIff(tail, c, pid);
      assert HasRow(tail, c, pid) ==> HasRow(rows, c, pid) by {
        if HasRow(tail, c, pid) {
          var i :| 0 <= i < |tail| && tail[i].cartId == c && tail[i].productId == pid;
          assert rows[i + 1] == tail[i];
        }
      }
      assert HasRow(rows, c, pid) ==> HasRow(tail, c, pid) || (rows[0].cartId == c && rows[0].productId == pid) by {
        if HasRow(rows, c, pid) && !(rows[0].cartId == c && rows[0].productId == pid) {
          var i :| 0 <= i < |rows| && rows[i].cartId == c && rows[i].productId == pid;
          assert tail[i - 1] == rows[i];
        }
      }
    }
  }

  /**
   * Merge is additive: it inserts only qty-1 rows into cart `c`, only for guest
   * products with no row there yet, and one for each of them; existing rows are
   * never updated.
   */
  lemma MergeRowsSpec(guest: seq<GuestItem>, rows: seq<ItemRow>, c: CartId)
    requires RowsValid(rows)
    ensures forall r :: r in MergeRows(guest, rows, c) ==>
      r.cartId == c && r.qty == 1 && !HasRow(rows, c, r.productId) &&
      exists k :: 0 <= k < |guest| && guest[k].id == r.productId && guest[k].price == r.priceAtAdd
    ensures forall k :: 0 <= k < |guest| && !HasRow(rows, c, guest[k].id) ==>
      ItemRow(c, guest[k].id, 1, guest[k].price) in MergeRows(guest, rows, c)
  {
    var missing := Filter(guest, MissingRemotely(rows, c));
    var m := MergeRows(guest, rows, c);
    forall r | r in m
      ensures r.cartId == c && r.qty == 1 && !HasRow(rows, c, r.productId)
      ensures exists k :: 0 <= k < |guest| && guest[k].id == r.productId && guest[k].price == r.priceAtAdd
    {
      var i :| 0 <= i < |m| && m[i] == r;
      assert missing[i] in guest && MissingRemotely(rows, c)(missing[i]);
      ExistingQtyIff(rows, c, missing[i].id);
      var k :| 0 <= k < |guest| && guest[k] == missing[i];
    }
    forall k | 0 <= k < |guest| && !HasRow(rows, c, guest[k].id)
      ensures ItemRow(c, guest[k].id, 1, guest[k].price) in m
    {
      ExistingQtyIff(rows, c, guest[k].id);
      assert MissingRemotely(rows, c)(guest[k]);
      assert guest[k] in missing;
      var i :| 0 <= i < |missing| && missing[i] == guest[k];
      assert m[i] == ItemRow(c, guest[k].id, 1, guest[k].price);
    }
  }

  /** Merge keeps the table free of duplicate keys and quantities at one. */
  lemma MergeKeepsValid(guest: seq<GuestItem>, rows: seq<ItemRow>, c: CartId)
    requires RowsValid(rows) && GuestListValid(guest)
    ensures RowsValid(rows + MergeRows(guest, rows, c))
  {
    var missing := Filter(guest, MissingRemotely(rows, c));
    var m := MergeRows(guest, rows, c);
    FilterDistinct(guest, MissingRemotely(rows, c), GuestId);
    assert DistinctBy(m, RowKey) by {
      forall i, j | 0 <= i < j < |m| ensures RowKey(m[i]) != RowKey(m[j]) {
        assert GuestId(missing[i]) != GuestId(missing[j]);
      }
    }
    MergeRowsSpec(guest, rows, c);
    forall i, j | 0 <= i < |rows| && 0 <= j < |m| ensures RowKey(rows[i]) != RowKey(m[j]) {
      assert m[j] in m;
      assert !HasRow(rows, c, m[j].productId);
    }
    DistinctConcat(rows, m, RowKey);
  }

  /** A second merge of the same guest list, after the first one's rows are in, inserts nothing. */
  lemma MergeIdempotent(guest: seq<GuestItem>, rows: seq<ItemRow>, c: CartId)
    requires RowsValid(rows)
    ensures MergeRows(guest, rows + MergeRows(guest, rows, c), c) == []
  {
    var m := MergeRows(guest, rows, c);
    var after := rows + m;
    MergeRowsSpec(guest, rows, c);
    assert forall i :: 0 <= i < |after| ==> after[i].qty == 1 by {
      forall i | 0 <= i < |after| ensures after[i].qty == 1 {
        if i >= |rows| { assert after[i] == m[i - |rows|] && m[i - |rows|] in m; }
      }
    }
    forall k | 0 <= k < |guest| ensures !MissingRemotely(after, c)(guest[k]) {
      ExistingQtyIff(after, c, guest[k].id);
      if HasRow(rows, c, guest[k].id) {
        var i :| 0 <= i < |rows| && rows[i].cartId == c && rows[i].productId == guest[k].id;
        assert after[i] == rows[i];
      } else {
        var row := ItemRow(c, guest[k].id, 1, guest[k].price);
        assert row in m;
        var j :| 0 <= j < |m| && m[j] == row;
        assert after[|rows| + j] == row;
      }
    }
    FilterDropsAll(guest, MissingRemotely(after, c));
  }

  /** After a merge the count of cart `c` grows by exactly the number of rows inserted. */
  lemma MergeCount(guest: seq<GuestItem>, rows: seq<ItemRow>, c: CartId)
    requires RowsValid(rows)
    ensures CountInCart(rows + MergeRows(guest, rows, c), c) == CountInCart(rows, c) + |MergeRows(guest, rows, c)|
  {
    var m := MergeRows(guest, rows, c);
    MergeRowsSpec(guest, rows, c);
    FilterConcat(rows, m, InCart(c));
    assert forall i :: 0 <= i < |m| ==> InCart(c)(m[i]) by {
      forall i | 0 <= i < |m| ensures InCart(c)(m[i]) { assert m[i] in m; }
    }
    FilterKeepsAll(m, InCart(c));
  }

  // ---------------------------------------------------------------------------
  // The carts table
  // ---------------------------------------------------------------------------

  /** `.eq('user_id', u).eq('status', 'active')`. */
  function ActiveCarts(carts: map<CartId, CartRow>, u: UserId): set<CartId> {
    set c | c in carts && carts[c].userId == u && carts[c].status == Active
  }

  /** Lookup-or-create keeps at most one active cart per user. */
  predicate OneActivePerUser(carts: map<CartId, CartRow>) {
    forall a, b ::
      (a in carts && b in carts && carts[a].userId == carts[b].userId &&
       carts[a].status == Active && carts[b].status == Active) ==> a == b
  }

  /** A user never has more than one active cart. */
  lemma AtMostOneActive(carts: map<CartId, CartRow>, u: UserId)
    requires OneActivePerUser(carts)
    ensures |ActiveCarts(carts, u)| <= 1
  {
    var s := ActiveCarts(carts, u);
    if s != {} {
      var a :| a in s;
      assert s == {a};
    }
  }

  /** Inserting a user's first active cart keeps one active cart per user. */
  lemma CreateKeepsOneActive(carts: map<CartId, CartRow>, u: UserId, newId: CartId)
    requires OneActivePerUser(carts) && ActiveCarts(carts, u) == {} && newId !in carts
    ensures OneActivePerUser(carts[newId := CartRow(u, Active)])
    ensures ActiveCarts(carts[newId := CartRow(u, Active)], u) == {newId}
  {
    forall c | c in carts && carts[c].userId == u
      ensures carts[c].status != Active
    {
      assert c in ActiveCarts(carts, u) || carts[c].status != Active;
    }
  }

  // ---------------------------------------------------------------------------
  // The store
  // ---------------------------------------------------------------------------

  /**
   * The module state of js/cart.js together with the remote state it reads and writes.
   * `sessionUser` and `authUser` are what the auth service currently reports; the
   * environment may change them at any time, the store only reads them.
   */
  class CartStore {
    /** `localStorage['cart']`; a removed key reads back as the empty list. */
    var guest: seq<GuestItem>
    /** The remote `carts` table. */
    var carts: map<CartId, CartRow>
    /** The remote `cart_items` table, in insertion order. */
    var items: seq<ItemRow>
    /** The id the backend gives the next inserted `carts` row. */
    var nextCartId: CartId
    /** What `auth.getSession()` reports. */
    var sessionUser: Option<UserId>
    /** What `auth.getUser()` reports. */
    var authUser: Option<UserId>
    /** `_cachedUserId`. */
    var cachedUser: Memo<Option<UserId>>
    /** `_cachedCartId`. */
    var cachedCart: Option<CartId>

    ghost predicate Valid()
      reads this
    {
      && GuestListValid(guest)
      && RowsValid(items)
      && (forall i :: 0 <= i < |items| ==> items[i].cartId in carts)
      && (forall c :: c in carts ==> c < nextCartId)
      && OneActivePerUser(carts)
      && (cachedUser.Memoised? && cachedUser.value.Some? ==> cachedUser.value.value != "")
      && (cachedCart.Some? ==>
            cachedCart.value in carts && cachedUser == Memoised(Some(carts[cachedCart.value].userId)))
    }

    /** The user the next operation acts for: the memo if set, otherwise what the auth service reports. */
    ghost function CurrentUser(): Option<UserId>
      reads this
    {
      if cachedUser.Memoised? then cachedUser.value else ResolveUser(sessionUser, authUser)
    }

    /** A fresh page: empty guest list, empty tables, both caches unset. */
    constructor (session: Option<UserId>, user: Option<UserId>)
      ensures Valid()
      ensures guest == [] && carts == map[] && items == [] && nextCartId == 1
      ensures sessionUser == session && authUser == user
      ensures cachedUser == Unset && cachedCart == None
    {
      guest, carts, items, nextCartId := [], map[], [], 1;
      sessionUser, authUser := session, user;
      cachedUser, cachedCart := Unset, None;
    }

    /** The `auth:changed` listener: both caches are dropped. */
    method OnAuthChanged()
      requires Valid()
      modifies this`cachedUser, this`cachedCart
      ensures Valid()
      ensures cachedUser == Unset && cachedCart == None
    {
      cachedUser, cachedCart := Unset, None;
    }

    /** `getUserId`: the memoised value once set, otherwise resolved and memoised. */
    method GetUserId() returns (u: Option<UserId>)
      requires Valid()
      modifies this`cachedUser
      ensures Valid()
      ensures u == old(CurrentUser())
      ensures old(cachedUser).Memoised? ==> u == old(cachedUser).value
      ensures cachedUser == Memoised(u)
      ensures u.Some? ==> u.value != ""
    {
      if cachedUser.Memoised? {
        return cachedUser.value;
      }
      if Truthy(sessionUser) {
        cachedUser := Memoised(sessionUser);
        return sessionUser;
      }
      cachedUser := Memoised(if Truthy(authUser) then authUser else None);
      u := cachedUser.value;
    }

    /**
     * `getActiveCartId`: null for a guest; the cached id without any query when set;
     * otherwise the user's active cart, or a newly inserted one, which is then cached.
     */
    method GetActiveCartId(createFails: bool) returns (r: Result<Option<CartId>, CartError>)
      requires Valid()
      modifies this`cachedUser, this`cachedCart, this`carts, this`nextCartId
      ensures Valid()
      ensures cachedUser == Memoised(old(CurrentUser()))
      ensures old(CurrentUser()).None? ==> r == Ok(None) && carts == old(carts) && cachedCart == old(cachedCart)
      ensures old(CurrentUser()).Some? && old(cachedCart).Some? ==> r == Ok(old(cachedCart)) && carts == old(carts) && cachedCart == old(cachedCart)
      ensures old(CurrentUser()).Some? && old(cachedCart).None? ==>
        var u := old(CurrentUser()).value;
        if |ActiveCarts(old(carts), u)| == 1 then
          carts == old(carts) && r.Ok? && r.value.Some? && ActiveCarts(old(carts), u) == {r.value.value}
        else if createFails then
          carts == old(carts) && r == Err(CartInsertFailed) && cachedCart == None
        else
          carts == old(carts)[old(nextCartId) := CartRow(u, Active)] && r == Ok(Some(old(nextCartId)))
      ensures r.Ok? ==> (r.value.Some? <==> old(CurrentUser()).Some?)
      ensures r.Ok? && r.value.Some? ==> cachedCart == r.value && r.value.value in carts && carts[r.value.value].userId == old(CurrentUser()).value
      ensures old(carts).Keys <= carts.Keys && |carts| <= |old(carts)| + 1
      ensures forall c :: c in old(carts) ==> carts[c] == old(carts)[c]
    {
      var u := GetUserId();
      if u.None? {
        return Ok(None);
      }
      if cachedCart.Some? {
        return Ok(cachedCart);
      }
      var active := ActiveCarts(carts, u.value);
      if |active| == 1 {
        var c :| c in active;
        assert active == {c} by {
          forall d | d in active ensures d == c { }
        }
        cachedCart := Some(c);
        return Ok(Some(c));
      }
      AtMostOneActive(carts, u.value);
      assert active == {};
      if createFails {
        return Err(CartInsertFailed);
      }
      var c := nextCartId;
      CreateKeepsOneActive(carts, u.value, c);
      carts := carts[c := CartRow(u.value, Active)];
      nextCartId := nextCartId + 1;
      cachedCart := Some(c);
      r := Ok(Some(c));
    }

    /**
     * `addToCart(product, qty)`: a guest add goes to the local list, an authenticated add
     * to `cart_items`; a product already in the cart is reported, never added twice.
     */
    method AddToCart(p: Product, qty: int, createFails: bool, insertFails: bool) returns (r: Result<AddOutcome, CartError>)
      requires Valid()
      modifies this`guest, this`items, this`cachedUser, this`cachedCart, this`carts, this`nextCartId
      ensures Valid()
      ensures old(CurrentUser()).None? ==>
        && r == Ok(AddOutcome(true, FindIndex(old(guest), p.id) >= 0))
        && guest == GuestAdded(old(guest), p) && items == old(items) && carts == old(carts)
      ensures cachedUser == Memoised(old(CurrentUser()))
      ensures old(CurrentUser()).Some? ==> guest == old(guest)
      ensures old(CurrentUser()).Some? && r.Ok? ==>
        && cachedCart.Some? && carts[cachedCart.value].userId == old(CurrentUser()).value
        && !r.value.local
        && r.value.alreadyInCart == HasRow(old(items), cachedCart.value, p.id)
        && items == AuthAdded(old(items), cachedCart.value, p)
      ensures r.Err? ==> items == old(items) && guest == old(guest)
    {
      var u := GetUserId();
      if u.None? {
        r := AddGuestItem(p);
        return;
      }
      var cid := GetActiveCartId(createFails);
      if cid.Err? {
        return Err(cid.error);
      }
      r := InsertCartItem(cid.value.value, p, insertFails);
    }

    /** The guest half of `addToCart`: the local list gains the product unless it holds it already. */
    method AddGuestItem(p: Product) returns (r: Result<AddOutcome, CartError>)
      requires Valid()
      modifies this`guest
      ensures Valid()
      ensures r == Ok(AddOutcome(true, FindIndex(old(guest), p.id) >= 0))
      ensures guest == GuestAdded(old(guest), p)
    {
      var i := FindIndex(guest, p.id);
      if i >= 0 {
        return Ok(AddOutcome(true, true));
      }
      GuestAddKeepsValid(guest, p);
      guest := guest + [NewGuestItem(p)];
      r := Ok(AddOutcome(true, false));
    }

    /** The authenticated half of `addToCart`: one row per product in cart `c`, inserted only when missing. */
    method InsertCartItem(c: CartId, p: Product, insertFails: bool) returns (r: Result<AddOutcome, CartError>)
      requires Valid() && c in carts
      modifies this`items
      ensures Valid()
      ensures r.Ok? ==> !r.value.local && r.value.alreadyInCart == HasRow(old(items), c, p.id) && items == AuthAdded(old(items), c, p)
      ensures r.Err? <==> insertFails && !HasRow(old(items), c, p.id)
      ensures r.Err? ==> r == Err(ItemInsertFailed) && items == old(items)
    {
      AuthAddedSpec(items, c, p);
      AlreadyInRemoteCartIff(items, c, p.id);
      var existing := MaybeSingleRow(items, c, p.id);
      if existing.Some? && existing.value.qty > 0 {
        return Ok(AddOutcome(false, true));
      }
      if insertFails {
        return Err(ItemInsertFailed);
      }
      items := items + [NewRow(c, p)];
      r := Ok(AddOutcome(false, false));
    }

    /** `removeFromCart(id)`: every line of that product leaves the guest list, or its row leaves the active cart. */
    method RemoveFromCart(pid: ProductId, createFails: bool, deleteFails: bool) returns (r: Result<bool, CartError>)
      requires Valid()
      modifies this`guest, this`items, this`cachedUser, this`cachedCart, this`carts, this`nextCartId
      ensures Valid()
      ensures old(CurrentUser()).None? ==>
        r == Ok(true) && guest == GuestRemoved(old(guest), pid) && items == old(items) && carts == old(carts)
      ensures old(CurrentUser()).Some? ==> guest == old(guest)
      ensures cachedUser == Memoised(old(CurrentUser()))
      ensures old(CurrentUser()).Some? && r.Ok? ==>
        && r.value == false && cachedCart.Some? && carts[cachedCart.value].userId == old(CurrentUser()).value
        && items == AuthRemoved(old(items), cachedCart.value, pid)
      ensures old(cachedCart).Some? ==> cachedCart == old(cachedCart)
      ensures r.Err? ==> items == old(items) && guest == old(guest)
    {
      var u := GetUserId();
      if u.None? {
        RemoveGuestItem(pid);
        return Ok(true);
      }
      var cid := GetActiveCartId(createFails);
      if cid.Err? {
        return Err(cid.error);
      }
      if deleteFails {
        return Err(ItemDeleteFailed);
      }
      DeleteCartItem(cid.value.value, pid);
      r := Ok(false);
    }

    /** The guest half of `removeFromCart`: the list is filtered and written back. */
    method RemoveGuestItem(pid: ProductId)
      requires Valid()
      modifies this`guest
      ensures Valid()
      ensures guest == GuestRemoved(old(guest), pid)
    {
      GuestRemovedSpec(guest, pid);
      guest := GuestRemoved(guest, pid);
    }

    /** The authenticated half of `removeFromCart`: the delete matching cart `c` and the product. */
    method DeleteCartItem(c: CartId, pid: ProductId)
      requires Valid()
      modifies this`items
      ensures Valid()
      ensures items == AuthRemoved(old(items), c, pid)
    {
      AuthRemovedSpec(items, c, pid, c + 1);
      assert forall i :: 0 <= i < |AuthRemoved(items, c, pid)| ==> AuthRemoved(items, c, pid)[i] in items;
      items := AuthRemoved(items, c, pid);
    }

    /** `getCartSummaryCount`: the guest list's length, or the number of rows of the active cart. */
    method GetCartSummaryCount(createFails: bool) returns (r: Result<nat, CartError>)
      requires Valid()
      modifies this`cachedUser, this`cachedCart, this`carts, this`nextCartId
      ensures Valid()
      ensures old(CurrentUser()).None? ==> r == Ok(|guest|)
      ensures cachedUser == Memoised(old(CurrentUser()))
      ensures old(CurrentUser()).Some? && r.Ok? ==>
        && cachedCart.Some? && carts[cachedCart.value].userId == old(CurrentUser()).value
        && r.value == CountInCart(items, cachedCart.value)
      ensures old(cachedCart).Some? ==> cachedCart == old(cachedCart)
    {
      var u := GetUserId();
      if u.None? {
        return Ok(|guest|);
      }
      var cid := GetActiveCartId(createFails);
      if cid.Err? {
        return Err(cid.error);
      }
      r := Ok(CountInCart(items, cid.value.value));
    }

    /**
     * `mergeLocalCartToDb`: a no-op for a guest or an empty guest list; otherwise the
     * guest lines missing from the active cart are inserted, and the guest list is
     * cleared only once the insert has succeeded.
     */
    method MergeLocalCartToDb(createFails: bool, insertFails: bool) returns (r: Result<(), CartError>)
      requires Valid()
      modifies this`guest, this`items, this`cachedUser, this`cachedCart, this`carts, this`nextCartId
      ensures Valid()
      ensures old(CurrentUser()).None? || old(guest) == [] ==>
        r.Ok? && guest == old(guest) && items == old(items) && carts == old(carts)
      ensures cachedUser == Memoised(old(CurrentUser()))
      ensures old(CurrentUser()).Some? && old(guest) != [] && r.Ok? ==>
        && guest == [] && cachedCart.Some? && carts[cachedCart.value].userId == old(CurrentUser()).value
        && items == old(items) + MergeRows(old(guest), old(items), cachedCart.value)
      ensures r.Err? ==> guest == old(guest) && items == old(items)
    {
      var u := GetUserId();
      if u.None? {
        return Ok(());
      }
      if guest == [] {
        return Ok(());
      }
      var cid := GetActiveCartId(createFails);
      if cid.Err? {
        return Err(cid.error);
      }
      var c := cid.value.value;
      var rows := MergeRows(guest, items, c);
      if |rows| > 0 && insertFails {
        return Err(ItemInsertFailed);
      }
      MergeKeepsValid(guest, items, c);
      MergeRowsSpec(guest, items, c);
      assert forall i :: 0 <= i < |rows| ==> rows[i] in rows;
      items := items + rows;
      guest := [];
      r := Ok(());
    }
  }
}
