/**
 * Hash routing of the single-page shop: which section a location hash names,
 * which sections are hidden, when the maintenance panel may be used, and which
 * page loads a route triggers.
 */
module Routing {
  import opened Wrappers
  import opened Text
  import opened Auth
  import opened Products

  const DefaultHash := "#shop"
  const Shop := "shop"
  const MaintenanceSection := "maintenance"
  const ProductSection := "product"
  const CartSection := "cart"

  /** The page's sections, in the order `showSection` visits them. */
  const Sections: seq<string> := [Shop, "about", "contact", MaintenanceSection, ProductSection, CartSection]

  /** The position of the first `c` in `s`. */
  function FirstIndex(s: string, c: char): (k: nat)
    requires c in s
    ensures k < |s| && s[k] == c && c !in s[..k]
  {
    if s[0] == c then 0
    else
      var k := FirstIndex(s[1..], c) + 1;
      assert s[..k] == [s[0]] + s[1..][..k - 1];
      k
  }

  /** `String.prototype.replace(c, '')` with a one-character pattern: the first `c` is dropped. */
  function RemoveFirst(s: string, c: char): (r: string)
    ensures c !in s ==> r == s
    ensures c in s ==> |r| == |s| - 1
    ensures c in s ==> r == s[..FirstIndex(s, c)] + s[FirstIndex(s, c) + 1..]
    ensures forall x :: x in r ==> x in s
  {
    if s == [] then []
    else if s[0] == c then s[1..]
    else
      var t := RemoveFirst(s[1..], c);
      if c in s[1..] then DropFirstShift(s, c, t); [s[0]] + t
      else [s[0]] + t
  }

  /** Dropping the first `c` of the tail of `s`, when `s` does not start with `c`, drops the first `c` of `s`. */
  lemma DropFirstShift(s: string, c: char, t: string)
    requires s != [] && s[0] != c && c in s[1..]
    requires t == s[1..][..FirstIndex(s[1..], c)] + s[1..][FirstIndex(s[1..], c) + 1..]
    ensures c in s && [s[0]] + t == s[..FirstIndex(s, c)] + s[FirstIndex(s, c) + 1..]
  {
    var k := FirstIndex(s[1..], c);
    assert FirstIndex(s, c) == k + 1;
    assert s[..k + 1] == [s[0]] + s[1..][..k];
    assert s[k + 2..] == s[1..][k + 1..];
  }

  /**
   * The section of a hash: the hash (or "#shop" when empty) up to its first `?`,
   * its first `#` dropped, and "shop" when nothing is left.
   */
  function SectionOf(hash: string): (r: string)
    ensures r != [] && '?' !in r
  {
    var h := if hash == [] then DefaultHash else hash;
    var path := RemoveFirst(Split(h, '?')[0], '#');
    if path == [] then Shop else path
  }

  /** A path and a query split apart at the first `?`. */
  lemma SplitAtQuery(path: string, query: string)
    requires '?' !in path
    ensures Split(path + "?" + query, '?')[0] == path
  {
    SplitFirstPiece(path, query, '?');
    assert path + "?" + query == path + ['?'] + query;
  }

  /** `#name` and `#name?query` route to `name`; an empty hash or a bare `#` routes to the shop. */
  lemma SectionOfHash(name: string, query: string)
    requires name != [] && '?' !in name
    ensures SectionOf("#" + name) == name
    ensures SectionOf("#" + name + "?" + query) == name
    ensures SectionOf([]) == Shop && SectionOf("#") == Shop
  {
    SplitAtQuery("#" + name, query);
    SplitWithout("#" + name, '?');
    assert ("#" + name)[1..] == name;
    SplitWithout("#", '?');
    SplitWithout(DefaultHash, '?');
  }

  /** A product card's link routes to the product page. */
  lemma CardRoutesToProduct(id: string)
    ensures SectionOf(CardHref(id)) == ProductSection
  {
    var q := CardHref(id)[|ProductLink|..];
    assert CardHref(id) == "#" + ProductSection + "?" + ("id=" + q);
    SectionOfHash(ProductSection, "id=" + q);
  }

  /** The page load a route starts besides showing its section. */
  datatype PageLoad = NoLoad | LoadProductDetail | LoadCartPage

  function LoadFor(section: string): (l: PageLoad)
    ensures l == LoadProductDetail <==> section == ProductSection
    ensures l == LoadCartPage <==> section == CartSection
  {
    if section == ProductSection then LoadProductDetail
    else if section == CartSection then LoadCartPage
    else NoLoad
  }

  /** A product card's link starts the product page's load. */
  lemma CardLoadsDetail(id: string)
    ensures LoadFor(SectionOf(CardHref(id))) == LoadProductDetail
  {
    CardRoutesToProduct(id);
  }

  /** `#cart` starts the cart page's load; an empty hash, which shows the shop, starts none. */
  lemma RouteLoads()
    ensures LoadFor(SectionOf("#" + CartSection)) == LoadCartPage
    ensures LoadFor(SectionOf([])) == NoLoad
  {
    SectionOfHash(CartSection, []);
  }

  class Router {
    /** The module flag `isAdmin`. */
    var isAdmin: bool
    /** Whether each section element carries the `hidden` class. */
    var hidden: map<string, bool>
    /** The section elements present in the page. */
    var present: set<string>
    /** The last `setMaintenanceAccess` call's argument. */
    var maintenanceAccess: bool

    /** Maintenance is usable only by an admin. */
    ghost predicate Valid()
      reads this
    {
      maintenanceAccess ==> isAdmin
    }

    constructor (elements: set<string>)
      ensures Valid()
      ensures !isAdmin && !maintenanceAccess && hidden == map[] && present == elements
    {
      isAdmin, maintenanceAccess := false, false;
      hidden := map[];
      present := elements;
    }

    /**
     * `showSection(target)`: every present section but the target gets hidden and
     * the target shown; other elements are untouched. Maintenance access is
     * granted exactly to an admin on the maintenance section.
     */
    method ShowSection(target: string)
      modifies this`hidden, this`maintenanceAccess
      ensures Valid()
      ensures forall id :: id in Sections && id in present ==> id in hidden && hidden[id] == (id != target)
      ensures forall id :: !(id in Sections && id in present) ==>
        (id in hidden <==> id in old(hidden)) && (id in hidden ==> hidden[id] == old(hidden)[id])
      ensures target !in Sections ==> forall id :: id in Sections && id in present ==> hidden[id]
      ensures maintenanceAccess <==> isAdmin && target == MaintenanceSection
    {
      for i := 0 to |Sections|
        invariant forall j :: 0 <= j < i && Sections[j] in present ==>
          Sections[j] in hidden && hidden[Sections[j]] == (Sections[j] != target)
        invariant forall id :: !(id in Sections[..i] && id in present) ==>
          (id in hidden <==> id in old(hidden)) && (id in hidden ==> hidden[id] == old(hidden)[id])
      {
        var id := Sections[i];
        if id in present {
          hidden := hidden[id := id != target];
        }
      }
      assert Sections[..|Sections|] == Sections;
      maintenanceAccess := isAdmin && target == MaintenanceSection;
    }

    /** `route()`: show the hash's section and start its page load. */
    method Route(hash: string) returns (load: PageLoad)
      requires Valid()
      modifies this`hidden, this`maintenanceAccess
      ensures Valid()
      ensures load == LoadFor(SectionOf(hash))
      ensures forall id :: id in Sections && id in present ==> id in hidden && hidden[id] == (id != SectionOf(hash))
      ensures maintenanceAccess <==> isAdmin && SectionOf(hash) == MaintenanceSection
    {
      var section := SectionOf(hash);
      ShowSection(section);
      load := LoadFor(section);
    }

    /**
     * The session check after start-up: with a signed-in user the admin flag
     * follows the profile's role ("" when it has none) and the current section is
     * shown again; without one the flag and maintenance access are cleared.
     */
    method OnSession(role: Option<string>, hash: string)
      requires Valid()
      modifies this`isAdmin, this`hidden, this`maintenanceAccess
      ensures Valid()
      ensures isAdmin <==> role.Some? && IsAdminRole(role.value)
      ensures maintenanceAccess <==> role.Some? && IsAdminRole(role.value) && SectionOf(hash) == MaintenanceSection
      ensures role.None? ==> hidden == old(hidden)
      ensures role.Some? ==> forall id :: id in Sections && id in present ==>
        id in hidden && hidden[id] == (id != SectionOf(hash))
    {
      if role.Some? {
        isAdmin := IsAdminRole(role.value);
        ShowSection(SectionOf(hash));
      } else {
        isAdmin := false;
        maintenanceAccess := false;
      }
    }
  }
}
