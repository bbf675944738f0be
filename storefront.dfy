/**
 * The state of the `App` component in src/App.tsx: the catalog, the three
 * inputs of the visible list, the cart, the thank-you flag and the browser's
 * stored copy of the cart, with one method per handler.
 */
module Storefront {
  import opened Wrappers
  import opened Catalog
  import opened Cart
  import View

  /** The category button that stands for "no category filter". */
  const AllProducts := "All Products"

  /** `handleCategoryFilter`'s mapping from a category button's name to `selectedCategory`. */
  function CategoryFor(categoryName: string): (r: Option<string>)
    ensures r.None? <==> categoryName == AllProducts
    ensures r.Some? ==> r.value == categoryName
  {
    if categoryName == AllProducts then None else Some(categoryName)
  }

  /** "All Products" lets every category through; any other button selects exactly that category. */
  lemma CategoryFilterMeaning(p: Product, categoryName: string)
    ensures View.MatchesCategory(p, CategoryFor(categoryName))
        <==> categoryName == AllProducts || p.category == categoryName
  {
  }

  /**
   * How the stored copy relates to the live cart: nothing stored means an empty
   * cart, and a stored copy has the same products in the same order, while its
   * quantities may lag behind (increase and decrease do not write it).
   */
  predicate MirrorTracks(cart: seq<Line>, stored: Option<seq<Line>>) {
    match stored
    case None => cart == []
    case Some(s) => |s| == |cart| && forall i :: 0 <= i < |s| ==> s[i].product == cart[i].product
  }

  class App {
    /** `jsonData`: the catalog, set once at start-up and never changed. */
    var catalog: seq<Product>
    var searchText: string
    var selectedCategory: Option<string>
    var isHighToLow: bool
    var cartItems: seq<Line>
    var showThankYouModal: bool
    /** The `cartItems` slot in the browser's local storage. */
    var storedCart: Option<seq<Line>>

    ghost predicate Valid()
      reads this
    {
      UniqueIds(cartItems) && MirrorTracks(cartItems, storedCart)
    }

    /**
     * The component after its start-up effects: the catalog is loaded and the
     * cart is restored from the stored copy when there is one.
     */
    constructor (catalog: seq<Product>, stored: Option<seq<Line>>)
      ensures this.catalog == catalog && storedCart == stored
      ensures searchText == "" && selectedCategory == None && !isHighToLow && !showThankYouModal
      ensures cartItems == if stored.Some? then stored.value else []
      ensures MirrorTracks(cartItems, storedCart)
      ensures (stored.None? || UniqueIds(stored.value)) ==> Valid()
    {
      this.catalog := catalog;
      searchText := "";
      selectedCategory := None;
      isHighToLow := false;
      showThankYouModal := false;
      storedCart := stored;
      match stored
      case Some(s) => cartItems := s;
      case None => cartItems := [];
    }

    /** `filteredData`: what the filter-and-sort effect computes from the current state. */
    function VisibleProducts(): (r: seq<Product>)
      reads this
      ensures forall x :: x in r <==> x in catalog && View.Matches(x, searchText, selectedCategory)
      ensures forall i, j :: 0 <= i < j < |r| ==>
        if isHighToLow then r[i].unitPrice >= r[j].unitPrice else r[i].unitPrice <= r[j].unitPrice
    {
      View.VisibleExactly(catalog, searchText, selectedCategory, isHighToLow);
      View.Visible(catalog, searchText, selectedCategory, isHighToLow)
    }

    /** The search bar's `onSearch`. */
    method Search(text: string)
      modifies this`searchText
      ensures searchText == text
    {
      searchText := text;
    }

    /** `handleCategoryFilter`. */
    method FilterByCategory(categoryName: string)
      modifies this`selectedCategory
      ensures selectedCategory == CategoryFor(categoryName)
    {
      selectedCategory := CategoryFor(categoryName);
    }

    /** `handleSortToggle`. */
    method ToggleSort()
      modifies this`isHighToLow
      ensures isHighToLow == !old(isHighToLow)
    {
      isHighToLow := !isHighToLow;
    }

    /** `handleAddToCart`: a new product is appended with quantity 1 and the cart is stored; a present one is ignored. */
    method AddToCart(item: Product)
      modifies this`cartItems, this`storedCart
      ensures cartItems == Added(old(cartItems), item)
      ensures storedCart == if HasId(old(cartItems), item.id) then old(storedCart) else Some(cartItems)
      ensures old(Valid()) ==> Valid()
    {
      var existingItem := Find(cartItems, item.id);
      if existingItem.None? {
        var updatedCartItems := cartItems + [Line(item, 1)];
        cartItems := updatedCartItems;
        storedCart := Some(updatedCartItems);
      }
    }

    /** `handleClearCart`: empty the cart and remove the stored copy. */
    method ClearCart()
      modifies this`cartItems, this`storedCart
      ensures cartItems == [] && storedCart == None
      ensures Valid()
    {
      cartItems := [];
      storedCart := None;
    }

    /** `handleIncreaseQuantity`: the stored copy is not rewritten. */
    method IncreaseQuantity(itemId: string)
      modifies this`cartItems
      ensures cartItems == Increased(old(cartItems), itemId)
      ensures old(Valid()) ==> Valid()
      ensures old(Valid()) && HasId(old(cartItems), itemId) ==>
        TotalItems(cartItems) == TotalItems(old(cartItems)) + 1 &&
        TotalAmount(cartItems) == TotalAmount(old(cartItems)) + Find(old(cartItems), itemId).value.product.unitPrice
    {
      var before := cartItems;
      cartItems := Increased(cartItems, itemId);
      if UniqueIds(before) && HasId(before, itemId) {
        IncreaseTotals(before, itemId);
      }
    }

    /** `handleDecreaseQuantity`: the stored copy is not rewritten. */
    method DecreaseQuantity(itemId: string)
      modifies this`cartItems
      ensures cartItems == Decreased(old(cartItems), itemId)
      ensures old(Valid()) ==> Valid()
      ensures old(Valid()) && HasId(old(cartItems), itemId) && Find(old(cartItems), itemId).value.quantity == 0 ==>
        cartItems == old(cartItems)
      ensures old(Valid()) && HasId(old(cartItems), itemId) && Find(old(cartItems), itemId).value.quantity > 0 ==>
        TotalItems(cartItems) == TotalItems(old(cartItems)) - 1 &&
        TotalAmount(cartItems) == TotalAmount(old(cartItems)) - Find(old(cartItems), itemId).value.product.unitPrice
    {
      var before := cartItems;
      cartItems := Decreased(cartItems, itemId);
      if UniqueIds(before) && HasId(before, itemId) {
        DecreaseTotals(before, itemId);
      }
    }

    /** `handleCheckout`: clear the cart and its stored copy, then raise the thank-you flag. */
    method Checkout()
      modifies this`cartItems, this`storedCart, this`showThankYouModal
      ensures cartItems == [] && storedCart == None && showThankYouModal
      ensures Valid()
    {
      cartItems := [];
      storedCart := None;
      showThankYouModal := true;
    }
  }

  /** Adding `p` to an empty cart, then adding it again. */
  lemma AddOneProduct(p: Product)
    ensures Added([], p) == [Line(p, 1)]
    ensures Added([Line(p, 1)], p) == [Line(p, 1)]
  {
    assert [] + [Line(p, 1)] == [Line(p, 1)];
    assert [Line(p, 1)][0].product.id == p.id;
  }

  /** Increasing the only line of a cart, and the totals of that line. */
  lemma IncreaseOneLine(p: Product)
    ensures Increased([Line(p, 1)], p.id) == [Line(p, 2)]
    ensures TotalItems([Line(p, 1)]) == 1 && TotalItems([Line(p, 2)]) == 2
    ensures TotalAmount([Line(p, 2)]) == p.unitPrice * 2
  {
    var r := Increased([Line(p, 1)], p.id);
    assert r[0] == Line(p, 2);
    assert [Line(p, 1)][..0] == [] && [Line(p, 2)][..0] == [];
  }

  /**
   * A session: add a product twice, increase it once, then reload the page from
   * the stored copy. The live cart holds one line with 2 items; the reloaded one
   * has 1 item, because increasing does not rewrite the stored copy.
   */
  method ReloadAfterIncrease(catalog: seq<Product>, p: Product) returns (lines: nat, live: nat, reloaded: nat)
    ensures lines == 1 && live == 2 && reloaded == 1
  {
    AddOneProduct(p);
    IncreaseOneLine(p);
    var app := new App(catalog, None);
    app.AddToCart(p);
    app.AddToCart(p);
    app.IncreaseQuantity(p.id);
    lines := |app.cartItems|;
    live := TotalItems(app.cartItems);
    var restarted := new App(catalog, app.storedCart);
    reloaded := TotalItems(restarted.cartItems);
  }

  /** Two products of different prices, no search text, no category: low to high puts the cheaper first. */
  lemma TwoProductsLowToHigh(cheap: Product, dear: Product)
    requires cheap.unitPrice < dear.unitPrice
    ensures View.Visible([dear, cheap], "", None, false) == [cheap, dear]
  {
    View.FilteredUnrestricted([dear, cheap]);
    assert View.SortByPrice([cheap], false) == [cheap];
    assert View.Insert(dear, [cheap], false) == [cheap, dear];
  }

  /**
   * Two products, no search text, no category, low to high: the cheaper one comes
   * first; one add, a repeated add and an increase give 2 items costing twice its price.
   */
  method ShopScenario() returns (order: seq<string>, items: nat, amount: int)
    ensures order == ["1", "2"] && items == 2 && amount == 400
  {
    var apple := Product("1", "Apple", "", 200, "groceries", "");
    var shirt := Product("2", "Shirt", "", 2000, "cloths", "");
    TwoProductsLowToHigh(apple, shirt);
    AddOneProduct(apple);
    IncreaseOneLine(apple);
    var app := new App([shirt, apple], None);
    var visible := app.VisibleProducts();
    order := [visible[0].id, visible[1].id];
    app.AddToCart(apple);
    app.AddToCart(apple);
    app.IncreaseQuantity(apple.id);
    items := TotalItems(app.cartItems);
    amount := TotalAmount(app.cartItems);
  }
}
