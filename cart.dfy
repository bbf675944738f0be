/**
 * The shopping cart of src/App.tsx as values: a sequence of lines, the pure
 * updates its handlers compute with `find`, `map` and spread, and the two
 * `reduce` totals.
 */
module Cart {
  import opened Wrappers
  import opened Catalog

  /** A cart line: a copy of the product and its quantity (an absent quantity is 0). */
  datatype Line = Line(product: Product, quantity: nat)

  predicate HasId(cart: seq<Line>, id: string) {
    exists i :: 0 <= i < |cart| && cart[i].product.id == id
  }

  /** No two lines are for the same product id. */
  predicate UniqueIds(cart: seq<Line>) {
    forall i, j :: 0 <= i < j < |cart| ==> cart[i].product.id != cart[j].product.id
  }

  /** `cartItems.find(cartItem => cartItem.id === id)`: the first line with that id. */
  function Find(cart: seq<Line>, id: string): (r: Option<Line>)
    ensures r.Some? <==> HasId(cart, id)
    ensures r.Some? ==> exists i :: 0 <= i < |cart| && cart[i] == r.value && r.value.product.id == id
                                   && forall j :: 0 <= j < i ==> cart[j].product.id != id
    decreases |cart|
  {
    if cart == [] then None
    else if cart[0].product.id == id then Some(cart[0])
    else
      var r := Find(cart[1..], id);
      assert forall i :: 0 < i < |cart| ==> cart[i] == cart[1..][i - 1];
      r
  }

  /** `handleAddToCart`: append a line with quantity 1 unless the id is already in the cart. */
  function Added(cart: seq<Line>, p: Product): (r: seq<Line>)
    ensures HasId(cart, p.id) ==> r == cart
    ensures !HasId(cart, p.id) ==> r == cart + [Line(p, 1)]
    ensures HasId(r, p.id)
    ensures UniqueIds(cart) ==> UniqueIds(r)
  {
    match Find(cart, p.id)
    case Some(_) => cart
    case None =>
      var r := cart + [Line(p, 1)];
      assert r[|cart|].product.id == p.id;
      r
  }

  /** `cartItem.quantity ? cartItem.quantity + 1 : 1`. */
  function Incremented(quantity: nat): nat {
    if quantity > 0 then quantity + 1 else 1
  }

  function IncreaseLine(line: Line, id: string): Line {
    if line.product.id == id then line.(quantity := Incremented(line.quantity)) else line
  }

  /** `handleIncreaseQuantity`: the `map` over the cart. */
  function Increased(cart: seq<Line>, id: string): (r: seq<Line>)
    ensures |r| == |cart|
    ensures forall i :: 0 <= i < |r| ==> r[i].product == cart[i].product
    ensures forall i :: 0 <= i < |r| ==>
      r[i].quantity == if cart[i].product.id == id then cart[i].quantity + 1 else cart[i].quantity
    ensures !HasId(cart, id) ==> r == cart
  {
    seq(|cart|, i requires 0 <= i < |cart| => IncreaseLine(cart[i], id))
  }

  function DecreaseLine(line: Line, id: string): Line {
    if line.product.id == id && line.quantity > 0 then line.(quantity := line.quantity - 1) else line
  }

  /** `handleDecreaseQuantity`: the `map` over the cart; a line at 0 stays at 0 and is kept. */
  function Decreased(cart: seq<Line>, id: string): (r: seq<Line>)
    ensures |r| == |cart|
    ensures forall i :: 0 <= i < |r| ==> r[i].product == cart[i].product
    ensures forall i :: 0 <= i < |r| ==>
      r[i].quantity == if cart[i].product.id == id && cart[i].quantity > 0 then cart[i].quantity - 1 else cart[i].quantity
    ensures !HasId(cart, id) ==> r == cart
  {
    seq(|cart|, i requires 0 <= i < |cart| => DecreaseLine(cart[i], id))
  }

  /** `totalItems`: the left-to-right `reduce` adding up the quantities. */
  function TotalItems(cart: seq<Line>): (r: nat)
    ensures r == 0 <==> forall i :: 0 <= i < |cart| ==> cart[i].quantity == 0
    decreases |cart|
  {
    if cart == [] then 0
    else
      var n := |cart| - 1;
      assert forall i :: 0 <= i < n ==> cart[..n][i] == cart[i];
      TotalItems(cart[..n]) + cart[n].quantity
  }

  /** `totalAmount`: the left-to-right `reduce` adding up price times quantity. */
  function TotalAmount(cart: seq<Line>): (r: int)
    ensures (forall i :: 0 <= i < |cart| ==> cart[i].product.unitPrice >= 0) ==> r >= 0
    decreases |cart|
  {
    if cart == [] then 0
    else
      var n := |cart| - 1;
      assert forall i :: 0 <= i < n ==> cart[..n][i] == cart[i];
      TotalAmount(cart[..n]) + cart[n].product.unitPrice * cart[n].quantity
  }

  // ---------------------------------------------------------------- lemmas

  /** Adding a product that is already in the cart a second time changes nothing. */
  lemma AddTwice(cart: seq<Line>, p: Product)
    ensures Added(Added(cart, p), p) == Added(cart, p)
  {
  }

  /** Adding a new product adds one item and its price; adding a present one changes no total. */
  lemma AddTotals(cart: seq<Line>, p: Product)
    ensures HasId(cart, p.id) ==> TotalItems(Added(cart, p)) == TotalItems(cart)
    ensures !HasId(cart, p.id) ==> TotalItems(Added(cart, p)) == TotalItems(cart) + 1
    ensures HasId(cart, p.id) ==> TotalAmount(Added(cart, p)) == TotalAmount(cart)
    ensures !HasId(cart, p.id) ==> TotalAmount(Added(cart, p)) == TotalAmount(cart) + p.unitPrice
  {
    if !HasId(cart, p.id) {
      var r := cart + [Line(p, 1)];
      assert r[..|cart|] == cart;
    }
  }

  /** Changing one line's quantity by `d` changes the totals by `d` items and `d` times its price. */
  lemma {:induction false} TotalsOfPointChange(a: seq<Line>, b: seq<Line>, k: nat, d: int)
    requires |a| == |b| && k < |a|
    requires forall i :: 0 <= i < |a| && i != k ==> a[i] == b[i]
    requires b[k].product == a[k].product && b[k].quantity == a[k].quantity + d
    ensures TotalItems(b) == TotalItems(a) + d
    ensures TotalAmount(b) == TotalAmount(a) + a[k].product.unitPrice * d
    decreases |a|
  {
    var n := |a| - 1;
    if n == k {
      assert a[..n] == b[..n];
      assert a[k].product.unitPrice * b[k].quantity
          == a[k].product.unitPrice * a[k].quantity + a[k].product.unitPrice * d;
    } else {
      TotalsOfPointChange(a[..n], b[..n], k, d);
      assert a[n] == b[n];
    }
  }

  /** The index of the line with the given id, in a cart whose ids are unique. */
  lemma UniqueIndex(cart: seq<Line>, id: string) returns (k: nat)
    requires UniqueIds(cart) && HasId(cart, id)
    ensures k < |cart| && cart[k].product.id == id && Find(cart, id) == Some(cart[k])
    ensures forall i :: 0 <= i < |cart| && i != k ==> cart[i].product.id != id
  {
    k :| 0 <= k < |cart| && cart[k].product.id == id;
    var i :| 0 <= i < |cart| && cart[i] == Find(cart, id).value && cart[i].product.id == id
             && forall j :: 0 <= j < i ==> cart[j].product.id != id;
    assert i == k;
  }

  /** Increasing a present id adds one item and that line's price to the totals. */
  lemma IncreaseTotals(cart: seq<Line>, id: string)
    requires UniqueIds(cart) && HasId(cart, id)
    ensures TotalItems(Increased(cart, id)) == TotalItems(cart) + 1
    ensures TotalAmount(Increased(cart, id)) == TotalAmount(cart) + Find(cart, id).value.product.unitPrice
  {
    var k := UniqueIndex(cart, id);
    TotalsOfPointChange(cart, Increased(cart, id), k, 1);
  }

  /**
   * Decreasing a present id whose quantity is positive removes one item and that
   * line's price from the totals; a line at 0 is left as it is.
   */
  lemma DecreaseTotals(cart: seq<Line>, id: string)
    requires UniqueIds(cart) && HasId(cart, id)
    ensures Find(cart, id).value.quantity == 0 ==> Decreased(cart, id) == cart
    ensures Find(cart, id).value.quantity > 0 ==>
      TotalItems(Decreased(cart, id)) == TotalItems(cart) - 1 &&
      TotalAmount(Decreased(cart, id)) == TotalAmount(cart) - Find(cart, id).value.product.unitPrice
  {
    var k := UniqueIndex(cart, id);
    if cart[k].quantity > 0 {
      TotalsOfPointChange(cart, Decreased(cart, id), k, -1);
    } else {
      assert Decreased(cart, id) == cart;
    }
  }

  /** Decreasing right after increasing the same id restores the cart. */
  lemma DecreaseUndoesIncrease(cart: seq<Line>, id: string)
    ensures Decreased(Increased(cart, id), id) == cart
  {
    var r := Decreased(Increased(cart, id), id);
    assert forall i :: 0 <= i < |cart| ==> r[i] == cart[i];
  }
}
