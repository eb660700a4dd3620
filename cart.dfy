/** The shopping cart of App.tsx as pure functions over the list of lines:
    what `addToCart` and `removeFromCart` hand to `setCart`, and `cartTotal`. */
module Cart {
  import opened Types
  import opened Lists

  /** What one line contributes to the total. */
  function LineTotal(l: OrderItem): int {
    l.price * l.quantity
  }

  /** Some line of the cart is for product `id`. */
  predicate InCart(cart: seq<OrderItem>, id: string) {
    exists i :: 0 <= i < |cart| && cart[i].productId == id
  }

  /** The invariant the cart handlers keep: one line per product, every quantity at least 1. */
  ghost predicate WellFormed(cart: seq<OrderItem>) {
    && KeysDistinct(cart, LineKey)
    && forall i :: 0 <= i < |cart| ==> cart[i].quantity >= 1
  }

  /** `cart.find(item => item.productId === id)`, given as the position of the line found. */
  function FindLine(cart: seq<OrderItem>, id: string): (r: Option<nat>)
    ensures r.None? <==> !InCart(cart, id)
    ensures r.Some? ==> r.value < |cart| && cart[r.value].productId == id
    ensures r.Some? ==> forall j :: 0 <= j < r.value ==> cart[j].productId != id
  {
    if cart == [] then None
    else if cart[0].productId == id then Some(0)
    else
      match FindLine(cart[1..], id)
      case None => None
      case Some(j) => Some(j + 1)
  }

  /** The `map` of the add handler: every line for `id` gets one more unit. */
  function Bump(cart: seq<OrderItem>, id: string): (r: seq<OrderItem>)
    ensures |r| == |cart|
    ensures forall i :: 0 <= i < |cart| && cart[i].productId != id ==> r[i] == cart[i]
    ensures forall i :: 0 <= i < |cart| && cart[i].productId == id ==>
              r[i] == cart[i].(quantity := cart[i].quantity + 1)
  {
    if cart == [] then []
    else
      var head := if cart[0].productId == id then cart[0].(quantity := cart[0].quantity + 1) else cart[0];
      [head] + Bump(cart[1..], id)
  }

  /** The line a product starts with when it is first added. */
  function NewLine(p: Product): OrderItem {
    OrderItem(p.id, 1, p.price, p.name)
  }

  /** The cart after `addToCart(p)`: one line longer exactly when the product had no
      line, and holding the product afterwards. */
  function AddLine(cart: seq<OrderItem>, p: Product): (r: seq<OrderItem>)
    ensures |r| == if InCart(cart, p.id) then |cart| else |cart| + 1
    ensures InCart(r, p.id)
  {
    match FindLine(cart, p.id)
    case Some(k) =>
      var r := Bump(cart, p.id);
      assert r[k].productId == p.id;
      r
    case None =>
      var r := cart + [NewLine(p)];
      assert r[|cart|] == NewLine(p);
      r
  }

  /** The cart after `removeFromCart(id)`: exactly the lines for other products. */
  function RemoveLines(cart: seq<OrderItem>, id: string): (r: seq<OrderItem>)
    ensures forall l :: l in r <==> l in cart && l.productId != id
    ensures !InCart(r, id)
  {
    Without(cart, LineKey, id)
  }

  /** Reference definition of the total: the sum of the line totals. */
  function SumLines(cart: seq<OrderItem>): int {
    if cart == [] then 0 else LineTotal(cart[0]) + SumLines(cart[1..])
  }

  /** `reduce((sum, item) => sum + item.price * item.quantity, acc)`: a left fold, which
      adds the line sum to the starting accumulator. */
  function Fold(acc: int, cart: seq<OrderItem>): (r: int)
    ensures r == acc + SumLines(cart)
    decreases cart
  {
    if cart == [] then acc else Fold(acc + LineTotal(cart[0]), cart[1..])
  }

  /** `cartTotal`: the fold started at 0, which is the sum of price times quantity over the lines. */
  function CartTotal(cart: seq<OrderItem>): (r: int)
    ensures r == SumLines(cart)
    ensures cart == [] ==> r == 0
  {
    Fold(0, cart)
  }

  /** The total of a concatenation is the sum of the totals. */
  lemma {:induction false} SumAppend(a: seq<OrderItem>, b: seq<OrderItem>)
    ensures SumLines(a + b) == SumLines(a) + SumLines(b)
  {
    if a == [] {
      assert a + b == b;
    } else {
      assert (a + b)[0] == a[0];
      assert (a + b)[1..] == a[1..] + b;
      SumAppend(a[1..], b);
    }
  }

  /** The total of a list is the total before line `k`, plus line `k`, plus the total after it. */
  lemma SumAround(cart: seq<OrderItem>, k: nat)
    requires k < |cart|
    ensures SumLines(cart) == SumLines(cart[..k]) + LineTotal(cart[k]) + SumLines(cart[k + 1..])
  {
    Split(cart, k);
    SumAppend(cart[..k], [cart[k]] + cart[k + 1..]);
    assert ([cart[k]] + cart[k + 1..])[1..] == cart[k + 1..];
  }

  /** Adding a product that already has line `k` adds one unit to that line and
      leaves every other line, the line order and the cart length alone. */
  lemma AddExisting(cart: seq<OrderItem>, p: Product, k: nat)
    requires WellFormed(cart)
    requires k < |cart| && cart[k].productId == p.id
    ensures |AddLine(cart, p)| == |cart|
    ensures AddLine(cart, p)[k] == cart[k].(quantity := cart[k].quantity + 1)
    ensures forall j :: 0 <= j < |cart| && j != k ==> AddLine(cart, p)[j] == cart[j]
  {
    assert FindLine(cart, p.id).Some?;
    OnlyLine(cart, k);
  }

  /** Adding a product not yet in the cart appends one line for it, with quantity 1
      and the product's current price and name. */
  lemma AddNew(cart: seq<OrderItem>, p: Product)
    requires !InCart(cart, p.id)
    ensures AddLine(cart, p) == cart + [OrderItem(p.id, 1, p.price, p.name)]
  {
  }

  /** Adding keeps the cart well formed, and afterwards the product is in the cart. */
  lemma AddKeepsWellFormed(cart: seq<OrderItem>, p: Product)
    requires WellFormed(cart)
    ensures WellFormed(AddLine(cart, p))
    ensures InCart(AddLine(cart, p), p.id)
  {
    var r := AddLine(cart, p);
    match FindLine(cart, p.id)
    case Some(k) =>
      AddExisting(cart, p, k);
      assert forall j :: 0 <= j < |r| ==> LineKey(r[j]) == LineKey(cart[j]);
      assert r[k].productId == p.id;
    case None =>
      assert forall j :: 0 <= j < |cart| ==> r[j] == cart[j];
      assert r[|cart|] == NewLine(p);
  }

  /** Removing keeps the cart well formed and leaves no line for `id`. */
  lemma RemoveKeepsWellFormed(cart: seq<OrderItem>, id: string)
    requires WellFormed(cart)
    ensures WellFormed(RemoveLines(cart, id))
    ensures !InCart(RemoveLines(cart, id), id)
  {
    var r := RemoveLines(cart, id);
    WithoutKeepsDistinct(cart, LineKey, id);
    forall i | 0 <= i < |r| ensures r[i].quantity >= 1 && r[i].productId != id {
      assert r[i] in r;
      var j :| 0 <= j < |cart| && cart[j] == r[i];
    }
  }

  /** Removing an id that has no line changes nothing. */
  lemma RemoveAbsent(cart: seq<OrderItem>, id: string)
    requires !InCart(cart, id)
    ensures RemoveLines(cart, id) == cart
  {
    WithoutAbsent(cart, LineKey, id);
  }

  /** Removing the product of line `k` drops exactly that line, keeps the others in
      order and lowers the total by that line's total. */
  lemma RemovePresent(cart: seq<OrderItem>, k: nat)
    requires WellFormed(cart)
    requires k < |cart|
    ensures RemoveLines(cart, cart[k].productId) == cart[..k] + cart[k + 1..]
    ensures |RemoveLines(cart, cart[k].productId)| == |cart| - 1
    ensures CartTotal(RemoveLines(cart, cart[k].productId)) == CartTotal(cart) - LineTotal(cart[k])
  {
    WithoutUnique(cart, LineKey, k);
    SumAround(cart, k);
    SumAppend(cart[..k], cart[k + 1..]);
  }

  /** Adding a product raises the total by one unit of it: by the price snapshot on
      its existing line, or by the product's price when it gets a new line. */
  lemma AddTotal(cart: seq<OrderItem>, p: Product)
    requires WellFormed(cart)
    ensures CartTotal(AddLine(cart, p)) == CartTotal(cart) +
              match FindLine(cart, p.id) case Some(k) => cart[k].price case None => p.price
  {
    match FindLine(cart, p.id)
    case Some(k) =>
      AddExistingTotal(cart, p, k);
    case None =>
      SumAppend(cart, [NewLine(p)]);
      assert [NewLine(p)][1..] == [];
  }

  /** In a well-formed cart, line `k` is the only line for its product. */
  lemma OnlyLine(cart: seq<OrderItem>, k: nat)
    requires WellFormed(cart)
    requires k < |cart|
    ensures forall j :: 0 <= j < |cart| && j != k ==> cart[j].productId != cart[k].productId
  {
    forall j | 0 <= j < |cart| && j != k ensures cart[j].productId != cart[k].productId {
      if j < k {
        assert LineKey(cart[j]) != LineKey(cart[k]);
      } else {
        assert LineKey(cart[k]) != LineKey(cart[j]);
      }
    }
  }

  /** Bumping the only line for `id` raises the total by that line's price. */
  lemma BumpTotal(cart: seq<OrderItem>, id: string, k: nat)
    requires k < |cart| && cart[k].productId == id
    requires forall j :: 0 <= j < |cart| && j != k ==> cart[j].productId != id
    ensures SumLines(Bump(cart, id)) == SumLines(cart) + cart[k].price
  {
    var r := Bump(cart, id);
    SumAround(cart, k);
    SumAround(r, k);
    assert r[..k] == cart[..k];
    assert r[k + 1..] == cart[k + 1..];
  }

  /** Adding a product that has line `k` raises the total by that line's price. */
  lemma AddExistingTotal(cart: seq<OrderItem>, p: Product, k: nat)
    requires WellFormed(cart)
    requires k < |cart| && cart[k].productId == p.id
    ensures CartTotal(AddLine(cart, p)) == CartTotal(cart) + cart[k].price
  {
    OnlyLine(cart, k);
    assert FindLine(cart, p.id).Some?;
    BumpTotal(cart, p.id, k);
  }

  /** When every line for `p` carries p's current price (as when the catalogue price has
      not changed since the line was made), adding `p` raises the total by exactly p.price. */
  lemma AddTotalCurrentPrice(cart: seq<OrderItem>, p: Product)
    requires WellFormed(cart)
    requires forall i :: 0 <= i < |cart| && cart[i].productId == p.id ==> cart[i].price == p.price
    ensures CartTotal(AddLine(cart, p)) == CartTotal(cart) + p.price
  {
    AddTotal(cart, p);
  }

  /** Every line's price is the one `prices` records for its product. */
  ghost predicate PricedBy(cart: seq<OrderItem>, prices: map<string, int>) {
    forall i :: 0 <= i < |cart| ==> cart[i].productId in prices && cart[i].price == prices[cart[i].productId]
  }

  /** Adding a product whose price is the recorded one keeps every line at its recorded price. */
  lemma AddKeepsPriced(cart: seq<OrderItem>, p: Product, prices: map<string, int>)
    requires PricedBy(cart, prices)
    requires p.id in prices && prices[p.id] == p.price
    ensures PricedBy(AddLine(cart, p), prices)
  {
    var r := AddLine(cart, p);
    if !InCart(cart, p.id) {
      assert forall i :: 0 <= i < |cart| ==> r[i] == cart[i];
      assert r[|cart|] == NewLine(p);
    }
  }

  /** Removing lines keeps every remaining line at its recorded price. */
  lemma RemoveKeepsPriced(cart: seq<OrderItem>, id: string, prices: map<string, int>)
    requires PricedBy(cart, prices)
    ensures PricedBy(RemoveLines(cart, id), prices)
  {
    var r := RemoveLines(cart, id);
    forall i | 0 <= i < |r| ensures r[i].productId in prices && r[i].price == prices[r[i].productId] {
      assert r[i] in r;
      var j :| 0 <= j < |cart| && cart[j] == r[i];
    }
  }

  /** Removing a product just added to a cart that did not hold it gives back that cart. */
  lemma RemoveUndoesAdd(cart: seq<OrderItem>, p: Product)
    requires !InCart(cart, p.id)
    ensures RemoveLines(AddLine(cart, p), p.id) == cart
  {
    WithoutAppend(cart, [NewLine(p)], LineKey, p.id);
    WithoutAbsent(cart, LineKey, p.id);
    assert [NewLine(p)][1..] == [];
  }
}
