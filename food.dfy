/** The cart of `yen-dine-hub-connect-main/src/pages/Food.tsx`. `addToCart` and
    `removeFromCart` build a new cart that `setCart` swaps in, `getTotalPrice` is a
    `reduce`, and the checkout only refuses an empty cart before it picks a payment
    screen. Prices are whole rupees. */
module Food {
  import opened Seqs
  import opened Text

  /** An entry of `mockFoodItems`. */
  datatype FoodItem = FoodItem(id: int, name: string, price: int, vendor: string, isVeg: bool, image: string)

  /** `{ ...item, quantity }`: a menu item with the number ordered. */
  datatype CartItem = CartItem(item: FoodItem, quantity: int)

  predicate HasId(cart: seq<CartItem>, id: int) {
    exists i :: 0 <= i < |cart| && cart[i].item.id == id
  }

  // ---- add and remove -----------------------------------------------------------

  /** `addToCart(item)`: when an entry with the item's id is in the cart, every such entry
      gets one more of it, in place; otherwise the item is appended with quantity 1. */
  function AddToCart(cart: seq<CartItem>, item: FoodItem): (r: seq<CartItem>)
    ensures !HasId(cart, item.id) ==> r == cart + [CartItem(item, 1)]
    ensures HasId(cart, item.id) ==>
              && |r| == |cart|
              && (forall i :: 0 <= i < |cart| && cart[i].item.id != item.id ==> r[i] == cart[i])
              && (forall i :: 0 <= i < |cart| && cart[i].item.id == item.id ==>
                    r[i] == cart[i].(quantity := cart[i].quantity + 1))
  {
    if HasId(cart, item.id) then
      MapIf(cart, (c: CartItem) => c.item.id == item.id, (c: CartItem) => c.(quantity := c.quantity + 1))
    else
      cart + [CartItem(item, 1)]
  }

  /** `removeFromCart(itemId)`: every entry with that id goes; the others stay in order. */
  function RemoveFromCart(cart: seq<CartItem>, itemId: int): (r: seq<CartItem>)
    ensures !HasId(r, itemId)
    ensures forall i :: 0 <= i < |cart| && cart[i].item.id != itemId ==> cart[i] in r
    ensures forall i :: 0 <= i < |r| ==> r[i] in cart
  {
    Filter(cart, (c: CartItem) => c.item.id != itemId)
  }

  /** Removal keeps the order of what is left: the removal from a concatenation is
      the concatenation of the removals. */
  lemma RemoveFromCartAppend(a: seq<CartItem>, b: seq<CartItem>, itemId: int)
    ensures RemoveFromCart(a + b, itemId) == RemoveFromCart(a, itemId) + RemoveFromCart(b, itemId)
  {
    FilterAppend(a, b, (c: CartItem) => c.item.id != itemId);
  }

  /** Removing an id the cart does not hold changes nothing. */
  lemma RemoveAbsent(cart: seq<CartItem>, itemId: int)
    requires !HasId(cart, itemId)
    ensures RemoveFromCart(cart, itemId) == cart
  {
    FilterAll(cart, (c: CartItem) => c.item.id != itemId);
  }

  // ---- the cart invariant ---------------------------------------------------------------

  /** Each id appears in one entry at most. */
  predicate DistinctIds(cart: seq<CartItem>) {
    forall i, j :: 0 <= i < j < |cart| ==> cart[i].item.id != cart[j].item.id
  }

  /** Each id appears in one entry at most, and every entry has a positive quantity. */
  predicate ValidCart(cart: seq<CartItem>) {
    && DistinctIds(cart)
    && (forall i :: 0 <= i < |cart| ==> cart[i].quantity >= 1)
  }

  lemma AddKeepsValid(cart: seq<CartItem>, item: FoodItem)
    requires ValidCart(cart)
    ensures ValidCart(AddToCart(cart, item))
  {
  }

  lemma {:induction false} RemoveKeepsDistinctIds(cart: seq<CartItem>, itemId: int)
    requires DistinctIds(cart)
    ensures DistinctIds(RemoveFromCart(cart, itemId))
  {
    if cart != [] && cart[0].item.id != itemId {
      assert DistinctIds(cart[1..]);
      RemoveKeepsDistinctIds(cart[1..], itemId);
      var rest := RemoveFromCart(cart[1..], itemId);
      var r := RemoveFromCart(cart, itemId);
      assert r == [cart[0]] + rest;
      forall k | 0 <= k < |rest| ensures rest[k].item.id != cart[0].item.id {
        var m :| 0 <= m < |cart[1..]| && cart[1..][m] == rest[k];
        assert cart[m + 1] == rest[k];
      }
    } else if cart != [] {
      assert DistinctIds(cart[1..]);
      RemoveKeepsDistinctIds(cart[1..], itemId);
    }
  }

  lemma RemoveKeepsValid(cart: seq<CartItem>, itemId: int)
    requires ValidCart(cart)
    ensures ValidCart(RemoveFromCart(cart, itemId))
  {
    RemoveKeepsDistinctIds(cart, itemId);
  }

  /** A user's session: adds and removes in any order. */
  datatype CartAction = Add(item: FoodItem) | Remove(itemId: int)

  function Apply(cart: seq<CartItem>, action: CartAction): (r: seq<CartItem>) {
    match action
    case Add(item) => AddToCart(cart, item)
    case Remove(itemId) => RemoveFromCart(cart, itemId)
  }

  function ApplyAll(cart: seq<CartItem>, actions: seq<CartAction>): (r: seq<CartItem>)
    decreases |actions|
  {
    if actions == [] then cart else ApplyAll(Apply(cart, actions[0]), actions[1..])
  }

  /** Starting from the empty cart (`useState([])`), no sequence of adds and removes
      ever repeats an id or leaves an entry with quantity below 1. */
  lemma {:induction false} SessionKeepsValid(cart: seq<CartItem>, actions: seq<CartAction>)
    requires ValidCart(cart)
    decreases |actions|
    ensures ValidCart(ApplyAll(cart, actions))
  {
    if actions != [] {
      match actions[0] {
        case Add(item) => AddKeepsValid(cart, item);
        case Remove(itemId) => RemoveKeepsValid(cart, itemId);
      }
      SessionKeepsValid(Apply(cart, actions[0]), actions[1..]);
    }
  }

  // ---- the total ------------------------------------------------------------------

  function LinePrice(c: CartItem): int {
    c.item.price * c.quantity
  }

  /** `cart.reduce((total, item) => total + item.price * item.quantity, acc)`. */
  function Reduce(cart: seq<CartItem>, acc: int): (total: int)
    decreases |cart|
  {
    if cart == [] then acc else Reduce(cart[1..], acc + LinePrice(cart[0]))
  }

  /** `getTotalPrice()`: the reduction from 0. */
  function TotalPrice(cart: seq<CartItem>): (total: int)
    ensures total == Sum(cart)
  {
    ReduceIsSum(cart, 0);
    Reduce(cart, 0)
  }

  /** The sum of the line prices, written as a plain recursion. */
  function Sum(cart: seq<CartItem>): (s: int)
    ensures cart == [] ==> s == 0
  {
    if cart == [] then 0 else LinePrice(cart[0]) + Sum(cart[1..])
  }

  /** The left-to-right reduction computes the sum of price times quantity. */
  lemma {:induction false} ReduceIsSum(cart: seq<CartItem>, acc: int)
    ensures Reduce(cart, acc) == acc + Sum(cart)
  {
    if cart != [] {
      ReduceIsSum(cart[1..], acc + LinePrice(cart[0]));
    }
  }

  lemma TotalIsSum(cart: seq<CartItem>)
    ensures TotalPrice(cart) == Sum(cart)
    ensures cart == [] ==> TotalPrice(cart) == 0
  {
    ReduceIsSum(cart, 0);
  }

  lemma {:induction false} SumAppend(a: seq<CartItem>, b: seq<CartItem>)
    ensures Sum(a + b) == Sum(a) + Sum(b)
  {
    if a == [] {
      assert a + b == b;
    } else {
      assert (a + b)[1..] == a[1..] + b;
      SumAppend(a[1..], b);
    }
  }

  /** Adding one to the quantity of the single entry with a given id raises the sum by
      that entry's price. */
  lemma {:induction false} SumIncrement(cart: seq<CartItem>, id: int, k: nat)
    requires k < |cart| && cart[k].item.id == id
    requires forall i :: 0 <= i < |cart| && i != k ==> cart[i].item.id != id
    ensures Sum(MapIf(cart, (c: CartItem) => c.item.id == id, (c: CartItem) => c.(quantity := c.quantity + 1)))
         == Sum(cart) + cart[k].item.price
  {
    var sel := (c: CartItem) => c.item.id == id;
    var inc := (c: CartItem) => c.(quantity := c.quantity + 1);
    var r := MapIf(cart, sel, inc);
    assert r[1..] == MapIf(cart[1..], sel, inc);
    if k == 0 {
      assert MapIf(cart[1..], sel, inc) == cart[1..];
    } else {
      SumIncrement(cart[1..], id, k - 1);
    }
  }

  /** Adding an item raises the total by its price, provided an entry already holding
      its id has the same price. */
  lemma AddRaisesTotal(cart: seq<CartItem>, item: FoodItem)
    requires ValidCart(cart)
    requires forall i :: 0 <= i < |cart| && cart[i].item.id == item.id ==> cart[i].item.price == item.price
    ensures TotalPrice(AddToCart(cart, item)) == TotalPrice(cart) + item.price
  {
    TotalIsSum(cart);
    TotalIsSum(AddToCart(cart, item));
    if HasId(cart, item.id) {
      var k :| 0 <= k < |cart| && cart[k].item.id == item.id;
      SumIncrement(cart, item.id, k);
    } else {
      SumAppend(cart, [CartItem(item, 1)]);
    }
  }

  // ---- checkout -------------------------------------------------------------------

  /** What `handleCheckout` shows. Which device the page runs on is a parameter. */
  datatype Checkout = CartEmpty | OpenUpiApp | ShowQrCode

  function HandleCheckout(cart: seq<CartItem>, isMobile: bool): (r: Checkout)
    ensures r == CartEmpty <==> cart == []
    ensures cart != [] ==> (r == OpenUpiApp <==> isMobile)
  {
    if |cart| == 0 then CartEmpty
    else if isMobile then OpenUpiApp
    else ShowQrCode
  }

  // ---- day names ------------------------------------------------------------------

  /** `formatDay(day)`: the first character upper-cased, the rest unchanged. */
  function FormatDay(day: string): (r: string)
    ensures |r| == |day|
    ensures |day| > 0 ==> r[0] == UpperChar(day[0]) && r[1..] == day[1..]
  {
    if day == "" then "" else [UpperChar(day[0])] + day[1..]
  }

  /** Lower-casing a formatted lower-case day name gives the name back. */
  lemma FormatDayRoundTrip(day: string)
    requires IsLowerCase(day)
    ensures Lower(FormatDay(day)) == day
  {
    var r := FormatDay(day);
    forall i | 0 <= i < |day| ensures Lower(r)[i] == day[i] {
      if i == 0 {
        assert LowerChar(UpperChar(day[0])) == day[0];
      } else {
        assert r[i] == day[i];
      }
    }
  }
}
