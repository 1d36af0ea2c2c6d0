/** The per-user shopping cart kept in the key-value cache under the key
    `cart:<userId>`, one JSON document per user, rewritten as a whole on
    every change (backend/src/controllers/cartController.js). */
module Cart {
  import opened Wrappers
  import Seqs
  import Text

  /** Seconds a stored cart lives after its last write: 24 hours. */
  const CartTtl: nat := 24 * 60 * 60

  datatype Line = Line(productId: int, productName: string, price: int, quantity: int)

  /** The cart document: its lines in insertion order and the stored total. */
  datatype Cart = Cart(items: seq<Line>, total: int)

  /** What the cache holds for one user: the document and the expiry, in
      seconds, given with the last write. */
  datatype Entry = Entry(cart: Cart, ttl: nat)

  /** The answer of every cart operation that has no stored cart to show. */
  const EmptyCart: Cart := Cart([], 0)

  /** The `reduce` that recomputes the total: the sum of price × quantity,
      accumulated from the first line to the last. */
  function Total(items: seq<Line>): int {
    if items == [] then 0
    else Total(items[..|items| - 1]) + items[|items| - 1].price * items[|items| - 1].quantity
  }

  predicate HasProduct(items: seq<Line>, productId: int) {
    exists i :: 0 <= i < |items| && items[i].productId == productId
  }

  /** At most one line per product. */
  predicate UniqueProducts(items: seq<Line>) {
    forall i, j :: 0 <= i < j < |items| ==> items[i].productId != items[j].productId
  }

  /** `items.findIndex(item => item.productId === productId)`, with `None`
      for -1: the first line of the product. */
  function FindLine(items: seq<Line>, productId: int): (r: Option<nat>)
    ensures r.Some? ==> r.value < |items| && items[r.value].productId == productId
    ensures r.Some? ==> forall j :: 0 <= j < r.value ==> items[j].productId != productId
    ensures r.None? <==> !HasProduct(items, productId)
  {
    Seqs.IndexWhere(items, (l: Line) => l.productId == productId)
  }

  /** The lines after an add: `quantity` more of the product's line when it
      has one, else a new line at the end. */
  function AddItem(items: seq<Line>, productId: int, productName: string, price: int, quantity: int): (r: seq<Line>)
    ensures |r| == if HasProduct(items, productId) then |items| else |items| + 1
    ensures !HasProduct(items, productId) ==> r == items + [Line(productId, productName, price, quantity)]
    ensures UniqueProducts(items) ==>
      forall j :: 0 <= j < |items| ==>
        r[j] == if items[j].productId == productId then items[j].(quantity := items[j].quantity + quantity) else items[j]
    ensures UniqueProducts(items) ==> UniqueProducts(r)
    ensures HasProduct(r, productId)
  {
    match FindLine(items, productId)
    case Some(i) =>
      var r := items[i := items[i].(quantity := items[i].quantity + quantity)];
      SetAtKeepsShape(items, i, productId, items[i].quantity + quantity);
      r
    case None =>
      var r := items + [Line(productId, productName, price, quantity)];
      assert r[|items|].productId == productId;
      assert forall j :: 0 <= j < |items| ==> r[j] == items[j];
      r
  }

  /** Setting the quantity of the product's first line keeps every product
      id in place; with one line per product only that line changes. */
  lemma SetAtKeepsShape(items: seq<Line>, i: nat, productId: int, quantity: int)
    requires FindLine(items, productId) == Some(i)
    ensures var r := items[i := items[i].(quantity := quantity)];
      && HasProduct(r, productId)
      && (forall j :: 0 <= j < |items| ==> r[j].productId == items[j].productId)
      && (UniqueProducts(items) ==> UniqueProducts(r))
      && (UniqueProducts(items) ==>
           forall j :: 0 <= j < |items| ==>
             r[j] == if items[j].productId == productId then items[j].(quantity := quantity) else items[j])
  {
    var r := items[i := items[i].(quantity := quantity)];
    assert r[i].productId == productId;
  }

  /** The lines after an update: quantity 0 drops every line of the
      product; any other quantity replaces that of the product's first line;
      a product without a line leaves the lines as they are. */
  function SetQuantity(items: seq<Line>, productId: int, quantity: int): (r: seq<Line>)
    ensures quantity == 0 ==> Seqs.IsSubsequence(r, items) && !HasProduct(r, productId)
    ensures quantity == 0 ==> forall l :: l in items && l.productId != productId ==> l in r
    ensures quantity == 0 ==> forall l :: l in items ==>
      multiset(r)[l] == if l.productId != productId then multiset(items)[l] else 0
    ensures quantity != 0 ==> |r| == |items|
    ensures quantity != 0 && UniqueProducts(items) ==>
      forall j :: 0 <= j < |items| ==>
        r[j] == if items[j].productId == productId then items[j].(quantity := quantity) else items[j]
    ensures !HasProduct(items, productId) ==> r == items
    ensures UniqueProducts(items) ==> UniqueProducts(r)
  {
    if quantity == 0 then
      var r := Seqs.Keep(items, (l: Line) => l.productId != productId);
      assert !HasProduct(r, productId) by {
        forall i | 0 <= i < |r| ensures r[i].productId != productId {
          assert r[i] in r;
        }
      }
      assert UniqueProducts(items) ==> UniqueProducts(r) by {
        if UniqueProducts(items) { SubsequenceKeepsUnique(r, items); }
      }
      r
    else
      match FindLine(items, productId)
      case Some(i) =>
        SetAtKeepsShape(items, i, productId, quantity);
        items[i := items[i].(quantity := quantity)]
      case None => items
  }

  /** The lines after removing a product by its route parameter, parsed
      with `parseInt`: every line of that product goes; a parameter that
      does not parse (`NaN`) equals no product id, so nothing goes. */
  function RemoveProduct(items: seq<Line>, productIdParam: string): (r: seq<Line>)
    ensures Seqs.IsSubsequence(r, items)
    ensures Text.ParseInt(productIdParam) == None ==> r == items
    ensures Text.ParseInt(productIdParam).Some? ==>
      forall l :: l in r <==> l in items && l.productId != Text.ParseInt(productIdParam).value
    ensures Text.ParseInt(productIdParam).Some? ==> forall l :: l in items ==>
      multiset(r)[l] == if l.productId != Text.ParseInt(productIdParam).value then multiset(items)[l] else 0
  {
    var id := Text.ParseInt(productIdParam);
    Seqs.Keep(items, (l: Line) => id.None? || l.productId != id.value)
  }

  /** A stored cart as the cart operations leave it: not empty, its total
      recomputed, one line per product, expiry 24 hours. */
  predicate WellFormed(e: Entry) {
    && e.ttl == CartTtl
    && e.cart.items != []
    && e.cart.total == Total(e.cart.items)
    && UniqueProducts(e.cart.items)
  }

  predicate AllWellFormed(entries: map<int, Entry>) {
    forall u :: u in entries ==> WellFormed(entries[u])
  }

  /** Storing a well-formed cart keeps every stored cart well-formed. */
  lemma StoreKeepsValid(entries: map<int, Entry>, userId: int, e: Entry)
    requires AllWellFormed(entries) && WellFormed(e)
    ensures AllWellFormed(entries[userId := e])
  {
  }

  /** The response of a cart operation. `Emptied` is the "cart cleared"
      answer, which shows `EmptyCart`. */
  datatype Reply = Stored(cart: Cart) | Emptied | BadRequest | NotFound

  class CartStore {
    /** The cache restricted to cart keys: user id → stored cart. */
    var entries: map<int, Entry>

    ghost predicate Valid()
      reads this
    {
      AllWellFormed(entries)
    }

    constructor ()
      ensures Valid() && entries == map[]
    {
      entries := map[];
    }

    /** `getCart`: the stored cart, or the empty cart when there is none;
        nothing is written. */
    method GetCart(userId: int) returns (cart: Cart)
      ensures userId !in entries ==> cart == EmptyCart
      ensures userId in entries ==> cart == entries[userId].cart
    {
      if userId in entries {
        cart := entries[userId].cart;
      } else {
        cart := EmptyCart;
      }
    }

    /** `addToCart`. A falsy product id, name or price (a missing one
        included) is refused; `quantity` defaults to 1 when absent. */
    method AddToCart(userId: int, productId: int, productName: string, price: int, quantity: Option<int>)
      returns (r: Reply)
      requires Valid()
      modifies this
      ensures Valid()
      ensures productId == 0 || productName == "" || price == 0 ==>
        r == BadRequest && entries == old(entries)
      ensures productId != 0 && productName != "" && price != 0 ==>
        var before := if userId in old(entries) then old(entries)[userId].cart.items else [];
        var items := AddItem(before, productId, productName, price, if quantity.Some? then quantity.value else 1);
        && r == Stored(Cart(items, Total(items)))
        && entries == old(entries)[userId := Entry(Cart(items, Total(items)), CartTtl)]
    {
      if productId == 0 || productName == "" || price == 0 {
        return BadRequest;
      }
      var q := if quantity.Some? then quantity.value else 1;
      var cart := if userId in entries then entries[userId].cart else EmptyCart;
      var items := cart.items;
      ghost var added := AddItem(items, productId, productName, price, q);
      match FindLine(items, productId) {
        case Some(i) =>
          items := items[i := items[i].(quantity := items[i].quantity + q)];
        case None =>
          items := items + [Line(productId, productName, price, q)];
      }
      assert items == added;
      assert WellFormed(Entry(Cart(items, Total(items)), CartTtl)) by {
        assert UniqueProducts(cart.items);
      }
      cart := Cart(items, Total(items));
      StoreKeepsValid(entries, userId, Entry(cart, CartTtl));
      entries := entries[userId := Entry(cart, CartTtl)];
      r := Stored(cart);
    }

    /** `updateCartItem`. A falsy product id or a negative quantity is
        refused, a user without a stored cart gets 404; a cart left without
        lines is deleted instead of stored. */
    method UpdateCartItem(userId: int, productId: int, quantity: int) returns (r: Reply)
      requires Valid()
      modifies this
      ensures Valid()
      ensures productId == 0 || quantity < 0 ==> r == BadRequest && entries == old(entries)
      ensures productId != 0 && quantity >= 0 && userId !in old(entries) ==>
        r == NotFound && entries == old(entries)
      ensures productId != 0 && quantity >= 0 && userId in old(entries) ==>
        var items := SetQuantity(old(entries)[userId].cart.items, productId, quantity);
        if items == [] then r == Emptied && entries == old(entries) - {userId}
        else (r == Stored(Cart(items, Total(items)))
              && entries == old(entries)[userId := Entry(Cart(items, Total(items)), CartTtl)])
    {
      if productId == 0 || quantity < 0 {
        return BadRequest;
      }
      if userId !in entries {
        return NotFound;
      }
      var items := entries[userId].cart.items;
      if quantity == 0 {
        items := Seqs.Keep(items, (l: Line) => l.productId != productId);
      } else {
        match FindLine(items, productId) {
          case Some(i) =>
            items := items[i := items[i].(quantity := quantity)];
          case None =>
        }
      }
      assert items == SetQuantity(old(entries)[userId].cart.items, productId, quantity);
      r := StoreOrDelete(userId, items);
    }

    /** `removeFromCart`: drops the lines of the product named by the route
        parameter; a cart left without lines is deleted. */
    method RemoveFromCart(userId: int, productIdParam: string) returns (r: Reply)
      requires Valid()
      modifies this
      ensures Valid()
      ensures userId !in old(entries) ==> r == NotFound && entries == old(entries)
      ensures userId in old(entries) ==>
        var items := RemoveProduct(old(entries)[userId].cart.items, productIdParam);
        if items == [] then r == Emptied && entries == old(entries) - {userId}
        else (r == Stored(Cart(items, Total(items)))
              && entries == old(entries)[userId := Entry(Cart(items, Total(items)), CartTtl)])
    {
      if userId !in entries {
        return NotFound;
      }
      var id := Text.ParseInt(productIdParam);
      var items := Seqs.Keep(entries[userId].cart.items, (l: Line) => id.None? || l.productId != id.value);
      SubsequenceKeepsUnique(items, entries[userId].cart.items);
      r := StoreOrDelete(userId, items);
    }

    /** The common tail of update and remove: recompute the total, then
        delete the key when no line is left, or store with a fresh expiry. */
    method StoreOrDelete(userId: int, items: seq<Line>) returns (r: Reply)
      requires Valid() && UniqueProducts(items)
      modifies this
      ensures Valid()
      ensures items == [] ==> r == Emptied && entries == old(entries) - {userId}
      ensures items != [] ==>
        (r == Stored(Cart(items, Total(items)))
         && entries == old(entries)[userId := Entry(Cart(items, Total(items)), CartTtl)])
    {
      var cart := Cart(items, Total(items));
      if |cart.items| == 0 {
        entries := entries - {userId};
        return Emptied;
      }
      entries := entries[userId := Entry(cart, CartTtl)];
      r := Stored(cart);
    }

    /** `clearCart`: the key is deleted whether or not it existed. */
    method ClearCart(userId: int)
      requires Valid()
      modifies this
      ensures Valid()
      ensures entries == old(entries) - {userId}
    {
      entries := entries - {userId};
    }
  }

  lemma {:induction false} SubsequenceKeepsUnique(r: seq<Line>, s: seq<Line>)
    requires Seqs.IsSubsequence(r, s) && UniqueProducts(s)
    ensures UniqueProducts(r)
    ensures forall l :: l in r ==> l in s
    decreases |s|
  {
    if r == [] {
    } else if r[0] == s[0] && Seqs.IsSubsequence(r[1..], s[1..]) {
      SubsequenceKeepsUnique(r[1..], s[1..]);
      assert forall l :: l in r ==> l == r[0] || l in r[1..];
      forall j | 0 < j < |r| ensures r[0].productId != r[j].productId {
        assert r[j] in r[1..];
        var k :| 0 <= k < |s[1..]| && s[1..][k] == r[j];
        assert s[k + 1] == r[j];
      }
    } else {
      SubsequenceKeepsUnique(r, s[1..]);
    }
  }

  /** Changing one line's quantity moves the total by that line's price
      times the change. */
  lemma {:induction false} TotalAfterSetAt(items: seq<Line>, k: nat, quantity: int)
    requires k < |items|
    ensures Total(items[k := items[k].(quantity := quantity)])
         == Total(items) + items[k].price * (quantity - items[k].quantity)
    decreases |items|
  {
    var n := |items|;
    var r := items[k := items[k].(quantity := quantity)];
    if k == n - 1 {
      assert r[..n - 1] == items[..n - 1];
    } else {
      TotalAfterSetAt(items[..n - 1], k, quantity);
      assert r[..n - 1] == items[..n - 1][k := items[k].(quantity := quantity)];
    }
  }

  /** The total after an add grows by the added quantity times the price of
      the product's line: the existing line's price when there is one (the
      price sent with the request is then ignored), else the new price. */
  lemma AddChangesTotal(items: seq<Line>, productId: int, productName: string, price: int, quantity: int)
    ensures FindLine(items, productId).Some? ==>
      Total(AddItem(items, productId, productName, price, quantity))
        == Total(items) + items[FindLine(items, productId).value].price * quantity
    ensures FindLine(items, productId).None? ==>
      Total(AddItem(items, productId, productName, price, quantity)) == Total(items) + price * quantity
  {
    match FindLine(items, productId)
    case Some(i) =>
      assert AddItem(items, productId, productName, price, quantity)
          == items[i := items[i].(quantity := items[i].quantity + quantity)];
      MergeChangesTotal(items, i, quantity);
    case None =>
      var r := AddItem(items, productId, productName, price, quantity);
      assert r[..|r| - 1] == items;
  }

  lemma MergeChangesTotal(items: seq<Line>, i: nat, quantity: int)
    requires i < |items|
    ensures Total(items[i := items[i].(quantity := items[i].quantity + quantity)])
         == Total(items) + items[i].price * quantity
  {
    TotalAfterSetAt(items, i, items[i].quantity + quantity);
  }

  /** Adding a product twice gives one line with the summed quantity, as
      adding the sum at once would: "3 × CBR" after adding 1 and then 2. */
  lemma AddTwiceIsAddSum(items: seq<Line>, productId: int, name1: string, price1: int, name2: string, price2: int, a: int, b: int)
    ensures AddItem(AddItem(items, productId, name1, price1, a), productId, name2, price2, b)
         == AddItem(items, productId, name1, price1, a + b)
  {
    match FindLine(items, productId)
    case Some(i) =>
      assert AddItem(items, productId, name1, price1, a) == items[i := items[i].(quantity := items[i].quantity + a)];
      assert AddItem(items, productId, name1, price1, a + b)
          == items[i := items[i].(quantity := items[i].quantity + (a + b))];
      AddTwiceToLine(items, productId, i, name2, price2, a, b);
    case None =>
      assert AddItem(items, productId, name1, price1, a) == items + [Line(productId, name1, price1, a)];
      assert AddItem(items, productId, name1, price1, a + b) == items + [Line(productId, name1, price1, a + b)];
      AddTwiceToNewLine(items, productId, name1, price1, name2, price2, a, b);
  }

  lemma AddTwiceToLine(items: seq<Line>, productId: int, i: nat, name2: string, price2: int, a: int, b: int)
    requires FindLine(items, productId) == Some(i)
    ensures var once := items[i := items[i].(quantity := items[i].quantity + a)];
      AddItem(once, productId, name2, price2, b) == items[i := items[i].(quantity := items[i].quantity + (a + b))]
  {
    var once := items[i := items[i].(quantity := items[i].quantity + a)];
    FindLineAt(once, productId, i);
  }

  lemma AddTwiceToNewLine(items: seq<Line>, productId: int, name1: string, price1: int, name2: string, price2: int, a: int, b: int)
    requires FindLine(items, productId).None?
    ensures AddItem(items + [Line(productId, name1, price1, a)], productId, name2, price2, b)
         == items + [Line(productId, name1, price1, a + b)]
  {
    var once := items + [Line(productId, name1, price1, a)];
    assert forall j :: 0 <= j < |items| ==> once[j].productId != productId;
    FindLineAt(once, productId, |items|);
    AddItemMerges(once, productId, name2, price2, b, |items|);
    assert once[|items| := Line(productId, name1, price1, a + b)] == items + [Line(productId, name1, price1, a + b)];
  }

  /** An add for a product with a line merges into that line. */
  lemma AddItemMerges(items: seq<Line>, productId: int, productName: string, price: int, quantity: int, i: nat)
    requires FindLine(items, productId) == Some(i)
    ensures AddItem(items, productId, productName, price, quantity)
         == items[i := items[i].(quantity := items[i].quantity + quantity)]
  {
  }

  /** `findIndex` answers `i` exactly when line `i` is the product's and
      no line before it is. */
  lemma FindLineAt(items: seq<Line>, productId: int, i: nat)
    requires i < |items| && items[i].productId == productId
    requires forall j :: 0 <= j < i ==> items[j].productId != productId
    ensures FindLine(items, productId) == Some(i)
  {
    assert HasProduct(items, productId);
  }

  /** The example checkout scenario: one CBR at 500000, then two more, gives
      one line of three and a total of 1500000. */
  lemma ScenarioAddSameProductTwice()
    ensures var items := AddItem(AddItem([], 5, "CBR", 500000, 1), 5, "CBR", 500000, 2);
      items == [Line(5, "CBR", 500000, 3)] && Total(items) == 1500000
  {
    AddTwiceIsAddSum([], 5, "CBR", 500000, "CBR", 500000, 1, 2);
    assert !HasProduct([], 5);
    var line := Line(5, "CBR", 500000, 3);
    assert AddItem([], 5, "CBR", 500000, 3) == [] + [line];
    assert [line][..0] == [];
    assert Total([line]) == 500000 * 3;
  }
}
