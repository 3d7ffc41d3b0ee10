/**
 * The cart as a value: its lines, the totals shown in the header badge, the
 * drawer and the cart page, and the effect of each cart operation on the
 * sequence of lines (add-or-merge, the "+" and "−" buttons, checkout).
 * A line is identified by its variant key (name, size, color); its position
 * in the sequence is its display position.
 */
module Cart {

  /** The opaque identity stored with a line: a creation timestamp or the card's own id. */
  datatype LineId = Timestamp(millis: int) | CardId(value: string)

  /** What two lines must share to be merged. */
  datatype VariantKey = VariantKey(name: string, size: string, color: string)

  /** One cart line. Prices are whole amounts parsed from digits, so never negative. */
  datatype CartLine = CartLine(
    id: LineId,
    name: string,
    price: nat,
    img: string,
    size: string,
    color: string,
    qty: int)
  {
    function Key(): VariantKey {
      VariantKey(name, size, color)
    }

    /** The amount the line contributes to the cart's price. */
    function Subtotal(): int {
      price * qty
    }
  }

  /** Every line has a quantity of at least one. */
  predicate QtyPositive(cart: seq<CartLine>) {
    forall i :: 0 <= i < |cart| ==> cart[i].qty >= 1
  }

  /** No two lines share a variant key. */
  predicate VariantsDistinct(cart: seq<CartLine>) {
    forall i, j :: 0 <= i < j < |cart| ==> cart[i].Key() != cart[j].Key()
  }

  /** The number of items in the cart (the header badge): the sum of all quantities, folded from the left. */
  function TotalCount(cart: seq<CartLine>): (n: int)
    ensures QtyPositive(cart) ==> n >= |cart|
  {
    if cart == [] then 0 else TotalCount(cart[..|cart| - 1]) + cart[|cart| - 1].qty
  }

  /** The cart's price: the sum of price times quantity over all lines, folded from the left. */
  function TotalPrice(cart: seq<CartLine>): (total: int)
    ensures QtyPositive(cart) ==> total >= 0
  {
    if cart == [] then 0
    else TotalPrice(cart[..|cart| - 1]) + cart[|cart| - 1].Subtotal()
  }

  /**
   * The position of the first line with the given key, or -1 when there is
   * none (the search the add operation runs).
   */
  function FindVariant(cart: seq<CartLine>, key: VariantKey): (r: int)
    ensures -1 <= r < |cart|
    ensures 0 <= r ==> cart[r].Key() == key && forall j :: 0 <= j < r ==> cart[j].Key() != key
    ensures r == -1 <==> forall j :: 0 <= j < |cart| ==> cart[j].Key() != key
  {
    if cart == [] then -1
    else if cart[0].Key() == key then 0
    else
      var k := FindVariant(cart[1..], key);
      if k < 0 then -1 else k + 1
  }

  /** The amount a merge adds: the incoming quantity, or 1 when that is 0 (falsy). */
  function QtyOrOne(qty: int): (r: int)
    ensures qty == 0 ==> r == 1
    ensures qty != 0 ==> r == qty
  {
    if qty == 0 then 1 else qty
  }

  /**
   * Adding a product: the first line with the payload's key has its quantity
   * raised; with no such line the payload itself is appended.
   */
  function AddOrMerge(cart: seq<CartLine>, p: CartLine): (r: seq<CartLine>)
    ensures |cart| <= |r| <= |cart| + 1
    ensures forall j :: 0 <= j < |cart| ==> r[j].(qty := cart[j].qty) == cart[j]
    ensures exists j :: 0 <= j < |r| && r[j].Key() == p.Key()
  {
    var idx := FindVariant(cart, p.Key());
    if idx >= 0 then
      cart[idx := cart[idx].(qty := cart[idx].qty + QtyOrOne(p.qty))]
    else
      assert (cart + [p])[|cart|] == p;
      cart + [p]
  }

  /** The "+" button: one more of the line at position i. */
  function Incremented(cart: seq<CartLine>, i: int): (r: seq<CartLine>)
    requires 0 <= i < |cart|
    ensures |r| == |cart|
    ensures r[i].qty == cart[i].qty + 1 && r[i].(qty := cart[i].qty) == cart[i]
    ensures forall j :: 0 <= j < |cart| && j != i ==> r[j] == cart[j]
  {
    cart[i := cart[i].(qty := cart[i].qty + 1)]
  }

  /**
   * The "−" button: one fewer of the line at position i, or the line is
   * dropped when its quantity would fall below one.
   */
  function Decremented(cart: seq<CartLine>, i: int): (r: seq<CartLine>)
    requires 0 <= i < |cart|
    ensures cart[i].qty > 1 ==>
      |r| == |cart| && r[i].qty == cart[i].qty - 1 && r[i].(qty := cart[i].qty) == cart[i] &&
      forall j :: 0 <= j < |cart| && j != i ==> r[j] == cart[j]
    ensures cart[i].qty <= 1 ==>
      |r| == |cart| - 1 &&
      (forall j :: 0 <= j < i ==> r[j] == cart[j]) &&
      (forall j :: i <= j < |r| ==> r[j] == cart[j + 1])
  {
    if cart[i].qty > 1 then cart[i := cart[i].(qty := cart[i].qty - 1)]
    else cart[..i] + cart[i + 1..]
  }

  // ---------------------------------------------------------------------------
  // Totals

  lemma {:induction false} TotalCountConcat(a: seq<CartLine>, b: seq<CartLine>)
    ensures TotalCount(a + b) == TotalCount(a) + TotalCount(b)
  {
    if b == [] {
      assert a + b == a;
    } else {
      TotalCountConcat(a, b[..|b| - 1]);
      assert (a + b)[..|a + b| - 1] == a + b[..|b| - 1];
    }
  }

  lemma {:induction false} TotalPriceConcat(a: seq<CartLine>, b: seq<CartLine>)
    ensures TotalPrice(a + b) == TotalPrice(a) + TotalPrice(b)
  {
    if b == [] {
      assert a + b == a;
    } else {
      TotalPriceConcat(a, b[..|b| - 1]);
      assert (a + b)[..|a + b| - 1] == a + b[..|b| - 1];
    }
  }

  /** A one-line cart counts its quantity. */
  lemma TotalCountOfOne(x: CartLine)
    ensures TotalCount([x]) == x.qty
  {
    assert [x][..0] == [];
  }

  /** A one-line cart costs its subtotal. */
  lemma TotalPriceOfOne(x: CartLine)
    ensures TotalPrice([x]) == x.Subtotal()
  {
    assert [x][..0] == [];
  }

  /** The item count splits around any position of the cart. */
  lemma TotalCountAround(cart: seq<CartLine>, i: int)
    requires 0 <= i < |cart|
    ensures TotalCount(cart) == TotalCount(cart[..i]) + cart[i].qty + TotalCount(cart[i + 1..])
  {
    var pre, x, post := cart[..i], cart[i], cart[i + 1..];
    assert cart == (pre + [x]) + post;
    TotalCountConcat(pre + [x], post);
    TotalCountConcat(pre, [x]);
    TotalCountOfOne(x);
  }

  /** The price splits around any position of the cart. */
  lemma TotalPriceAround(cart: seq<CartLine>, i: int)
    requires 0 <= i < |cart|
    ensures TotalPrice(cart) == TotalPrice(cart[..i]) + cart[i].Subtotal() + TotalPrice(cart[i + 1..])
  {
    var pre, x, post := cart[..i], cart[i], cart[i + 1..];
    assert cart == (pre + [x]) + post;
    TotalPriceConcat(pre + [x], post);
    TotalPriceConcat(pre, [x]);
    TotalPriceOfOne(x);
  }

  /** Replacing one line changes the item count by the difference of the two quantities alone. */
  lemma TotalCountAfterReplace(cart: seq<CartLine>, i: int, x: CartLine)
    requires 0 <= i < |cart|
    ensures TotalCount(cart[i := x]) == TotalCount(cart) - cart[i].qty + x.qty
  {
    var c := cart[i := x];
    assert c[..i] == cart[..i] && c[i + 1..] == cart[i + 1..];
    TotalCountAround(cart, i);
    TotalCountAround(c, i);
  }

  /** Replacing one line changes the price by the difference of the two subtotals alone. */
  lemma TotalPriceAfterReplace(cart: seq<CartLine>, i: int, x: CartLine)
    requires 0 <= i < |cart|
    ensures TotalPrice(cart[i := x]) == TotalPrice(cart) - cart[i].Subtotal() + x.Subtotal()
  {
    var c := cart[i := x];
    assert c[..i] == cart[..i] && c[i + 1..] == cart[i + 1..];
    TotalPriceAround(cart, i);
    TotalPriceAround(c, i);
  }

  /** Dropping one line removes exactly its quantity from the item count. */
  lemma TotalCountAfterRemove(cart: seq<CartLine>, i: int)
    requires 0 <= i < |cart|
    ensures TotalCount(cart[..i] + cart[i + 1..]) == TotalCount(cart) - cart[i].qty
  {
    TotalCountAround(cart, i);
    TotalCountConcat(cart[..i], cart[i + 1..]);
  }

  /** Dropping one line removes exactly its subtotal from the price. */
  lemma TotalPriceAfterRemove(cart: seq<CartLine>, i: int)
    requires 0 <= i < |cart|
    ensures TotalPrice(cart[..i] + cart[i + 1..]) == TotalPrice(cart) - cart[i].Subtotal()
  {
    TotalPriceAround(cart, i);
    TotalPriceConcat(cart[..i], cart[i + 1..]);
  }

  /** One unit more or less of a line moves its subtotal by one unit price. */
  lemma SubtotalStep(x: CartLine)
    ensures x.(qty := x.qty + 1).Subtotal() == x.Subtotal() + x.price
    ensures x.(qty := x.qty - 1).Subtotal() == x.Subtotal() - x.price
  {
  }

  /** The emptied cart after checkout shows 0 items and costs 0. */
  lemma EmptyCartTotals()
    ensures TotalCount([]) == 0 && TotalPrice([]) == 0
  {
  }

  // ---------------------------------------------------------------------------
  // Add-or-merge

  /**
   * When a line with the payload's key exists (the first such being at i),
   * only that line changes: its quantity grows by the payload's quantity, or
   * by 1 when that is 0.
   */
  lemma AddMergesMatchingLine(cart: seq<CartLine>, p: CartLine, i: int)
    requires 0 <= i < |cart| && cart[i].Key() == p.Key()
    requires forall j :: 0 <= j < i ==> cart[j].Key() != p.Key()
    ensures var r := AddOrMerge(cart, p);
      |r| == |cart| &&
      r[i] == cart[i].(qty := cart[i].qty + QtyOrOne(p.qty)) &&
      forall j :: 0 <= j < |cart| && j != i ==> r[j] == cart[j]
  {
    assert FindVariant(cart, p.Key()) == i;
  }

  /** When no line has the payload's key, the payload is appended and nothing else changes. */
  lemma AddAppendsNewVariant(cart: seq<CartLine>, p: CartLine)
    requires forall j :: 0 <= j < |cart| ==> cart[j].Key() != p.Key()
    ensures AddOrMerge(cart, p) == cart + [p]
  {
  }

  /** Adding never creates a second line for an existing variant. */
  lemma AddKeepsVariantsDistinct(cart: seq<CartLine>, p: CartLine)
    requires VariantsDistinct(cart)
    ensures VariantsDistinct(AddOrMerge(cart, p))
  {
    var r := AddOrMerge(cart, p);
    var idx := FindVariant(cart, p.Key());
    if idx < 0 {
      forall i, j | 0 <= i < j < |r| ensures r[i].Key() != r[j].Key() {
        if j == |cart| {
          assert r[j] == p && r[i] == cart[i];
        } else {
          assert r[i] == cart[i] && r[j] == cart[j];
        }
      }
    } else {
      forall i, j | 0 <= i < j < |r| ensures r[i].Key() != r[j].Key() {
        assert r[i].Key() == cart[i].Key() && r[j].Key() == cart[j].Key();
      }
    }
  }

  /** Adding a payload of positive quantity keeps every quantity positive. */
  lemma AddKeepsQtyPositive(cart: seq<CartLine>, p: CartLine)
    requires QtyPositive(cart) && p.qty >= 1
    ensures QtyPositive(AddOrMerge(cart, p))
  {
    var r := AddOrMerge(cart, p);
    var idx := FindVariant(cart, p.Key());
    if idx < 0 {
      assert r == cart + [p];
      forall j | 0 <= j < |r| ensures r[j].qty >= 1 {
        if j < |cart| { assert r[j] == cart[j]; }
      }
    }
  }

  /** Adding raises the item count by the merged amount, or by the payload's quantity when appended. */
  lemma AddTotalCount(cart: seq<CartLine>, p: CartLine)
    ensures TotalCount(AddOrMerge(cart, p)) ==
      TotalCount(cart) + (if FindVariant(cart, p.Key()) >= 0 then QtyOrOne(p.qty) else p.qty)
  {
    var idx := FindVariant(cart, p.Key());
    var r := AddOrMerge(cart, p);
    if idx >= 0 {
      var merged := cart[idx].(qty := cart[idx].qty + QtyOrOne(p.qty));
      TotalCountAfterReplace(cart, idx, merged);
      assert r == cart[idx := merged];
      assert TotalCount(r) == TotalCount(cart) + QtyOrOne(p.qty);
    } else {
      TotalCountConcat(cart, [p]);
      TotalCountOfOne(p);
      assert r == cart + [p];
      assert TotalCount(r) == TotalCount(cart) + p.qty;
    }
  }

  /** The same variant added twice, once each, gives one line of quantity 2, never two lines. */
  lemma AddSameVariantTwice(cart: seq<CartLine>, p: CartLine)
    requires forall j :: 0 <= j < |cart| ==> cart[j].Key() != p.Key()
    requires p.qty == 1
    ensures AddOrMerge(AddOrMerge(cart, p), p) == cart + [p.(qty := 2)]
  {
    var once := AddOrMerge(cart, p);
    assert once == cart + [p];
    AddMergesMatchingLine(once, p, |cart|);
    assert AddOrMerge(once, p) == once[|cart| := p.(qty := 2)];
  }

  /** A variant that differs only in size from an existing line gets a line of its own. */
  lemma AddOtherSizeNewLine(p: CartLine, q: CartLine)
    requires q.name == p.name && q.color == p.color && q.size != p.size
    ensures AddOrMerge([p], q) == [p, q]
  {
  }

  /** One shoe in the cart, the same shoe added again: a single line of 2 costing 2000. */
  lemma ShoeScenario()
    ensures var shoe := CartLine(Timestamp(1), "Shoe A", 1000, "a.jpg", "M", "red", 1);
      var r := AddOrMerge([shoe], shoe.(id := Timestamp(2)));
      r == [shoe.(qty := 2)] && TotalPrice(r) == 2000
  {
    var shoe := CartLine(Timestamp(1), "Shoe A", 1000, "a.jpg", "M", "red", 1);
    AddMergesMatchingLine([shoe], shoe.(id := Timestamp(2)), 0);
    TotalPriceOfOne(shoe.(qty := 2));
    assert shoe.(qty := 2).Subtotal() == 2000;
  }

  // ---------------------------------------------------------------------------
  // The "+" and "−" buttons

  /** "+" adds exactly one item. */
  lemma IncrementTotalCount(cart: seq<CartLine>, i: int)
    requires 0 <= i < |cart|
    ensures TotalCount(Incremented(cart, i)) == TotalCount(cart) + 1
  {
    var x := cart[i].(qty := cart[i].qty + 1);
    assert Incremented(cart, i) == cart[i := x];
    TotalCountAfterReplace(cart, i, x);
  }

  /** "+" adds exactly the line's unit price to the cart's price. */
  lemma IncrementTotalPrice(cart: seq<CartLine>, i: int)
    requires 0 <= i < |cart|
    ensures TotalPrice(Incremented(cart, i)) == TotalPrice(cart) + cart[i].price
  {
    var x := cart[i].(qty := cart[i].qty + 1);
    SubtotalStep(cart[i]);
    assert x.Subtotal() == cart[i].Subtotal() + cart[i].price;
    TotalPriceAfterReplace(cart, i, x);
    assert Incremented(cart, i) == cart[i := x];
  }

  /** "+" keeps both cart invariants. */
  lemma IncrementKeepsInvariants(cart: seq<CartLine>, i: int)
    requires 0 <= i < |cart|
    ensures QtyPositive(cart) ==> QtyPositive(Incremented(cart, i))
    ensures VariantsDistinct(cart) ==> VariantsDistinct(Incremented(cart, i))
  {
    var r := Incremented(cart, i);
    assert forall j :: 0 <= j < |r| ==> r[j].Key() == cart[j].Key();
  }

  /** "−" never leaves a line with a quantity below one. */
  lemma DecrementKeepsQtyPositive(cart: seq<CartLine>, i: int)
    requires 0 <= i < |cart| && QtyPositive(cart)
    ensures QtyPositive(Decremented(cart, i))
  {
    var r := Decremented(cart, i);
    if cart[i].qty <= 1 {
      forall j | 0 <= j < |r| ensures r[j].qty >= 1 {
        if j >= i { assert r[j] == cart[j + 1]; }
      }
    }
  }

  /** "−" never makes two lines share a key. */
  lemma DecrementKeepsVariantsDistinct(cart: seq<CartLine>, i: int)
    requires 0 <= i < |cart| && VariantsDistinct(cart)
    ensures VariantsDistinct(Decremented(cart, i))
  {
    var r := Decremented(cart, i);
    if cart[i].qty > 1 {
      assert forall j :: 0 <= j < |r| ==> r[j].Key() == cart[j].Key();
    } else {
      forall a, b | 0 <= a < b < |r| ensures r[a].Key() != r[b].Key() {
        var a' := if a < i then a else a + 1;
        var b' := if b < i then b else b + 1;
        assert r[a] == cart[a'] && r[b] == cart[b'];
      }
    }
  }

  /** "−" takes away one item: one unit of the line, or the whole line when its quantity is one. */
  lemma DecrementTotalCount(cart: seq<CartLine>, i: int)
    requires 0 <= i < |cart| && cart[i].qty >= 1
    ensures TotalCount(Decremented(cart, i)) == TotalCount(cart) - 1
  {
    if cart[i].qty > 1 {
      var x := cart[i].(qty := cart[i].qty - 1);
      assert Decremented(cart, i) == cart[i := x];
      TotalCountAfterReplace(cart, i, x);
    } else {
      assert Decremented(cart, i) == cart[..i] + cart[i + 1..];
      TotalCountAfterRemove(cart, i);
    }
  }

  /** "−" takes that item's unit price off the cart's price. */
  lemma DecrementTotalPrice(cart: seq<CartLine>, i: int)
    requires 0 <= i < |cart| && cart[i].qty >= 1
    ensures TotalPrice(Decremented(cart, i)) == TotalPrice(cart) - cart[i].price
  {
    if cart[i].qty > 1 {
      var x := cart[i].(qty := cart[i].qty - 1);
      SubtotalStep(cart[i]);
      assert x.Subtotal() == cart[i].Subtotal() - cart[i].price;
      TotalPriceAfterReplace(cart, i, x);
      assert Decremented(cart, i) == cart[i := x];
    } else {
      assert cart[i].Subtotal() == cart[i].price by {
        assert cart[i].qty == 1;
      }
      TotalPriceAfterRemove(cart, i);
      assert Decremented(cart, i) == cart[..i] + cart[i + 1..];
    }
  }

  /** "−" right after "+" on the same line restores the cart. */
  lemma DecrementUndoesIncrement(cart: seq<CartLine>, i: int)
    requires 0 <= i < |cart| && cart[i].qty >= 1
    ensures Decremented(Incremented(cart, i), i) == cart
  {
    var up := Incremented(cart, i);
    assert up[i].qty > 1;
    var down := Decremented(up, i);
    assert |down| == |cart|;
    forall j | 0 <= j < |cart| ensures down[j] == cart[j] {
    }
  }
}
