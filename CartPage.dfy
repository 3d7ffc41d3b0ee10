/**
 * The cart as the pages handle it: every operation reads the cart key,
 * changes the loaded lines, and writes them back. The drawer and the cart
 * page run the same "+" and "−" handlers, so each appears once here. The
 * payloads that the three "Add to cart" buttons build are here as well.
 */
module CartPage {
  import opened Store
  import opened Cart
  import opened Wishlist

  /** The browser-side cart, reread from and written back to its storage key on every change. */
  class CartStore {
    var slot: Stored<CartLine>

    constructor (stored: Stored<CartLine>)
      ensures slot == stored
    {
      slot := stored;
    }

    /** What a read of the cart key gives now. */
    function Lines(): seq<CartLine>
      reads this
    {
      Load(slot)
    }

    /** Adding a product from any "Add to cart" button. */
    method Add(payload: CartLine)
      modifies this
      ensures slot == Save(AddOrMerge(old(Lines()), payload))
      ensures VariantsDistinct(old(Lines())) ==> VariantsDistinct(Lines())
      ensures QtyPositive(old(Lines())) && payload.qty >= 1 ==> QtyPositive(Lines())
    {
      var cart := Load(slot);
      ghost var before := cart;
      var idx := FindVariant(cart, payload.Key());
      if idx >= 0 {
        cart := cart[idx := cart[idx].(qty := cart[idx].qty + QtyOrOne(payload.qty))];
      } else {
        cart := cart + [payload];
      }
      slot := Save(cart);
      if VariantsDistinct(before) {
        AddKeepsVariantsDistinct(before, payload);
      }
      if QtyPositive(before) && payload.qty >= 1 {
        AddKeepsQtyPositive(before, payload);
      }
    }

    /** The "+" button of the line shown at position i. */
    method Plus(i: int)
      requires 0 <= i < |Lines()|
      modifies this
      ensures slot == Save(Incremented(old(Lines()), i))
      ensures TotalCount(Lines()) == TotalCount(old(Lines())) + 1
    {
      var cart := Load(slot);
      IncrementTotalCount(cart, i);
      cart := cart[i := cart[i].(qty := cart[i].qty + 1)];
      slot := Save(cart);
    }

    /** The "−" button of the line shown at position i. */
    method Minus(i: int)
      requires 0 <= i < |Lines()|
      modifies this
      ensures slot == Save(Decremented(old(Lines()), i))
      ensures QtyPositive(old(Lines())) ==> QtyPositive(Lines()) && TotalCount(Lines()) == TotalCount(old(Lines())) - 1
    {
      var cart := Load(slot);
      if QtyPositive(cart) {
        DecrementKeepsQtyPositive(cart, i);
        DecrementTotalCount(cart, i);
      }
      if cart[i].qty > 1 {
        cart := cart[i := cart[i].(qty := cart[i].qty - 1)];
      } else {
        cart := cart[..i] + cart[i + 1..];
      }
      slot := Save(cart);
    }

    /**
     * The "finish order" button: an empty cart is refused and the key is left
     * as it was; otherwise the order is placed and the key holds the empty cart.
     */
    method FinishOrder() returns (placed: bool)
      modifies this
      ensures placed <==> old(Lines()) != []
      ensures !placed ==> slot == old(slot)
      ensures placed ==> slot == Save([]) && TotalCount(Lines()) == 0
    {
      var cart := Load(slot);
      if |cart| == 0 {
        return false;
      }
      slot := Save([]);
      placed := true;
    }
  }

  /**
   * The running total the drawer and the checkout summary accumulate while
   * listing the lines.
   */
  method ListingTotal(cart: seq<CartLine>) returns (total: int)
    ensures total == TotalPrice(cart)
  {
    total := 0;
    var k := 0;
    while k < |cart|
      invariant 0 <= k <= |cart|
      invariant total == TotalPrice(cart[..k])
    {
      assert cart[..k + 1][..k] == cart[..k];
      total := total + cart[k].price * cart[k].qty;
      k := k + 1;
    }
    assert cart[..|cart|] == cart;
  }

  /** A text value that is missing or empty gives way to the fallback, as `||` does. */
  function OrElse(s: string, fallback: string): string {
    if s == "" then fallback else s
  }

  /**
   * The product page's payload: the active size (default "M"), the active
   * color (default "default"), quantity 1, stamped with the current time.
   * A missing selection is passed as the empty string.
   */
  function ProductPagePayload(now: int, title: string, price: nat, img: string, activeSize: string, activeColor: string): (p: CartLine)
    ensures p.qty == 1 && p.name == title && p.price == price && p.id == Timestamp(now)
    ensures p.size != "" && p.color != ""
    ensures activeSize != "" ==> p.size == activeSize
    ensures activeColor != "" ==> p.color == activeColor
    ensures activeSize == "" ==> p.size == "M"
    ensures activeColor == "" ==> p.color == "default"
    ensures p.img == img
  {
    CartLine(Timestamp(now), title, price, img, OrElse(activeSize, "M"), OrElse(activeColor, "default"), 1)
  }

  /**
   * A product card's payload: the card's own id when it has one, otherwise
   * the current time; no size and no color ("-"); quantity 1.
   */
  function CardPayload(now: int, cardId: string, title: string, price: nat, img: string): (p: CartLine)
    ensures p.qty == 1 && p.name == title && p.price == price
    ensures p.Key() == VariantKey(title, "-", "-")
    ensures cardId != "" ==> p.id == CardId(cardId)
    ensures cardId == "" ==> p.id == Timestamp(now)
    ensures p.img == img
  {
    CartLine(if cardId == "" then Timestamp(now) else CardId(cardId), title, price, img, "-", "-", 1)
  }

  /** The wishlist page's "Add to cart": the saved entry with no size and no color, quantity 1. */
  function WishlistPayload(now: int, e: WishEntry): (p: CartLine)
    ensures p.qty == 1 && p.name == e.name && p.price == e.price && p.img == e.img
    ensures p.Key() == VariantKey(e.name, "-", "-")
  {
    CartLine(Timestamp(now), e.name, e.price, e.img, "-", "-", 1)
  }

  /**
   * The same product added from its card and then from the wishlist lands on
   * one line of quantity 2: the two payloads share a key whatever their ids.
   */
  lemma CardThenWishlistMerge(cart: seq<CartLine>, now1: int, cardId: string, now2: int, e: WishEntry, img: string)
    requires forall j :: 0 <= j < |cart| ==> cart[j].Key() != VariantKey(e.name, "-", "-")
    ensures var c := CardPayload(now1, cardId, e.name, e.price, img);
      AddOrMerge(AddOrMerge(cart, c), WishlistPayload(now2, e)) == cart + [c.(qty := 2)]
  {
    var c := CardPayload(now1, cardId, e.name, e.price, img);
    var once := AddOrMerge(cart, c);
    assert once == cart + [c];
    AddMergesMatchingLine(once, WishlistPayload(now2, e), |cart|);
    assert AddOrMerge(once, WishlistPayload(now2, e)) == once[|cart| := c.(qty := 2)];
  }

  /** Every button's payload has quantity 1, so adding it keeps every quantity positive. */
  lemma PayloadsKeepQtyPositive(cart: seq<CartLine>, now: int, cardId: string, title: string, price: nat, img: string, size: string, color: string)
    requires QtyPositive(cart)
    ensures QtyPositive(AddOrMerge(cart, CardPayload(now, cardId, title, price, img)))
    ensures QtyPositive(AddOrMerge(cart, ProductPagePayload(now, title, price, img, size, color)))
    ensures QtyPositive(AddOrMerge(cart, WishlistPayload(now, WishEntry(title, price, img))))
  {
    AddKeepsQtyPositive(cart, CardPayload(now, cardId, title, price, img));
    AddKeepsQtyPositive(cart, ProductPagePayload(now, title, price, img, size, color));
    AddKeepsQtyPositive(cart, WishlistPayload(now, WishEntry(title, price, img)));
  }
}
