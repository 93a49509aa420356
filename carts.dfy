/** The storefront cart: an ordered list of lines, one per product identity,
    mirrored to a browser storage slot and summarised by a count badge. */
module Carts {
  import opened Wrappers
  import opened JsText

  /** One cart record `{id, name, price, quantity}`. The quantity is whatever
      was stored: the source never checks the shape of what it reads back. */
  datatype Line = Line(id: string, name: string, price: string, quantity: int)

  /** What the cart reads from a product card: the raw text of its name element
      and the raw text of each of the two price elements, when present. */
  datatype Card = Card(name: string, currentPrice: Option<string>, newPrice: Option<string>)

  /** The count badge: its text and whether it is shown (`display: inline`)
      or hidden (`display: none`). */
  datatype Badge = Badge(text: string, visible: bool)

  /** Price text used in the identity of a card without a price element. */
  const NoPriceId: string := "0"

  /** Price text stored for a card without a price element. */
  const NoPriceLabel: string := "0 \U{20BD}"

  /** `current || new`: the current-price element wins when both exist. */
  function PriceElement(card: Card): (e: Option<string>)
    ensures e.Some? <==> card.currentPrice.Some? || card.newPrice.Some?
    ensures card.currentPrice.Some? ==> e == card.currentPrice
    ensures card.currentPrice.None? ==> e == card.newPrice
  {
    if card.currentPrice.Some? then card.currentPrice else card.newPrice
  }

  /** `generateProductId`: the trimmed name and the trimmed price (or "0"),
      joined by '-', with every whitespace run folded into '-'. */
  function ProductId(card: Card): (id: string)
    ensures NoSpace(id)
  {
    var price := match PriceElement(card)
      case Some(text) => Trim(text)
      case None => NoPriceId;
    var joined := Trim(card.name) + "-" + price;
    FoldSpacesNoSpace(joined);
    FoldSpaces(joined)
  }

  /** `getProductPrice`: the trimmed text of the current price, else of the new
      price, else the fallback label. */
  function ProductPrice(card: Card): (price: string)
    ensures Trimmed(price)
    ensures card.currentPrice.Some? ==> price == Trim(card.currentPrice.value)
    ensures card.currentPrice.None? && card.newPrice.Some? ==> price == Trim(card.newPrice.value)
    ensures card.currentPrice.None? && card.newPrice.None? ==> price == NoPriceLabel
  {
    match PriceElement(card)
    case Some(text) => Trim(text)
    case None => NoPriceLabel
  }

  /** The identity is the folded trimmed name, a '-', and the folded displayed
      price whenever the card shows a price. */
  lemma ProductIdOfPricedCard(card: Card)
    requires PriceElement(card).Some?
    ensures ProductId(card) == FoldSpaces(Trim(card.name)) + "-" + FoldSpaces(ProductPrice(card))
  {
    IdSplits(Trim(card.name), ProductPrice(card));
  }

  /** Without a price element the identity ends in "-0" while the stored price
      is "0 ₽": the two fallbacks differ. */
  lemma ProductIdOfUnpricedCard(card: Card)
    requires PriceElement(card).None?
    ensures ProductId(card) == FoldSpaces(Trim(card.name)) + "-0"
    ensures ProductPrice(card) == NoPriceLabel && ProductPrice(card) != NoPriceId
  {
    IdSplits(Trim(card.name), NoPriceId);
  }

  lemma IdSplits(name: string, price: string)
    requires Trimmed(name)
    ensures FoldSpaces(name + "-" + price) == FoldSpaces(name) + "-" + FoldSpaces(price)
  {
    assert name + "-" + price == name + ("-" + price);
    FoldSpacesAppend(name, "-" + price);
    HyphenFolds(price);
  }

  lemma HyphenFolds(price: string)
    ensures FoldSpaces("-" + price) == "-" + FoldSpaces(price)
  {
    var s := "-" + price;
    assert s[0] == '-' && s[1..] == price;
    WordHeadFolds(s);
  }

  /** `findIndex(item => item.id === id)`: the first line with that id, or -1. */
  function FindIndex(lines: seq<Line>, id: string): (i: int)
    ensures -1 <= i < |lines|
    ensures i == -1 <==> forall k :: 0 <= k < |lines| ==> lines[k].id != id
    ensures 0 <= i ==> lines[i].id == id && forall k :: 0 <= k < i ==> lines[k].id != id
  {
    if lines == [] then -1
    else if lines[0].id == id then 0
    else
      var i := FindIndex(lines[1..], id);
      if i == -1 then -1 else i + 1
  }

  /** Reference definition of the item count: the sum of all quantities. */
  function Sum(lines: seq<Line>): int {
    if lines == [] then 0 else lines[0].quantity + Sum(lines[1..])
  }

  /** `reduce((total, item) => total + item.quantity, acc)`: a left fold,
      which adds the sum of the quantities to the starting value. */
  function Reduce(lines: seq<Line>, acc: int): (r: int)
    ensures r == acc + Sum(lines)
  {
    if lines == [] then acc else Reduce(lines[1..], acc + lines[0].quantity)
  }

  lemma {:induction false} SumAppend(a: seq<Line>, b: seq<Line>)
    ensures Sum(a + b) == Sum(a) + Sum(b)
  {
    if a == [] {
      assert a + b == b;
    } else {
      assert (a + b)[1..] == a[1..] + b;
      SumAppend(a[1..], b);
    }
  }

  lemma {:induction false} SumUpdate(lines: seq<Line>, i: int, line: Line)
    requires 0 <= i < |lines|
    ensures Sum(lines[i := line]) == Sum(lines) - lines[i].quantity + line.quantity
  {
    if i > 0 {
      assert lines[i := line][1..] == lines[1..][i - 1 := line];
      SumUpdate(lines[1..], i - 1, line);
    }
  }

  /** `updateCartDisplay` for a present badge: "(N)" and shown when the total
      is positive, otherwise "(0)" and hidden. */
  function BadgeFor(total: int): (b: Badge)
    ensures b.visible <==> total > 0
    ensures |b.text| >= 3 && b.text[0] == '(' && b.text[|b.text| - 1] == ')'
    ensures AllDigits(b.text[1..|b.text| - 1])
    ensures total > 0 ==> b.text[1] != '0'
    ensures total <= 0 ==> b.text == "(0)"
  {
    if total > 0 then Badge("(" + DecimalString(total) + ")", true)
    else Badge("(0)", false)
  }

  /** The badge's digits read back as the total whenever the total is not
      negative. */
  lemma BadgeShowsTotal(total: int)
    requires total >= 0
    ensures DecimalValue(BadgeFor(total).text[1..|BadgeFor(total).text| - 1]) == total
  {
    var t := BadgeFor(total).text;
    if total > 0 {
      assert t[1..|t| - 1] == DecimalString(total);
      DecimalRoundTrip(total);
    } else {
      assert t[1..|t| - 1] == "0";
      assert "0"[..0] == [];
    }
  }

  /** `getCartFromStorage`: the decoded list, or the empty cart when the slot
      is absent or its text does not decode. */
  function LoadCart(stored: Option<seq<Line>>): (lines: seq<Line>)
    ensures stored.Some? ==> lines == stored.value
    ensures stored.None? ==> lines == []
  {
    match stored
    case Some(lines) => lines
    case None => []
  }

  /** At most one line per id. */
  predicate UniqueIds(lines: seq<Line>) {
    forall i, j :: 0 <= i < j < |lines| ==> lines[i].id != lines[j].id
  }

  /** The lines after `addToCart` adds a product with this id, name and price:
      the first line with the id gains one unit, or a new line is appended. */
  function Added(lines: seq<Line>, id: string, name: string, price: string): (r: seq<Line>)
    ensures |lines| <= |r| <= |lines| + 1
  {
    var i := FindIndex(lines, id);
    if i == -1 then lines + [Line(id, name, price, 1)]
    else lines[i := lines[i].(quantity := lines[i].quantity + 1)]
  }

  /** After an add the product is in the cart, and the lines already there
      keep their ids in their order. */
  lemma AddedContains(lines: seq<Line>, id: string, name: string, price: string)
    ensures var r := Added(lines, id, name, price);
      && FindIndex(r, id) != -1
      && forall k :: 0 <= k < |lines| ==> r[k].id == lines[k].id
  {
    var r := Added(lines, id, name, price);
    var i := FindIndex(lines, id);
    if i == -1 {
      assert r[|lines|].id == id;
    } else {
      assert r[i].id == id;
    }
  }

  /** A repeated id: same length and order, the first line with the id gains
      exactly one unit, every other line is untouched. */
  lemma AddedExisting(lines: seq<Line>, id: string, name: string, price: string, i: int)
    requires 0 <= i < |lines| && lines[i].id == id
    requires forall k :: 0 <= k < i ==> lines[k].id != id
    ensures var r := Added(lines, id, name, price);
      && |r| == |lines|
      && r[i] == Line(lines[i].id, lines[i].name, lines[i].price, lines[i].quantity + 1)
      && forall k :: 0 <= k < |lines| && k != i ==> r[k] == lines[k]
  {
  }

  /** A new id: the new line with quantity 1 is appended after the old ones. */
  lemma AddedNew(lines: seq<Line>, id: string, name: string, price: string)
    requires forall k :: 0 <= k < |lines| ==> lines[k].id != id
    ensures Added(lines, id, name, price) == lines + [Line(id, name, price, 1)]
  {
  }

  /** Every add raises the item count by exactly one. */
  lemma AddedRaisesTotal(lines: seq<Line>, id: string, name: string, price: string)
    ensures Sum(Added(lines, id, name, price)) == Sum(lines) + 1
  {
    var i := FindIndex(lines, id);
    if i == -1 {
      SumAppend(lines, [Line(id, name, price, 1)]);
      assert Sum([Line(id, name, price, 1)]) == 1;
    } else {
      SumUpdate(lines, i, lines[i].(quantity := lines[i].quantity + 1));
    }
  }

  /** Adding never creates a second line with an id already in the cart. */
  lemma AddedKeepsIdsUnique(lines: seq<Line>, id: string, name: string, price: string)
    requires UniqueIds(lines)
    ensures UniqueIds(Added(lines, id, name, price))
  {
    var r := Added(lines, id, name, price);
    var i := FindIndex(lines, id);
    if i == -1 {
      forall p, q | 0 <= p < q < |r| ensures r[p].id != r[q].id {
        if q == |lines| { assert r[p] == lines[p]; }
      }
    } else {
      forall p, q | 0 <= p < q < |r| ensures r[p].id != r[q].id {
        assert r[p].id == lines[p].id && r[q].id == lines[q].id;
      }
    }
  }

  /** The two branches of `addToCart`, keyed by the result of `findIndex`. */
  lemma AddedAt(lines: seq<Line>, id: string, name: string, price: string, i: int, r: seq<Line>)
    requires i == FindIndex(lines, id)
    requires i != -1 ==> r == lines[i := lines[i].(quantity := lines[i].quantity + 1)]
    requires i == -1 ==> r == lines + [Line(id, name, price, 1)]
    ensures r == Added(lines, id, name, price)
  {
  }

  /** The cart after clicking "add" on each card in turn. */
  function AddAll(lines: seq<Line>, cards: seq<Card>): (r: seq<Line>)
    ensures |lines| <= |r| <= |lines| + |cards|
    decreases cards
  {
    if cards == [] then lines
    else AddAll(Added(lines, ProductId(cards[0]), cards[0].name, ProductPrice(cards[0])), cards[1..])
  }

  /** From an id-unique cart (the empty one in particular), any sequence of adds
      keeps ids unique and raises the count by the number of adds. */
  lemma {:induction false} AddAllInvariant(lines: seq<Line>, cards: seq<Card>)
    requires UniqueIds(lines)
    ensures UniqueIds(AddAll(lines, cards))
    ensures Sum(AddAll(lines, cards)) == Sum(lines) + |cards|
    decreases cards
  {
    if cards != [] {
      var c := cards[0];
      AddedKeepsIdsUnique(lines, ProductId(c), c.name, ProductPrice(c));
      AddedRaisesTotal(lines, ProductId(c), c.name, ProductPrice(c));
      AddAllInvariant(Added(lines, ProductId(c), c.name, ProductPrice(c)), cards[1..]);
    }
  }

  /** The durable key-value slot under the key 'cart', holding the decoded form
      of what was last written (None: nothing, or text that does not decode). */
  class Storage {
    var slot: Option<seq<Line>>

    constructor (slot: Option<seq<Line>>)
      ensures this.slot == slot
    {
      this.slot := slot;
    }
  }

  class Cart {
    var items: seq<Line>
    var badge: Option<Badge>
    const store: Storage

    /** Loads the stored cart and renders the badge (None: no badge element). */
    constructor (store: Storage, badge: Option<Badge>)
      ensures this.store == store
      ensures items == LoadCart(store.slot)
      ensures this.badge == if badge.Some? then Some(BadgeFor(Sum(items))) else None
    {
      this.store := store;
      items := LoadCart(store.slot);
      this.badge := badge;
      new;
      UpdateCartDisplay();
    }

    /** `getTotalItems`: the reduce over the current lines. */
    function GetTotalItems(): (total: int)
      reads this
      ensures total == Sum(items)
    {
      Reduce(items, 0)
    }

    /** `saveCartToStorage`: a write the environment may refuse; a refused write
      leaves the slot as it was and never touches the in-memory lines. */
    method SaveCartToStorage(writable: bool)
      modifies store
      ensures store.slot == if writable then Some(items) else old(store.slot)
    {
      if writable {
        store.slot := Some(items);
      }
    }

    /** `updateCartDisplay`; an absent badge stays absent. */
    method UpdateCartDisplay()
      modifies this`badge
      ensures badge == if old(badge).Some? then Some(BadgeFor(Sum(items))) else None
    {
      var total := GetTotalItems();
      if badge.Some? {
        if total > 0 {
          badge := Some(Badge("(" + DecimalString(total) + ")", true));
        } else {
          badge := Some(Badge("(0)", false));
        }
      }
    }

    /** `addToCart` for the card holding the clicked button, then save and
      refresh the badge. */
    method AddToCart(card: Card, writable: bool)
      modifies this, store
      ensures items == Added(old(items), ProductId(card), card.name, ProductPrice(card))
      ensures Sum(items) == old(Sum(items)) + 1
      ensures UniqueIds(old(items)) ==> UniqueIds(items)
      ensures badge == if old(badge).Some? then Some(BadgeFor(Sum(items))) else None
      ensures store.slot == if writable then Some(items) else old(store.slot)
    {
      var id := ProductId(card);
      var name := card.name;
      var price := ProductPrice(card);
      var lines := items;
      AddedRaisesTotal(lines, id, name, price);
      if UniqueIds(lines) {
        AddedKeepsIdsUnique(lines, id, name, price);
      }
      var i := FindIndex(lines, id);
      if i != -1 {
        lines := lines[i := lines[i].(quantity := lines[i].quantity + 1)];
      } else {
        lines := lines + [Line(id, name, price, 1)];
      }
      AddedAt(items, id, name, price, i, lines);
      items := lines;
      SaveCartToStorage(writable);
      UpdateCartDisplay();
    }
  }
}
