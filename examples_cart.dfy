/** Worked cases of the cart's behaviour. Each is stated for every card of a
    given shape, such as "a whitespace-free name priced as amount, space,
    currency", and not for one literal card. */
module CartExamples {
  import opened Wrappers
  import opened JsText
  import opened Carts

  /** One whitespace run between two words becomes a single hyphen. */
  lemma FoldGap(first: string, gap: string, second: string)
    requires Word(first) && gap != [] && AllSpace(gap) && Word(second)
    ensures FoldSpaces(first + gap + second) == first + "-" + second
  {
    var t := gap + second;
    FoldRunThenWord(gap, second);
    assert !IsSpace(first[|first| - 1]);
    assert first + gap + second == first + t;
    FoldSpacesAppend(first, t);
    FoldSpacesOfWord(first);
  }

  lemma FoldRunThenWord(gap: string, second: string)
    requires gap != [] && AllSpace(gap) && Word(second)
    ensures FoldSpaces(gap + second) == "-" + second
  {
    assert !IsSpace(second[0]);
    FoldSpacesRun(gap, second);
    FoldSpacesOfWord(second);
  }

  /** A non-empty, whitespace-free word such as "Widget", "100" or "\U{20BD}". */
  predicate Word(s: string) {
    s != [] && NoSpace(s)
  }

  /** Trimming removes the padding around two words and keeps the gap between them. */
  lemma TrimPadded(lead: string, first: string, gap: string, second: string, trail: string)
    requires AllSpace(lead) && AllSpace(trail) && AllSpace(gap)
    requires Word(first) && Word(second)
    ensures Trim(lead + first + gap + second + trail) == first + gap + second
  {
    var core := first + gap + second;
    assert core[0] == first[0];
    assert core[|core| - 1] == second[|second| - 1];
    assert lead + first + gap + second + trail == lead + core + trail;
    TrimSurrounded(lead, core, trail);
  }

  /** Names that differ only in their whitespace get one identity, so their
      cards share a cart line. The id is built from visible text, not from a
      catalogue key. */
  lemma SpacingVariantsCollide(lead: string, first: string, gap: string, second: string, trail: string,
                               price: Option<string>)
    requires AllSpace(lead) && AllSpace(trail) && gap != [] && AllSpace(gap)
    requires Word(first) && Word(second)
    ensures ProductId(Card(lead + first + gap + second + trail, price, None))
         == ProductId(Card(first + " " + second, price, None))
  {
    var c1 := Card(lead + first + gap + second + trail, price, None);
    var c2 := Card(first + " " + second, price, None);
    TrimPadded(lead, first, gap, second, trail);
    TrimPadded([], first, " ", second, []);
    assert [] + first + " " + second + [] == c2.name;
    FoldGap(first, gap, second);
    FoldGap(first, " ", second);
    if price.Some? {
      ProductIdOfPricedCard(c1);
      ProductIdOfPricedCard(c2);
    } else {
      ProductIdOfUnpricedCard(c1);
      ProductIdOfUnpricedCard(c2);
    }
  }

  /** One click followed by the rest. */
  lemma AddAllStep(lines: seq<Line>, c: Card, rest: seq<Card>)
    ensures AddAll(lines, [c] + rest) == AddAll(Added(lines, ProductId(c), c.name, ProductPrice(c)), rest)
  {
    assert ([c] + rest)[0] == c && ([c] + rest)[1..] == rest;
  }

  /** The same card clicked twice on an empty cart gives one line of quantity 2. */
  lemma SameCardTwice(c: Card)
    ensures AddAll([], [c, c]) == [Line(ProductId(c), c.name, ProductPrice(c), 2)]
  {
    var id, price := ProductId(c), ProductPrice(c);
    var one := Added([], id, c.name, price);
    AddedNew([], id, c.name, price);
    AddedExisting(one, id, c.name, price, 0);
    AddAllStep([], c, [c]);
    AddAllStep(one, c, []);
    assert [c, c] == [c] + [c] && [c] == [c] + [];
    assert AddAll(Added(one, id, c.name, price), []) == Added(one, id, c.name, price);
  }

  /** A price like "100 \U{20BD}" is already trimmed, and its identity part
      is "100-\U{20BD}". */
  lemma WordPrice(amount: string, currency: string)
    requires Word(amount) && Word(currency)
    ensures Trim(amount + " " + currency) == amount + " " + currency
    ensures FoldSpaces(amount + " " + currency) == amount + "-" + currency
  {
    TrimPadded([], amount, " ", currency, []);
    assert [] + amount + " " + currency + [] == amount + " " + currency;
    FoldGap(amount, " ", currency);
  }

  /** A card named like "Widget" and priced like "100 \U{20BD}" gets the id
      "Widget-100-\U{20BD}", and its line keeps the price as displayed. */
  lemma WordPricedCard(name: string, amount: string, currency: string)
    requires Word(name) && Word(amount) && Word(currency)
    ensures var card := Card(name, Some(amount + " " + currency), None);
      && ProductPrice(card) == amount + " " + currency
      && ProductId(card) == name + "-" + amount + "-" + currency
  {
    var card := Card(name, Some(amount + " " + currency), None);
    assert Trimmed(name);
    TrimIdempotent(name);
    FoldSpacesOfWord(name);
    WordPrice(amount, currency);
    ProductIdOfPricedCard(card);
  }

  /** A single-digit total shows as "(d)" and the badge is visible. */
  lemma SmallBadge(n: nat)
    requires 0 < n < 10
    ensures BadgeFor(n) == Badge("(" + [DigitChar(n)] + ")", true)
  {
  }

  /** Adding ids x, y, x with x != y to an empty cart. */
  lemma AddedXYX(x: string, nx: string, px: string, y: string, ny: string, py: string)
    requires x != y
    ensures Added(Added(Added([], x, nx, px), y, ny, py), x, nx, px)
         == [Line(x, nx, px, 2), Line(y, ny, py, 1)]
  {
    var one := Added([], x, nx, px);
    AddedNew([], x, nx, px);
    var two := Added(one, y, ny, py);
    AddedNew(one, y, ny, py);
    AddedExisting(two, x, nx, px, 0);
  }

  /** A "(3)" badge is shown for a cart holding three items. */
  lemma BadgeOfThree(lines: seq<Line>)
    requires Sum(lines) == 3
    ensures BadgeFor(Sum(lines)) == Badge("(3)", true)
  {
    SmallBadge(3);
    assert "(" + [DigitChar(3)] + ")" == "(3)";
  }

  /** Two cards with different ids, clicked a, b, a: two lines in the order of
      first addition, with quantities 2 and 1, and the badge reads "(3)". */
  lemma TwoProductsThenRepeat(a: Card, b: Card)
    requires ProductId(a) != ProductId(b)
    ensures var lines := AddAll([], [a, b, a]);
      && lines == [Line(ProductId(a), a.name, ProductPrice(a), 2), Line(ProductId(b), b.name, ProductPrice(b), 1)]
      && BadgeFor(Sum(lines)) == Badge("(3)", true)
  {
    var ia, ib, pa, pb := ProductId(a), ProductId(b), ProductPrice(a), ProductPrice(b);
    var one := Added([], ia, a.name, pa);
    var two := Added(one, ib, b.name, pb);
    var three := Added(two, ia, a.name, pa);
    assert [a, b, a] == [a] + [b, a] && [b, a] == [b] + [a] && [a] == [a] + [];
    AddAllStep([], a, [b, a]);
    AddAllStep(one, b, [a]);
    AddAllStep(two, a, []);
    assert AddAll(three, []) == three;
    AddedXYX(ia, a.name, pa, ib, b.name, pb);
    AddAllInvariant([], [a, b, a]);
    BadgeOfThree(three);
  }

  /** A page with a badge: two clicks on one card, a reload that reads the
      saved cart back, then a click whose save fails and leaves the slot alone. */
  method ReloadKeepsCart(card: Card) {
    var store := new Storage(None);
    var cart := new Cart(store, Some(Badge("", false)));
    assert cart.items == [];
    cart.AddToCart(card, true);
    cart.AddToCart(card, true);
    var line := Line(ProductId(card), card.name, ProductPrice(card), 2);
    SameCardTwice(card);
    AddAllStep([], card, [card]);
    assert cart.items == [line];
    SmallBadge(2);
    assert "(" + [DigitChar(2)] + ")" == "(2)";
    assert cart.badge == Some(Badge("(2)", true));
    var reloaded := new Cart(store, None);
    assert reloaded.items == [line];
    cart.AddToCart(card, false);
    assert store.slot == Some([line]) && cart.items[0].quantity == 3;
  }
}
