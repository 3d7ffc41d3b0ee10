/**
 * The small decisions the storefront pages take outside the cart: which
 * product cards the filters show, which order cards the status filter shows,
 * which search suggestions appear, and which hero slide comes next.
 */
module Storefront {

  // ---------------------------------------------------------------------------
  // Product grid filter

  /** The gender button that is currently active, if any. */
  datatype GenderButton = NoneActive | Active(filter: string)

  /** The price slider: absent from the page, or set to a maximum. */
  datatype PriceSlider = NoSlider | UpTo(max: int)

  /** The category names whose checkbox makes every card pass the category test. */
  predicate ChecksBroadCategory(checked: seq<string>) {
    "shoes" in checked || "clothes" in checked || "accessories" in checked
  }

  /** The category test: nothing checked, the card's own category checked, or a broad name checked. */
  predicate CategoryOk(checked: seq<string>, cardCat: string)
    ensures |checked| == 0 ==> CategoryOk(checked, cardCat)
    ensures cardCat in checked ==> CategoryOk(checked, cardCat)
    ensures ChecksBroadCategory(checked) ==> CategoryOk(checked, cardCat)
  {
    |checked| == 0 || cardCat in checked || ChecksBroadCategory(checked)
  }

  /**
   * Whether a product card is displayed. A card without a gender counts as
   * "all"; with no active button the filter is "all"; without a slider there
   * is no price limit.
   */
  predicate CardVisible(button: GenderButton, checked: seq<string>, slider: PriceSlider,
                        cardGender: string, cardCat: string, cardPrice: int)
    ensures CardVisible(button, checked, slider, cardGender, cardCat, cardPrice) ==>
      CategoryOk(checked, cardCat) && (slider.NoSlider? || cardPrice <= slider.max)
    ensures (CardVisible(button, checked, slider, cardGender, cardCat, cardPrice) && button.Active? && button.filter != "all") ==>
      cardGender != "" && cardGender == button.filter
    ensures ((button.NoneActive? || button.filter == "all" || (cardGender != "" && cardGender == button.filter)) &&
             CategoryOk(checked, cardCat) && (slider.NoSlider? || cardPrice <= slider.max)) ==>
      CardVisible(button, checked, slider, cardGender, cardCat, cardPrice)
  {
    var genderFilter := if button.Active? then button.filter else "all";
    var gender := if cardGender == "" then "all" else cardGender;
    var genderOk := genderFilter == "all" || gender == genderFilter;
    var priceOk := slider.NoSlider? || cardPrice <= slider.max;
    genderOk && CategoryOk(checked, cardCat) && priceOk
  }

  /** Once "shoes", "clothes" or "accessories" is checked, every category passes. */
  lemma BroadCategoryMatchesAll(checked: seq<string>, cardCat: string)
    requires ChecksBroadCategory(checked)
    ensures CategoryOk(checked, cardCat)
  {
  }

  /** Otherwise a non-empty selection passes exactly the checked categories. */
  lemma NarrowCategoryExact(checked: seq<string>, cardCat: string)
    requires |checked| > 0 && !ChecksBroadCategory(checked)
    ensures CategoryOk(checked, cardCat) <==> cardCat in checked
  {
  }

  /** With no button active, no box checked and no slider, every card is shown. */
  lemma NoFilterShowsAll(cardGender: string, cardCat: string, cardPrice: int)
    ensures CardVisible(NoneActive, [], NoSlider, cardGender, cardCat, cardPrice)
  {
  }

  /** A card dearer than the slider's maximum is hidden, whatever the other filters say. */
  lemma OverPriceHidden(button: GenderButton, checked: seq<string>, max: int,
                        cardGender: string, cardCat: string, cardPrice: int)
    requires cardPrice > max
    ensures !CardVisible(button, checked, UpTo(max), cardGender, cardCat, cardPrice)
  {
  }

  // ---------------------------------------------------------------------------
  // Order status filter

  /** An order card's status badge: missing, or present with its CSS classes. */
  datatype Badge = NoBadge | Badge(classes: set<string>)

  /** What the filter does to an order card's display. */
  datatype Display = Unchanged | Shown | Hidden

  /** The badge's status: the first of delivered, shipped, processing, cancelled it carries, else "other". */
  function StatusClass(classes: set<string>): (s: string)
    ensures s == "delivered" || s == "shipped" || s == "processing" || s == "cancelled" || s == "other"
    ensures s != "other" ==> s in classes
    ensures "delivered" in classes ==> s == "delivered"
    ensures "delivered" !in classes && "shipped" in classes ==> s == "shipped"
    ensures "delivered" !in classes && "shipped" !in classes && "processing" in classes ==> s == "processing"
    ensures s == "other" <==>
      "delivered" !in classes && "shipped" !in classes && "processing" !in classes && "cancelled" !in classes
  {
    if "delivered" in classes then "delivered"
    else if "shipped" in classes then "shipped"
    else if "processing" in classes then "processing"
    else if "cancelled" in classes then "cancelled"
    else "other"
  }

  /** The filter's effect on one card: cards without a badge are left alone. */
  function OrderDisplay(selected: string, badge: Badge): (d: Display)
    ensures d == Unchanged <==> badge.NoBadge?
    ensures selected == "all" && badge.Badge? ==> d == Shown
    ensures badge.Badge? && selected != "all" ==> (d == Shown <==> selected == StatusClass(badge.classes))
  {
    match badge
    case NoBadge => Unchanged
    case Badge(classes) =>
      if selected == "all" || selected == StatusClass(classes) then Shown else Hidden
  }

  /**
   * Selecting "cancelled" shows a badged card exactly when it is cancelled and
   * carries none of the statuses checked before it.
   */
  lemma CancelledFilterExact(classes: set<string>)
    ensures OrderDisplay("cancelled", Badge(classes)) == Shown <==>
      "cancelled" in classes && "delivered" !in classes && "shipped" !in classes && "processing" !in classes
  {
  }

  /** Selecting "other" shows exactly the badged cards that carry none of the four statuses. */
  lemma OtherFilterExact(classes: set<string>)
    ensures OrderDisplay("other", Badge(classes)) == Shown <==> StatusClass(classes) == "other"
  {
  }

  // ---------------------------------------------------------------------------
  // Search suggestions

  /** The fixed suggestion list of the search overlay. */
  const Suggestions: seq<string> := [
    "Running Shoes", "Football Boots", "Sport Jacket", "Training Pants",
    "Gym Bag", "Basketball Shoes", "Yoga Tights"]

  /** The most suggestions shown at once. */
  const MaxSuggestions: nat := 6

  /** Lower-casing, for the ASCII letters only. */
  function LowerChar(c: char): char {
    if 'A' <= c <= 'Z' then (c as int + 32) as char else c
  }

  function Lower(s: string): (r: string)
    ensures |r| == |s|
    ensures forall i :: 0 <= i < |s| ==> r[i] == LowerChar(s[i])
  {
    if s == [] then [] else [LowerChar(s[0])] + Lower(s[1..])
  }

  /** Whether q occurs in s starting at position k. */
  predicate OccursAt(s: string, q: string, k: int) {
    0 <= k && k + |q| <= |s| && s[k..k + |q|] == q
  }

  /** An occurrence in the tail of s is an occurrence in s one place further on. */
  lemma OccursInTail(s: string, q: string, k: int)
    requires |s| > 0 && 0 <= k
    ensures OccursAt(s[1..], q, k) <==> OccursAt(s, q, k + 1)
  {
    if k + |q| <= |s| - 1 {
      assert s[1..][k..k + |q|] == s[k + 1..k + 1 + |q|];
    }
  }

  /** Whether q occurs in s, contiguously, at some position (the `includes` test). */
  function Includes(s: string, q: string): (b: bool)
    ensures b <==> exists k :: OccursAt(s, q, k)
    decreases |s|
  {
    if q <= s then
      assert OccursAt(s, q, 0);
      true
    else if |s| <= |q| then
      false
    else
      var rest := Includes(s[1..], q);
      assert rest <==> exists k :: OccursAt(s, q, k) by {
        if rest {
          var k :| OccursAt(s[1..], q, k);
          OccursInTail(s, q, k);
        } else {
          forall k | OccursAt(s, q, k) ensures false {
            assert k != 0;
            OccursInTail(s, q, k - 1);
          }
        }
      }
      rest
  }

  /** The items whose lower-cased text includes q, in list order. */
  function Matching(items: seq<string>, q: string): (r: seq<string>)
    ensures |r| <= |items|
    ensures forall i :: 0 <= i < |r| ==> r[i] in items && Includes(Lower(r[i]), q)
  {
    if items == [] then []
    else if Includes(Lower(items[0]), q) then [items[0]] + Matching(items[1..], q)
    else Matching(items[1..], q)
  }

  /** The smaller of two counts. */
  function Min(a: nat, b: nat): nat {
    if a <= b then a else b
  }

  /** Matching distributes over concatenation, so the matches keep the list's order. */
  lemma {:induction false} MatchingConcat(a: seq<string>, b: seq<string>, q: string)
    ensures Matching(a + b, q) == Matching(a, q) + Matching(b, q)
  {
    if a == [] {
      assert a + b == b;
    } else {
      assert (a + b)[1..] == a[1..] + b;
      MatchingConcat(a[1..], b, q);
    }
  }

  /** What the overlay lists for an input: nothing for an empty input, else the first six matches. */
  function Suggest(input: string, items: seq<string>): (r: seq<string>)
    ensures input == "" ==> r == []
    ensures |r| <= MaxSuggestions
    ensures forall i :: 0 <= i < |r| ==> r[i] in items && Includes(Lower(r[i]), Lower(input))
    ensures input != "" ==> r <= Matching(items, Lower(input))
    ensures input != "" ==> |r| == Min(|Matching(items, Lower(input))|, MaxSuggestions)
  {
    var q := Lower(input);
    if |q| == 0 then []
    else
      var all := Matching(items, q);
      if |all| <= MaxSuggestions then all else all[..MaxSuggestions]
  }

  /** When every item matches, the matches are the whole list. */
  lemma {:induction false} MatchingAllMatch(items: seq<string>, q: string)
    requires forall i :: 0 <= i < |items| ==> Includes(Lower(items[i]), q)
    ensures Matching(items, q) == items
  {
    if items != [] {
      assert Includes(Lower(items[0]), q);
      MatchingAllMatch(items[1..], q);
    }
  }

  /** A text with a space at k matches the blank query. */
  lemma SpaceMatchesBlank(s: string, k: int)
    requires 0 <= k < |s| && s[k] == ' '
    ensures Includes(Lower(s), " ")
  {
    var low := Lower(s);
    assert low[k..k + 1] == [low[k]];
    assert OccursAt(low, " ", k);
  }

  /** When more than six items each contain a space, a blank query shows the first six of them. */
  lemma BlankQueryCapped(items: seq<string>)
    requires |items| > MaxSuggestions
    requires forall i :: 0 <= i < |items| ==> exists k :: 0 <= k < |items[i]| && items[i][k] == ' '
    ensures Suggest(" ", items) == items[..MaxSuggestions]
  {
    forall i | 0 <= i < |items| ensures Includes(Lower(items[i]), " ") {
      var k :| 0 <= k < |items[i]| && items[i][k] == ' ';
      SpaceMatchesBlank(items[i], k);
    }
    MatchingAllMatch(items, " ");
    assert Lower(" ") == " ";
  }

  /** Every one of the seven suggestions has a space, so a blank query shows the first six. */
  lemma BlankQueryShowsFirstSix()
    ensures Suggest(" ", Suggestions) == Suggestions[..MaxSuggestions]
  {
    var s := Suggestions;
    assert s[0][7] == ' ' && s[1][8] == ' ' && s[2][5] == ' ' && s[3][8] == ' ';
    assert s[4][3] == ' ' && s[5][10] == ' ' && s[6][4] == ' ';
    BlankQueryCapped(s);
  }

  /** Every item that matches is among the matches. */
  lemma {:induction false} MatchingComplete(items: seq<string>, q: string, x: string)
    requires x in items && Includes(Lower(x), q)
    ensures x in Matching(items, q)
  {
    if items[0] != x {
      MatchingComplete(items[1..], q, x);
    }
  }

  /** When at most six items match a non-empty input, all of them are suggested. */
  lemma SuggestShowsAllFewMatches(input: string, items: seq<string>, x: string)
    requires input != "" && |Matching(items, Lower(input))| <= MaxSuggestions
    requires x in items && Includes(Lower(x), Lower(input))
    ensures x in Suggest(input, items)
  {
    MatchingComplete(items, Lower(input), x);
  }

  // ---------------------------------------------------------------------------
  // Hero slider

  /** The slide the autoplay timer moves to: the next one, wrapping to the first. */
  function NextSlide(current: nat, count: nat): (r: nat)
    requires count > 0
    ensures r < count
    ensures current + 1 < count ==> r == current + 1
    ensures current + 1 == count ==> r == 0
  {
    (current + 1) % count
  }

  /** The slide shown after the timer has fired `steps` times. */
  function Advance(current: nat, count: nat, steps: nat): (r: nat)
    requires count > 0
    ensures steps == 0 ==> r == current
    ensures steps > 0 || current < count ==> r < count
  {
    if steps == 0 then current else NextSlide(Advance(current, count, steps - 1), count)
  }

  /** Ticks run one after another: a + b ticks are a ticks, then b more. */
  lemma {:induction false} AdvanceCompose(current: nat, count: nat, a: nat, b: nat)
    requires count > 0
    ensures Advance(current, count, a + b) == Advance(Advance(current, count, a), count, b)
  {
    if b > 0 {
      AdvanceCompose(current, count, a, b - 1);
    }
  }

  /** Before the last slide is passed, each tick moves exactly one slide on. */
  lemma {:induction false} AdvanceClimbs(current: nat, count: nat, steps: nat)
    requires current + steps < count
    ensures Advance(current, count, steps) == current + steps
  {
    if steps > 0 {
      AdvanceClimbs(current, count, steps - 1);
    }
  }

  /** After one full round of ticks the slider is back where it started. */
  lemma FullRoundReturns(current: nat, count: nat)
    requires current < count
    ensures Advance(current, count, count) == current
  {
    var toEnd := count - current;
    AdvanceClimbs(current, count, toEnd - 1);
    assert Advance(current, count, toEnd) == 0;
    AdvanceCompose(current, count, toEnd, current);
    AdvanceClimbs(0, count, current);
  }
}
