/** The catalogue page script: the category filter buttons, the product
    grid and text shortening (frontend/js/app.js). */
module Storefront {
  import opened Wrappers
  import Seqs

  /** `truncateText`: text that fits is returned unchanged; otherwise the
      first `maxLength` characters (none for a negative length, as
      `substring` clamps) followed by `...`. */
  function TruncateText(text: string, maxLength: int): (r: string)
    ensures |text| <= maxLength ==> r == text
    ensures |text| > maxLength ==>
      var keep := if maxLength < 0 then 0 else maxLength;
      && |r| == keep + 3
      && r[..keep] == text[..keep]
      && r[keep..] == "..."
  {
    if |text| <= maxLength then text
    else if maxLength < 0 then "..."
    else text[..maxLength] + "..."
  }

  /** Truncating never yields more than `maxLength + 3` characters. It
      shortens the text only when the text is at least three characters
      over the limit: one or two over, the `...` makes it longer. */
  lemma TruncateBound(text: string, maxLength: nat)
    ensures |TruncateText(text, maxLength)| <= maxLength + 3
    ensures |TruncateText(text, maxLength)| <= |text| || |text| > maxLength
    ensures |text| >= maxLength + 3 ==> |TruncateText(text, maxLength)| <= |text|
    ensures maxLength < |text| < maxLength + 3 ==> |TruncateText(text, maxLength)| > |text|
  {
  }

  /** A category as the categories endpoint may send it: an object with a
      name, or the bare name. */
  datatype CategoryValue = Object(name: string) | Bare(value: string)

  /** The button label and filter value of a category. */
  function CategoryName(c: CategoryValue): (r: string)
    ensures c.Object? ==> r == c.name
    ensures c.Bare? ==> r == c.value
  {
    match c
    case Object(name) => name
    case Bare(value) => value
  }

  /** A filter button; `dataCategory` is absent on a button without a
      `data-category` attribute. */
  datatype Button = Button(dataCategory: Option<string>, active: bool)

  /** The button is highlighted for the chosen category: its own category
      matches, or "all" is chosen and it carries no (or an empty) category. */
  function ButtonActive(dataCategory: Option<string>, category: string): (b: bool)
    ensures dataCategory.Some? && dataCategory.value != "" ==> (b <==> dataCategory.value == category)
    ensures dataCategory.None? ==> (b <==> category == "all")
    ensures dataCategory == Some("") ==> (b <==> category == "all" || category == "")
  {
    || dataCategory == Some(category)
    || (category == "all" && (dataCategory.None? || dataCategory == Some("")))
  }

  /** A product as the page holds it. */
  datatype Card = Card(id: int, productName: string, category: string)

  /** The products shown for a filter value. */
  function Visible(products: seq<Card>, category: string): (r: seq<Card>)
    ensures category == "all" ==> r == products
    ensures Seqs.IsSubsequence(r, products)
    ensures category != "all" ==> forall p :: p in r <==> p in products && p.category == category
    ensures category != "all" ==> forall p :: p in products ==>
      multiset(r)[p] == if p.category == category then multiset(products)[p] else 0
  {
    if category == "all" then
      Seqs.Keep(products, (p: Card) => true)
    else Seqs.Keep(products, (p: Card) => p.category == category)
  }

  class ProductGrid {
    var products: seq<Card>
    var currentFilter: string
    var buttons: seq<Button>
    /** What the grid shows. */
    var displayed: seq<Card>

    constructor (products: seq<Card>, labels: seq<Option<string>>)
      ensures this.products == products && currentFilter == "all" && displayed == products
      ensures |buttons| == |labels|
      ensures forall i :: 0 <= i < |labels| ==> buttons[i] == Button(labels[i], false)
    {
      this.products := products;
      currentFilter := "all";
      displayed := products;
      buttons := seq(|labels|, i requires 0 <= i < |labels| => Button(labels[i], false));
    }

    /** `filterByCategory`: remembers the choice, highlights exactly the
        matching buttons and shows the matching products in their order. */
    method FilterByCategory(category: string)
      modifies this
      ensures products == old(products)
      ensures currentFilter == category
      ensures |buttons| == |old(buttons)|
      ensures forall i :: 0 <= i < |buttons| ==>
        buttons[i] == Button(old(buttons)[i].dataCategory, ButtonActive(old(buttons)[i].dataCategory, category))
      ensures displayed == Visible(products, category)
    {
      currentFilter := category;
      var i := 0;
      while i < |buttons|
        invariant 0 <= i <= |buttons| && |buttons| == |old(buttons)|
        invariant products == old(products) && currentFilter == category
        invariant forall j :: i <= j < |buttons| ==> buttons[j] == old(buttons)[j]
        invariant forall j :: 0 <= j < i ==>
          buttons[j] == Button(old(buttons)[j].dataCategory, ButtonActive(old(buttons)[j].dataCategory, category))
      {
        var b := buttons[i];
        buttons := buttons[i := Button(b.dataCategory, ButtonActive(b.dataCategory, category))];
        i := i + 1;
      }
      displayed := Visible(products, category);
    }
  }

  /** Every category button is highlighted for its own category, and the
      "all" button for "all". */
  lemma ButtonOwnCategory(name: string)
    ensures ButtonActive(Some(name), name)
    ensures ButtonActive(Some("all"), "all") && ButtonActive(None, "all")
    ensures name != "all" ==> !ButtonActive(Some("all"), name) && !ButtonActive(None, name)
  {
  }
}
