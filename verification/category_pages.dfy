/** The home page of categories: the Russian plural of the product count,
    the card of each category with its image and a preview of its first
    products, and the loading of every category's products
    (frontend/js/main.js and its copy frontend/public/js/main.js, whose
    `pluralize` is the same text). */
module CategoryPages {
  import opened Wrappers
  import Text

  /** `Math.abs`. */
  function Abs(n: int): (r: nat)
    ensures r == n || r == -n
  {
    if n < 0 then -n else n
  }

  /** `pluralize(count, one, two, five)`: the "five" form for 5..20 after
      dropping the hundreds, else by the last digit: 1 → "one", 2..4 →
      "two", anything else → "five". */
  function Pluralize(count: int, one: string, two: string, five: string): (r: string)
    ensures Abs(count) % 10 == 1 && Abs(count) % 100 != 11 ==> r == one
    ensures 2 <= Abs(count) % 10 <= 4 && !(12 <= Abs(count) % 100 <= 14) ==> r == two
    ensures Abs(count) % 10 !in {1, 2, 3, 4} || 11 <= Abs(count) % 100 <= 14 ==> r == five
  {
    LastDigitOfLastTwo(Abs(count));
    var n := Abs(count) % 100;
    if 5 <= n <= 20 then five
    else
      var d := n % 10;
      if d == 1 then one
      else if 2 <= d <= 4 then two
      else five
  }

  /** The plural categories of the Russian language for whole numbers, as
      the Unicode CLDR states them. */
  datatype PluralCategory = One | Few | Many

  function RussianCategory(n: nat): PluralCategory {
    if n % 10 == 1 && n % 100 != 11 then One
    else if 2 <= n % 10 <= 4 && !(12 <= n % 100 <= 14) then Few
    else Many
  }

  function FormOf(c: PluralCategory, one: string, two: string, five: string): string {
    match c
    case One => one
    case Few => two
    case Many => five
  }

  lemma LastDigitOfLastTwo(n: nat)
    ensures (n % 100) % 10 == n % 10
  {
    var q, r := n / 100, n % 100;
    var t, d := r / 10, r % 10;
    assert n == 10 * (10 * q + t) + d && 0 <= d < 10;
  }

  /** `pluralize` picks the form of the Russian plural category of the
      count's magnitude. */
  lemma PluralizeIsRussianPlural(count: int, one: string, two: string, five: string)
    ensures Pluralize(count, one, two, five) == FormOf(RussianCategory(Abs(count)), one, two, five)
  {
    LastDigitOfLastTwo(Abs(count));
  }

  /** The form depends only on the magnitude of the count modulo 100. */
  lemma PluralizePeriodic(count: int, one: string, two: string, five: string)
    ensures Pluralize(count, one, two, five) == Pluralize(Abs(count) % 100, one, two, five)
    ensures Pluralize(-count, one, two, five) == Pluralize(count, one, two, five)
    ensures Pluralize(count + 100, one, two, five) == Pluralize(count, one, two, five) || count < 0
  {
    var n := Abs(count);
    assert Abs(n % 100) % 100 == n % 100;
    assert count >= 0 ==> (count + 100) % 100 == count % 100;
  }

  /** 1 мотоцикл, 2 мотоцикла, 5 мотоциклов, and 11, 21 and 112 as the
      rule has it. */
  lemma PluralizeExamples()
    ensures Pluralize(1, "мотоцикл", "мотоцикла", "мотоциклов") == "мотоцикл"
    ensures Pluralize(2, "мотоцикл", "мотоцикла", "мотоциклов") == "мотоцикла"
    ensures Pluralize(5, "мотоцикл", "мотоцикла", "мотоциклов") == "мотоциклов"
    ensures Pluralize(11, "мотоцикл", "мотоцикла", "мотоциклов") == "мотоциклов"
    ensures Pluralize(21, "мотоцикл", "мотоцикла", "мотоциклов") == "мотоцикл"
    ensures Pluralize(112, "мотоцикл", "мотоцикла", "мотоциклов") == "мотоциклов"
    ensures Pluralize(0, "мотоцикл", "мотоцикла", "мотоциклов") == "мотоциклов"
  {
  }

  const PreviewSize: nat := 5

  /** `products.slice(0, 5)`. */
  function Preview<T>(products: seq<T>): (r: seq<T>)
    ensures |r| == if |products| < PreviewSize then |products| else PreviewSize
    ensures r <= products
  {
    if |products| < PreviewSize then products else products[..PreviewSize]
  }

  const DefaultCategoryImage: string := "/images/categories/default.png"
  const DefaultEmoji: string := "\U{1F3CD}\U{FE0F}"

  /** The six named categories' pictures. */
  const ImageMap: map<string, string> := map[
    "Спортбайки" := "/images/categories/sport.png",
    "Круизеры" := "/images/categories/cruiser.png",
    "Эндуро" := "/images/categories/enduro.png",
    "Классика" := "/images/categories/classic.png",
    "Туристические" := "/images/categories/touring.png",
    "Кастомы" := "/images/categories/custom.png"]

  /** The six named categories' emoji. */
  const EmojiMap: map<string, string> := map[
    "Спортбайки" := "\U{1F3CD}\U{FE0F}",
    "Круизеры" := "\U{1F6E3}\U{FE0F}",
    "Эндуро" := "\U{26F0}\U{FE0F}",
    "Классика" := "\U{1F3B8}",
    "Туристические" := "\U{1F5FA}\U{FE0F}",
    "Кастомы" := "\U{1F527}"]

  /** `getCategoryImage`: each listed name gets its own picture and the
      default picture is exactly for the names the table does not list;
      every picture lies in the category folder. */
  function GetCategoryImage(name: string): (r: string)
    ensures name in ImageMap ==> r == ImageMap[name]
    ensures r == DefaultCategoryImage <==> name !in ImageMap
    ensures Text.StartsWith(r, "/images/categories/")
  {
    if name in ImageMap then ImageMap[name] else DefaultCategoryImage
  }

  /** `getCategoryEmoji`: the motorcycle for any name the table does not
      list. */
  function GetCategoryEmoji(name: string): (r: string)
    ensures name !in EmojiMap ==> r == DefaultEmoji
    ensures name in EmojiMap ==> r == EmojiMap[name]
    ensures r != ""
  {
    if name in EmojiMap then EmojiMap[name] else DefaultEmoji
  }

  /** The two lookups know the same six names. */
  lemma LookupsAgree()
    ensures ImageMap.Keys == EmojiMap.Keys
    ensures |ImageMap.Keys| == 6
  {
    assert ImageMap.Keys == {"Спортбайки", "Круизеры", "Эндуро", "Классика", "Туристические", "Кастомы"};
  }

  /** A category as the categories endpoint sends it: a row with a name
      and an image path (null or empty when there is none), or the bare
      name. */
  datatype CategoryData = Row(name: string, imagePath: Option<string>) | Bare(name: string)

  /** The two copies of the page differ in the picture of a category
      without an image of its own, and in what a card shows when its
      picture fails to load: nothing (frontend/js/main.js), or the
      category's emoji (frontend/public/js/main.js). */
  datatype PageCopy = Root | Public

  /** `category.image_path` is truthy: present, not null, not empty. */
  function HasOwnImage(data: CategoryData): (b: bool)
    ensures b <==> data.Row? && data.imagePath !in {None, Some("")}
  {
    data.Row? && data.imagePath.Some? && data.imagePath.value != ""
  }

  /** The picture on a category card: the row's image path when it has one,
      else the default picture (frontend/js/main.js) or the name's picture
      from the table (frontend/public/js/main.js). */
  function CardImage(copy: PageCopy, data: CategoryData): (r: string)
    ensures HasOwnImage(data) ==> r == data.imagePath.value
    ensures !HasOwnImage(data) && copy == Root ==> r == DefaultCategoryImage
    ensures !HasOwnImage(data) && copy == Public ==> r == GetCategoryImage(data.name)
    ensures !HasOwnImage(data) ==> Text.StartsWith(r, "/images/categories/")
  {
    if HasOwnImage(data) then data.imagePath.value
    else if copy == Root then
      assert DefaultCategoryImage[..|"/images/categories/"|] == "/images/categories/";
      DefaultCategoryImage
    else GetCategoryImage(data.name)
  }

  /** A category card: name, picture, the hidden element shown when the
      picture fails to load (none in the root copy), the number of
      products with its plural word, and the names of the first products. */
  datatype Card = Card(name: string, image: string, fallback: Option<string>, count: nat,
                       countWord: string, preview: seq<string>)

  /** The products loaded for a name; none when nothing was loaded. */
  function ProductsOf(categoryProducts: map<string, seq<string>>, name: string): seq<string> {
    if name in categoryProducts then categoryProducts[name] else []
  }

  function CardOf(copy: PageCopy, data: CategoryData, categoryProducts: map<string, seq<string>>): (r: Card)
    ensures r.name == data.name
    ensures r.count == |ProductsOf(categoryProducts, data.name)|
    ensures data.name !in categoryProducts ==> r.count == 0 && r.preview == []
    ensures r.preview <= ProductsOf(categoryProducts, data.name) && |r.preview| <= PreviewSize
    ensures r.preview == Preview(ProductsOf(categoryProducts, data.name))
    ensures r.image == CardImage(copy, data)
    ensures r.fallback == if copy == Public then Some(GetCategoryEmoji(data.name)) else None
    ensures r.countWord == FormOf(RussianCategory(r.count), "мотоцикл", "мотоцикла", "мотоциклов")
  {
    var products := ProductsOf(categoryProducts, data.name);
    PluralizeIsRussianPlural(|products|, "мотоцикл", "мотоцикла", "мотоциклов");
    var fallback := if copy == Public then Some(GetCategoryEmoji(data.name)) else None;
    Card(data.name, CardImage(copy, data), fallback, |products|,
         Pluralize(|products|, "мотоцикл", "мотоцикла", "мотоциклов"), Preview(products))
  }

  /** What `displayCategories` puts in the grid. */
  datatype Grid = NothingFound | Cards(cards: seq<Card>)

  function DisplayCategories(copy: PageCopy, categoriesData: seq<CategoryData>,
                             categoryProducts: map<string, seq<string>>): (r: Grid)
    ensures r == NothingFound <==> categoriesData == []
    ensures r.Cards? ==> |r.cards| == |categoriesData|
    ensures r.Cards? ==>
      forall i :: 0 <= i < |categoriesData| ==> r.cards[i] == CardOf(copy, categoriesData[i], categoryProducts)
  {
    if categoriesData == [] then NothingFound
    else Cards(seq(|categoriesData|, i requires 0 <= i < |categoriesData| => CardOf(copy, categoriesData[i], categoryProducts)))
  }

  class CategoryBoard {
    const copy: PageCopy
    /** The module variables `categories` and `categoryProducts`. */
    var categories: seq<string>
    var categoryProducts: map<string, seq<string>>

    constructor (copy: PageCopy)
      ensures this.copy == copy && categories == [] && categoryProducts == map[]
    {
      this.copy := copy;
      categories, categoryProducts := [], map[];
    }

    /** `loadAllCategoryProducts`: each category's products, as `fetch`
        answers for its name, are stored under that name; the requests are
        independent, so their completion order does not matter. */
    method LoadAllCategoryProducts(fetch: string -> seq<string>)
      modifies this
      ensures categories == old(categories)
      ensures categoryProducts.Keys == old(categoryProducts).Keys + set n | n in categories
      ensures forall n :: n in categories ==> categoryProducts[n] == fetch(n)
      ensures forall n :: n in old(categoryProducts) && n !in categories ==>
        categoryProducts[n] == old(categoryProducts)[n]
    {
      var i := 0;
      while i < |categories|
        invariant 0 <= i <= |categories| && categories == old(categories)
        invariant categoryProducts.Keys == old(categoryProducts).Keys + set n | n in categories[..i]
        invariant forall n :: n in categories[..i] ==> categoryProducts[n] == fetch(n)
        invariant forall n :: n in old(categoryProducts) && n !in categories[..i] ==>
          categoryProducts[n] == old(categoryProducts)[n]
      {
        var name := categories[i];
        categoryProducts := categoryProducts[name := fetch(name)];
        assert categories[..i + 1] == categories[..i] + [name];
        i := i + 1;
      }
      assert categories[..i] == categories;
    }

    /** `loadCategories` once the list has arrived: the names are taken
        from the rows, every category's products are loaded and the grid is
        drawn, so each card counts exactly what was fetched for it. */
    method LoadCategories(categoriesData: seq<CategoryData>, fetch: string -> seq<string>) returns (grid: Grid)
      modifies this
      ensures |categories| == |categoriesData|
      ensures forall i :: 0 <= i < |categoriesData| ==> categories[i] == categoriesData[i].name
      ensures grid == DisplayCategories(copy, categoriesData, categoryProducts)
      ensures grid.Cards? ==> forall i :: 0 <= i < |grid.cards| ==>
        (grid.cards[i].count == |fetch(categoriesData[i].name)|
         && grid.cards[i].preview == Preview(fetch(categoriesData[i].name)))
    {
      categories := seq(|categoriesData|, i requires 0 <= i < |categoriesData| => categoriesData[i].name);
      LoadAllCategoryProducts(fetch);
      grid := DisplayCategories(copy, categoriesData, categoryProducts);
      forall i | 0 <= i < |categoriesData|
        ensures categoriesData[i].name in categories
      {
        assert categories[i] == categoriesData[i].name;
      }
    }
  }
}
