/** The product catalogue and its images
    (backend/src/controllers/productController.js), with the folder-name
    sanitiser that the upload storage shares. */
module Products {
  import opened Wrappers
  import Text
  import Seqs
  import Sorting

  // ---------------------------------------------------------------------
  // Folder names

  /** The characters `[a-zA-Z0-9а-яА-Я]` keeps. The Cyrillic ranges are
      U+0430..U+044F and U+0410..U+042F, so `ё` (U+0451) and `Ё` (U+0401)
      fall outside them. */
  predicate IsKept(c: char) {
    || ('a' <= c <= 'z') || ('A' <= c <= 'Z') || ('0' <= c <= '9')
    || ('\U{430}' <= c <= '\U{44F}') || ('\U{410}' <= c <= '\U{42F}')
  }

  /** The characters a sanitised name is made of. */
  predicate IsSafe(c: char) {
    ('a' <= c <= 'z') || ('0' <= c <= '9') || ('\U{430}' <= c <= '\U{44F}') || c == '_'
  }

  /** A character JavaScript stores as two UTF-16 code units: one outside
      the Basic Multilingual Plane. */
  predicate IsAstral(c: char) {
    c as int >= 0x1_0000
  }

  /** The length JavaScript gives a string: its number of UTF-16 code
      units. */
  function Utf16Length(s: string): (n: nat)
    ensures n >= |s|
    ensures (forall i :: 0 <= i < |s| ==> !IsAstral(s[i])) ==> n == |s|
  {
    if s == [] then 0 else (if IsAstral(s[0]) then 2 else 1) + Utf16Length(s[1..])
  }

  /** What the replacement makes of one character. The expression has no
      `u` flag, so the class is matched against each UTF-16 code unit and
      both halves of a surrogate pair are replaced. */
  function ReplaceChar(c: char): string {
    if IsKept(c) then [c] else if IsAstral(c) then "__" else "_"
  }

  /** `.replace(/[^a-zA-Z0-9а-яА-Я]/g, '_')`: one kept character or `_` per
      UTF-16 code unit of `s`. */
  function ReplaceDisallowed(s: string): (r: string)
    ensures |r| == Utf16Length(s)
    ensures forall i :: 0 <= i < |r| ==> IsKept(r[i]) || r[i] == '_'
    ensures (forall i :: 0 <= i < |s| ==> !IsAstral(s[i])) ==>
      forall i :: 0 <= i < |s| ==> r[i] == (if IsKept(s[i]) then s[i] else '_')
  {
    if s == [] then []
    else
      var rest := ReplaceDisallowed(s[1..]);
      var r := ReplaceChar(s[0]) + rest;
      assert (forall i :: 0 <= i < |s| ==> !IsAstral(s[i])) ==>
        forall i :: 0 <= i < |s| ==> r[i] == (if IsKept(s[i]) then s[i] else '_') by {
        if forall i :: 0 <= i < |s| ==> !IsAstral(s[i]) {
          forall i | 0 < i < |s| ensures r[i] == (if IsKept(s[i]) then s[i] else '_') {
            assert s[1..][i - 1] == s[i];
          }
        }
      }
      r
  }

  /** The length of the run of white space `s` starts with. */
  function SpaceRun(s: string): (n: nat)
    ensures n <= |s|
    ensures s != [] && Text.IsJsSpace(s[0]) ==> n > 0
  {
    if s != [] && Text.IsJsSpace(s[0]) then 1 + SpaceRun(s[1..]) else 0
  }

  /** `.replace(/\s+/g, '_')`: every maximal run of white space becomes
      one `_`. */
  function CollapseSpaces(s: string): (r: string)
    ensures |r| <= |s|
    decreases |s|
  {
    if s == [] then []
    else if Text.IsJsSpace(s[0]) then "_" + CollapseSpaces(s[SpaceRun(s)..])
    else [s[0]] + CollapseSpaces(s[1..])
  }

  /** `.toLowerCase()` on the characters that can reach it: the Latin and
      Cyrillic capitals move to their small letters, all else stays. */
  function LowerKept(c: char): (r: char)
    ensures IsKept(c) ==> IsSafe(r)
    ensures c == '_' ==> r == '_'
  {
    if 'A' <= c <= 'Z' then (c as int + 0x20) as char
    else if '\U{410}' <= c <= '\U{42F}' then (c as int + 0x20) as char
    else c
  }

  function Lower(s: string): (r: string)
    ensures |r| == |s|
    ensures forall i :: 0 <= i < |s| ==> r[i] == LowerKept(s[i])
  {
    seq(|s|, i requires 0 <= i < |s| => LowerKept(s[i]))
  }

  /** The folder name built from a product name, the same chain of
      replacements in `uploadImages` and in the upload storage. */
  function SafeName(productName: string): (r: string)
    ensures |r| == Utf16Length(productName)
    ensures forall i :: 0 <= i < |r| ==> IsSafe(r[i])
  {
    var step := ReplaceDisallowed(productName);
    CollapseWithoutSpaces(step);
    Lower(CollapseSpaces(step))
  }

  lemma {:induction false} CollapseWithoutSpaces(s: string)
    requires forall i :: 0 <= i < |s| ==> !Text.IsJsSpace(s[i])
    ensures CollapseSpaces(s) == s
  {
    if s != [] {
      CollapseWithoutSpaces(s[1..]);
    }
  }

  /** The white-space step has nothing left to do, so the name has one
      character per UTF-16 code unit of the product name; in a name without
      astral characters each character is kept (and lower-cased) or becomes
      `_`, one for one. */
  lemma SafeNameCharwise(productName: string)
    ensures SafeName(productName) == Lower(ReplaceDisallowed(productName))
    ensures |SafeName(productName)| == Utf16Length(productName)
    ensures (forall i :: 0 <= i < |productName| ==> !IsAstral(productName[i])) ==>
      forall i :: 0 <= i < |productName| ==>
        SafeName(productName)[i] == (if IsKept(productName[i]) then LowerKept(productName[i]) else '_')
  {
    var step := ReplaceDisallowed(productName);
    assert forall i :: 0 <= i < |step| ==> IsKept(step[i]) || step[i] == '_';
    CollapseWithoutSpaces(step);
  }

  /** A character outside the Basic Multilingual Plane turns into two `_`:
      "\U{1F3CD} Bike" names the folder `___bike`. */
  lemma SafeNameAstral(c: char, rest: string)
    requires IsAstral(c)
    ensures SafeName([c] + rest) == "__" + SafeName(rest)
  {
    SafeNameCharwise([c] + rest);
    SafeNameCharwise(rest);
    assert ([c] + rest)[1..] == rest;
    assert ReplaceDisallowed([c] + rest) == "__" + ReplaceDisallowed(rest);
  }

  /** The replacement works character by character, so it distributes over
      concatenation. */
  lemma {:induction false} ReplaceDisallowedAppend(a: string, b: string)
    ensures ReplaceDisallowed(a + b) == ReplaceDisallowed(a) + ReplaceDisallowed(b)
  {
    if a == [] {
      assert a + b == b;
    } else {
      var ab := a + b;
      assert ab[0] == a[0] && ab[1..] == a[1..] + b;
      ReplaceDisallowedAppend(a[1..], b);
      calc {
        ReplaceDisallowed(ab);
        ReplaceChar(a[0]) + ReplaceDisallowed(a[1..] + b);
        ReplaceChar(a[0]) + (ReplaceDisallowed(a[1..]) + ReplaceDisallowed(b));
        (ReplaceChar(a[0]) + ReplaceDisallowed(a[1..])) + ReplaceDisallowed(b);
        ReplaceDisallowed(a) + ReplaceDisallowed(b);
      }
    }
  }

  lemma LowerAppend(x: string, y: string)
    ensures Lower(x + y) == Lower(x) + Lower(y)
  {
    assert forall i :: 0 <= i < |x| ==> (x + y)[i] == x[i];
    assert forall i :: |x| <= i < |x + y| ==> (x + y)[i] == y[i - |x|];
  }

  /** The folder name of a concatenation is the concatenation of the folder
      names, so a character outside the Basic Multilingual Plane gives `__`
      wherever it stands. */
  lemma SafeNameAppend(a: string, b: string)
    ensures SafeName(a + b) == SafeName(a) + SafeName(b)
  {
    SafeNameIsLowerReplaced(a + b);
    SafeNameIsLowerReplaced(a);
    SafeNameIsLowerReplaced(b);
    ReplaceDisallowedAppend(a, b);
    LowerAppend(ReplaceDisallowed(a), ReplaceDisallowed(b));
  }

  lemma SafeNameIsLowerReplaced(productName: string)
    ensures SafeName(productName) == Lower(ReplaceDisallowed(productName))
  {
    SafeNameCharwise(productName);
  }

  /** A sanitised name holds only small Latin and Cyrillic letters, digits
      and `_`. */
  lemma SafeNameAlphabet(productName: string)
    ensures forall i :: 0 <= i < |SafeName(productName)| ==> IsSafe(SafeName(productName)[i])
  {
    SafeNameCharwise(productName);
  }

  /** Sanitising a sanitised name changes nothing. */
  lemma SafeNameIdempotent(productName: string)
    ensures SafeName(SafeName(productName)) == SafeName(productName)
  {
    var once := SafeName(productName);
    SafeNameAlphabet(productName);
    assert forall i :: 0 <= i < |once| ==> !IsAstral(once[i]);
    SafeNameCharwise(once);
    forall i | 0 <= i < |once|
      ensures SafeName(once)[i] == once[i]
    {
      assert IsSafe(once[i]);
    }
  }

  /** `ё` and `Ё` are outside the kept ranges. */
  lemma SafeNameYo()
    ensures SafeName("\U{451}\U{401}") == "__"
  {
    SafeNameCharwise("\U{451}\U{401}");
  }

  // ---------------------------------------------------------------------
  // Image paths

  const ImagesUrlPrefix: string := "/images/"
  const BikesUrl: string := "/images/bikes/"
  const DefaultImagesPath: string := "/app/frontend-images"

  /** The URL an uploaded product image is stored under. */
  function BikeImagePath(safeName: string, filename: string): (r: string)
    ensures Text.StartsWith(r, BikesUrl)
  {
    BikesUrl + safeName + "/" + filename
  }

  /** `.replace(/^\/images\//, '')`: the prefix goes only where it starts
      the path. */
  function StripImagesPrefix(path: string): (r: string)
    ensures Text.StartsWith(path, ImagesUrlPrefix) ==> ImagesUrlPrefix + r == path
    ensures !Text.StartsWith(path, ImagesUrlPrefix) ==> r == path
  {
    if Text.StartsWith(path, ImagesUrlPrefix) then path[|ImagesUrlPrefix|..] else path
  }

  lemma StripBikeImagePath(safeName: string, filename: string)
    ensures StripImagesPrefix(BikeImagePath(safeName, filename)) == "bikes/" + safeName + "/" + filename
  {
    var p := BikeImagePath(safeName, filename);
    assert p[..|ImagesUrlPrefix|] == ImagesUrlPrefix;
    assert p[|ImagesUrlPrefix|..] == "bikes/" + safeName + "/" + filename;
  }

  // ---------------------------------------------------------------------
  // Rows and reads

  datatype Fields = Fields(productName: string, price: int, description: string, category: string, interest: string)
  datatype Product = Product(id: nat, fields: Fields)
  datatype Image = Image(id: nat, productId: int, path: string, displayOrder: nat)

  function ProductId(p: Product): int {
    p.id
  }

  function ImageId(img: Image): int {
    img.id
  }

  predicate ProductIdsAscending(products: seq<Product>) {
    Seqs.StrictlyIncreasing(products, ProductId)
  }

  predicate ImageIdsAscending(images: seq<Image>) {
    Seqs.StrictlyIncreasing(images, ImageId)
  }

  predicate HasProduct(products: seq<Product>, id: int) {
    exists i :: 0 <= i < |products| && products[i].id == id
  }

  /** The row `WHERE id = $1` selects. */
  function ProductIndex(products: seq<Product>, id: int): (r: Option<nat>)
    ensures r.Some? ==> r.value < |products| && products[r.value].id == id
    ensures r.None? <==> !HasProduct(products, id)
  {
    Seqs.IndexWhere(products, (p: Product) => p.id == id)
  }

  function ImageIndex(images: seq<Image>, id: int): (r: Option<nat>)
    ensures r.Some? ==> r.value < |images| && images[r.value].id == id
    ensures r.None? <==> forall j :: 0 <= j < |images| ==> images[j].id != id
  {
    Seqs.IndexWhere(images, (img: Image) => img.id == id)
  }

  /** The image rows of one product, in table order. */
  function ImagesOf(images: seq<Image>, productId: int): (r: seq<Image>)
    ensures Seqs.IsSubsequence(r, images)
    ensures forall img :: img in r <==> img in images && img.productId == productId
    ensures forall img :: img in images ==>
      multiset(r)[img] == if img.productId == productId then multiset(images)[img] else 0
  {
    Seqs.Keep(images, (img: Image) => img.productId == productId)
  }

  /** The image rows that survive deleting a product, in table order. */
  function ImagesNotOf(images: seq<Image>, productId: int): (r: seq<Image>)
    ensures Seqs.IsSubsequence(r, images)
    ensures forall img :: img in r <==> img in images && img.productId != productId
  {
    Seqs.Keep(images, (img: Image) => img.productId != productId)
  }

  predicate DisplayLe(a: Image, b: Image) {
    a.displayOrder <= b.displayOrder
  }

  /** `ORDER BY display_order`. */
  function InDisplayOrder(images: seq<Image>): (r: seq<Image>)
    ensures Sorting.SortedBy(r, DisplayLe)
    ensures multiset(r) == multiset(images)
  {
    assert Sorting.IsTotal(DisplayLe);
    Sorting.SortBy(images, DisplayLe)
  }

  /** The image `ORDER BY display_order LIMIT 1` picks: one with the
      smallest display order (the first such row in table order). */
  function PrimaryImage(images: seq<Image>): (r: Option<Image>)
    ensures r.None? <==> images == []
    ensures r.Some? ==> r.value in images
    ensures r.Some? ==> forall j :: 0 <= j < |images| ==> r.value.displayOrder <= images[j].displayOrder
  {
    if images == [] then None
    else
      match PrimaryImage(images[1..])
      case None => Some(images[0])
      case Some(best) =>
        if images[0].displayOrder <= best.displayOrder then Some(images[0]) else Some(best)
  }

  /** A product as the catalogue answers it: the row, the path of its
      primary image (`image_url`) and all its images in display order. */
  datatype ProductView = ProductView(product: Product, imageUrl: Option<string>, images: seq<Image>)

  function View(images: seq<Image>, p: Product): (v: ProductView)
    ensures v.product == p
    ensures v.imageUrl.None? <==> ImagesOf(images, p.id) == []
    ensures v.imageUrl.Some? ==>
      (exists img :: img in images && img.productId == p.id && img.path == v.imageUrl.value
         && forall other :: other in images && other.productId == p.id ==> img.displayOrder <= other.displayOrder)
    ensures Sorting.SortedBy(v.images, DisplayLe) && multiset(v.images) == multiset(ImagesOf(images, p.id))
  {
    var mine := ImagesOf(images, p.id);
    var primary := PrimaryImage(mine);
    var url := if primary.Some? then Some(primary.value.path) else None;
    ProductView(p, url, InDisplayOrder(mine))
  }

  /** The `WHERE category = $1` filter; an empty category filters nothing. */
  predicate InCategory(category: string, p: Product) {
    category == "" || p.fields.category == category
  }

  /** The rows `getAllProducts` selects, in table order. */
  function Chosen(products: seq<Product>, category: string): (r: seq<Product>)
    ensures forall p :: p in r <==> p in products && InCategory(category, p)
    ensures ProductIdsAscending(products) ==> ProductIdsAscending(r)
  {
    var r := Seqs.Keep(products, (p: Product) => InCategory(category, p));
    assert ProductIdsAscending(products) ==> ProductIdsAscending(r) by {
      if ProductIdsAscending(products) {
        Seqs.SubsequenceIncreasing(r, products, ProductId);
      }
    }
    r
  }

  function Views(images: seq<Image>, chosen: seq<Product>): (r: seq<ProductView>)
    ensures |r| == |chosen|
    ensures forall i :: 0 <= i < |chosen| ==> r[i] == View(images, chosen[i])
  {
    seq(|chosen|, i requires 0 <= i < |chosen| => View(images, chosen[i]))
  }

  /** The views show exactly the chosen rows, in the same order. */
  lemma ViewsShowChosen(images: seq<Image>, chosen: seq<Product>)
    ensures var r := Views(images, chosen);
      && (forall p :: (exists i :: 0 <= i < |r| && r[i].product == p) <==> p in chosen)
      && (ProductIdsAscending(chosen) ==> forall i, j :: 0 <= i < j < |r| ==> r[i].product.id < r[j].product.id)
      && (forall i :: 0 <= i < |r| ==> r[i] == View(images, r[i].product))
  {
    var r := Views(images, chosen);
    assert forall i :: 0 <= i < |r| ==> r[i].product == chosen[i];
    forall p | p in chosen
      ensures exists i :: 0 <= i < |r| && r[i].product == p
    {
      var i :| 0 <= i < |chosen| && chosen[i] == p;
      assert r[i].product == p;
    }
    if ProductIdsAscending(chosen) {
      assert forall i, j :: 0 <= i < j < |chosen| ==> ProductId(chosen[i]) < ProductId(chosen[j]);
    }
  }

  /** `getAllProducts`: with a (non-empty) category exactly the products of
      that category, otherwise all of them; in id order. */
  function ListProducts(products: seq<Product>, images: seq<Image>, category: string): (r: seq<ProductView>)
    ensures forall p :: (exists i :: 0 <= i < |r| && r[i].product == p) <==>
      p in products && InCategory(category, p)
    ensures ProductIdsAscending(products) ==>
      forall i, j :: 0 <= i < j < |r| ==> r[i].product.id < r[j].product.id
    ensures forall i :: 0 <= i < |r| ==> r[i] == View(images, r[i].product)
  {
    var chosen := Chosen(products, category);
    ViewsShowChosen(images, chosen);
    Views(images, chosen)
  }

  /** `getProductById`: `None` is the 404 answer. */
  function GetProductById(products: seq<Product>, images: seq<Image>, id: int): (r: Option<ProductView>)
    ensures r.None? <==> !HasProduct(products, id)
    ensures r.Some? ==> r.value.product in products && r.value.product.id == id
    ensures r.Some? ==> r.value == View(images, r.value.product)
  {
    match ProductIndex(products, id)
    case None => None
    case Some(k) => Some(View(images, products[k]))
  }

  /** `getProductImages`: the product's images in display order. */
  function GetProductImages(images: seq<Image>, productId: int): (r: seq<Image>)
    ensures Sorting.SortedBy(r, DisplayLe)
    ensures multiset(r) == multiset(ImagesOf(images, productId))
    ensures forall img :: img in r <==> img in images && img.productId == productId
  {
    var r := InDisplayOrder(ImagesOf(images, productId));
    assert forall img :: img in r <==> img in multiset(r);
    r
  }

  /** Deleting one product row keeps the ids in order and removes that id. */
  lemma RemoveProductRow(products: seq<Product>, k: nat)
    requires k < |products| && ProductIdsAscending(products)
    ensures var rest := products[..k] + products[k + 1..];
      && ProductIdsAscending(rest)
      && !HasProduct(rest, products[k].id)
      && (forall i :: 0 <= i < |rest| ==> rest[i] == (if i < k then products[i] else products[i + 1]))
  {
    Seqs.RemoveAt(products, k, ProductId);
  }

  /** After the cascade every remaining image still belongs to a remaining
      product. */
  lemma CascadeKeepsImagesAttached(products: seq<Product>, images: seq<Image>, k: nat)
    requires k < |products|
    requires forall i :: 0 <= i < |images| ==> HasProduct(products, images[i].productId)
    ensures var rest := products[..k] + products[k + 1..];
      forall img :: img in ImagesNotOf(images, products[k].id) ==> HasProduct(rest, img.productId)
  {
    var kept := ImagesNotOf(images, products[k].id);
    forall img | img in kept ensures HasProduct(products[..k] + products[k + 1..], img.productId) {
      assert img in images && img.productId != products[k].id;
      var m :| 0 <= m < |images| && images[m] == img;
      OtherProductSurvives(products, k, images[m].productId);
    }
  }

  /** A product other than the removed one keeps its row. */
  lemma OtherProductSurvives(products: seq<Product>, k: nat, id: int)
    requires k < |products| && HasProduct(products, id) && id != products[k].id
    ensures HasProduct(products[..k] + products[k + 1..], id)
  {
    var rest := products[..k] + products[k + 1..];
    var j :| 0 <= j < |products| && products[j].id == id;
    if j < k {
      assert rest[j] == products[j];
    } else {
      assert rest[j - 1] == products[j];
    }
  }

  /** Ids grow with insertion and every image belongs to a product. */
  ghost predicate CatalogValid(products: seq<Product>, images: seq<Image>, nextProductId: nat, nextImageId: nat) {
    && ProductIdsAscending(products)
    && (forall i :: 0 <= i < |products| ==> products[i].id < nextProductId)
    && ImageIdsAscending(images)
    && (forall i :: 0 <= i < |images| ==> images[i].id < nextImageId)
    && (forall i :: 0 <= i < |images| ==> HasProduct(products, images[i].productId))
  }

  /** A product that does not exist has no images to delete. */
  lemma NoProductNoImages(products: seq<Product>, images: seq<Image>, id: int)
    requires forall i :: 0 <= i < |images| ==> HasProduct(products, images[i].productId)
    requires !HasProduct(products, id)
    ensures ImagesOf(images, id) == []
  {
  }

  /** Deleting a product with its images keeps the catalogue valid. */
  lemma DeleteKeepsValid(products: seq<Product>, images: seq<Image>, nextProductId: nat, nextImageId: nat, k: nat)
    requires k < |products| && CatalogValid(products, images, nextProductId, nextImageId)
    ensures CatalogValid(products[..k] + products[k + 1..], ImagesNotOf(images, products[k].id), nextProductId, nextImageId)
    ensures !HasProduct(products[..k] + products[k + 1..], products[k].id)
  {
    var rest := products[..k] + products[k + 1..];
    var kept := ImagesNotOf(images, products[k].id);
    RemoveProductRow(products, k);
    assert forall i :: 0 <= i < |rest| ==> rest[i].id < nextProductId;
    CascadeKeepsImagesAttached(products, images, k);
    assert forall i :: 0 <= i < |kept| ==> HasProduct(rest, kept[i].productId);
    KeptImagesValid(images, products[k].id, nextImageId);
  }

  /** The images a cascade keeps still have ascending ids below the
      sequence. */
  lemma KeptImagesValid(images: seq<Image>, id: int, nextImageId: nat)
    requires ImageIdsAscending(images)
    requires forall i :: 0 <= i < |images| ==> images[i].id < nextImageId
    ensures ImageIdsAscending(ImagesNotOf(images, id))
    ensures forall i :: 0 <= i < |ImagesNotOf(images, id)| ==> ImagesNotOf(images, id)[i].id < nextImageId
  {
    var kept := ImagesNotOf(images, id);
    Seqs.SubsequenceIncreasing(kept, images, ImageId);
    assert forall q :: 0 <= q < |kept| ==> kept[q] in images;
  }

  /** Deleting one image row keeps the catalogue valid and removes that id. */
  lemma DeleteImageKeepsValid(products: seq<Product>, images: seq<Image>, nextProductId: nat, nextImageId: nat, k: nat)
    requires k < |images| && CatalogValid(products, images, nextProductId, nextImageId)
    ensures var rest := images[..k] + images[k + 1..];
      && CatalogValid(products, rest, nextProductId, nextImageId)
      && forall j :: 0 <= j < |rest| ==> rest[j].id != images[k].id
  {
    var rest := images[..k] + images[k + 1..];
    Seqs.RemoveAt(images, k, ImageId);
    assert forall i :: 0 <= i < |rest| ==> rest[i] in images;
  }

  // ---------------------------------------------------------------------
  // The tables

  datatype Reply =
    | Saved(product: Product)
    | Uploaded(images: seq<Image>)
    | Deleted
    | NoFiles
    | NotFound

  class Catalog {
    /** `IMAGES_PATH`, the folder the image URLs are mapped to on disk. */
    const imagesPath: string
    var products: seq<Product>
    var images: seq<Image>
    var nextProductId: nat
    var nextImageId: nat

    /** Ids grow with insertion and every image belongs to a product. */
    ghost predicate Valid()
      reads this
    {
      CatalogValid(products, images, nextProductId, nextImageId)
    }

    constructor (envImagesPath: Option<string>)
      ensures Valid() && products == [] && images == []
      ensures imagesPath == Text.EnvOr(envImagesPath, DefaultImagesPath)
    {
      imagesPath := Text.EnvOr(envImagesPath, DefaultImagesPath);
      products, images := [], [];
      nextProductId, nextImageId := 1, 1;
    }

    /** `createProduct`: the fields are stored as given. */
    method CreateProduct(fields: Fields) returns (r: Reply)
      requires Valid()
      modifies this
      ensures Valid()
      ensures r == Saved(Product(old(nextProductId), fields))
      ensures products == old(products) + [r.product] && nextProductId == old(nextProductId) + 1
      ensures images == old(images) && nextImageId == old(nextImageId)
    {
      var p := Product(nextProductId, fields);
      var grown := products + [p];
      assert forall i :: 0 <= i < |images| ==> HasProduct(grown, images[i].productId) by {
        forall i | 0 <= i < |images| ensures HasProduct(grown, images[i].productId) {
          assert HasProduct(products, images[i].productId);
          var j :| 0 <= j < |products| && products[j].id == images[i].productId;
          assert grown[j] == products[j];
        }
      }
      products, nextProductId := grown, nextProductId + 1;
      r := Saved(p);
    }

    /** `updateProduct`: an unknown id gets 404; otherwise only that row's
        fields change. */
    method UpdateProduct(id: int, fields: Fields) returns (r: Reply)
      requires Valid()
      modifies this
      ensures Valid()
      ensures images == old(images) && nextProductId == old(nextProductId) && nextImageId == old(nextImageId)
      ensures !HasProduct(old(products), id) ==> r == NotFound && products == old(products)
      ensures HasProduct(old(products), id) ==>
        var k := ProductIndex(old(products), id).value;
        && products == old(products)[k := Product(old(products)[k].id, fields)]
        && r == Saved(products[k])
    {
      var k := ProductIndex(products, id);
      if k.None? {
        return NotFound;
      }
      var updated := products[k.value := Product(products[k.value].id, fields)];
      assert forall i :: 0 <= i < |images| ==> HasProduct(updated, images[i].productId) by {
        forall i | 0 <= i < |images| ensures HasProduct(updated, images[i].productId) {
          var j :| 0 <= j < |products| && products[j].id == images[i].productId;
          assert updated[j].id == products[j].id;
        }
      }
      products := updated;
      r := Saved(products[k.value]);
    }

    /** `uploadImages`: with no files 400, with an unknown product 404;
        otherwise the i-th file becomes an image row with display order i
        under the product's sanitised folder. */
    method UploadImages(id: int, filenames: seq<string>) returns (r: Reply)
      requires Valid()
      modifies this
      ensures Valid()
      ensures products == old(products) && nextProductId == old(nextProductId)
      ensures filenames == [] ==> r == NoFiles && images == old(images) && nextImageId == old(nextImageId)
      ensures filenames != [] && !HasProduct(products, id) ==>
        r == NotFound && images == old(images) && nextImageId == old(nextImageId)
      ensures filenames != [] && HasProduct(products, id) ==>
        var safe := SafeName(products[ProductIndex(products, id).value].fields.productName);
        && r.Uploaded?
        && |r.images| == |filenames|
        && images == old(images) + r.images
        && nextImageId == old(nextImageId) + |filenames|
        && forall i :: 0 <= i < |filenames| ==>
             r.images[i] == Image(old(nextImageId) + i, id, BikeImagePath(safe, filenames[i]), i)
    {
      if |filenames| == 0 {
        return NoFiles;
      }
      var k := ProductIndex(products, id);
      if k.None? {
        return NotFound;
      }
      var safe := SafeName(products[k.value].fields.productName);
      var added: seq<Image> := [];
      var i := 0;
      while i < |filenames|
        invariant 0 <= i <= |filenames|
        invariant Valid() && products == old(products) && nextProductId == old(nextProductId)
        invariant |added| == i
        invariant images == old(images) + added
        invariant nextImageId == old(nextImageId) + i
        invariant forall j :: 0 <= j < i ==>
          added[j] == Image(old(nextImageId) + j, id, BikeImagePath(safe, filenames[j]), j)
      {
        var img := Image(nextImageId, id, BikeImagePath(safe, filenames[i]), i);
        images := images + [img];
        added := added + [img];
        nextImageId := nextImageId + 1;
        i := i + 1;
      }
      r := Uploaded(added);
    }

    /** The loop of `deleteProduct` over the product's image rows: each
        file is attempted at its disk path, a failure only logged. */
    method UnlinkAll(rows: seq<Image>) returns (unlinked: seq<string>)
      ensures |unlinked| == |rows|
      ensures forall j :: 0 <= j < |rows| ==>
        unlinked[j] == Text.JoinPath(imagesPath, StripImagesPrefix(rows[j].path))
    {
      unlinked := [];
      var i := 0;
      while i < |rows|
        invariant 0 <= i <= |rows|
        invariant |unlinked| == i
        invariant forall j :: 0 <= j < i ==> unlinked[j] == Text.JoinPath(imagesPath, StripImagesPrefix(rows[j].path))
      {
        unlinked := unlinked + [Text.JoinPath(imagesPath, StripImagesPrefix(rows[i].path))];
        i := i + 1;
      }
    }

    /** `deleteProduct`: every image file of the product is attempted (the
        disk paths come back in `unlinked`, failures are ignored), then the
        row goes together with its image rows; an unknown id gets 404. */
    method DeleteProduct(id: int) returns (r: Reply, unlinked: seq<string>)
      requires Valid()
      modifies this
      ensures Valid()
      ensures nextProductId == old(nextProductId) && nextImageId == old(nextImageId)
      ensures |unlinked| == |ImagesOf(old(images), id)|
      ensures forall j :: 0 <= j < |unlinked| ==>
        unlinked[j] == Text.JoinPath(imagesPath, StripImagesPrefix(ImagesOf(old(images), id)[j].path))
      ensures !HasProduct(old(products), id) ==>
        r == NotFound && products == old(products) && images == old(images) && unlinked == []
      ensures HasProduct(old(products), id) ==>
        var k := ProductIndex(old(products), id).value;
        && r == Deleted
        && products == old(products)[..k] + old(products)[k + 1..]
        && !HasProduct(products, id)
        && images == ImagesNotOf(old(images), id)
    {
      unlinked := UnlinkAll(ImagesOf(images, id));
      var k := ProductIndex(products, id);
      if k.None? {
        NoProductNoImages(products, images, id);
        return NotFound, unlinked;
      }
      RemoveProductAt(k.value);
      r := Deleted;
    }

    /** The row at `k` goes together with its image rows. */
    method RemoveProductAt(k: nat)
      requires Valid() && k < |products|
      modifies this
      ensures Valid()
      ensures nextProductId == old(nextProductId) && nextImageId == old(nextImageId)
      ensures products == old(products)[..k] + old(products)[k + 1..]
      ensures !HasProduct(products, old(products)[k].id)
      ensures images == ImagesNotOf(old(images), old(products)[k].id)
    {
      DeleteKeepsValid(products, images, nextProductId, nextImageId, k);
      products, images := products[..k] + products[k + 1..], ImagesNotOf(images, products[k].id);
    }

    /** `deleteProductImage`: an unknown image id gets 404; otherwise the
        file is attempted at `unlinked` and exactly that row goes. */
    method DeleteProductImage(imageId: int) returns (r: Reply, unlinked: Option<string>)
      requires Valid()
      modifies this
      ensures Valid()
      ensures products == old(products) && nextProductId == old(nextProductId) && nextImageId == old(nextImageId)
      ensures ImageIndex(old(images), imageId).None? ==>
        r == NotFound && images == old(images) && unlinked.None?
      ensures ImageIndex(old(images), imageId).Some? ==>
        var k := ImageIndex(old(images), imageId).value;
        && r == Deleted
        && images == old(images)[..k] + old(images)[k + 1..]
        && unlinked == Some(Text.JoinPath(imagesPath, StripImagesPrefix(old(images)[k].path)))
        && forall j :: 0 <= j < |images| ==> images[j].id != imageId
    {
      var k := ImageIndex(images, imageId);
      if k.None? {
        return NotFound, None;
      }
      unlinked := Some(Text.JoinPath(imagesPath, StripImagesPrefix(images[k.value].path)));
      RemoveImageAt(k.value);
      r := Deleted;
    }

    /** The image row at `k` goes and no other row changes. */
    method RemoveImageAt(k: nat)
      requires Valid() && k < |images|
      modifies this
      ensures Valid()
      ensures products == old(products) && nextProductId == old(nextProductId) && nextImageId == old(nextImageId)
      ensures images == old(images)[..k] + old(images)[k + 1..]
      ensures forall j :: 0 <= j < |images| ==> images[j].id != old(images)[k].id
    {
      DeleteImageKeepsValid(products, images, nextProductId, nextImageId, k);
      images := images[..k] + images[k + 1..];
    }
  }
}
