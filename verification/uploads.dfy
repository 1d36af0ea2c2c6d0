/** The upload middleware: where uploaded files go, what they are called,
    which files are let through and the size limits
    (backend/src/middleware/uploads.js). */
module Uploads {
  import opened Wrappers
  import Text
  import Products

  const DefaultCategoriesPath: string := "/app/frontend-images/categories"
  const DefaultBikesPath: string := "/app/frontend-images/bikes"
  const DefaultMaxFileSize: int := 5 * 1024 * 1024
  const DefaultMaxImagesCount: int := 10

  /** `IMAGES_CATEGORIES_PATH`, where every category image goes. */
  function CategoriesPath(env: Option<string>): string {
    Text.EnvOr(env, DefaultCategoriesPath)
  }

  /** `IMAGES_BIKES_PATH`, the parent of the per-product folders. */
  function BikesPath(env: Option<string>): string {
    Text.EnvOr(env, DefaultBikesPath)
  }

  /** `parseInt(process.env.X) || fallback`: an unset variable, one that
      does not parse and one that parses to 0 all give the fallback. */
  function ParseLimit(env: Option<string>, fallback: int): (r: int)
    ensures env.None? ==> r == fallback
    ensures env.Some? && Text.ParseInt(env.value).Some? && Text.ParseInt(env.value).value != 0 ==>
      r == Text.ParseInt(env.value).value
    ensures env.Some? && (Text.ParseInt(env.value).None? || Text.ParseInt(env.value).value == 0) ==>
      r == fallback
  {
    if env.None? then fallback
    else
      var n := Text.ParseInt(env.value);
      if n.Some? && n.value != 0 then n.value else fallback
  }

  function MaxFileSize(env: Option<string>): int {
    ParseLimit(env, DefaultMaxFileSize)
  }

  function MaxImagesCount(env: Option<string>): int {
    ParseLimit(env, DefaultMaxImagesCount)
  }

  /** A positive number written in decimal replaces the default. */
  lemma ParseLimitOfNumber(n: nat, fallback: int)
    requires n > 0
    ensures ParseLimit(Some(Text.NatToString(n)), fallback) == n
  {
    Text.ParseIntOfNatToString(n);
  }

  lemma LimitDefaults()
    ensures MaxFileSize(None) == 5242880 && MaxImagesCount(None) == 10
    ensures MaxFileSize(Some("0")) == 5242880
  {
    assert Text.TrimStart("0") == "0";
    assert Text.DigitRun("0", 10) == 1;
    assert "0"[..1] == "0";
    assert Text.DigitsValue("0", 10) == Text.DigitsValue("", 10) * 10 + 0;
  }

  /** The last position of `c` in `s`. */
  function LastIndexOf(s: string, c: char): (r: Option<nat>)
    ensures r.Some? ==> r.value < |s| && s[r.value] == c && forall j :: r.value < j < |s| ==> s[j] != c
    ensures r.None? ==> forall j :: 0 <= j < |s| ==> s[j] != c
  {
    if s == [] then None
    else if s[|s| - 1] == c then Some(|s| - 1)
    else LastIndexOf(s[..|s| - 1], c)
  }

  /** `path.extname` of a file name without `/`: from the last dot on, but
      nothing when there is no dot, when the only dot-led part is the
      whole name (`.bashrc`) or when the name is `..`. */
  function ExtName(name: string): (r: string)
    ensures r == "" || (r[0] == '.' && Text.EndsWith(name, r) && |r| < |name|)
    ensures r != "" ==> forall j :: 1 <= j < |r| ==> r[j] != '.'
  {
    match LastIndexOf(name, '.')
    case None => ""
    case Some(d) =>
      if d == 0 || name == ".." then ""
      else
        assert name[|name| - |name[d..]|..] == name[d..];
        name[d..]
  }

  lemma ExtNameOf(base: string, ext: string)
    requires base != "" && base[|base| - 1] != '.'
    requires forall j :: 0 <= j < |ext| ==> ext[j] != '.'
    ensures ExtName(base + "." + ext) == "." + ext
  {
    var name := base + "." + ext;
    assert name[|base|] == '.';
    assert forall j :: |base| < j < |name| ==> name[j] == ext[j - |base| - 1];
    assert LastIndexOf(name, '.') == Some(|base|) by {
      LastIndexOfAt(name, '.', |base|);
    }
    assert name[|base|..] == "." + ext;
    assert name != ".." by {
      if |name| == 2 {
        assert name[0] == base[0] && base == [base[0]];
      }
    }
  }

  lemma {:induction false} LastIndexOfAt(s: string, c: char, k: nat)
    requires k < |s| && s[k] == c && forall j :: k < j < |s| ==> s[j] != c
    ensures LastIndexOf(s, c) == Some(k)
    decreases |s|
  {
    if k != |s| - 1 {
      LastIndexOfAt(s[..|s| - 1], c, k);
    }
  }

  const AllowedTypes: seq<string> := ["jpeg", "jpg", "png", "gif", "webp"]

  /** `/jpeg|jpg|png|gif|webp/.test(s)`: the expression is not anchored,
      so it asks whether one of the words occurs anywhere in `s`. */
  function MatchesAllowed(s: string): (b: bool)
    ensures b <==> exists k, i :: 0 <= k < |AllowedTypes| && 0 <= i && Text.OccursAt(s, AllowedTypes[k], i)
    ensures b ==> |s| >= 3
  {
    exists k :: 0 <= k < |AllowedTypes| && Text.Contains(s, AllowedTypes[k])
  }

  /** `fileFilter`: both the lower-cased extension of the original name
      and the declared MIME type must match. */
  function FileFilter(originalName: string, mimeType: string): (b: bool)
    ensures b <==>
      && (exists k, i :: 0 <= k < |AllowedTypes| && 0 <= i
            && Text.OccursAt(Text.ToLowerAscii(ExtName(originalName)), AllowedTypes[k], i))
      && (exists k, i :: 0 <= k < |AllowedTypes| && 0 <= i && Text.OccursAt(mimeType, AllowedTypes[k], i))
    ensures b ==> MatchesAllowed(mimeType) && |ExtName(originalName)| >= 3
  {
    MatchesAllowed(Text.ToLowerAscii(ExtName(originalName))) && MatchesAllowed(mimeType)
  }

  /** An allowed word found at any position is enough. */
  lemma MatchesAt(s: string, k: nat, i: nat)
    requires k < |AllowedTypes| && Text.OccursAt(s, AllowedTypes[k], i)
    ensures MatchesAllowed(s)
  {
  }

  /** `path.extname` keeps the extension's case. */
  lemma ExtensionOf(base: string, dotExt: string)
    requires base != "" && base[|base| - 1] != '.'
    requires dotExt != [] && dotExt[0] == '.'
    requires forall j :: 1 <= j < |dotExt| ==> dotExt[j] != '.'
    ensures ExtName(base + dotExt) == dotExt
  {
    ExtNameOf(base, dotExt[1..]);
    assert base + "." + dotExt[1..] == base + dotExt;
  }

  lemma LowerJpg()
    ensures Text.ToLowerAscii(".JPG") == ".jpg"
    ensures MatchesAllowed(".jpg") && MatchesAllowed("image/jpeg")
  {
    MatchesAt(".jpg", 1, 1);
    MatchesAt("image/jpeg", 0, 6);
  }

  /** An upper-case extension passes: it is lower-cased before the test. */
  lemma AcceptsUpperCaseJpg(base: string)
    requires base != "" && base[|base| - 1] != '.'
    ensures FileFilter(base + ".JPG", "image/jpeg")
  {
    ExtensionOf(base, ".JPG");
    LowerJpg();
  }

  lemma LowerPngtxt()
    ensures Text.ToLowerAscii(".pngtxt") == ".pngtxt"
    ensures MatchesAllowed(".pngtxt") && MatchesAllowed("text/x-gif")
  {
    MatchesAt(".pngtxt", 2, 1);
    MatchesAt("text/x-gif", 3, 7);
  }

  /** Being unanchored, the test lets an extension that merely contains an
      image word through, with any MIME type that does. */
  lemma AcceptsByContainment(base: string)
    requires base != "" && base[|base| - 1] != '.'
    ensures FileFilter(base + ".pngtxt", "text/x-gif")
  {
    ExtensionOf(base, ".pngtxt");
    LowerPngtxt();
  }

  /** A name without an extension is refused whatever its MIME type. */
  lemma RefusesWithoutExtension(name: string, mimeType: string)
    requires forall j :: 0 <= j < |name| ==> name[j] != '.'
    ensures !FileFilter(name, mimeType)
  {
    assert ExtName(name) == "";
    assert Text.ToLowerAscii("") == "";
    forall k | 0 <= k < |AllowedTypes| ensures !Text.Contains("", AllowedTypes[k]) {
    }
  }

  /** The name a category image is stored under: `<ms>-<random><ext>`,
      keeping the original extension. */
  function CategoryFileName(now: nat, random: nat, originalName: string): (r: string)
    ensures Text.EndsWith(r, ExtName(originalName))
  {
    var head := Text.NatToString(now) + "-" + Text.NatToString(random);
    assert (head + ExtName(originalName))[|head|..] == ExtName(originalName);
    head + ExtName(originalName)
  }

  /** The name a product image is stored under: `image_<ms>_<random>.png`
      whatever the original format. */
  function ProductFileName(now: nat, random: nat): (r: string)
    ensures Text.StartsWith(r, "image_") && Text.EndsWith(r, ".png")
  {
    var r := "image_" + Text.NatToString(now) + "_" + Text.NatToString(random) + ".png";
    assert r[..6] == "image_";
    assert r[|r| - 4..] == ".png";
    r
  }

  /** The storage's answer for a product upload: the folder, or the error
      handed to multer. */
  datatype Destination = Folder(path: string) | MissingProductId | ProductNotFound

  /** The product storage's `destination`: a missing id and an unknown
      product are errors; otherwise the bikes folder joined with the
      sanitised product name, as `uploadImages` computes it. */
  function ProductDestination(bikesPath: string, productId: Option<int>, products: seq<Products.Product>): (r: Destination)
    ensures productId.None? ==> r == MissingProductId
    ensures productId.Some? && !Products.HasProduct(products, productId.value) ==> r == ProductNotFound
    ensures productId.Some? && Products.HasProduct(products, productId.value) ==>
      var p := products[Products.ProductIndex(products, productId.value).value];
      r == Folder(bikesPath + "/" + Products.SafeName(p.fields.productName))
  {
    if productId.None? then MissingProductId
    else
      match Products.ProductIndex(products, productId.value)
      case None => ProductNotFound
      case Some(k) => Folder(bikesPath + "/" + Products.SafeName(products[k].fields.productName))
  }

  /** The folder the storage writes a product's files to and the folder
      its image URLs name are the same sanitised name. */
  lemma DestinationMatchesImagePath(bikesPath: string, productId: int, products: seq<Products.Product>, filename: string)
    requires Products.HasProduct(products, productId)
    ensures var p := products[Products.ProductIndex(products, productId).value];
      var safe := Products.SafeName(p.fields.productName);
      && ProductDestination(bikesPath, Some(productId), products) == Folder(bikesPath + "/" + safe)
      && Products.StripImagesPrefix(Products.BikeImagePath(safe, filename)) == "bikes/" + safe + "/" + filename
  {
    var p := products[Products.ProductIndex(products, productId).value];
    Products.StripBikeImagePath(Products.SafeName(p.fields.productName), filename);
  }
}
