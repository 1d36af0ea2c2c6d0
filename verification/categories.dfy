/** The category table the administrators manage
    (backend/src/controllers/categoryController.js). Products refer to a
    category by its name, so deleting a category is refused while a product
    still carries that name. */
module Categories {
  import opened Wrappers
  import Text
  import Seqs
  import Sorting

  datatype Category = Category(id: nat, name: string, imagePath: Option<string>)

  const CategoryImagesUrl: string := "/images/categories/"

  /** The `image_path` stored for an uploaded file, or null without one. */
  function UploadedImagePath(upload: Option<string>): (r: Option<string>)
    ensures r.None? <==> upload.None?
    ensures upload.Some? ==> r.value == CategoryImagesUrl + upload.value
  {
    match upload
    case None => None
    case Some(filename) => Some(CategoryImagesUrl + filename)
  }

  predicate IdsAscending(rows: seq<Category>) {
    forall i, j :: 0 <= i < j < |rows| ==> rows[i].id < rows[j].id
  }

  predicate HasId(rows: seq<Category>, id: int) {
    exists i :: 0 <= i < |rows| && rows[i].id == id
  }

  predicate NameTaken(rows: seq<Category>, name: string) {
    exists i :: 0 <= i < |rows| && rows[i].name == name
  }

  predicate NamesUnique(rows: seq<Category>) {
    forall i, j :: 0 <= i < j < |rows| ==> rows[i].name != rows[j].name
  }

  /** The row `WHERE id = $1` selects. */
  function IdIndex(rows: seq<Category>, id: int): (r: Option<nat>)
    ensures r.Some? ==> r.value < |rows| && rows[r.value].id == id
    ensures r.None? <==> !HasId(rows, id)
  {
    Seqs.IndexWhere(rows, (c: Category) => c.id == id)
  }

  /** `SELECT COUNT(*) FROM products WHERE category = $1`. */
  function CountNamed(productCategories: seq<string>, name: string): (r: nat)
    ensures r <= |productCategories|
    ensures r == 0 <==> name !in productCategories
    ensures r == multiset(productCategories)[name]
  {
    if productCategories == [] then 0
    else
      assert productCategories == [productCategories[0]] + productCategories[1..];
      (if productCategories[0] == name then 1 else 0) + CountNamed(productCategories[1..], name)
  }

  /** Code-point lexicographic order, the collation `ORDER BY name` is
      modelled with. */
  predicate LexLe(a: string, b: string) {
    a == [] || (b != [] && (a[0] < b[0] || (a[0] == b[0] && LexLe(a[1..], b[1..]))))
  }

  lemma {:induction false} LexLeTotal(a: string, b: string)
    ensures LexLe(a, b) || LexLe(b, a)
  {
    if a != [] && b != [] && a[0] == b[0] {
      LexLeTotal(a[1..], b[1..]);
    }
  }

  lemma LexLeIsTotal()
    ensures Sorting.IsTotal(LexLe)
  {
    forall a, b ensures LexLe(a, b) || LexLe(b, a) {
      LexLeTotal(a, b);
    }
  }

  predicate NameLe(a: Category, b: Category) {
    LexLe(a.name, b.name)
  }

  function Names(rows: seq<Category>): (r: seq<string>)
    ensures |r| == |rows|
    ensures forall i :: 0 <= i < |rows| ==> r[i] == rows[i].name
  {
    seq(|rows|, i requires 0 <= i < |rows| => rows[i].name)
  }

  /** `getCategoryNames`: one name per category, in name order. */
  function GetCategoryNames(rows: seq<Category>): (r: seq<string>)
    ensures Sorting.SortedBy(r, LexLe)
    ensures multiset(r) == multiset(Names(rows))
    ensures |r| == |rows|
  {
    LexLeIsTotal();
    var r := Sorting.SortBy(Names(rows), LexLe);
    assert |r| == |multiset(r)| == |multiset(Names(rows))| == |rows|;
    r
  }

  /** `getAllCategories`: every row, in name order. */
  function GetAllCategories(rows: seq<Category>): (r: seq<Category>)
    ensures Sorting.SortedBy(r, NameLe)
    ensures multiset(r) == multiset(rows)
  {
    assert Sorting.IsTotal(NameLe) by {
      forall a, b ensures NameLe(a, b) || NameLe(b, a) {
        LexLeTotal(a.name, b.name);
      }
    }
    Sorting.SortBy(rows, NameLe)
  }

  /** `getCategoryById`: `None` is the 404 answer. */
  function GetCategoryById(rows: seq<Category>, id: int): (r: Option<Category>)
    ensures r.None? <==> !HasId(rows, id)
    ensures r.Some? ==> r.value in rows && r.value.id == id
  {
    match IdIndex(rows, id)
    case None => None
    case Some(k) => Some(rows[k])
  }

  /** The folder `updateCategory` unlinks a replaced picture under. */
  const FrontendImagesRoot: string := "/app/frontend-images"

  /** The file a handler unlinks for a stored `image_path`: nothing for a
      null or empty path, otherwise the path joined to `root`. */
  function ImageFile(root: string, imagePath: Option<string>): (r: Option<string>)
    ensures r.None? <==> imagePath.None? || imagePath.value == ""
    ensures r.Some? ==> r.value == Text.JoinPath(root, imagePath.value)
  {
    if imagePath.Some? && imagePath.value != "" then Some(Text.JoinPath(root, imagePath.value)) else None
  }

  /** An uploaded picture is found again on disk: its stored path, joined
      to a root, lies in that root's `images/categories` folder. */
  lemma UploadedImageFile(root: string, filename: string)
    ensures ImageFile(root, UploadedImagePath(Some(filename)))
      == Some(Text.TrimTrailingSlash(root) + CategoryImagesUrl + filename)
  {
    var stored := CategoryImagesUrl + filename;
    assert stored[0] == '/';
    Text.JoinPathRooted(root, stored);
    assert UploadedImagePath(Some(filename)) == Some(stored);
    assert ImageFile(root, Some(stored)) == Some(Text.JoinPath(root, stored));
    assert Text.TrimTrailingSlash(root) + stored == Text.TrimTrailingSlash(root) + CategoryImagesUrl + filename;
  }

  datatype Reply =
    | Saved(category: Category)
    | Deleted
    | NameRequired
    | DuplicateName
    | NotFound
    | InUse(count: nat)

  class CategoryTable {
    var rows: seq<Category>
    /** The next value of the `categories.id` sequence. */
    var nextId: nat
    /** The folder `__dirname/../../../frontend/public` names, under which
        `deleteCategory` unlinks a picture; it depends on where the server
        is installed. */
    const publicRoot: string

    ghost predicate Valid()
      reads this
    {
      IdsAscending(rows) && forall i :: 0 <= i < |rows| ==> rows[i].id < nextId
    }

    constructor (publicRoot: string)
      ensures Valid() && rows == [] && this.publicRoot == publicRoot
    {
      rows, nextId := [], 1;
      this.publicRoot := publicRoot;
    }

    /** `createCategory`: a name is required and must not be taken yet, so
        creation alone never makes two categories share a name. */
    method Create(name: string, upload: Option<string>) returns (r: Reply)
      requires Valid()
      modifies this
      ensures Valid()
      ensures name == "" ==> r == NameRequired && rows == old(rows) && nextId == old(nextId)
      ensures name != "" && NameTaken(old(rows), name) ==>
        r == DuplicateName && rows == old(rows) && nextId == old(nextId)
      ensures name != "" && !NameTaken(old(rows), name) ==>
        var c := Category(old(nextId), name, UploadedImagePath(upload));
        r == Saved(c) && rows == old(rows) + [c] && nextId == old(nextId) + 1
      ensures NamesUnique(old(rows)) ==> NamesUnique(rows)
    {
      if name == "" {
        return NameRequired;
      }
      if exists i :: 0 <= i < |rows| && rows[i].name == name {
        return DuplicateName;
      }
      var c := Category(nextId, name, UploadedImagePath(upload));
      rows, nextId := rows + [c], nextId + 1;
      r := Saved(c);
    }

    /** `updateCategory`: renames the row and, when a file came with the
        request, replaces its image; `unlinked` is the file of the previous
        image, under `/app/frontend-images`, that the handler then tries to
        delete. The name is not checked against the other rows. */
    method Update(id: int, name: string, upload: Option<string>) returns (r: Reply, unlinked: Option<string>)
      requires Valid()
      modifies this
      ensures Valid() && nextId == old(nextId)
      ensures name == "" ==> r == NameRequired && rows == old(rows) && unlinked.None?
      ensures name != "" && !HasId(old(rows), id) ==> r == NotFound && rows == old(rows) && unlinked.None?
      ensures name != "" && HasId(old(rows), id) ==>
        var k := IdIndex(old(rows), id).value;
        var before := old(rows)[k];
        var path := if upload.Some? then UploadedImagePath(upload) else before.imagePath;
        && rows == old(rows)[k := Category(before.id, name, path)]
        && r == Saved(rows[k])
        && unlinked == (if upload.Some? then ImageFile(FrontendImagesRoot, before.imagePath) else None)
    {
      unlinked := None;
      if name == "" {
        return NameRequired, unlinked;
      }
      var k := IdIndex(rows, id);
      if k.None? {
        return NotFound, unlinked;
      }
      var before := rows[k.value];
      var path := before.imagePath;
      if upload.Some? {
        unlinked := ImageFile(FrontendImagesRoot, before.imagePath);
        path := UploadedImagePath(upload);
      }
      rows := rows[k.value := Category(before.id, name, path)];
      r := Saved(rows[k.value]);
    }

    /** `deleteCategory`: refused with the number of products still in the
        category; otherwise exactly that row goes. `unlinked` is the file of
        its image, under `publicRoot`, that the handler then tries to
        delete. */
    method Delete(id: int, productCategories: seq<string>) returns (r: Reply, unlinked: Option<string>)
      requires Valid()
      modifies this
      ensures Valid() && nextId == old(nextId)
      ensures !HasId(old(rows), id) ==> r == NotFound && rows == old(rows) && unlinked.None?
      ensures HasId(old(rows), id) ==>
        var k := IdIndex(old(rows), id).value;
        var n := CountNamed(productCategories, old(rows)[k].name);
        if n > 0 then
          r == InUse(n) && rows == old(rows) && unlinked.None?
        else
          && r == Deleted
          && rows == old(rows)[..k] + old(rows)[k + 1..]
          && !HasId(rows, id)
          && unlinked == ImageFile(publicRoot, old(rows)[k].imagePath)
    {
      unlinked := None;
      var k := IdIndex(rows, id);
      if k.None? {
        return NotFound, unlinked;
      }
      var victim := rows[k.value];
      var n := CountNamed(productCategories, victim.name);
      if n > 0 {
        return InUse(n), unlinked;
      }
      unlinked := ImageFile(publicRoot, victim.imagePath);
      RemoveRow(rows, k.value, nextId);
      rows := rows[..k.value] + rows[k.value + 1..];
      r := Deleted;
    }
  }

  /** Removing one row keeps the ids ascending and below the sequence,
      and the removed id is then gone. */
  lemma RemoveRow(rows: seq<Category>, k: nat, nextId: nat)
    requires k < |rows| && IdsAscending(rows)
    requires forall i :: 0 <= i < |rows| ==> rows[i].id < nextId
    ensures var rest := rows[..k] + rows[k + 1..];
      && IdsAscending(rest)
      && (forall i :: 0 <= i < |rest| ==> rest[i].id < nextId)
      && !HasId(rest, rows[k].id)
  {
    var rest := rows[..k] + rows[k + 1..];
    assert forall i :: 0 <= i < |rest| ==> rest[i] == (if i < k then rows[i] else rows[i + 1]);
  }
}
