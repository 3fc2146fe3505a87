/**
 Product rows and their images.  A request that writes runs in one transaction, so it is one step:
 it either commits all of its statements or leaves every table as it was.
 `trim` stands for the runtime's string trimming; nothing is assumed about it.
 */
module Products {
  import opened Common
  import Taxonomy

  datatype FileRow = FileRow(uploader: Option<nat>, purpose: string, status: string, objectKey: string,
                             ownerProduct: Option<nat>)

  datatype ProductRow = ProductRow(owner: nat, category: string, subcategory: Option<string>, deleted: bool)

  datatype ImageRow = ImageRow(productId: nat, fileId: nat, objectKey: string, sortOrder: nat)

  datatype Db = Db(products: map<nat, ProductRow>, images: seq<ImageRow>, files: map<nat, FileRow>,
                   nextProductId: nat, nextFileId: nat)

  datatype Error =
    | InvalidCategory | InvalidSubcategory | SubcategoryIsAll
    | NotFound | NotAllowed
    | FileMissing(id: nat) | FileWrongPurpose(id: nat) | FileNotOwned(id: nat) | FileNotUploaded(id: nat)

  datatype Outcome = Ok | Failed(error: Error)

  const EMPTY_DB: Db := Db(map[], [], map[], 1, 1)

  // ----- Category pairs -----

  function CheckCategoryPair(category: string, subcategory: Option<string>): Outcome {
    if !Taxonomy.IsValidCategory(category) then Failed(InvalidCategory)
    else if subcategory.None? then Ok
    else if !Taxonomy.IsValidSubcategory(category, subcategory.value) then Failed(InvalidSubcategory)
    else if !Taxonomy.IsAllowedProductSubcategory(category, subcategory.value) then Failed(SubcategoryIsAll)
    else Ok
  }

  predicate ValidPair(row: ProductRow) {
    && row.category in Taxonomy.CATEGORY_TO_SUBCATEGORIES
    && (row.subcategory.Some? ==>
          && row.subcategory.value in Taxonomy.CATEGORY_TO_SUBCATEGORIES[row.category]
          && row.subcategory.value != "all")
  }

  function Trimmed(trim: string -> string, s: Option<string>): Option<string> {
    if s.Some? then Some(trim(s.value)) else None
  }

  /** SQL COALESCE of a parameter and the stored column. */
  function Coalesce<T>(param: Option<T>, stored: T): T {
    param.GetOr(stored)
  }

  // ----- Images -----

  /** The images after DELETE ... WHERE product_id = p. */
  function Without(images: seq<ImageRow>, p: nat): seq<ImageRow> {
    if images == [] then []
    else (if images[0].productId == p then [] else [images[0]]) + Without(images[1..], p)
  }

  function ImagesOf(images: seq<ImageRow>, p: nat): seq<ImageRow> {
    if images == [] then []
    else (if images[0].productId == p then [images[0]] else []) + ImagesOf(images[1..], p)
  }

  function FileError(files: map<nat, FileRow>, actor: nat, id: nat): Option<Error> {
    if id !in files then Some(FileMissing(id))
    else if files[id].purpose != "product_image" then Some(FileWrongPurpose(id))
    else if files[id].uploader != Some(actor) then Some(FileNotOwned(id))
    else if files[id].status != "uploaded" then Some(FileNotUploaded(id))
    else None
  }

  function FirstFileError(files: map<nat, FileRow>, actor: nat, ids: seq<nat>): Option<Error> {
    if ids == [] then None
    else
      var error := FileError(files, actor, ids[0]);
      if error.Some? then error else FirstFileError(files, actor, ids[1..])
  }

  /** The rows a product's image list stands for: one per id, numbered from 0. */
  function ImageRows(files: map<nat, FileRow>, p: nat, ids: seq<nat>): seq<ImageRow>
    requires forall i :: 0 <= i < |ids| ==> ids[i] in files
  {
    seq(|ids|, i requires 0 <= i < |ids| => ImageRow(p, ids[i], files[ids[i]].objectKey, i))
  }

  function AttachFiles(files: map<nat, FileRow>, p: nat, ids: seq<nat>): map<nat, FileRow> {
    map id | id in files :: if id in ids then files[id].(ownerProduct := Some(p)) else files[id]
  }

  lemma {:induction false} AcceptedFiles(files: map<nat, FileRow>, actor: nat, ids: seq<nat>)
    ensures FirstFileError(files, actor, ids).None? <==>
            forall i :: 0 <= i < |ids| ==> FileError(files, actor, ids[i]).None?
  {
    if ids != [] {
      AcceptedFiles(files, actor, ids[1..]);
      assert forall i :: 0 < i < |ids| ==> ids[i] == ids[1..][i - 1];
    }
  }

  /** Replaces the image list of a product; on an error the caller's transaction is rolled back. */
  function Sync(db: Db, actor: nat, p: nat, ids: seq<nat>): (Db, Outcome) {
    var cleared := db.(images := Without(db.images, p));
    if ids == [] then (cleared, Ok)
    else
      match FirstFileError(db.files, actor, ids)
      case Some(e) => (cleared, Failed(e))
      case None =>
        AcceptedFiles(db.files, actor, ids);
        (cleared.(images := cleared.images + ImageRows(db.files, p, ids), files := AttachFiles(db.files, p, ids)), Ok)
  }

  // ----- Requests -----

  datatype Request =
    | Create(user: nat, category: string, subcategory: Option<string>, imageFileIds: Option<seq<nat>>)
    | Update(user: nat, productId: nat, newCategory: Option<string>, hasSubcategory: bool,
             newSubcategory: Option<string>, newImageFileIds: Option<seq<nat>>)
    | Delete(user: nat, productId: nat)
    | UploadIntent(user: nat, purpose: string, objectKey: string)
    | MarkUploaded(user: nat, fileId: nat)

  /** What a request does: the tables after it, and its answer.  An error rolls the tables back;
      an id that an INSERT drew stays drawn. */
  function Apply(trim: string -> string, db: Db, r: Request): (Db, Outcome) {
    match r
    case Create(user, category, subcategory, ids) => ApplyCreate(trim, db, user, category, subcategory, ids)
    case Update(user, p, category, has, subcategory, ids) =>
      ApplyUpdate(trim, db, user, p, category, has, subcategory, ids)
    case Delete(user, p) => ApplyDelete(db, user, p)
    case UploadIntent(user, purpose, objectKey) =>
      (db.(files := db.files[db.nextFileId := FileRow(Some(user), purpose, "pending", objectKey, None)],
           nextFileId := db.nextFileId + 1), Ok)
    case MarkUploaded(user, id) => ApplyMarkUploaded(db, user, id)
  }

  function ApplyDelete(db: Db, user: nat, p: nat): (Db, Outcome) {
    if p !in db.products || db.products[p].deleted then (db, Failed(NotFound))
    else if db.products[p].owner != user then (db, Failed(NotAllowed))
    else (db.(products := db.products[p := db.products[p].(deleted := true)]), Ok)
  }

  function ApplyMarkUploaded(db: Db, user: nat, id: nat): (Db, Outcome) {
    if id !in db.files then (db, Failed(NotFound))
    else if db.files[id].uploader != Some(user) then (db, Failed(NotAllowed))
    else (db.(files := db.files[id := db.files[id].(status := "uploaded")]), Ok)
  }

  function ApplyCreate(trim: string -> string, db: Db, user: nat, category: string, subcategory: Option<string>,
                       ids: Option<seq<nat>>): (Db, Outcome)
  {
    var checked := CheckCategoryPair(trim(category), Trimmed(trim, subcategory));
    if checked.Failed? then (db, checked)
    else
      var p := db.nextProductId;
      var drawn := db.(nextProductId := p + 1);
      var row := ProductRow(user, trim(category), Trimmed(trim, subcategory), false);
      var inserted := drawn.(products := db.products[p := row]);
      if ids.None? || ids.value == [] then (inserted, Ok)
      else
        var (after, outcome) := Sync(inserted, user, p, ids.value);
        if outcome.Failed? then (drawn, outcome) else (after, Ok)
  }

  function ApplyUpdate(trim: string -> string, db: Db, user: nat, p: nat, category: Option<string>, has: bool,
                       subcategory: Option<string>, ids: Option<seq<nat>>): (Db, Outcome)
  {
    if p !in db.products || db.products[p].deleted then (db, Failed(NotFound))
    else if db.products[p].owner != user then (db, Failed(NotAllowed))
    else
      var current := db.products[p];
      var next := if category.Some? then trim(category.value) else current.category;
      var nextSub := if has then Trimmed(trim, subcategory) else current.subcategory;
      var checked := CheckCategoryPair(next, nextSub);
      if checked.Failed? then (db, checked)
      else
        var updated := db.(products := db.products[p := current.(category := next, subcategory := nextSub)]);
        if ids.None? then (updated, Ok)
        else
          var (after, outcome) := Sync(updated, user, p, ids.value);
          if outcome.Failed? then (db, outcome) else (after, Ok)
  }

  // ----- The batched INSERT -----

  datatype Value = IntValue(n: nat) | TextValue(s: string)

  /** One row of VALUES: the four placeholder numbers. */
  datatype Placeholders = Placeholders(product: nat, file: nat, key: nat, order: nat)

  /** The row the database stores for one group of placeholders, if each of them is bound to a value of its type. */
  function Decode(params: seq<Value>, v: Placeholders): Option<ImageRow> {
    if 1 <= v.product <= |params| && 1 <= v.file <= |params| && 1 <= v.key <= |params| && 1 <= v.order <= |params|
       && params[v.product - 1].IntValue? && params[v.file - 1].IntValue?
       && params[v.key - 1].TextValue? && params[v.order - 1].IntValue?
    then Some(ImageRow(params[v.product - 1].n, params[v.file - 1].n, params[v.key - 1].s, params[v.order - 1].n))
    else None
  }

  /** The parameters the code pushes: the product once, then three values per image. */
  ghost predicate Pushed(files: map<nat, FileRow>, productId: nat, ids: seq<nat>, n: nat, params: seq<Value>)
    requires n <= |ids| && forall i :: 0 <= i < |ids| ==> ids[i] in files
  {
    && |params| == 3 * n + 1 && params[0] == IntValue(productId)
    && (forall i :: 0 <= i < n ==> params[i * 3 + 1] == IntValue(ids[i]))
    && (forall i :: 0 <= i < n ==> params[i * 3 + 2] == TextValue(files[ids[i]].objectKey))
    && (forall i :: 0 <= i < n ==> params[i * 3 + 3] == IntValue(i))
  }

  lemma PushImage(files: map<nat, FileRow>, productId: nat, ids: seq<nat>, n: nat, params: seq<Value>)
    requires forall i :: 0 <= i < |ids| ==> ids[i] in files
    requires n < |ids| && Pushed(files, productId, ids, n, params)
    ensures Pushed(files, productId, ids, n + 1,
                   params + [IntValue(ids[n]), TextValue(files[ids[n]].objectKey), IntValue(n)])
  {
    var more := params + [IntValue(ids[n]), TextValue(files[ids[n]].objectKey), IntValue(n)];
    assert more[3 * n + 1] == IntValue(ids[n]);
    assert more[3 * n + 2] == TextValue(files[ids[n]].objectKey);
    assert more[3 * n + 3] == IntValue(n);
    assert forall k :: 0 <= k < |params| ==> more[k] == params[k];
  }

  method BuildInsert(files: map<nat, FileRow>, productId: nat, ids: seq<nat>)
    returns (values: seq<Placeholders>, params: seq<Value>)
    requires forall i :: 0 <= i < |ids| ==> ids[i] in files
    ensures |values| == |ids|
    ensures forall i :: 0 <= i < |ids| ==> Decode(params, values[i]) == Some(ImageRows(files, productId, ids)[i])
  {
    values := [];
    for i := 0 to |ids|
      invariant |values| == i
      invariant forall j :: 0 <= j < i ==> values[j] == Placeholders(1, j * 3 + 2, j * 3 + 3, j * 3 + 4)
    {
      values := values + [Placeholders(1, i * 3 + 2, i * 3 + 3, i * 3 + 4)];
    }
    params := [IntValue(productId)];
    for i := 0 to |ids|
      invariant Pushed(files, productId, ids, i, params)
    {
      PushImage(files, productId, ids, i, params);
      params := params + [IntValue(ids[i]), TextValue(files[ids[i]].objectKey), IntValue(i)];
    }
    forall i | 0 <= i < |ids|
      ensures Decode(params, values[i]) == Some(ImageRow(productId, ids[i], files[ids[i]].objectKey, i))
    {
      assert params[i * 3 + 1] == IntValue(ids[i]) && params[i * 3 + 3] == IntValue(i);
    }
  }

  /** What the database does with the statement: one row per group of placeholders. */
  method ExecuteInsert(values: seq<Placeholders>, params: seq<Value>) returns (rows: seq<ImageRow>)
    requires forall i :: 0 <= i < |values| ==> Decode(params, values[i]).Some?
    ensures |rows| == |values| && forall i :: 0 <= i < |rows| ==> Decode(params, values[i]) == Some(rows[i])
  {
    rows := [];
    for i := 0 to |values|
      invariant |rows| == i && forall j :: 0 <= j < i ==> Decode(params, values[j]) == Some(rows[j])
    {
      rows := rows + [Decode(params, values[i]).value];
    }
  }

  // ----- The service -----

  class Store {
    var products: map<nat, ProductRow>
    var images: seq<ImageRow>
    var files: map<nat, FileRow>
    var nextProductId: nat
    var nextFileId: nat

    ghost function State(): Db
      reads this
    {
      Db(products, images, files, nextProductId, nextFileId)
    }

    constructor ()
      ensures State() == EMPTY_DB
    {
      products, images, files, nextProductId, nextFileId := map[], [], map[], 1, 1;
    }

    method SyncProductImages(actor: nat, productId: nat, imageFileIds: seq<nat>) returns (outcome: Outcome)
      modifies this
      ensures (State(), outcome) == Sync(old(State()), actor, productId, imageFileIds)
    {
      images := Without(images, productId);
      if imageFileIds == [] { return Ok; }
      var fileMap := map id | id in imageFileIds && id in files :: files[id];
      assert imageFileIds[0..] == imageFileIds;
      for i := 0 to |imageFileIds|
        invariant FirstFileError(files, actor, imageFileIds) == FirstFileError(files, actor, imageFileIds[i..])
        invariant forall j :: 0 <= j < i ==> FileError(files, actor, imageFileIds[j]).None?
      {
        var id := imageFileIds[i];
        assert imageFileIds[i..][0] == id && imageFileIds[i..][1..] == imageFileIds[i + 1..];
        if id !in fileMap { return Failed(FileMissing(id)); }
        var file := fileMap[id];
        if file.purpose != "product_image" { return Failed(FileWrongPurpose(id)); }
        if file.uploader.None? || file.uploader.value != actor { return Failed(FileNotOwned(id)); }
        if file.status != "uploaded" { return Failed(FileNotUploaded(id)); }
      }
      assert imageFileIds[|imageFileIds|..] == [];
      assert ImageRows(fileMap, productId, imageFileIds) == ImageRows(files, productId, imageFileIds);
      var values, params := BuildInsert(fileMap, productId, imageFileIds);
      var inserted := ExecuteInsert(values, params);
      assert FirstFileError(files, actor, imageFileIds).None?;
      assert inserted == ImageRows(files, productId, imageFileIds);
      images := images + inserted;
      files := AttachFiles(files, productId, imageFileIds);
      return Ok;
    }

    method CreateProduct(trim: string -> string, user: nat, category: string, subcategory: Option<string>,
                         imageFileIds: Option<seq<nat>>)
      returns (outcome: Outcome)
      modifies this
      ensures (State(), outcome) == Apply(trim, old(State()), Create(user, category, subcategory, imageFileIds))
      ensures outcome.Ok? ==>
                && old(nextProductId) in products
                && products[old(nextProductId)]
                   == ProductRow(user, trim(category), TrimmedOrNone(trim, subcategory), false)
    {
      var productsBefore, imagesBefore, filesBefore := products, images, files;
      outcome := CheckCategoryPair(trim(category), Trimmed(trim, subcategory));
      if outcome.Failed? { return; }
      var productId := nextProductId;
      nextProductId := nextProductId + 1;
      products := products[productId := ProductRow(user, trim(category), Trimmed(trim, subcategory), false)];
      if imageFileIds.Some? && |imageFileIds.value| > 0 {
        outcome := SyncProductImages(user, productId, imageFileIds.value);
        if outcome.Failed? {
          products, images, files := productsBefore, imagesBefore, filesBefore;
        }
      }
    }

    method UpdateProduct(trim: string -> string, user: nat, productId: nat, category: Option<string>,
                         hasSubcategory: bool, subcategory: Option<string>, imageFileIds: Option<seq<nat>>)
      returns (outcome: Outcome)
      modifies this
      ensures (State(), outcome)
           == Apply(trim, old(State()), Update(user, productId, category, hasSubcategory, subcategory, imageFileIds))
      ensures outcome.Ok? ==>
                && productId in old(products) && old(products)[productId].owner == user
                && products.Keys == old(products).Keys
                && products[productId].category
                   == (if category == None then old(products)[productId].category else trim(category.value))
                && products[productId].subcategory
                   == (if hasSubcategory then TrimmedOrNone(trim, subcategory)
                       else old(products)[productId].subcategory)
                && (imageFileIds.Some? ==> HasImages(old(State()), State(), productId, imageFileIds.value))
    {
      ghost var request := Update(user, productId, category, hasSubcategory, subcategory, imageFileIds);
      if Apply(trim, State(), request).1.Ok? {
        UpdateWrites(trim, State(), user, productId, category, hasSubcategory, subcategory, imageFileIds);
      }
      var productsBefore, imagesBefore, filesBefore := products, images, files;
      if productId !in products || products[productId].deleted { return Failed(NotFound); }
      if products[productId].owner != user { return Failed(NotAllowed); }
      var current := products[productId];
      var nextCategory := if category.Some? then trim(category.value) else current.category;
      var nextSubcategory := if hasSubcategory then Trimmed(trim, subcategory) else current.subcategory;
      outcome := CheckCategoryPair(nextCategory, nextSubcategory);
      if outcome.Failed? { return; }
      products := products[productId := current.(
        category := Coalesce(Trimmed(trim, category), current.category),
        subcategory := if hasSubcategory then Trimmed(trim, subcategory) else current.subcategory)];
      if imageFileIds.Some? {
        outcome := SyncProductImages(user, productId, imageFileIds.value);
        if outcome.Failed? {
          products, images, files := productsBefore, imagesBefore, filesBefore;
        }
      }
    }

    method DeleteProduct(user: nat, productId: nat) returns (outcome: Outcome)
      modifies this`products
      ensures (State(), outcome) == ApplyDelete(old(State()), user, productId)
    {
      if productId !in products || products[productId].deleted { return Failed(NotFound); }
      if products[productId].owner != user { return Failed(NotAllowed); }
      products := products[productId := products[productId].(deleted := true)];
      return Ok;
    }

    method MarkUploaded(user: nat, fileId: nat) returns (outcome: Outcome)
      modifies this`files
      ensures (State(), outcome) == ApplyMarkUploaded(old(State()), user, fileId)
    {
      if fileId !in files { return Failed(NotFound); }
      if files[fileId].uploader.None? || files[fileId].uploader.value != user { return Failed(NotAllowed); }
      files := files[fileId := files[fileId].(status := "uploaded")];
      return Ok;
    }
  }

  // ----- Every run -----

  /** An image row points at an uploaded product image of the product's owner, under the file's own key. */
  ghost predicate ImageOk(db: Db, image: ImageRow) {
    && image.productId in db.products && image.fileId in db.files
    && db.files[image.fileId].purpose == "product_image"
    && db.files[image.fileId].status == "uploaded"
    && db.files[image.fileId].uploader == Some(db.products[image.productId].owner)
    && db.files[image.fileId].objectKey == image.objectKey
  }

  ghost predicate Invariant(db: Db) {
    && (forall p :: p in db.products ==> p < db.nextProductId && ValidPair(db.products[p]))
    && (forall id :: id in db.files ==> id < db.nextFileId)
    && (forall i :: 0 <= i < |db.images| ==> ImageOk(db, db.images[i]))
    && (forall p: nat, i :: 0 <= i < |ImagesOf(db.images, p)| ==> ImagesOf(db.images, p)[i].sortOrder == i)
  }

  lemma PairChecked(category: string, subcategory: Option<string>, owner: nat, deleted: bool)
    ensures CheckCategoryPair(category, subcategory).Ok? <==>
            ValidPair(ProductRow(owner, category, subcategory, deleted))
  {
  }

  lemma {:induction false} WithoutElements(images: seq<ImageRow>, p: nat)
    ensures forall i :: 0 <= i < |Without(images, p)| ==>
            Without(images, p)[i] in images && Without(images, p)[i].productId != p
  {
    if images != [] {
      WithoutElements(images[1..], p);
    }
  }

  lemma {:induction false} ImagesOfWithout(images: seq<ImageRow>, p: nat, q: nat)
    ensures ImagesOf(Without(images, p), q) == if q == p then [] else ImagesOf(images, q)
  {
    if images != [] {
      ImagesOfWithout(images[1..], p, q);
      var rest := Without(images[1..], p);
      if images[0].productId != p {
        assert ([images[0]] + rest)[1..] == rest;
      } else {
        assert [] + rest == rest;
      }
    }
  }

  lemma {:induction false} ImagesOfAppend(a: seq<ImageRow>, b: seq<ImageRow>, q: nat)
    ensures ImagesOf(a + b, q) == ImagesOf(a, q) + ImagesOf(b, q)
  {
    if a == [] {
      assert a + b == b;
    } else {
      var head := if a[0].productId == q then [a[0]] else [];
      assert (a + b)[0] == a[0] && (a + b)[1..] == a[1..] + b;
      ImagesOfAppend(a[1..], b, q);
      assert ImagesOf(a + b, q) == head + (ImagesOf(a[1..], q) + ImagesOf(b, q));
      assert ImagesOf(a, q) == head + ImagesOf(a[1..], q);
    }
  }

  lemma {:induction false} ImagesOfOneProduct(rows: seq<ImageRow>, p: nat, q: nat)
    requires forall i :: 0 <= i < |rows| ==> rows[i].productId == p
    ensures ImagesOf(rows, q) == if q == p then rows else []
  {
    if rows != [] {
      ImagesOfOneProduct(rows[1..], p, q);
    }
  }

  /** The images of any product after rows of one product were replaced. */
  lemma ReplacedImages(images: seq<ImageRow>, rows: seq<ImageRow>, p: nat, q: nat)
    requires forall i :: 0 <= i < |rows| ==> rows[i].productId == p
    ensures ImagesOf(Without(images, p) + rows, q) == if q == p then rows else ImagesOf(images, q)
  {
    ImagesOfAppend(Without(images, p), rows, q);
    ImagesOfWithout(images, p, q);
    ImagesOfOneProduct(rows, p, q);
  }

  /** An accepted list becomes the product's images in order; a rejected one is rejected for its first bad file.
      Other products keep theirs. */
  lemma SyncImages(db: Db, actor: nat, p: nat, ids: seq<nat>, q: nat)
    ensures var (after, outcome) := Sync(db, actor, p, ids);
            && (outcome.Ok? <==> forall i :: 0 <= i < |ids| ==> FileError(db.files, actor, ids[i]).None?)
            && (q != p ==> ImagesOf(after.images, q) == ImagesOf(db.images, q))
            && (outcome.Ok? ==>
                  && |ImagesOf(after.images, p)| == |ids|
                  && forall i :: 0 <= i < |ids| ==>
                       ImagesOf(after.images, p)[i] == ImageRow(p, ids[i], db.files[ids[i]].objectKey, i))
  {
    AcceptedFiles(db.files, actor, ids);
    if ids != [] && FirstFileError(db.files, actor, ids).None? {
      ReplacedImages(db.images, ImageRows(db.files, p, ids), p, q);
      ReplacedImages(db.images, ImageRows(db.files, p, ids), p, p);
    } else {
      ImagesOfWithout(db.images, p, q);
      ImagesOfWithout(db.images, p, p);
    }
  }

  lemma SyncKeepsInvariant(db: Db, actor: nat, p: nat, ids: seq<nat>)
    requires Invariant(db) && p in db.products && db.products[p].owner == actor
    ensures var (after, outcome) := Sync(db, actor, p, ids); outcome.Ok? ==> Invariant(after)
  {
    var (after, outcome) := Sync(db, actor, p, ids);
    AcceptedFiles(db.files, actor, ids);
    WithoutElements(db.images, p);
    if outcome.Ok? {
      forall i | 0 <= i < |after.images| ensures ImageOk(after, after.images[i]) {
        var kept := Without(db.images, p);
        if i < |kept| {
          assert after.images[i] == kept[i];
          assert ImageOk(db, kept[i]);
        }
      }
      forall q: nat
        ensures forall i :: 0 <= i < |ImagesOf(after.images, q)| ==> ImagesOf(after.images, q)[i].sortOrder == i
      {
        SyncImages(db, actor, p, ids, q);
      }
    }
  }

  /** Product rows may be flagged or added and files added or uploaded without touching an image. */
  lemma SameImagesKeepInvariant(db: Db, after: Db)
    requires Invariant(db) && after.images == db.images
    requires db.nextProductId <= after.nextProductId && db.nextFileId <= after.nextFileId
    requires forall p :: p in after.products ==> p < after.nextProductId && ValidPair(after.products[p])
    requires forall p :: p in db.products ==> p in after.products && after.products[p].owner == db.products[p].owner
    requires forall id :: id in after.files ==> id < after.nextFileId
    requires forall id :: id in db.files ==>
      && id in after.files && after.files[id].purpose == db.files[id].purpose
      && after.files[id].uploader == db.files[id].uploader
      && after.files[id].objectKey == db.files[id].objectKey
      && (db.files[id].status == "uploaded" ==> after.files[id].status == "uploaded")
    ensures Invariant(after)
  {
    forall i | 0 <= i < |after.images| ensures ImageOk(after, after.images[i]) {
      assert ImageOk(db, db.images[i]);
    }
  }

  lemma InsertKeepsInvariant(db: Db, row: ProductRow)
    requires Invariant(db) && ValidPair(row)
    ensures var drawn := db.(nextProductId := db.nextProductId + 1);
            Invariant(drawn) && Invariant(drawn.(products := db.products[db.nextProductId := row]))
  {
    var drawn := db.(nextProductId := db.nextProductId + 1);
    SameImagesKeepInvariant(db, drawn);
    SameImagesKeepInvariant(db, drawn.(products := db.products[db.nextProductId := row]));
  }

  /** The tables a create request can leave behind. */
  lemma CreateOutcomes(trim: string -> string, db: Db, user: nat, category: string, subcategory: Option<string>,
                       ids: Option<seq<nat>>)
    ensures var after := ApplyCreate(trim, db, user, category, subcategory, ids).0;
            var row := ProductRow(user, trim(category), Trimmed(trim, subcategory), false);
            var drawn := db.(nextProductId := db.nextProductId + 1);
            var inserted := drawn.(products := db.products[db.nextProductId := row]);
            || after == db
            || (CheckCategoryPair(row.category, row.subcategory).Ok?
                && (|| after == drawn || after == inserted
                    || (ids.Some? && Sync(inserted, user, db.nextProductId, ids.value) == (after, Ok))))
  {
  }

  lemma CreateKeepsInvariant(trim: string -> string, db: Db, user: nat, category: string, subcategory: Option<string>,
                             ids: Option<seq<nat>>)
    requires Invariant(db)
    ensures Invariant(ApplyCreate(trim, db, user, category, subcategory, ids).0)
  {
    var row := ProductRow(user, trim(category), Trimmed(trim, subcategory), false);
    CreateOutcomes(trim, db, user, category, subcategory, ids);
    PairChecked(row.category, row.subcategory, user, false);
    if CheckCategoryPair(row.category, row.subcategory).Ok? {
      InsertKeepsInvariant(db, row);
      if ids.Some? {
        var drawn := db.(nextProductId := db.nextProductId + 1);
        SyncKeepsInvariant(drawn.(products := db.products[db.nextProductId := row]), user, db.nextProductId, ids.value);
      }
    }
  }

  /** Every request, accepted or rejected, keeps the invariant. */
  lemma RequestKeepsInvariant(trim: string -> string, db: Db, r: Request)
    requires Invariant(db)
    ensures Invariant(Apply(trim, db, r).0)
  {
    match r
    case Create(user, category, subcategory, ids) => CreateKeepsInvariant(trim, db, user, category, subcategory, ids);
    case Update(user, p, category, has, subcategory, ids) =>
      if p in db.products && !db.products[p].deleted && db.products[p].owner == user {
        UpdateKeepsInvariant(trim, db, user, p, category, has, subcategory, ids);
      }
    case Delete(user, p) => DeleteKeepsInvariant(db, user, p);
    case _ => FilesKeepInvariant(trim, db, r);
  }

  lemma DeleteKeepsInvariant(db: Db, user: nat, p: nat)
    requires Invariant(db)
    ensures Invariant(ApplyDelete(db, user, p).0)
  {
    SameImagesKeepInvariant(db, ApplyDelete(db, user, p).0);
  }

  lemma FilesKeepInvariant(trim: string -> string, db: Db, r: Request)
    requires Invariant(db) && (r.UploadIntent? || r.MarkUploaded?)
    ensures Invariant(Apply(trim, db, r).0)
  {
    SameImagesKeepInvariant(db, Apply(trim, db, r).0);
  }

  lemma UpdateKeepsInvariant(trim: string -> string, db: Db, user: nat, p: nat, category: Option<string>, has: bool,
                             subcategory: Option<string>, ids: Option<seq<nat>>)
    requires Invariant(db) && p in db.products && !db.products[p].deleted && db.products[p].owner == user
    ensures Invariant(ApplyUpdate(trim, db, user, p, category, has, subcategory, ids).0)
  {
    var current := db.products[p];
    var next := if category.Some? then trim(category.value) else current.category;
    var nextSub := if has then Trimmed(trim, subcategory) else current.subcategory;
    PairChecked(next, nextSub, user, false);
    if CheckCategoryPair(next, nextSub).Ok? {
      var updated := db.(products := db.products[p := current.(category := next, subcategory := nextSub)]);
      SameImagesKeepInvariant(db, updated);
      if ids.Some? {
        SyncKeepsInvariant(updated, user, p, ids.value);
      }
    }
  }

  function Run(trim: string -> string, db: Db, requests: seq<Request>): Db
    decreases |requests|
  {
    if requests == [] then db else Run(trim, Apply(trim, db, requests[0]).0, requests[1..])
  }

  /** Over every run: valid pairs that are never `all`, and honest image rows. */
  lemma {:induction false} EveryRun(trim: string -> string, db: Db, requests: seq<Request>)
    requires Invariant(db)
    ensures Invariant(Run(trim, db, requests))
    decreases |requests|
  {
    if requests != [] {
      RequestKeepsInvariant(trim, db, requests[0]);
      EveryRun(trim, Apply(trim, db, requests[0]).0, requests[1..]);
    }
  }

  /** So it is for every product and every image row from the empty tables on. */
  lemma EveryRunFromEmpty(trim: string -> string, requests: seq<Request>)
    ensures var db := Run(trim, EMPTY_DB, requests);
            && (forall p :: p in db.products ==> ValidPair(db.products[p]))
            && (forall i :: 0 <= i < |db.images| ==> ImageOk(db, db.images[i]))
  {
    EveryRun(trim, EMPTY_DB, requests);
  }

  /** A rejected request changes no row of any table: the previous images survive the rollback. */
  lemma RejectionChangesNothing(trim: string -> string, db: Db, r: Request)
    ensures var (after, outcome) := Apply(trim, db, r);
            outcome.Failed? ==> after.products == db.products && after.images == db.images && after.files == db.files
  {
  }

  // ----- What an accepted request writes -----

  function TrimmedOrNone(trim: string -> string, s: Option<string>): Option<string> {
    match s
    case Some(text) => Some(trim(text))
    case None => None
  }

  /** Why a pair is refused: an unknown category, a subcategory of another category, or "all". */
  lemma PairRefusals(category: string, subcategory: Option<string>)
    ensures var known := category in Taxonomy.CATEGORY_TO_SUBCATEGORIES;
            var listed := known && subcategory.Some?
                          && subcategory.value in Taxonomy.CATEGORY_TO_SUBCATEGORIES[category];
            CheckCategoryPair(category, subcategory)
            == if !known then Failed(InvalidCategory)
               else if subcategory != None && !listed then Failed(InvalidSubcategory)
               else if subcategory == Some("all") then Failed(SubcategoryIsAll)
               else Ok
  {
  }

  /** A file can be an image exactly if it exists, is meant for that, is the actor's own and has been uploaded. */
  lemma UsableFile(files: map<nat, FileRow>, actor: nat, id: nat)
    ensures FileError(files, actor, id).None? <==>
            id in files && files[id].purpose == "product_image" && files[id].status == "uploaded"
            && files[id].uploader == Some(actor)
    ensures id !in files ==> FileError(files, actor, id) == Some(FileMissing(id))
  {
  }

  /** The product's images are these files in this order, other products keep theirs, and the files, and only they, are
      marked as the product's. */
  ghost predicate HasImages(db: Db, after: Db, p: nat, ids: seq<nat>) {
    && |ImagesOf(after.images, p)| == |ids|
    && (forall i :: 0 <= i < |ids| ==>
          && ids[i] in db.files
          && ImagesOf(after.images, p)[i] == ImageRow(p, ids[i], db.files[ids[i]].objectKey, i))
    && (forall q :: q != p ==> ImagesOf(after.images, q) == ImagesOf(db.images, q))
    && after.files.Keys == db.files.Keys
    && (forall id :: id in db.files ==>
          after.files[id] == if id in ids then db.files[id].(ownerProduct := Some(p)) else db.files[id])
  }

  lemma SyncWrites(db: Db, actor: nat, p: nat, ids: seq<nat>)
    requires Sync(db, actor, p, ids).1.Ok?
    ensures var after := Sync(db, actor, p, ids).0;
            HasImages(db, after, p, ids) && after.products == db.products && after.nextProductId == db.nextProductId
    ensures forall i :: 0 <= i < |ids| ==> FileError(db.files, actor, ids[i]).None?
  {
    var after := Sync(db, actor, p, ids).0;
    AcceptedFiles(db.files, actor, ids);
    SyncImages(db, actor, p, ids, p);
    forall q | q != p ensures ImagesOf(after.images, q) == ImagesOf(db.images, q) {
      SyncImages(db, actor, p, ids, q);
    }
  }

  /** An accepted create request stores one new undeleted product of the user with the trimmed pair, and its images. */
  lemma CreateWrites(trim: string -> string, db: Db, user: nat, category: string, subcategory: Option<string>,
                     ids: Option<seq<nat>>)
    requires ApplyCreate(trim, db, user, category, subcategory, ids).1.Ok? && db.nextProductId !in db.products
    ensures var after := ApplyCreate(trim, db, user, category, subcategory, ids).0;
            var p := db.nextProductId;
            && after.products.Keys == db.products.Keys + {p} && after.nextProductId == p + 1
            && after.products[p] == ProductRow(user, trim(category), TrimmedOrNone(trim, subcategory), false)
            && (forall q :: q in db.products ==> after.products[q] == db.products[q])
            && (ids.Some? && ids.value != [] ==> HasImages(db, after, p, ids.value))
            && (ids.None? || ids.value == [] ==> after.images == db.images && after.files == db.files)
  {
    var row := ProductRow(user, trim(category), Trimmed(trim, subcategory), false);
    var inserted := db.(nextProductId := db.nextProductId + 1, products := db.products[db.nextProductId := row]);
    if ids.Some? && ids.value != [] {
      SyncWrites(inserted, user, db.nextProductId, ids.value);
    }
  }

  /** An accepted update writes the given category, trimmed, and the given subcategory exactly if the request has one;
      what is not given stays, as do owner, deletion mark and all other products. */
  lemma UpdateWrites(trim: string -> string, db: Db, user: nat, p: nat, category: Option<string>, has: bool,
                     subcategory: Option<string>, ids: Option<seq<nat>>)
    requires ApplyUpdate(trim, db, user, p, category, has, subcategory, ids).1.Ok?
    ensures p in db.products && !db.products[p].deleted && db.products[p].owner == user
    ensures var after := ApplyUpdate(trim, db, user, p, category, has, subcategory, ids).0;
            && after.products.Keys == db.products.Keys
            && after.products[p].category
               == (if category == None then db.products[p].category else trim(category.value))
            && after.products[p].subcategory
               == (if has then TrimmedOrNone(trim, subcategory) else db.products[p].subcategory)
            && after.products[p].owner == user && !after.products[p].deleted
            && (forall q :: q in db.products && q != p ==> after.products[q] == db.products[q])
            && (ids.Some? ==> HasImages(db, after, p, ids.value))
            && (ids.None? ==> after.images == db.images && after.files == db.files)
  {
    var current := db.products[p];
    var next := if category.Some? then trim(category.value) else current.category;
    var nextSub := if has then Trimmed(trim, subcategory) else current.subcategory;
    var updated := db.(products := db.products[p := current.(category := next, subcategory := nextSub)]);
    if ids.Some? {
      SyncWrites(updated, user, p, ids.value);
    }
  }

  /** An update is accepted exactly for the owner's undeleted product, a valid pair and usable files. */
  lemma UpdateAccepted(trim: string -> string, db: Db, user: nat, p: nat, category: Option<string>, has: bool,
                       subcategory: Option<string>, ids: Option<seq<nat>>)
    ensures ApplyUpdate(trim, db, user, p, category, has, subcategory, ids).1.Ok? <==>
            && p in db.products && !db.products[p].deleted && db.products[p].owner == user
            && CheckCategoryPair(if category == None then db.products[p].category else trim(category.value),
                                 if has then TrimmedOrNone(trim, subcategory) else db.products[p].subcategory).Ok?
            && (ids.Some? ==> forall i :: 0 <= i < |ids.value| ==> FileError(db.files, user, ids.value[i]).None?)
  {
    if ids.Some? {
      AcceptedFiles(db.files, user, ids.value);
    }
  }

  /** A create request is accepted exactly for a valid pair and usable files. */
  lemma CreateAccepted(trim: string -> string, db: Db, user: nat, category: string, subcategory: Option<string>,
                       ids: Option<seq<nat>>)
    ensures ApplyCreate(trim, db, user, category, subcategory, ids).1.Ok? <==>
            && CheckCategoryPair(trim(category), TrimmedOrNone(trim, subcategory)).Ok?
            && (ids.Some? ==> forall i :: 0 <= i < |ids.value| ==> FileError(db.files, user, ids.value[i]).None?)
  {
    if ids.Some? {
      AcceptedFiles(db.files, user, ids.value);
    }
  }

  /** Deleting marks exactly the owner's undeleted product, and it cannot be updated or deleted afterwards. */
  lemma DeleteMarks(trim: string -> string, db: Db, user: nat, p: nat, later: nat)
    ensures var (after, outcome) := ApplyDelete(db, user, p);
            && (outcome.Ok? <==> p in db.products && !db.products[p].deleted && db.products[p].owner == user)
            && (outcome.Ok? ==>
                  && after.products.Keys == db.products.Keys && after.products[p].deleted
                  && after.products[p].owner == user && after.products[p].category == db.products[p].category
                  && after.products[p].subcategory == db.products[p].subcategory
                  && (forall q :: q in db.products && q != p ==> after.products[q] == db.products[q])
                  && after.images == db.images && after.files == db.files
                  && ApplyDelete(after, later, p).1 == Failed(NotFound)
                  && ApplyUpdate(trim, after, later, p, None, false, None, None).1 == Failed(NotFound))
  {
  }

  /** Marking uploads exactly the uploader's file, which can then become an image of that user's product. */
  lemma UploadedIsUsable(db: Db, user: nat, id: nat)
    ensures var (after, outcome) := ApplyMarkUploaded(db, user, id);
            && (outcome.Ok? <==> id in db.files && db.files[id].uploader == Some(user))
            && (outcome.Ok? ==>
                  && after.files.Keys == db.files.Keys && after.files[id].status == "uploaded"
                  && after.files[id].purpose == db.files[id].purpose && after.files[id].uploader == Some(user)
                  && after.files[id].objectKey == db.files[id].objectKey
                  && (forall other :: other in db.files && other != id ==> after.files[other] == db.files[other])
                  && (db.files[id].purpose == "product_image" ==> FileError(after.files, user, id).None?))
  {
  }

  /** From nothing to a product with an image: what is uploaded and marked can be sold. */
  lemma UploadThenCreate(trim: string -> string, db: Db, user: nat, objectKey: string, category: string,
                         subcategory: Option<string>)
    requires Invariant(db) && CheckCategoryPair(trim(category), TrimmedOrNone(trim, subcategory)).Ok?
    ensures var uploaded := Apply(trim, Apply(trim, db, UploadIntent(user, "product_image", objectKey)).0,
                                  MarkUploaded(user, db.nextFileId)).0;
            var (after, outcome) := Apply(trim, uploaded, Create(user, category, subcategory, Some([db.nextFileId])));
            && outcome.Ok?
            && ImagesOf(after.images, db.nextProductId) == [ImageRow(db.nextProductId, db.nextFileId, objectKey, 0)]
  {
    var intended := Apply(trim, db, UploadIntent(user, "product_image", objectKey)).0;
    UploadedIsUsable(intended, user, db.nextFileId);
    var uploaded := ApplyMarkUploaded(intended, user, db.nextFileId).0;
    assert uploaded.nextProductId == db.nextProductId && uploaded.products == db.products;
    var ids := Some([db.nextFileId]);
    CreateAccepted(trim, uploaded, user, category, subcategory, ids);
    CreateWrites(trim, uploaded, user, category, subcategory, ids);
  }
}
