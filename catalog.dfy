/** The product catalog: create, list, look up, update and delete products.
    The collection is the state of one ProductStore object; the image host is
    an input function from a file's path and requested public id to what the
    host answers. */
module Catalog {

  import opened Wrappers
  import opened Seqs
  import opened Js

  /** An uploaded file as the multipart parser hands it over. */
  datatype UploadedFile = UploadedFile(path: string, originalName: string)

  /** The image host's answer to an upload. */
  datatype Uploaded = Uploaded(secureUrl: string, publicId: string)

  /** An image entry stored on a product. */
  datatype Image = Image(url: string, originalName: string, publicId: string)

  /** A stored product; the scalar fields keep the request values as given. */
  datatype Product = Product(
    id: nat,
    name: JsValue,
    price: JsValue,
    sku: JsValue,
    stock: JsValue,
    category: JsValue,
    description: JsValue,
    images: seq<Image>,
    size: seq<JsValue>)

  /** The fields of a create or update request body; an absent field is Undefined. */
  datatype ProductBody = ProductBody(
    name: JsValue,
    price: JsValue,
    sku: JsValue,
    stock: JsValue,
    category: JsValue,
    description: JsValue,
    size: JsValue)

  /** The status code and the JSON envelope of a response. */
  datatype Reply<T> = Reply(status: nat, success: bool, message: Option<string>,
                            error: Option<string>, data: Option<T>)

  const MissingFields: string := "All fields are required"
  const NotFound: string := "Product not found"
  const Created: string := "Product created successfully"
  const Updated: string := "Product updated successfully"
  const Deleted: string := "Product deleted successfully"

  /** Size normalisation: an array is kept, a string is split at commas and each
      piece trimmed, anything else gives no sizes. */
  function Sizes(size: JsValue): (r: seq<JsValue>)
    ensures size.Arr? ==> r == size.items
    ensures !size.Arr? && !size.Str? ==> r == []
    ensures size.Str? ==> |r| == |Split(size.s, ',')|
  {
    match size
    case Arr(items) => items
    case Str(s) =>
      var pieces := Split(s, ',');
      seq(|pieces|, k requires 0 <= k < |pieces| => Str(Trim(pieces[k])))
    case _ => []
  }

  /** A size string gives one entry per comma-separated piece, each the trimmed
      piece, and no entry holds a comma. */
  lemma SizesOfString(s: string)
    ensures |Sizes(Str(s))| == Count(s, ',') + 1
    ensures forall k :: 0 <= k < |Sizes(Str(s))| ==> Sizes(Str(s))[k] == Str(Trim(Split(s, ',')[k]))
    ensures forall k :: 0 <= k < |Sizes(Str(s))| ==> ',' !in Sizes(Str(s))[k].s
  {
    SplitPieceCount(s, ',');
    SplitPiecesLackSeparator(s, ',');
    var pieces := Split(s, ',');
    forall k | 0 <= k < |pieces| ensures ',' !in Trim(pieces[k]) {
      TrimShape(pieces[k]);
    }
  }

  /** The public id requested for an upload: the original name up to its first dot. */
  function PublicId(originalName: string): string {
    Split(originalName, '.')[0]
  }

  /** The public id is the longest dot-free prefix of the name. */
  lemma PublicIdIsStem(originalName: string)
    ensures var stem := PublicId(originalName);
      && stem <= originalName
      && '.' !in stem
      && (|stem| < |originalName| ==> originalName[|stem|] == '.')
  {
  }

  /** "a.b.png" is uploaded under the public id "a". */
  lemma PublicIdExample()
    ensures PublicId("a.b.png") == "a"
  {
  }

  /** The image entry an uploaded file becomes. */
  function ImageOf(file: UploadedFile, upload: (string, string) -> Uploaded): Image {
    var answer := upload(file.path, PublicId(file.originalName));
    Image(answer.secureUrl, file.originalName, answer.publicId)
  }

  /** The image entries of a batch of uploads: one per file, in file order. */
  function ImagesFor(files: seq<UploadedFile>, upload: (string, string) -> Uploaded): (r: seq<Image>)
    ensures |r| == |files|
    ensures forall k :: 0 <= k < |files| ==> r[k] == ImageOf(files[k], upload)
  {
    seq(|files|, k requires 0 <= k < |files| => ImageOf(files[k], upload))
  }

  /** The create guard: every one of the seven fields truthy (so a price or stock of 0 fails). */
  predicate AllFieldsPresent(body: ProductBody) {
    && Truthy(body.name) && Truthy(body.price) && Truthy(body.sku) && Truthy(body.stock)
    && Truthy(body.category) && Truthy(body.description) && Truthy(body.size)
  }

  /** The product a create request saves. */
  function NewProduct(id: nat, body: ProductBody, images: seq<Image>): Product {
    Product(id, body.name, body.price, body.sku, body.stock, body.category, body.description,
            images, Sizes(body.size))
  }

  /** The product after an update request: a truthy field overwrites, size is
      replaced when given at all, images when a file was uploaded. */
  function Patched(p: Product, body: ProductBody, files: seq<UploadedFile>,
                   upload: (string, string) -> Uploaded): Product {
    p.(name := if Truthy(body.name) then body.name else p.name,
       price := if Truthy(body.price) then body.price else p.price,
       sku := if Truthy(body.sku) then body.sku else p.sku,
       stock := if Truthy(body.stock) then body.stock else p.stock,
       category := if Truthy(body.category) then body.category else p.category,
       description := if Truthy(body.description) then body.description else p.description,
       size := if body.size != Undefined then Sizes(body.size) else p.size,
       images := if |files| > 0 then ImagesFor(files, upload) else p.images)
  }

  /** Applying the same update twice gives what applying it once gives. */
  lemma PatchIdempotent(p: Product, body: ProductBody, files: seq<UploadedFile>,
                        upload: (string, string) -> Uploaded)
    ensures Patched(Patched(p, body, files, upload), body, files, upload) == Patched(p, body, files, upload)
  {
  }

  /** An update with no truthy field, no size and no file leaves the product as it was. */
  lemma EmptyPatchKeeps(p: Product, body: ProductBody, upload: (string, string) -> Uploaded)
    requires !Truthy(body.name) && !Truthy(body.price) && !Truthy(body.sku) && !Truthy(body.stock)
    requires !Truthy(body.category) && !Truthy(body.description) && body.size == Undefined
    ensures Patched(p, body, [], upload) == p
  {
  }

  /** `Product.findById(id)`'s condition. */
  function IdIs(id: nat): Product -> bool {
    (p: Product) => p.id == id
  }

  /** The products other than the one with this id, in order. */
  function Without(products: seq<Product>, id: nat): (r: seq<Product>)
    ensures forall k :: 0 <= k < |r| ==> r[k].id != id
  {
    if products == [] then []
    else if products[0].id == id then Without(products[1..], id)
    else [products[0]] + Without(products[1..], id)
  }

  /** Distinct ids, each below the next one to hand out. */
  ghost predicate CatalogInvariant(products: seq<Product>, nextId: nat) {
    && (forall i :: 0 <= i < |products| ==> products[i].id < nextId)
    && (forall i, j :: 0 <= i < j < |products| ==> products[i].id != products[j].id)
  }

  /** With distinct ids, removing the found product removes exactly the products
      with that id and keeps every other product in order. */
  lemma {:induction false} RemoveFoundIsWithout(products: seq<Product>, id: nat, i: nat)
    requires forall a, b :: 0 <= a < b < |products| ==> products[a].id != products[b].id
    requires i < |products| && products[i].id == id
    ensures products[..i] + products[i + 1..] == Without(products, id)
  {
    if i == 0 {
      WithoutAbsent(products[1..], id);
    } else {
      RemoveFoundIsWithout(products[1..], id, i - 1);
      assert products[1..][..i - 1] == products[1..i];
      assert products[..i] == [products[0]] + products[1..i];
      assert products[1..][i..] == products[i + 1..];
    }
  }

  lemma {:induction false} WithoutAbsent(products: seq<Product>, id: nat)
    requires forall k :: 0 <= k < |products| ==> products[k].id != id
    ensures Without(products, id) == products
  {
    if products != [] {
      WithoutAbsent(products[1..], id);
    }
  }

  class ProductStore {
    var products: seq<Product>
    var nextId: nat

    ghost predicate Valid()
      reads this
    {
      CatalogInvariant(products, nextId)
    }

    constructor ()
      ensures Valid() && products == [] && nextId == 0
    {
      products, nextId := [], 0;
    }

    /** POST: create a product from the body and the uploaded files. */
    method Create(body: ProductBody, files: seq<UploadedFile>, upload: (string, string) -> Uploaded)
      returns (r: Reply<Product>)
      requires Valid()
      modifies this
      ensures Valid()
      ensures !AllFieldsPresent(body) ==>
        && r == Reply(400, false, None, Some(MissingFields), None)
        && products == old(products) && nextId == old(nextId)
      ensures AllFieldsPresent(body) ==>
        && r == Reply(201, true, Some(Created), None, None)
        && products == old(products) + [NewProduct(old(nextId), body, ImagesFor(files, upload))]
        && nextId == old(nextId) + 1
    {
      if !AllFieldsPresent(body) {
        return Reply(400, false, None, Some(MissingFields), None);
      }
      var sizes := Sizes(body.size);
      var images := ImagesFor(files, upload);
      var product := Product(nextId, body.name, body.price, body.sku, body.stock, body.category,
                             body.description, images, sizes);
      products := products + [product];
      nextId := nextId + 1;
      r := Reply(201, true, Some(Created), None, None);
    }

    /** GET all: the whole collection. */
    method GetAll() returns (r: Reply<seq<Product>>)
      ensures r == Reply(200, true, None, None, Some(products))
    {
      r := Reply(200, true, None, None, Some(products));
    }

    /** GET by id. */
    method GetById(id: nat) returns (r: Reply<Product>)
      ensures r.status == 404 <==> forall k :: 0 <= k < |products| ==> products[k].id != id
      ensures r.status == 200 ==> r.data.Some? && r.data.value in products && r.data.value.id == id
      ensures match Find(products, IdIs(id))
        case None => r == Reply(404, false, None, Some(NotFound), None)
        case Some(i) => r == Reply(200, true, None, None, Some(products[i]))
    {
      var found := Find(products, IdIs(id));
      if found.None? {
        return Reply(404, false, None, Some(NotFound), None);
      }
      r := Reply(200, true, None, None, Some(products[found.value]));
    }

    /** PUT by id: patch the found product field by field. */
    method Update(id: nat, body: ProductBody, files: seq<UploadedFile>,
                  upload: (string, string) -> Uploaded) returns (r: Reply<Product>)
      requires Valid()
      modifies this`products
      ensures Valid()
      ensures match Find(old(products), IdIs(id))
        case None =>
          r == Reply(404, false, None, Some(NotFound), None) && products == old(products)
        case Some(i) =>
          && products == old(products)[i := Patched(old(products)[i], body, files, upload)]
          && r == Reply(200, true, Some(Updated), None, None)
    {
      var found := Find(products, IdIs(id));
      if found.None? {
        return Reply(404, false, None, Some(NotFound), None);
      }
      var i := found.value;
      ghost var before := products[i];
      ghost var t := Patched(before, body, files, upload);
      var p := products[i];
      if Truthy(body.name) { p := p.(name := body.name); }
      assert p == before.(name := t.name);
      if Truthy(body.price) { p := p.(price := body.price); }
      assert p == before.(name := t.name, price := t.price);
      if Truthy(body.sku) { p := p.(sku := body.sku); }
      assert p == before.(name := t.name, price := t.price, sku := t.sku);
      if Truthy(body.stock) { p := p.(stock := body.stock); }
      assert p == before.(name := t.name, price := t.price, sku := t.sku, stock := t.stock);
      if Truthy(body.category) { p := p.(category := body.category); }
      assert p == t.(description := before.description, size := before.size, images := before.images);
      if Truthy(body.description) { p := p.(description := body.description); }
      assert p == t.(size := before.size, images := before.images);
      if body.size != Undefined {
        p := p.(size := Sizes(body.size));
      }
      assert p == t.(images := before.images);
      if |files| > 0 {
        var images := ImagesFor(files, upload);
        if |images| > 0 { p := p.(images := images); }
      }
      assert p == t;
      products := products[i := p];
      r := Reply(200, true, Some(Updated), None, None);
    }

    /** DELETE by id: remove the found product. */
    method Delete(id: nat) returns (r: Reply<Product>)
      requires Valid()
      modifies this`products
      ensures Valid()
      ensures match Find(old(products), IdIs(id))
        case None =>
          r == Reply(404, false, None, Some(NotFound), None) && products == old(products)
        case Some(i) =>
          && products == old(products)[..i] + old(products)[i + 1..]
          && products == Without(old(products), id)
          && r == Reply(200, true, Some(Deleted), None, None)
    {
      var found := Find(products, IdIs(id));
      if found.None? {
        return Reply(404, false, None, Some(NotFound), None);
      }
      var i := found.value;
      RemoveFoundIsWithout(products, id, i);
      products := products[..i] + products[i + 1..];
      r := Reply(200, true, Some(Deleted), None, None);
    }
  }
}
