/**
 * The product collection backed by `products.json`: GET, POST, PUT and DELETE
 * on /products. Create and update accept uploaded image files, which multer
 * has already stored; the product keeps `images/<filename>` references to them.
 */
module Products {
  import opened Wrappers
  import opened Store
  import opened Assets
  import Positional

  /**
   * A price as the request body carries it: a multipart form field is text;
   * of the other JSON values a JSON body may send, only a number is modelled.
   */
  datatype Price = Text(text: string) | Number(amount: real)

  /** The fields `{ name, price, scripture, category }` taken from the request body. */
  datatype ProductFields = ProductFields(name: string, price: Price, scripture: string, category: string)

  datatype Product = Product(name: string, price: Price, scripture: string, category: string, images: seq<string>)

  /** `{ name, price, scripture, category, images }` built from the body fields and a reference list. */
  function MakeProduct(fields: ProductFields, images: seq<string>): (p: Product)
    ensures p.name == fields.name && p.price == fields.price
    ensures p.scripture == fields.scripture && p.category == fields.category
    ensures p.images == images
  {
    Product(fields.name, fields.price, fields.scripture, fields.category, images)
  }

  /**
   * The images an updated product keeps: the new uploads when there is at
   * least one, otherwise the references the product already had.
   */
  function UpdatedImages(files: Option<seq<UploadedFile>>, current: seq<string>): (r: seq<string>)
    ensures |Uploaded(files)| == 0 ==> r == current
    ensures |Uploaded(files)| > 0 ==> |r| == |Uploaded(files)|
    ensures |Uploaded(files)| > 0 ==> forall i :: 0 <= i < |r| ==> r[i] == ImageRef(Uploaded(files)[i].filename)
  {
    if |Uploaded(files)| > 0 then ImageRefs(Uploaded(files)) else current
  }

  /** New uploads replace the whole image list: what the product had before does not matter. */
  lemma UploadsReplaceImages(files: Option<seq<UploadedFile>>, a: seq<string>, b: seq<string>)
    requires |Uploaded(files)| > 0
    ensures UpdatedImages(files, a) == UpdatedImages(files, b)
  {
  }

  class ProductStore {
    /** The contents of `products.json`; unlike `messages.json` it is not created at start-up. */
    var doc: Document<Product>

    constructor (initial: Document<Product>)
      ensures doc == initial
    {
      doc := initial;
    }

    /** GET /products: every stored product, in stored order. */
    method List() returns (r: Result<seq<Product>, StoreError>)
      ensures doc.Records? ==> r == Success(doc.items)
      ensures doc.Unreadable? ==> r == Failure(ReadFailed)
      ensures doc.Malformed? ==> r == Failure(InvalidFormat)
    {
      r := Load(doc);
    }

    /**
     * POST /products. `files` is `req.files` (None when the request is not
     * multipart); `written` is whether the file system accepts the write.
     * On success the handler answers with the new product.
     */
    method Create(fields: ProductFields, files: Option<seq<UploadedFile>>, written: bool)
      returns (r: Result<Product, StoreError>)
      modifies this
      ensures !old(doc).Records? ==> r == Failure(Load(old(doc)).error)
      ensures old(doc).Records? && !written ==> r == Failure(WriteFailed)
      ensures old(doc).Records? && written ==> r == Success(MakeProduct(fields, ImageRefs(Uploaded(files))))
      ensures r.Success? ==> doc == Records(old(doc).items + [r.value])
      ensures r.Failure? ==> doc == old(doc)
    {
      var loaded := Load(doc);
      if loaded.Failure? {
        return Failure(loaded.error);
      }
      var products := loaded.value;
      var images := ImageRefs(Uploaded(files));
      var newProduct := MakeProduct(fields, images);
      products := products + [newProduct];
      if !written {
        return Failure(WriteFailed);
      }
      doc := Records(products);
      r := Success(newProduct);
    }

    /** PUT /products/:index; `index` is the parsed path parameter, None for NaN. */
    method Update(index: Option<int>, fields: ProductFields, files: Option<seq<UploadedFile>>, written: bool)
      returns (r: Outcome<StoreError>)
      modifies this
      ensures !old(doc).Records? ==> r == Fail(Load(old(doc)).error)
      ensures old(doc).Records? && CheckIndex(index, |old(doc).items|).Failure? ==> r == Fail(InvalidIndex)
      ensures old(doc).Records? && CheckIndex(index, |old(doc).items|).Success? ==> r == if written then Pass else Fail(WriteFailed)
      ensures r.Fail? ==> doc == old(doc)
      ensures r.Pass? ==> index.Some? && 0 <= index.value < |old(doc).items|
      ensures r.Pass? ==> doc == Records(Positional.ReplaceAt(old(doc).items, index.value,
                                  MakeProduct(fields, UpdatedImages(files, old(doc).items[index.value].images))))
    {
      var loaded := Load(doc);
      if loaded.Failure? {
        return Fail(loaded.error);
      }
      var products := loaded.value;
      var checked := CheckIndex(index, |products|);
      if checked.Failure? {
        return Fail(InvalidIndex);
      }
      var idx := checked.value;
      var images := UpdatedImages(files, products[idx].images);
      products := products[idx := MakeProduct(fields, images)];
      if !written {
        return Fail(WriteFailed);
      }
      doc := Records(products);
      r := Pass;
    }

    /** DELETE /products/:index: `products.splice(idx, 1)`. Stored image files are not removed. */
    method Delete(index: Option<int>, written: bool) returns (r: Outcome<StoreError>)
      modifies this
      ensures !old(doc).Records? ==> r == Fail(Load(old(doc)).error)
      ensures old(doc).Records? && CheckIndex(index, |old(doc).items|).Failure? ==> r == Fail(InvalidIndex)
      ensures old(doc).Records? && CheckIndex(index, |old(doc).items|).Success? ==> r == if written then Pass else Fail(WriteFailed)
      ensures r.Fail? ==> doc == old(doc)
      ensures r.Pass? ==> index.Some? && 0 <= index.value < |old(doc).items|
      ensures r.Pass? ==> doc == Records(Positional.RemoveAt(old(doc).items, index.value))
    {
      var loaded := Load(doc);
      if loaded.Failure? {
        return Fail(loaded.error);
      }
      var products := loaded.value;
      var checked := CheckIndex(index, |products|);
      if checked.Failure? {
        return Fail(InvalidIndex);
      }
      var idx := checked.value;
      products := products[..idx] + products[idx + 1..];
      if !written {
        return Fail(WriteFailed);
      }
      doc := Records(products);
      r := Pass;
    }
  }

  /** Two uploads on create, an update without files, then a delete. */
  method CreateUpdateDelete(fields: ProductFields, edited: ProductFields, t1: nat, t2: nat)
  {
    var store := new ProductStore(Records([]));
    var a := Upload(t1, "front.jpg");
    var b := Upload(t2, "back.jpg");
    var created := store.Create(fields, Some([a, b]), true);
    assert created.Success?;
    var images := created.value.images;
    assert images == [ImageRef(a.filename), ImageRef(b.filename)];
    var ok := store.Update(Some(0), edited, Some([]), true);
    assert ok == Pass;
    assert store.doc.items[0] == MakeProduct(edited, images);
    ok := store.Update(Some(-1), fields, None, true);
    assert ok == Fail(InvalidIndex);
    ok := store.Delete(Some(0), true);
    assert ok == Pass;
    assert store.doc == Records([]);
  }
}
