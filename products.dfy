/** The product routes (routes/products.js): the multer upload filter, the
    create handler (required fields, the `missing` map, the document it
    builds, validation and clean-up of the uploaded file), the list query,
    and the rewriting of stored image paths into URLs for the list and the
    single-product view. */
module ProductRoutes {
  import opened Common
  import opened JsString
  import opened Schema
  import opened JsParse
  import opened NodePath
  import opened ProductModel

  /** The alternatives of `/jpeg|jpg|png|gif|webp/`. */
  const ImageTypes: seq<string> := ["jpeg", "jpg", "png", "gif", "webp"]

  /** `fileFilter`: the lower-cased extension of the original name and the
      declared mimetype must each contain one of the image types. Every type
      has three letters or more, so an accepted name has an extension of at
      least four characters, dot included. */
  function FileFilter(originalName: string, mimetype: string): (ok: bool)
    ensures ok ==> ContainsAny(ToLower(ExtName(originalName)), ImageTypes)
    ensures ok ==> ContainsAny(mimetype, ImageTypes)
    ensures ok ==> |ExtName(originalName)| >= 4 && ExtName(originalName)[0] == '.'
  {
    var ext := ExtName(originalName);
    ShortHasNoImageType(ext);
    ContainsAny(ToLower(ext), ImageTypes) && ContainsAny(mimetype, ImageTypes)
  }

  /** Each image type is in lower case, has at least three characters and
      does not start with `.`. */
  lemma ImageTypeShape(k: nat)
    requires k < |ImageTypes|
    ensures |ImageTypes[k]| >= 3 && ImageTypes[k][0] != '.'
    ensures forall j :: 0 <= j < |ImageTypes[k]| ==> LowerChar(ImageTypes[k][j]) == ImageTypes[k][j]
  {
    if k == 0 {} else if k == 1 {} else if k == 2 {} else if k == 3 {} else {}
  }

  /** An extension shorter than four characters (at most a `.` and two
      more) contains no image type, so a name without an extension, a
      dotfile such as `.png`, or a two-letter extension is rejected. */
  lemma ShortHasNoImageType(x: string)
    ensures (x == [] || x[0] == '.') && |x| < 4 ==> !ContainsAny(ToLower(x), ImageTypes)
  {
    if (x == [] || x[0] == '.') && |x| < 4 {
      var e := ToLower(x);
      forall k | 0 <= k < |ImageTypes|
        ensures !Contains(e, ImageTypes[k])
      {
        ImageTypeShape(k);
        var t := ImageTypes[k];
        forall i | 0 <= i <= |e| - |t|
          ensures !OccursAt(e, t, i)
        {
          assert e[0] == LowerChar(x[0]) == '.';
          assert e[i..i + |t|][0] == e[0];
        }
      }
    }
  }

  /** A pattern that does not start with `.` occurs after a leading `.`
      exactly when it occurs in what follows the dot. */
  lemma ContainsAfterDot(x: string, t: string)
    requires t != [] && t[0] != '.'
    ensures Contains("." + x, t) <==> Contains(x, t)
  {
    var d := "." + x;
    if Contains(d, t) {
      var i :| 0 <= i <= |d| - |t| && OccursAt(d, t, i);
      assert i != 0 by {
        assert d[i..i + |t|][0] == d[i];
      }
      assert d[i..i + |t|] == x[i - 1..i - 1 + |t|];
      assert OccursAt(x, t, i - 1);
    }
    if Contains(x, t) {
      var i :| 0 <= i <= |x| - |t| && OccursAt(x, t, i);
      assert d[i + 1..i + 1 + |t|] == x[i..i + |t|];
      assert OccursAt(d, t, i + 1);
    }
  }

  /** The lower-cased extension `.ext` holds an image type exactly when the
      lower-cased `ext` does. */
  lemma DottedExtensionTypes(ext: string)
    ensures ContainsAny(ToLower("." + ext), ImageTypes) <==> ContainsAny(ToLower(ext), ImageTypes)
  {
    assert ToLower("." + ext) == "." + ToLower(ext);
    forall k | 0 <= k < |ImageTypes|
      ensures Contains(ToLower("." + ext), ImageTypes[k]) <==> Contains(ToLower(ext), ImageTypes[k])
    {
      ImageTypeShape(k);
      ContainsAfterDot(ToLower(ext), ImageTypes[k]);
    }
  }

  /** The test is on substrings and is not anchored: any extension whose
      lower-cased form contains an image type passes, whatever else it
      contains. */
  lemma FilterAcceptsContainingExtension(stem: string, ext: string, mimetype: string, k: nat)
    requires stem != [] && (stem != "." || ext != [])
    requires '/' !in stem && '/' !in ext && '.' !in ext
    requires k < |ImageTypes| && Contains(ToLower(ext), ImageTypes[k]) && ContainsAny(mimetype, ImageTypes)
    ensures FileFilter(stem + "." + ext, mimetype)
  {
    ExtNameOfFileName(stem, ext);
    DottedExtensionTypes(ext);
  }

  /** An extension whose lower-cased form holds no image type is rejected,
      whatever mimetype is declared. */
  lemma FilterRejectsOtherExtension(stem: string, ext: string, mimetype: string)
    requires stem != [] && (stem != "." || ext != [])
    requires '/' !in stem && '/' !in ext && '.' !in ext
    requires !ContainsAny(ToLower(ext), ImageTypes)
    ensures !FileFilter(stem + "." + ext, mimetype)
  {
    ExtNameOfFileName(stem, ext);
    DottedExtensionTypes(ext);
  }

  /** The text fields of the request body (`undefined` is `None`). */
  datatype Body = Body(
    name: Option<string>,
    description: Option<string>,
    price: Option<string>,
    category: Option<string>,
    stock: Option<string>)

  /** The `missing` map of the 400 answer. */
  datatype Missing = Missing(name: bool, description: bool, price: bool, category: bool, stock: bool)

  /** The negation of `!name || !description || !price || !category ||
      !stock`: each of the five fields is present and non-empty. */
  function HasAllFields(b: Body): (ok: bool)
    ensures ok <==> (b.name.Some? && b.name.value != "") && (b.description.Some? && b.description.value != "")
                    && (b.price.Some? && b.price.value != "") && (b.category.Some? && b.category.value != "")
                    && (b.stock.Some? && b.stock.value != "")
  {
    Truthy(b.name) && Truthy(b.description) && Truthy(b.price) && Truthy(b.category) && Truthy(b.stock)
  }

  /** Each entry of the map flags one falsy field; some entry is set exactly
      when the body is rejected. */
  function MissingOf(b: Body): (m: Missing)
    ensures (m.name || m.description || m.price || m.category || m.stock) <==> !HasAllFields(b)
    ensures m.name <==> !Truthy(b.name)
    ensures m.description <==> !Truthy(b.description)
    ensures m.price <==> !Truthy(b.price)
    ensures m.category <==> !Truthy(b.category)
    ensures m.stock <==> !Truthy(b.stock)
  {
    Missing(!Truthy(b.name), !Truthy(b.description), !Truthy(b.price), !Truthy(b.category), !Truthy(b.stock))
  }

  /** A file multer stored: the client's name, the declared mimetype and the
      path it was written to. */
  datatype Upload = Upload(originalName: string, mimetype: string, path: string)

  /** `imagePath ? [imagePath] : []`. */
  function ImagesOf(file: Option<Upload>): (images: seq<Option<string>>)
    ensures |images| <= 1
    ensures images != [] <==> file.Some? && file.value.path != ""
    ensures images != [] ==> images == [Some(file.value.path)]
  {
    if file.Some? && file.value.path != "" then [Some(file.value.path)] else []
  }

  /** `new Product({...})` in the create handler. `price` is what
      `parseFloat` makes of the price text. */
  function NewProduct(b: Body, price: JsNumber, file: Option<Upload>, requester: Id): (p: Product)
    requires HasAllFields(b)
    ensures p.name == Some(Trim(b.name.value))
    ensures p.description == Some(Trim(b.description.value))
    ensures p.category == Some(Trim(b.category.value))
    ensures p.price == Some(price)
    ensures p.stock == Some(ParseInt(b.stock.value))
    ensures p.images == ImagesOf(file) && p.user == Some(requester)
    ensures p.reviews == [] && p.likes == []
    ensures p.rating == Some(Num(0.0)) && p.numReviews == Some(Num(0.0)) && p.status == Some("active")
  {
    var fields := Product(
      Some(Trim(b.name.value)), Some(Trim(b.description.value)), Some(price), ImagesOf(file),
      Some(Trim(b.category.value)), Some(ParseInt(b.stock.value)), Some(requester),
      [], None, None, [], None);
    TrimIdempotent(b.name.value);
    Construct(fields)
  }

  /** A stock given in decimal digits is stored as that number. */
  lemma DecimalStock(b: Body, price: JsNumber, file: Option<Upload>, requester: Id, n: nat)
    requires HasAllFields(b) && b.stock == Some(NatToString(n))
    ensures NewProduct(b, price, file, requester).stock == Some(Num(n as real))
  {
    ParseIntOfNatToString(n);
  }

  /** The answers of `POST /`. */
  datatype CreateReply =
    | UploadRejected                        // the filter's 'Only image files are allowed!' error, left to the server's error handler
    | MissingFields(missing: Missing)       // 400 'Please fill all required fields'
    | ValidationFailed(errors: seq<SchemaError>)  // 400 'Validation error'
    | ServerError                           // 500 'Server error while creating product'
    | Created(id: Id, product: Product)     // 201 'Product created successfully'

  const UploadRejectedMessage: string := "Only image files are allowed!"

  /** The `status: 'active'` filter and the optional name and category
      filters of `GET /`. */
  datatype ListQuery = ListQuery(status: string, nameRegex: Option<string>, category: Option<string>)

  function MakeListQuery(search: Option<string>, category: Option<string>): (q: ListQuery)
    ensures q.status == "active"
    ensures q.nameRegex.Some? <==> Truthy(search)
    ensures q.nameRegex.Some? ==> q.nameRegex == search
    ensures q.category.Some? <==> Truthy(category) && category.value != "all"
    ensures q.category.Some? ==> q.category == category
  {
    ListQuery("active",
              if Truthy(search) then search else None,
              if Truthy(category) && category.value != "all" then category else None)
  }

  /** What the status and category filters of `q` let through (the name
      filter is a regular expression, which this model does not evaluate). */
  predicate PassesFilters(p: Product, q: ListQuery)
  {
    p.status == Some(q.status) && (q.category.Some? ==> p.category == q.category)
  }

  /** Only active products are listed; with no category or `all`, every
      active product passes the filters. */
  lemma ListedAreActive(p: Product, search: Option<string>, category: Option<string>)
    ensures PassesFilters(p, MakeListQuery(search, category)) ==> p.status == Some("active")
    ensures (!Truthy(category) || category == Some("all")) ==>
              (PassesFilters(p, MakeListQuery(search, category)) <==> p.status == Some("active"))
  {
  }

  /** The origin image URLs are built on: it ends without a slash, so
      `${baseUrl}/${path}` has exactly the one separator it writes. */
  function BaseUrl(isProduction: bool): (url: string)
    ensures url != [] && url[|url| - 1] != '/'
    ensures |url| > 8 && (isProduction <==> url[..8] == "https://")
  {
    var url := if isProduction then "https://green-planet-moc.onrender.com" else "http://localhost:5000";
    assert url[4] == (if isProduction then 's' else ':');
    url
  }

  /** `replace(/(?<!:)\/\//g, '/')` on `s`, whose preceding character in
      the original string was `prev`: scanning left to right, each `//` not
      preceded by `:` becomes `/`, and scanning resumes after it. */
  function CollapseSlashes(s: string, prev: Option<char>): (r: string)
    ensures |r| <= |s|
    ensures forall c :: c in r ==> c in s
    decreases |s|
  {
    if |s| >= 2 && s[0] == '/' && s[1] == '/' && prev != Some(':') then
      var rest := CollapseSlashes(s[2..], Some('/'));
      assert forall c :: c in rest ==> c in s;
      "/" + rest
    else if s == [] then []
    else
      var rest := CollapseSlashes(s[1..], Some(s[0]));
      assert forall c :: c in rest ==> c in s;
      [s[0]] + rest
  }

  function WithoutSlashes(s: string): string
  {
    if s == [] then [] else (if s[0] == '/' then [] else [s[0]]) + WithoutSlashes(s[1..])
  }

  /** Only slashes are removed: every other character stays, in order. */
  lemma {:induction false} CollapseKeepsOtherChars(s: string, prev: Option<char>)
    ensures WithoutSlashes(CollapseSlashes(s, prev)) == WithoutSlashes(s)
    decreases |s|
  {
    if |s| >= 2 && s[0] == '/' && s[1] == '/' && prev != Some(':') {
      CollapseKeepsOtherChars(s[2..], Some('/'));
      var rest := CollapseSlashes(s[2..], Some('/'));
      assert ("/" + rest)[1..] == rest;
      assert s[1..][1..] == s[2..];
    } else if s != [] {
      CollapseKeepsOtherChars(s[1..], Some(s[0]));
      var rest := CollapseSlashes(s[1..], Some(s[0]));
      assert ([s[0]] + rest)[1..] == rest;
    }
  }

  /** A string without `//` is left as it is. */
  lemma {:induction false} CollapseWithoutDoubleSlash(s: string, prev: Option<char>)
    requires !Contains(s, "//")
    ensures CollapseSlashes(s, prev) == s
    decreases |s|
  {
    assert |s| >= 2 ==> !OccursAt(s, "//", 0);
    assert |s| >= 2 ==> s[..2] == [s[0], s[1]];
    if s != [] {
      forall i | 0 <= i <= |s[1..]| - 2
        ensures !OccursAt(s[1..], "//", i)
      {
        assert !OccursAt(s, "//", i + 1);
        assert s[1..][i..i + 2] == s[i + 1..i + 3];
      }
      CollapseWithoutDoubleSlash(s[1..], Some(s[0]));
    }
  }

  /** The slashes after a colon stay; a run of three slashes becomes two,
      not one, because matches do not overlap. */
  lemma CollapseExamples()
    ensures CollapseSlashes("//", None) == "/"
    ensures CollapseSlashes("://", None) == "://"
    ensures CollapseSlashes("///", None) == "//"
  {
    assert CollapseSlashes("/", Some('/')) == "/";
    assert CollapseSlashes("//", Some(':')) == "//";
  }

  /** The path a stored image is served under. */
  function NormalizePath(image: string): (r: string)
    ensures '\\' !in r
    ensures |r| <= |image|
    ensures WithoutSlashes(r) == WithoutSlashes(ReplaceAllChar(image, '\\', '/'))
  {
    var forward := ReplaceAllChar(image, '\\', '/');
    CollapseKeepsOtherChars(forward, None);
    CollapseSlashes(forward, None)
  }

  function ImageUrl(baseUrl: string, image: string): (url: string)
    ensures url == baseUrl + "/" + NormalizePath(image)
  {
    baseUrl + "/" + NormalizePath(image)
  }

  /** `images.map(image => !image ? null : url)`. */
  function MapImages(images: seq<Option<string>>, baseUrl: string): (r: seq<Option<string>>)
    ensures |r| == |images|
    ensures forall i :: 0 <= i < |images| ==>
              r[i] == (if Truthy(images[i]) then Some(ImageUrl(baseUrl, images[i].value)) else None)
  {
    if images == [] then []
    else
      [if Truthy(images[0]) then Some(ImageUrl(baseUrl, images[0].value)) else None]
      + MapImages(images[1..], baseUrl)
  }

  /** `.filter(Boolean)`: the present, non-empty entries, and only those. */
  function KeepTruthy(xs: seq<Option<string>>): (r: seq<string>)
    ensures |r| <= |xs|
    ensures forall s :: s in r <==> Some(s) in xs && s != ""
  {
    if xs == [] then []
    else
      var rest := KeepTruthy(xs[1..]);
      assert forall s :: Some(s) in xs <==> Some(s) == xs[0] || Some(s) in xs[1..];
      (if Truthy(xs[0]) then [xs[0].value] else []) + rest
  }

  /** The filter works entry by entry and keeps the order: filtering a
      concatenation is concatenating the filtered parts, and a single entry
      is kept exactly when it is truthy. */
  lemma {:induction false} KeepTruthyAppend(a: seq<Option<string>>, b: seq<Option<string>>)
    ensures KeepTruthy(a + b) == KeepTruthy(a) + KeepTruthy(b)
  {
    if a != [] {
      assert (a + b)[1..] == a[1..] + b;
      KeepTruthyAppend(a[1..], b);
    } else {
      assert a + b == b;
    }
  }

  lemma KeepTruthySingle(x: Option<string>)
    ensures KeepTruthy([x]) == (if Truthy(x) then [x.value] else [])
  {
    assert [x][1..] == [];
  }

  /** The image URLs a product is shown with: one per present, non-empty
      stored image, in the order of the images (see
      ImagesViewIsFilterThenMap). */
  function ImagesView(images: seq<Option<string>>, baseUrl: string): (urls: seq<string>)
    ensures urls == UrlsOf(KeepTruthy(images), baseUrl)
    ensures |urls| <= |images|
  {
    ImagesViewIsFilterThenMap(images, baseUrl);
    KeepTruthy(MapImages(images, baseUrl))
  }

  function UrlsOf(paths: seq<string>, baseUrl: string): (urls: seq<string>)
    ensures |urls| == |paths|
    ensures forall i :: 0 <= i < |paths| ==> urls[i] == ImageUrl(baseUrl, paths[i])
  {
    if paths == [] then [] else [ImageUrl(baseUrl, paths[0])] + UrlsOf(paths[1..], baseUrl)
  }

  /** Mapping and then filtering is filtering out the empty and missing
      images first and mapping the rest: every stored image that is present
      gets a URL, in its place in the order, and nothing else does. */
  lemma {:induction false} ImagesViewIsFilterThenMap(images: seq<Option<string>>, baseUrl: string)
    ensures KeepTruthy(MapImages(images, baseUrl)) == UrlsOf(KeepTruthy(images), baseUrl)
  {
    if images != [] {
      ImagesViewIsFilterThenMap(images[1..], baseUrl);
      assert MapImages(images, baseUrl)[1..] == MapImages(images[1..], baseUrl);
      if Truthy(images[0]) {
        assert KeepTruthy(images) == [images[0].value] + KeepTruthy(images[1..]);
      } else {
        assert KeepTruthy(images) == KeepTruthy(images[1..]);
      }
    }
  }

  /** A product as the read routes send it: its fields, with `images`
      replaced by URLs. */
  datatype ProductView = ProductView(product: Product, imageUrls: seq<string>)

  function View(p: Product, baseUrl: string): (v: ProductView)
    ensures v.product == p
    ensures v.imageUrls == UrlsOf(KeepTruthy(p.images), baseUrl)
  {
    ProductView(p, ImagesView(p.images, baseUrl))
  }

  /** The answer of `GET /`: the products the query found, each as a view. */
  function ListViews(found: seq<Product>, isProduction: bool): (views: seq<ProductView>)
    ensures |views| == |found|
    ensures forall i :: 0 <= i < |found| ==>
              views[i].product == found[i]
              && views[i].imageUrls == UrlsOf(KeepTruthy(found[i].images), BaseUrl(isProduction))
  {
    seq(|found|, i requires 0 <= i < |found| => View(found[i], BaseUrl(isProduction)))
  }

  /** How the save of `p` ends: the validation errors when there are any,
      else a failed save, else the stored document. */
  predicate SaveOutcome(r: CreateReply, p: Product, saveFails: bool)
  {
    && (Validate(p) != [] ==> r == ValidationFailed(Validate(p)))
    && (Validate(p) == [] && saveFails ==> r == ServerError)
    && (Validate(p) == [] && !saveFails ==> r.Created? && r.product == p)
  }

  /** The file multer wrote for the request, if any. */
  function StoredPath(file: Option<Upload>): (paths: set<string>)
    ensures paths == {} <==> file.None?
    ensures file.Some? ==> paths == {file.value.path}
  {
    if file.Some? then {file.value.path} else {}
  }

  /** A set identity, stated once so that the clean-up frame of
      `ProductStore.Create` is proved in one small step. */
  lemma AddThenRemove(a: set<string>, s: set<string>)
    ensures a + s - s == a - s
  {
  }

  /** The answers of `GET /:id`. */
  datatype GetReply =
    | ProductNotFound                 // 404 'Product not found'
    | FetchFailed                     // 500 'Error fetching product'
    | Found(view: ProductView)        // 200, the product with its image URLs

  /** The product collection and the files in the uploads directory. */
  class ProductStore {
    var products: map<Id, Product>
    var files: set<string>
    var nextId: Id

    ghost predicate Valid()
      reads this
    {
      forall k :: k in products ==> k < nextId
    }

    constructor (initial: map<Id, Product>, uploaded: set<string>, next: Id)
      requires forall k :: k in initial ==> k < next
      ensures Valid() && products == initial && files == uploaded && nextId == next
    {
      products, files, nextId := initial, uploaded, next;
    }

    /** The handler from `new Product` on: validation and `save()`; on an
        error the uploaded file at `stored` is removed. */
    method SaveNew(p: Product, stored: set<string>, saveFails: bool) returns (r: CreateReply)
      requires Valid()
      modifies this
      ensures Valid()
      ensures SaveOutcome(r, p, saveFails)
      ensures r.Created? ==> ProductModel.Valid(p)
      ensures r.Created? ==> r.id !in old(products) && products == old(products)[r.id := p]
      ensures r.Created? ==> files == old(files)
      ensures !r.Created? ==> products == old(products) && files == old(files) - stored
    {
      var errs := Validate(p);
      if errs != [] || saveFails {
        files := files - stored;
        if errs != [] {
          return ValidationFailed(errs);
        }
        return ServerError;
      }
      var id := nextId;
      nextId := nextId + 1;
      products := products[id := p];
      return Created(id, p);
    }

    /** `POST /` with multer in front of it: the upload is filtered and
        stored, then the handler checks the body, builds the document and
        saves it. An error after the document was built removes the file;
        the 400 for missing fields leaves it in place. */
    method Create(b: Body, price: JsNumber, file: Option<Upload>, requester: Id, saveFails: bool)
        returns (r: CreateReply)
      requires Valid()
      modifies this
      ensures Valid()
      ensures r.UploadRejected? <==> file.Some? && !FileFilter(file.value.originalName, file.value.mimetype)
      ensures r.UploadRejected? ==> files == old(files) && products == old(products)
      ensures !r.UploadRejected? && !HasAllFields(b) ==>
                && r == MissingFields(MissingOf(b))
                && files == old(files) + StoredPath(file) && products == old(products)
      ensures !r.UploadRejected? && HasAllFields(b) ==>
                && SaveOutcome(r, NewProduct(b, price, file, requester), saveFails)
                && (r.Created? ==> files == old(files) + StoredPath(file))
                && (!r.Created? ==> files == old(files) - StoredPath(file))
      ensures r.Created? ==>
                && ProductModel.Valid(r.product) && r.id !in old(products)
                && products == old(products)[r.id := r.product]
      ensures !r.Created? ==> products == old(products)
    {
      if file.Some? && !FileFilter(file.value.originalName, file.value.mimetype) {
        return UploadRejected;
      }
      ghost var before := files;
      var stored := StoredPath(file);
      files := files + stored;
      if !HasAllFields(b) {
        return MissingFields(MissingOf(b));
      }
      var p := NewProduct(b, price, file, requester);
      r := SaveNew(p, stored, saveFails);
      AddThenRemove(before, stored);
    }

    /** `GET /:id`: 500 when `findById` rejects, 404 when there is no such
        product, otherwise its view. */
    method GetById(id: Id, isProduction: bool, lookupFails: bool) returns (r: GetReply)
      ensures r.FetchFailed? <==> lookupFails
      ensures r.ProductNotFound? <==> !lookupFails && id !in products
      ensures r.Found? <==> !lookupFails && id in products
      ensures r.Found? ==> r.view.product == products[id]
                           && r.view.imageUrls == UrlsOf(KeepTruthy(products[id].images), BaseUrl(isProduction))
    {
      if lookupFails {
        return FetchFailed;
      }
      if id !in products {
        return ProductNotFound;
      }
      return Found(View(products[id], BaseUrl(isProduction)));
    }
  }
}
