/**
 * The create/edit dialog: the form it starts with, how an existing product
 * is copied into the form, the multipart body built from the form on submit,
 * and which request carries it.
 */
module Modal {
  import opened Wrappers
  import opened Text
  import opened Products

  // ---------------------------------------------------------------------------
  // Form state

  /**
   * A form field holding either what the user typed or a number copied from
   * a product (`formData.price`/`formData.stock` can be either).
   */
  datatype FieldValue = TextValue(text: String) | NumberValue(n: int)

  datatype Form = Form(
    name: String,
    description: String,
    price: FieldValue,
    category: String,
    stock: FieldValue,
    features: String
  )

  const DefaultCategory: String := "Drones"

  /** The dialog's initial `formData`: only the category holds a value. */
  function DefaultForm(): (f: Form)
    ensures f.category == "Drones"
    ensures f.name == f.description == f.features == ""
    ensures WireText(f.price) == WireText(f.stock) == ""
  {
    Form("", "", TextValue(""), DefaultCategory, TextValue(""), "")
  }

  /** `product.features?.join(', ') || ''`. */
  function FeaturesText(features: Option<seq<String>>): (s: String)
    ensures features.None? ==> s == ""
    ensures features.Some? && |features.value| == 1 ==> s == features.value[0]
    ensures features.Some? && |features.value| > 1 ==> |s| >= |", "|
  {
    match features
    case None => ""
    case Some(tags) => Join(tags, ", ")
  }

  /** `n || ''` for a number: zero is falsy and becomes the empty text. */
  function NumberOrBlank(n: int): FieldValue {
    if n == 0 then TextValue("") else NumberValue(n)
  }

  /** `product.category || 'Drones'`. */
  function CategoryOrDefault(category: String): String {
    if category == [] then DefaultCategory else category
  }

  /**
   * The edit prefill of `useEffect` as written: strings are copied, a blank
   * category becomes the default, and a zero price or stock becomes blank.
   */
  function PrefillAsWritten(p: Product): (f: Form)
    ensures f.name == p.name && f.description == p.description
    ensures f.category != [] && (p.category != [] ==> f.category == p.category)
    ensures p.category == [] ==> f.category == DefaultCategory
    ensures f.features == FeaturesText(p.features)
    ensures f.price == TextValue("") <==> p.price == 0
    ensures p.price != 0 ==> f.price == NumberValue(p.price)
    ensures f.stock == TextValue("") <==> p.stock == 0
    ensures p.stock != 0 ==> f.stock == NumberValue(p.stock)
  {
    Form(p.name, p.description, NumberOrBlank(p.price), CategoryOrDefault(p.category),
         NumberOrBlank(p.stock), FeaturesText(p.features))
  }

  /** The edit prefill with `??` instead of `||` on the numbers: zero is kept. */
  function Prefill(p: Product): Form {
    Form(p.name, p.description, NumberValue(p.price), CategoryOrDefault(p.category),
         NumberValue(p.stock), FeaturesText(p.features))
  }

  /**
   * The form the dialog shows once mounted: the default for a new product,
   * the prefill as written for an edit. The category select is never empty.
   */
  function InitialForm(product: Option<Product>): (f: Form)
    ensures f.category != []
    ensures product.None? ==> f == DefaultForm()
    ensures product.Some? ==> f == PrefillAsWritten(product.value)
  {
    match product
    case None => DefaultForm()
    case Some(p) => PrefillAsWritten(p)
  }

  /**
   * The browser's check of the `required` inputs before it lets the form
   * submit: name, description, price and stock must not be empty (the
   * category is a select and always holds a value).
   */
  predicate RequiredFilled(form: Form)
    ensures form.price == TextValue("") || form.stock == TextValue("") ==> !RequiredFilled(form)
    ensures form.price.NumberValue? && form.stock.NumberValue? ==>
      (RequiredFilled(form) <==> form.name != [] && form.description != [])
  {
    form.name != [] && form.description != [] && WireText(form.price) != [] && WireText(form.stock) != []
  }

  /** The two prefills differ only where the product has a zero price or stock. */
  lemma PrefillAsWrittenAgreesOffZero(p: Product)
    ensures PrefillAsWritten(p) == Prefill(p) <==> p.price != 0 && p.stock != 0
  {
    if p.price == 0 {
      assert PrefillAsWritten(p).price != Prefill(p).price;
    }
    if p.stock == 0 {
      assert PrefillAsWritten(p).stock != Prefill(p).stock;
    }
  }

  /** Tags are joined with ", "; a missing list, no tags, or one empty tag give "". */
  lemma FeaturesTextEmptyIff(features: Option<seq<String>>)
    ensures FeaturesText(features) == ""
            <==> features.None? || |features.value| == 0 || (|features.value| == 1 && features.value[0] == "")
  {
    if features.Some? {
      JoinEmptyIff(features.value, ", ");
    }
  }

  // ---------------------------------------------------------------------------
  // The multipart body

  datatype ImageFile = ImageFile(fileName: String, bytes: seq<bv8>)

  datatype PartValue = TextPart(text: String) | FilePart(file: ImageFile)

  /** One `data.append(field, value)`. */
  datatype Part = Part(field: String, value: PartValue)

  /** What `FormData.append` sends for a field value: numbers as decimal text. */
  function WireText(v: FieldValue): String {
    match v
    case TextValue(s) => s
    case NumberValue(n) => IntToDecimal(n)
  }

  /** `JSON.stringify({})`. */
  const EmptySpecifications: String := "{}"

  /** The seven text parts, in the order they are appended. */
  function TextParts(form: Form): seq<Part> {
    [ Part("name", TextPart(form.name)),
      Part("description", TextPart(form.description)),
      Part("price", TextPart(WireText(form.price))),
      Part("category", TextPart(form.category)),
      Part("stock", TextPart(WireText(form.stock))),
      Part("features", TextPart(form.features)),
      Part("specifications", TextPart(EmptySpecifications)) ]
  }

  /** One `images` part per selected file, in selection order. */
  function ImageParts(images: seq<ImageFile>): seq<Part> {
    seq(|images|, i requires 0 <= i < |images| => Part("images", FilePart(images[i])))
  }

  /** The body `handleSubmit` sends. */
  function Payload(form: Form, images: seq<ImageFile>): seq<Part> {
    TextParts(form) + ImageParts(images)
  }

  /** `handleSubmit`'s successive `data.append` calls and its loop over the files. */
  method BuildPayload(form: Form, images: seq<ImageFile>) returns (parts: seq<Part>)
    ensures parts == Payload(form, images)
  {
    parts := [];
    parts := parts + [Part("name", TextPart(form.name))];
    parts := parts + [Part("description", TextPart(form.description))];
    parts := parts + [Part("price", TextPart(WireText(form.price)))];
    parts := parts + [Part("category", TextPart(form.category))];
    parts := parts + [Part("stock", TextPart(WireText(form.stock)))];
    parts := parts + [Part("features", TextPart(form.features))];
    parts := parts + [Part("specifications", TextPart(EmptySpecifications))];
    if |images| > 0 {
      for i := 0 to |images|
        invariant parts == TextParts(form) + ImageParts(images[..i])
      {
        assert ImageParts(images[..i + 1]) == ImageParts(images[..i]) + [Part("images", FilePart(images[i]))];
        parts := parts + [Part("images", FilePart(images[i]))];
      }
      assert images[..|images|] == images;
    } else {
      assert ImageParts(images) == [];
    }
  }

  function FieldNames(parts: seq<Part>): seq<String> {
    seq(|parts|, i requires 0 <= i < |parts| => parts[i].field)
  }

  /**
   * The body has the seven text fields in order, then one `images` field per
   * file: `7 + |images|` parts, exactly seven without files.
   */
  lemma PayloadShape(form: Form, images: seq<ImageFile>)
    ensures |Payload(form, images)| == 7 + |images|
    ensures FieldNames(Payload(form, images))
            == ["name", "description", "price", "category", "stock", "features", "specifications"]
               + seq(|images|, _ => "images")
    ensures images == [] ==> Payload(form, images) == TextParts(form)
  {
    var names := FieldNames(Payload(form, images));
    var expected := ["name", "description", "price", "category", "stock", "features", "specifications"]
                    + seq(|images|, _ => "images");
    assert |names| == |expected|;
    forall i | 0 <= i < |names| ensures names[i] == expected[i] {
      if i >= 7 {
        assert Payload(form, images)[i] == ImageParts(images)[i - 7];
      }
    }
  }

  /** The first text value sent under `field`, as a form parser reads it. */
  function TextField(parts: seq<Part>, field: String): Option<String> {
    if parts == [] then None
    else if parts[0].field == field && parts[0].value.TextPart? then Some(parts[0].value.text)
    else TextField(parts[1..], field)
  }

  /** Every file sent under `field`, in order. */
  function Files(parts: seq<Part>, field: String): seq<ImageFile> {
    if parts == [] then []
    else (if parts[0].field == field && parts[0].value.FilePart? then [parts[0].value.file] else [])
         + Files(parts[1..], field)
  }

  lemma {:induction false} FilesOfImageParts(images: seq<ImageFile>)
    ensures Files(ImageParts(images), "images") == images
  {
    if images != [] {
      FilesOfImageParts(images[1..]);
      assert ImageParts(images)[1..] == ImageParts(images[1..]);
    }
  }

  lemma {:induction false} FilesAppend(a: seq<Part>, b: seq<Part>, field: String)
    ensures Files(a + b, field) == Files(a, field) + Files(b, field)
  {
    if a != [] {
      FilesAppend(a[1..], b, field);
      assert (a + b)[1..] == a[1..] + b;
    } else {
      assert a + b == b;
    }
  }

  /** A parser finds the first text part with the field's name. */
  lemma {:induction false} TextFieldAt(parts: seq<Part>, field: String, k: nat)
    requires k < |parts| && parts[k].field == field && parts[k].value.TextPart?
    requires forall j :: 0 <= j < k ==> parts[j].field != field
    ensures TextField(parts, field) == Some(parts[k].value.text)
  {
    if k > 0 {
      TextFieldAt(parts[1..], field, k - 1);
    }
  }

  lemma {:induction false} FilesOfTextOnly(parts: seq<Part>, field: String)
    requires forall j :: 0 <= j < |parts| ==> parts[j].value.TextPart?
    ensures Files(parts, field) == []
  {
    if parts != [] {
      FilesOfTextOnly(parts[1..], field);
    }
  }

  /**
   * Reading the body back gives every form value under its own name,
   * `specifications` as "{}", and the selected files in order.
   */
  lemma PayloadRoundTrip(form: Form, images: seq<ImageFile>)
    ensures var body := Payload(form, images);
      && TextField(body, "name") == Some(form.name)
      && TextField(body, "description") == Some(form.description)
      && TextField(body, "price") == Some(WireText(form.price))
      && TextField(body, "category") == Some(form.category)
      && TextField(body, "stock") == Some(WireText(form.stock))
      && TextField(body, "features") == Some(form.features)
      && TextField(body, "specifications") == Some("{}")
      && Files(body, "images") == images
  {
    FilesAppend(TextParts(form), ImageParts(images), "images");
    FilesOfImageParts(images);
    FilesOfTextOnly(TextParts(form), "images");
    PayloadTextFields(form, images);
  }

  /** The seven text fields of the body, each read back under its own name. */
  lemma PayloadTextFields(form: Form, images: seq<ImageFile>)
    ensures var body := Payload(form, images);
      && TextField(body, "name") == Some(form.name)
      && TextField(body, "description") == Some(form.description)
      && TextField(body, "price") == Some(WireText(form.price))
      && TextField(body, "category") == Some(form.category)
      && TextField(body, "stock") == Some(WireText(form.stock))
      && TextField(body, "features") == Some(form.features)
      && TextField(body, "specifications") == Some("{}")
  {
    var body := Payload(form, images);
    TextFieldAt(body, "name", 0);
    TextFieldAt(body, "description", 1);
    TextFieldAt(body, "price", 2);
    TextFieldAt(body, "category", 3);
    TextFieldAt(body, "stock", 4);
    TextFieldAt(body, "features", 5);
    TextFieldAt(body, "specifications", 6);
  }

  /**
   * With the zero-keeping prefill, an untouched edit form passes the browser's
   * required check whenever the product has a name and a description, and
   * submitting it sends back the product's own values: the numbers read back
   * to its price and stock.
   */
  lemma EditRoundTrip(p: Product, images: seq<ImageFile>)
    ensures RequiredFilled(Prefill(p)) <==> p.name != [] && p.description != []
    ensures var body := Payload(Prefill(p), images);
      && TextField(body, "name") == Some(p.name)
      && TextField(body, "description") == Some(p.description)
      && TextField(body, "price").Some? && ParseInt(TextField(body, "price").value) == Some(p.price)
      && TextField(body, "stock").Some? && ParseInt(TextField(body, "stock").value) == Some(p.stock)
      && TextField(body, "category") == Some(if p.category == "" then "Drones" else p.category)
      && TextField(body, "features") == Some(FeaturesText(p.features))
  {
    PayloadRoundTrip(Prefill(p), images);
    DecimalRoundTrip(p.price);
    DecimalRoundTrip(p.stock);
    assert WireText(Prefill(p).price) != [] && WireText(Prefill(p).stock) != [];
  }

  /**
   * As written, editing a product whose stock is 0 shows a blank stock field;
   * the form then fails the browser's required check, so the user must type
   * the stock again before the edit can be saved.
   */
  lemma ZeroStockPrefillIsBlank(p: Product)
    requires p.stock == 0
    ensures PrefillAsWritten(p).stock == TextValue("")
    ensures WireText(InitialForm(Some(p)).stock) == []
    ensures !RequiredFilled(InitialForm(Some(p)))
    ensures RequiredFilled(Prefill(p)) <==> p.name != [] && p.description != []
  {
    assert WireText(Prefill(p).stock) == IntToDecimal(0);
  }

  // ---------------------------------------------------------------------------
  // The request

  const CollectionPath: String := "/products"

  /** `/products/${id}`. */
  function ResourcePath(id: String): (path: String)
    ensures |path| == |CollectionPath| + 1 + |id|
    ensures path[..|CollectionPath| + 1] == "/products/" && path[|CollectionPath| + 1..] == id
  {
    CollectionPath + "/" + id
  }

  /** Distinct products are addressed by distinct paths. */
  lemma ResourcePathInjective(a: String, b: String)
    ensures ResourcePath(a) == ResourcePath(b) <==> a == b
  {
    if ResourcePath(a) == ResourcePath(b) {
      assert a == ResourcePath(a)[|CollectionPath| + 1..];
    }
  }

  datatype Request = Create(path: String) | Update(path: String)

  /** An edit dialog updates its product's resource; a new dialog creates in the collection. */
  function SubmitRequest(product: Option<Product>): (r: Request)
    ensures r.Update? <==> product.Some?
    ensures product.Some? ==> r.path == ResourcePath(product.value.id)
    ensures product.None? ==> r.path == CollectionPath
  {
    match product
    case Some(p) => Update(ResourcePath(p.id))
    case None => Create(CollectionPath)
  }
}
