/**
 * The product record the backend returns and the client only reads.
 * Optional fields (`features`, `images`, an image's `url`) are `Option`s,
 * because the client reaches them through optional chaining.
 */
module Products {
  import opened Wrappers
  import opened Text

  datatype ImageRef = ImageRef(url: Option<String>)

  datatype Product = Product(
    id: String,                     // `_id`, assigned by the backend
    name: String,
    description: String,
    price: int,
    stock: int,
    category: String,
    features: Option<seq<String>>,
    images: Option<seq<ImageRef>>
  )

  /** `product.images?.[0]?.url`. */
  function FirstImageUrl(p: Product): Option<String> {
    match p.images
    case None => None
    case Some(imgs) => if |imgs| == 0 then None else imgs[0].url
  }

  /**
   * `product.images?.[0]?.url || placeholder`: the primary image when it is
   * present and non-empty, the placeholder otherwise.
   */
  function ThumbnailUrl(p: Product, placeholder: String): (u: String)
    ensures FirstImageUrl(p).Some? && FirstImageUrl(p).value != [] ==> u == FirstImageUrl(p).value
    ensures FirstImageUrl(p).None? || FirstImageUrl(p).value == [] ==> u == placeholder
    ensures p.images.None? || p.images.value == [] ==> u == placeholder
    ensures placeholder != [] ==> u != []
  {
    match FirstImageUrl(p)
    case Some(url) => if url != [] then url else placeholder
    case None => placeholder
  }
}
