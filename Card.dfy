/**
 * One product card of the catalog grid: its image, its stock badge and its
 * cart button.
 */
module Card {
  import opened Text
  import opened Products
  import Admin

  const CardPlaceholder: String := "https://via.placeholder.com/300x200/7c3aed/ffffff?text=No+Image"

  /** `imageUrl`: the primary image, or the card placeholder; never empty. */
  function CardImageUrl(p: Product): (u: String)
    ensures u != []
    ensures FirstImageUrl(p).Some? && FirstImageUrl(p).value != [] ==> u == FirstImageUrl(p).value
    ensures FirstImageUrl(p).None? || FirstImageUrl(p).value == [] ==> u == CardPlaceholder
  {
    ThumbnailUrl(p, CardPlaceholder)
  }

  datatype Badge = OutOfStock | LowStock

  /** The badges drawn over the image, at most one. */
  function Badges(stock: int): (r: seq<Badge>)
    ensures |r| <= 1
    ensures OutOfStock in r <==> stock == 0
    ensures LowStock in r <==> 0 < stock < 10
  {
    (if stock == 0 then [OutOfStock] else [])
    + (if stock > 0 && stock < 10 then [LowStock] else [])
  }

  datatype CartButton = CartButton(disabled: bool, text: String)

  /** The cart button: disabled and labelled "Out of Stock" when nothing is left. */
  function CartButtonFor(stock: int): (b: CartButton)
    ensures b.disabled <==> stock == 0
    ensures b.text == (if b.disabled then "Out of Stock" else "Add to Cart")
  {
    CartButton(stock == 0, if stock == 0 then "Out of Stock" else "Add to Cart")
  }

  /**
   * The card agrees with the admin table and dashboard: the button is disabled
   * exactly under the "Out of Stock" badge and the table's danger badge, and
   * the "Low Stock" badge shows exactly for the rows the low-stock card counts.
   */
  lemma CardAgreesWithAdmin(p: Product)
    ensures CartButtonFor(p.stock).disabled <==> OutOfStock in Badges(p.stock)
    ensures OutOfStock in Badges(p.stock) <==> Admin.StockBadgeClass(p.stock) == Admin.StockDanger
    ensures LowStock in Badges(p.stock) <==> Admin.IsLowStock(p)
    ensures p.stock >= 0 ==> (LowStock in Badges(p.stock) <==> Admin.StockBadgeClass(p.stock) == Admin.StockWarning)
  {
  }
}
