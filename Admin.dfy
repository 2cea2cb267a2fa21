/**
 * The admin console: the in-memory product list it keeps, the dashboard
 * statistics computed from that list, the per-row stock badge, and the list
 * updates that a load and a delete perform.
 */
module Admin {
  import opened Wrappers
  import opened Text
  import opened Seqs
  import opened Products

  // ---------------------------------------------------------------------------
  // Dashboard statistics

  /** The inventory value of one row: price times units in stock. */
  function LineValue(p: Product): int {
    p.price * p.stock
  }

  /** `products.reduce((sum, p) => sum + p.price * p.stock, 0)`, folded from the left. */
  function TotalValue(products: seq<Product>): (v: int)
    ensures products == [] ==> v == 0
    ensures |products| == 1 ==> v == LineValue(products[0])
  {
    if products == [] then 0
    else TotalValue(products[..|products| - 1]) + LineValue(products[|products| - 1])
  }

  /** With no negative price or stock, the inventory value is never negative. */
  lemma {:induction false} TotalValueNonNegative(products: seq<Product>)
    requires forall i :: 0 <= i < |products| ==> products[i].price >= 0 && products[i].stock >= 0
    ensures TotalValue(products) >= 0
    decreases |products|
  {
    if products != [] {
      var last := products[|products| - 1];
      TotalValueNonNegative(products[..|products| - 1]);
      assert LineValue(last) >= 0 by {
        assert last.price >= 0 && last.stock >= 0;
      }
    }
  }

  /** `p.stock < 10 && p.stock > 0`. */
  predicate IsLowStock(p: Product) {
    p.stock < 10 && p.stock > 0
  }

  /** `products.filter(p => p.stock < 10 && p.stock > 0).length`. */
  function LowStock(products: seq<Product>): (n: nat)
    ensures n <= |products|
    ensures (forall p :: p in products ==> !(0 < p.stock < 10)) ==> n == 0
  {
    var low := Filter(products, IsLowStock);
    assert low != [] ==> low[0] in low;
    |low|
  }

  /** `products.map(p => p.category)`. */
  function CategoryList(products: seq<Product>): (r: seq<String>)
    ensures |r| == |products|
    ensures forall i :: 0 <= i < |products| ==> r[i] == products[i].category
  {
    seq(|products|, i requires 0 <= i < |products| => products[i].category)
  }

  /** `[...new Set(products.map(p => p.category))].length`. */
  function UniqueCategories(products: seq<Product>): (n: nat)
    ensures n <= |products|
    ensures products != [] ==> n >= 1
  {
    var cats := CategoryList(products);
    assert products != [] ==> cats[0] in Dedup(cats);
    |Dedup(cats)|
  }

  datatype Stats = Stats(totalProducts: nat, totalValue: int, lowStock: nat, uniqueCategories: nat)

  /** The four dashboard cards. */
  function ComputeStats(products: seq<Product>): (st: Stats)
    ensures st.totalProducts == |products|
    ensures st.lowStock <= st.totalProducts
    ensures st.uniqueCategories <= st.totalProducts
    ensures products != [] ==> st.uniqueCategories >= 1
    ensures products == [] ==> st == Stats(0, 0, 0, 0)
  {
    Stats(|products|, TotalValue(products), LowStock(products), UniqueCategories(products))
  }

  lemma {:induction false} TotalValueAppend(a: seq<Product>, b: seq<Product>)
    ensures TotalValue(a + b) == TotalValue(a) + TotalValue(b)
    decreases |b|
  {
    if b == [] {
      assert a + b == a;
    } else {
      var b' := b[..|b| - 1];
      TotalValueAppend(a, b');
      assert (a + b)[..|a + b| - 1] == a + b';
      assert (a + b)[|a + b| - 1] == b[|b| - 1];
    }
  }

  /** Taking one row out of the list takes its value out of the total. */
  lemma TotalValueRemoveAt(pre: seq<Product>, x: Product, post: seq<Product>)
    ensures TotalValue(pre + [x] + post) == TotalValue(pre + post) + LineValue(x)
  {
    assert TotalValue([x]) == LineValue(x) by {
      assert [x][..0] == [];
    }
    TotalValueAppend(pre + [x], post);
    TotalValueAppend(pre, [x]);
    TotalValueAppend(pre, post);
  }

  /** The total inventory value does not depend on the order of the list. */
  lemma {:induction false} TotalValueOrderIndependent(a: seq<Product>, b: seq<Product>)
    requires multiset(a) == multiset(b)
    ensures TotalValue(a) == TotalValue(b)
    decreases |a|
  {
    if a == [] {
      assert |b| == |multiset(b)| == 0;
    } else {
      var a' := a[..|a| - 1];
      var x := a[|a| - 1];
      assert x in multiset(b) by {
        assert a == a' + [x];
      }
      var k :| 0 <= k < |b| && b[k] == x;
      var b' := b[..k] + b[k + 1..];
      PermutationMinusOne(a, b, k);
      TotalValueOrderIndependent(a', b');
      assert b == b[..k] + [x] + b[k + 1..];
      TotalValueRemoveAt(b[..k], x, b[k + 1..]);
    }
  }

  /** Dropping the last of `a` and a matching element of `b` keeps them permutations. */
  lemma PermutationMinusOne(a: seq<Product>, b: seq<Product>, k: nat)
    requires multiset(a) == multiset(b) && a != [] && k < |b| && b[k] == a[|a| - 1]
    ensures multiset(a[..|a| - 1]) == multiset(b[..k] + b[k + 1..])
  {
    var x := b[k];
    assert a == a[..|a| - 1] + [x];
    assert b == b[..k] + [x] + b[k + 1..];
    assert multiset(a[..|a| - 1]) == multiset(a) - multiset{x};
    assert multiset(b[..k] + b[k + 1..]) == multiset(b) - multiset{x};
  }

  /** Appending a row raises the low-stock count by one exactly when `0 < stock < 10`. */
  lemma LowStockAppend(products: seq<Product>, p: Product)
    ensures LowStock(products + [p]) == LowStock(products) + if 0 < p.stock < 10 then 1 else 0
  {
    FilterAppend(products, [p], IsLowStock);
    assert [p][1..] == [];
  }

  /** The positions of the rows with `0 < stock < 10`. */
  ghost function LowRows(products: seq<Product>): set<int> {
    set i | 0 <= i < |products| && 0 < products[i].stock < 10
  }

  /** The low-stock count is the number of positions holding a row with `0 < stock < 10`. */
  lemma {:induction false} LowStockCountsRows(products: seq<Product>)
    ensures LowStock(products) == |LowRows(products)|
    decreases |products|
  {
    if products != [] {
      var init := products[..|products| - 1];
      var last := products[|products| - 1];
      assert products == init + [last];
      LowStockCountsRows(init);
      LowStockAppend(init, last);
      LowRowsAppend(init, last);
    }
  }

  lemma LowRowsAppend(init: seq<Product>, last: Product)
    ensures LowRows(init + [last]) == LowRows(init) + if 0 < last.stock < 10 then {|init|} else {}
    ensures |init| !in LowRows(init)
  {
    var products := init + [last];
    forall i | 0 <= i < |init| ensures products[i] == init[i] { }
  }

  /** The category card counts the distinct category values, whatever their order. */
  lemma UniqueCategoriesIsDistinctCount(products: seq<Product>)
    ensures UniqueCategories(products) == |set p | p in products :: p.category|
  {
    var cats := CategoryList(products);
    var d := Dedup(cats);
    DistinctCardinality(d);
    assert (set c | c in d) == (set p | p in products :: p.category) by {
      forall c | c in d ensures c in (set p | p in products :: p.category) {
        var i :| 0 <= i < |cats| && cats[i] == c;
        assert products[i] in products;
      }
      forall c | c in (set p | p in products :: p.category) ensures c in d {
        var p :| p in products && p.category == c;
        var i :| 0 <= i < |products| && products[i] == p;
        assert cats[i] == c;
      }
    }
  }

  /** Reordering the list leaves the category count unchanged. */
  lemma UniqueCategoriesOrderIndependent(a: seq<Product>, b: seq<Product>)
    requires multiset(a) == multiset(b)
    ensures UniqueCategories(a) == UniqueCategories(b)
  {
    UniqueCategoriesIsDistinctCount(a);
    UniqueCategoriesIsDistinctCount(b);
    assert forall p :: p in a <==> p in multiset(a);
    assert forall p :: p in b <==> p in multiset(b);
    assert (set p | p in a :: p.category) == (set p | p in b :: p.category);
  }

  /** The dashboard for the two-product example. */
  lemma ExampleStats()
    ensures
      var arm := Product("a1", "Arm X", "6-axis", 1000, 0, "Robotic Arms", None, None);
      var drone := Product("d1", "Drone Y", "aerial", 500, 5, "Drones", None, None);
      ComputeStats([arm, drone]) == Stats(2, 2500, 1, 2)
  {
    var arm := Product("a1", "Arm X", "6-axis", 1000, 0, "Robotic Arms", None, None);
    var drone := Product("d1", "Drone Y", "aerial", 500, 5, "Drones", None, None);
    ExampleValue(arm, drone);
    ExampleLowStock(arm, drone);
    ExampleCategories(arm, drone);
  }

  lemma ExampleValue(arm: Product, drone: Product)
    requires arm.stock == 0 && drone.price == 500 && drone.stock == 5
    ensures TotalValue([arm, drone]) == 2500
  {
    assert [arm, drone][..1] == [arm];
  }

  lemma ExampleLowStock(arm: Product, drone: Product)
    requires arm.stock == 0 && drone.stock == 5
    ensures LowStock([arm, drone]) == 1
  {
    assert [arm, drone][1..] == [drone] && [drone][1..] == [];
    assert Filter([arm, drone], IsLowStock) == [drone];
  }

  lemma ExampleCategories(arm: Product, drone: Product)
    requires arm.category == "Robotic Arms" && drone.category == "Drones"
    ensures UniqueCategories([arm, drone]) == 2
  {
    var l := [arm, drone];
    UniqueCategoriesIsDistinctCount(l);
    assert (set p | p in l :: p.category) == {"Robotic Arms", "Drones"};
  }

  // ---------------------------------------------------------------------------
  // Product table rows

  const TablePlaceholder: String := "https://via.placeholder.com/50"

  /** The row thumbnail: the primary image, or the small placeholder; never empty. */
  function RowThumbnailUrl(p: Product): (u: String)
    ensures u != []
    ensures FirstImageUrl(p).Some? && FirstImageUrl(p).value != [] ==> u == FirstImageUrl(p).value
    ensures FirstImageUrl(p).None? || FirstImageUrl(p).value == [] ==> u == TablePlaceholder
  {
    ThumbnailUrl(p, TablePlaceholder)
  }

  datatype StockBadge = StockDanger | StockWarning | StockSuccess

  /** `stock === 0 ? 'stock-danger' : stock < 10 ? 'stock-warning' : 'stock-success'`. */
  function StockBadgeClass(stock: int): (b: StockBadge)
    ensures b == StockDanger <==> stock == 0
    ensures b == StockWarning <==> stock != 0 && stock < 10
    ensures b == StockSuccess <==> stock >= 10
  {
    if stock == 0 then StockDanger else if stock < 10 then StockWarning else StockSuccess
  }

  predicate ShowsWarning(p: Product) {
    StockBadgeClass(p.stock) == StockWarning
  }

  /**
   * With no negative stock in the list, the rows drawn with the warning badge
   * are exactly the rows the low-stock card counts.
   */
  lemma {:induction false} WarningRowsAreLowStock(products: seq<Product>)
    requires forall p :: p in products ==> p.stock >= 0
    ensures Filter(products, ShowsWarning) == Filter(products, IsLowStock)
    ensures |Filter(products, ShowsWarning)| == LowStock(products)
  {
    FilterCongruent(products, ShowsWarning, IsLowStock);
  }

  // ---------------------------------------------------------------------------
  // The in-memory list

  /** The callback of `products.filter(p => p._id !== id)`. */
  function NotId(id: String): Product -> bool {
    (p: Product) => p.id != id
  }

  /** The list without every entry whose `_id` is `id`. */
  function RemoveId(products: seq<Product>, id: String): (r: seq<Product>)
    ensures |r| <= |products|
    ensures forall p :: p in r ==> p in products && p.id != id
  {
    Filter(products, NotId(id))
  }

  /**
   * Removal drops every entry with that id, keeps every other entry as often
   * as it was listed, and keeps their order.
   */
  lemma RemoveIdExactly(products: seq<Product>, id: String)
    ensures SubsequenceOf(RemoveId(products, id), products)
    ensures forall p :: multiset(RemoveId(products, id))[p]
                        == if p.id == id then 0 else multiset(products)[p]
  {
    FilterSubsequence(products, NotId(id));
    FilterMultiset(products, NotId(id));
  }

  /** Removing an id changes the list exactly when some entry carries it. */
  lemma RemoveIdUnchangedIff(products: seq<Product>, id: String)
    ensures RemoveId(products, id) == products <==> forall p :: p in products ==> p.id != id
  {
    FilterUnchangedIff(products, NotId(id));
  }

  /** What `GET /products` came back with. */
  datatype FetchResult =
    | NetworkError                              // the request threw
    | Received(success: bool, data: seq<Product>)

  /** The admin console's component state. */
  class ProductController {
    var products: seq<Product>
    var loading: bool
    var showModal: bool
    var editProduct: Option<Product>

    /** The state before the first load: empty list, spinner on, dialog closed. */
    constructor ()
      ensures products == [] && loading && !showModal && editProduct == None
    {
      products := [];
      loading := true;
      showModal := false;
      editProduct := None;
    }

    /**
     * `loadProducts`: a successful response replaces the list, anything else
     * keeps it; the spinner is turned off either way.
     */
    method Load(response: FetchResult)
      modifies this
      ensures products == if response.Received? && response.success then response.data else old(products)
      ensures !loading
      ensures showModal == old(showModal) && editProduct == old(editProduct)
    {
      if response.Received? && response.success {
        products := response.data;
      }
      loading := false;
    }

    /**
     * `handleDelete(id)`: only when the user confirms and the request
     * completes is every entry with that id removed from the list.
     * `accepted` means only that `api.delete` did not throw: the response
     * body is never read, so a reply with `success: false` still removes
     * the entry.
     */
    method Delete(id: String, confirmed: bool, accepted: bool)
      modifies this
      ensures products == if confirmed && accepted then RemoveId(old(products), id) else old(products)
      ensures loading == old(loading) && showModal == old(showModal) && editProduct == old(editProduct)
    {
      if !confirmed {
        return;
      }
      if accepted {
        products := RemoveId(products, id);
      }
    }

    /** "Add Product": an empty dialog. */
    method OpenCreate()
      modifies this
      ensures showModal && editProduct == None
      ensures products == old(products) && loading == old(loading)
    {
      editProduct := None;
      showModal := true;
    }

    /** The row's edit button: the dialog opens on that product. */
    method OpenEdit(p: Product)
      modifies this
      ensures showModal && editProduct == Some(p)
      ensures products == old(products) && loading == old(loading)
    {
      editProduct := Some(p);
      showModal := true;
    }

    /** The dialog's `onClose`. */
    method CloseModal()
      modifies this
      ensures !showModal && editProduct == None
      ensures products == old(products) && loading == old(loading)
    {
      showModal := false;
      editProduct := None;
    }
  }
}
