/**
 * The public catalog page: the product list narrowed by the search box and
 * the selected sidebar category, and what the page shows for it.
 */
module Catalog {
  import opened Wrappers
  import opened Text
  import opened Seqs
  import opened Products

  /** The sidebar's sentinel meaning "no category restriction". */
  const AllProducts: String := "All Products"

  /** The sidebar entries, the sentinel first. */
  const Categories: seq<String> := [AllProducts, "Drones", "Robotic Arms", "Sensors", "Kits", "Other"]

  /** `matchSearch`: the folded search text occurs in the folded name or description. */
  predicate MatchSearch(p: Product, search: String)
    ensures search == [] ==> MatchSearch(p, search)
    ensures MatchSearch(p, search) ==> |search| <= |p.name| || |search| <= |p.description|
  {
    Contains(Lower(p.name), Lower(search)) || Contains(Lower(p.description), Lower(search))
  }

  /** `matchCategory`: the sentinel, or the exact (case-sensitive) category. */
  predicate MatchCategory(p: Product, category: String)
    ensures category == AllProducts ==> MatchCategory(p, category)
    ensures category != AllProducts ==> (MatchCategory(p, category) <==> p.category == category)
  {
    category == AllProducts || p.category == category
  }

  predicate Matches(p: Product, search: String, category: String) {
    MatchSearch(p, search) && MatchCategory(p, category)
  }

  /** The callback handed to `products.filter`. */
  function Matcher(search: String, category: String): Product -> bool {
    p => Matches(p, search, category)
  }

  /** `filtered`: the products that match both tests, in list order. */
  function Filtered(products: seq<Product>, search: String, category: String): (r: seq<Product>)
    ensures |r| <= |products|
    ensures forall p :: p in r ==> p in products && Matches(p, search, category)
  {
    Filter(products, Matcher(search, category))
  }

  /** The result keeps the relative order of the products it keeps. */
  lemma FilteredIsSubsequence(products: seq<Product>, search: String, category: String)
    ensures SubsequenceOf(Filtered(products, search, category), products)
  {
    FilterSubsequence(products, Matcher(search, category));
  }

  /**
   * A product is shown exactly when it matches, and then as often as it is
   * listed: nothing that passes both tests is dropped.
   */
  lemma FilteredExactly(products: seq<Product>, search: String, category: String)
    ensures forall p :: multiset(Filtered(products, search, category))[p]
                        == if Matches(p, search, category) then multiset(products)[p] else 0
    ensures forall p :: p in Filtered(products, search, category)
                        <==> p in products && Matches(p, search, category)
  {
    FilterMultiset(products, Matcher(search, category));
    forall p ensures p in Filtered(products, search, category) <==> p in products && Matches(p, search, category) {
      assert p in multiset(products) <==> p in products;
    }
  }

  /** The page's initial state (empty search, the sentinel) shows the whole list. */
  lemma FilteredInitialIsIdentity(products: seq<Product>)
    ensures Filtered(products, "", AllProducts) == products
  {
    assert Lower("") == "";
    FilterUnchangedIff(products, Matcher("", AllProducts));
  }

  /** Under a real category every shown product carries exactly that category. */
  lemma FilteredCategoryExact(products: seq<Product>, search: String, category: String)
    requires category != AllProducts
    ensures forall p :: p in Filtered(products, search, category) ==> p.category == category
  {
  }

  /** Filtering the filtered list again with the same inputs changes nothing. */
  lemma FilteredIdempotent(products: seq<Product>, search: String, category: String)
    ensures Filtered(Filtered(products, search, category), search, category)
            == Filtered(products, search, category)
  {
    FilterIdempotent(products, Matcher(search, category));
  }

  /** The search test in terms of positions: the folded text occurs at some index. */
  lemma MatchSearchIff(p: Product, search: String)
    ensures MatchSearch(p, search)
            <==> OccursIn(Lower(p.name), Lower(search)) || OccursIn(Lower(p.description), Lower(search))
  {
    ContainsIff(Lower(p.name), Lower(search));
    ContainsIff(Lower(p.description), Lower(search));
  }

  /** The search ignores case: a search text and its lower-case form match alike. */
  lemma MatchSearchIgnoresCase(p: Product, search: String)
    ensures MatchSearch(p, search) == MatchSearch(p, Lower(search))
  {
    LowerIdempotent(search);
  }

  /**
   * A product whose category the sidebar does not list still appears under
   * the sentinel when the search matches, and under no other entry.
   */
  lemma UnlistedCategoryOnlyUnderAll(products: seq<Product>, p: Product, search: String, selected: String)
    requires p in products && p.category !in Categories
    requires selected in Categories
    ensures p in Filtered(products, search, selected) <==> selected == AllProducts && MatchSearch(p, search)
  {
    FilteredExactly(products, search, selected);
  }

  /** What the product area shows. */
  datatype CatalogView = Spinner | Grid(cards: seq<Product>) | NothingFound

  /**
   * The spinner while loading, the "No products found" state when nothing
   * matches, the grid of filtered cards otherwise.
   */
  function View(loading: bool, products: seq<Product>, search: String, category: String): (v: CatalogView)
    ensures v.Spinner? <==> loading
    ensures v.NothingFound? <==> !loading && forall p :: p in products ==> !Matches(p, search, category)
    ensures v.Grid? ==> v.cards == Filtered(products, search, category) && v.cards != []
  {
    FilteredExactly(products, search, category);
    var shown := Filtered(products, search, category);
    if loading then Spinner
    else if |shown| > 0 then Grid(shown)
    else
      assert forall p :: p in products ==> !Matches(p, search, category) by {
        forall p | p in products ensures !Matches(p, search, category) {
          assert p !in shown;
        }
      }
      NothingFound
  }

  /** The two-product example: searching "drone" under the sentinel finds only the drone. */
  lemma ExampleSearch()
    ensures
      var arm := Product("a1", "Arm X", "6-axis", 1000, 0, "Robotic Arms", None, None);
      var drone := Product("d1", "Drone Y", "aerial", 500, 5, "Drones", None, None);
      Filtered([arm, drone], "drone", AllProducts) == [drone]
  {
    var arm := Product("a1", "Arm X", "6-axis", 1000, 0, "Robotic Arms", None, None);
    var drone := Product("d1", "Drone Y", "aerial", 500, 5, "Drones", None, None);
    var keep := Matcher("drone", AllProducts);
    ExampleDroneMatches(drone);
    ExampleArmMisses(arm);
    assert [drone][1..] == [] && Filter([drone], keep) == [drone];
    assert [arm, drone][1..] == [drone] && Filter([arm, drone], keep) == Filter([drone], keep);
  }

  lemma ExampleDroneMatches(drone: Product)
    requires drone.name == "Drone Y"
    ensures Matches(drone, "drone", AllProducts)
  {
    var pat, name := Lower("drone"), Lower(drone.name);
    assert forall i :: 0 <= i < |pat| ==> pat[i] == name[i] by {
      forall i | 0 <= i < |pat| ensures pat[i] == name[i] {
        assert LowerChar("drone"[i]) == LowerChar("Drone Y"[i]);
      }
    }
    assert pat <= name;
  }

  lemma ExampleArmMisses(arm: Product)
    requires arm.name == "Arm X" && arm.description == "6-axis"
    ensures !Matches(arm, "drone", AllProducts)
  {
    var pat, name, desc := Lower("drone"), Lower(arm.name), Lower(arm.description);
    assert pat[0] == 'd' && name[0] == 'a' && desc[0] == '6' && desc[1] == '-';
    MissesByFirstChar(name, pat);
    MissesByFirstChar(desc, pat);
  }

  /** A pattern is not found when no position it would fit at starts with its first character. */
  lemma {:induction false} MissesByFirstChar(text: String, pat: String)
    requires pat != []
    requires forall i :: 0 <= i && i + |pat| <= |text| ==> text[i] != pat[0]
    ensures !Contains(text, pat)
    decreases |text|
  {
    if |pat| <= |text| {
      assert text[0] != pat[0];
      forall i | 0 <= i && i + |pat| <= |text[1..]| ensures text[1..][i] != pat[0] {
        assert text[1..][i] == text[i + 1];
      }
      MissesByFirstChar(text[1..], pat);
    }
  }
}
