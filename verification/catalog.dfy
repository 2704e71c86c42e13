/**
 * The catalog store (lib/data.ts): the fixed category and product tables,
 * `makeProduct`, which attaches each product's category record, and the
 * data invariants the query engine relies on. Dates are epoch milliseconds.
 */
module Catalog {
  import opened JsBuiltins
  import Utils

  datatype Category = Category(
    id: int,
    name: string,
    slug: string,
    image: string,
    description: Option<string>,
    createdAt: int,
    updatedAt: int)

  datatype Product = Product(
    id: int,
    name: string,
    slug: string,
    description: string,
    price: int,
    categoryId: int,
    category: Category,
    tags: seq<string>,
    metalType: string,
    images: seq<string>,
    featured: bool,
    isNewArrival: bool,
    createdAt: int,
    updatedAt: int)

  /** The two read-only tables the query engine reads. */
  datatype Store = Store(categories: seq<Category>, products: seq<Product>)

  // ---------------------------------------------------------------------
  // Data invariants
  // ---------------------------------------------------------------------

  /** Category ids and slugs are pairwise distinct. */
  predicate CategoryKeysUnique(cats: seq<Category>) {
    forall i, j :: 0 <= i < j < |cats| ==> cats[i].id != cats[j].id && cats[i].slug != cats[j].slug
  }

  /** Product ids and slugs are pairwise distinct. */
  predicate ProductKeysUnique(ps: seq<Product>) {
    forall i, j :: 0 <= i < j < |ps| ==> ps[i].id != ps[j].id && ps[i].slug != ps[j].slug
  }

  /** Every product carries the category record its `categoryId` names. */
  predicate CategoriesResolve(st: Store) {
    forall i :: 0 <= i < |st.products| ==>
      st.products[i].category in st.categories && st.products[i].category.id == st.products[i].categoryId
  }

  /** Every product has an image, a positive price, a known metal and lower-case tags. */
  predicate ProductsWellFormed(ps: seq<Product>) {
    forall i :: 0 <= i < |ps| ==>
      && |ps[i].images| > 0
      && ps[i].price > 0
      && ps[i].metalType in Utils.METAL_TYPES
      && forall k :: 0 <= k < |ps[i].tags| ==> IsLower(ps[i].tags[k])
  }

  predicate ValidStore(st: Store) {
    && CategoryKeysUnique(st.categories)
    && ProductKeysUnique(st.products)
    && CategoriesResolve(st)
    && ProductsWellFormed(st.products)
  }

  // ---------------------------------------------------------------------
  // Categories
  // ---------------------------------------------------------------------

  const CATEGORIES: seq<Category> := [
    Category(1, "Rings", "rings",
      "https://images.unsplash.com/photo-1605100804763-247f67b3557e?w=600&auto=format&fit=crop",
      Some("Exquisite rings for every occasion \U{2014} from solitaire diamonds to stackable bands."),
      1704067200000, 1704067200000),
    Category(2, "Necklaces", "necklaces",
      "https://images.unsplash.com/photo-1599643478518-a784e5dc4c8f?w=600&auto=format&fit=crop",
      Some("Elegant necklaces crafted in gold, silver, and platinum with precious gemstones."),
      1704067200000, 1704067200000),
    Category(3, "Earrings", "earrings",
      "https://images.unsplash.com/photo-1617038260897-41a1f14a8ca0?w=600&auto=format&fit=crop",
      Some("From subtle studs to dramatic drops \U{2014} find your perfect pair."),
      1704067200000, 1704067200000),
    Category(4, "Bracelets", "bracelets",
      "https://images.unsplash.com/photo-1611591437281-460bfbe1220a?w=600&auto=format&fit=crop",
      Some("Beautiful bracelets and bangles to adorn your wrists."),
      1704067200000, 1704067200000),
    Category(5, "Pendants", "pendants",
      "https://images.unsplash.com/photo-1535632066927-ab7c9ab60908?w=600&auto=format&fit=crop",
      Some("Meaningful pendants and charms that tell your story."),
      1704067200000, 1704067200000),
    Category(6, "Bangles", "bangles",
      "https://images.unsplash.com/photo-1612945578381-6481cdd73b0a?q=80&w=870&auto=format&fit=crop&ixlib=rb-4.1.0&ixid=M3wxMjA3fDB8MHxwaG90by1wYWdlfHx8fGVufDB8fHx8fA%3D%3D?w=600&auto=format&fit=crop",
      Some("Traditional and contemporary bangles in gold and silver."),
      1704067200000, 1704067200000),
    Category(7, "Sets", "sets",
      "https://images.unsplash.com/photo-1515562141207-7a88fb7ce338?w=600&auto=format&fit=crop",
      Some("Curated jewellery sets for a perfectly coordinated look."),
      1704067200000, 1704067200000)
  ]

  /** `CATEGORIES.find((c) => c.id === id)`. */
  function CategoryById(id: int): Option<Category> {
    Find(CATEGORIES, (c: Category) => c.id == id)
  }

  /** The seven categories have ids 1 to 7, in order, and distinct slugs. */
  lemma CategoriesWellKeyed()
    ensures |CATEGORIES| == 7
    ensures forall i :: 0 <= i < |CATEGORIES| ==> CATEGORIES[i].id == i + 1
    ensures CategoryKeysUnique(CATEGORIES)
  {
  }

  /** An id names a category exactly when it lies in 1..7. */
  lemma CategoryByIdResolves(id: int)
    ensures CategoryById(id).Some? <==> 1 <= id <= 7
    ensures CategoryById(id).Some? ==> CategoryById(id).value == CATEGORIES[id - 1]
  {
    CategoriesWellKeyed();
    if 1 <= id <= 7 {
      FindUnique(CATEGORIES, (c: Category) => c.id == id, CATEGORIES[id - 1]);
    }
  }

  // ---------------------------------------------------------------------
  // Products
  // ---------------------------------------------------------------------

  /** The argument list of one `makeProduct` call. */
  datatype ProductRow = Row(
    id: int, name: string, slug: string, description: string, price: int, categoryId: int,
    tags: seq<string>, metalType: string, images: seq<string>, featured: bool, isNewArrival: bool,
    createdAt: int)

  /**
   * `makeProduct`: the product record with the category record its
   * `categoryId` names attached, and `updatedAt` equal to `createdAt`. The
   * source's non-null assertion on the category lookup is the precondition.
   */
  function MakeProduct(r: ProductRow): (p: Product)
    requires CategoryById(r.categoryId).Some?
    ensures p.category in CATEGORIES && p.category.id == r.categoryId == p.categoryId
    ensures p.updatedAt == p.createdAt == r.createdAt
    ensures p.id == r.id && p.slug == r.slug && p.price == r.price
    ensures p.tags == r.tags && p.metalType == r.metalType && p.images == r.images
    ensures p.name == r.name && p.description == r.description
    ensures p.featured == r.featured && p.isNewArrival == r.isNewArrival
  {
    Product(r.id, r.name, r.slug, r.description, r.price, r.categoryId, CategoryById(r.categoryId).value,
            r.tags, r.metalType, r.images, r.featured, r.isNewArrival, r.createdAt, r.createdAt)
  }

  // The product table is written, as in the source, in groups; each
  // group's facts are checked on its own literal rows, and the lemmas
  // after the table combine them.

  /** Rings. */
  const RING_ROWS: seq<ProductRow> := [
    Row(1, "Diamond Solitaire Ring", "diamond-solitaire-ring",
      "A timeless 1-carat round brilliant diamond set in classic 18K white gold. Perfect for engagements and milestones.",
      245000, 1, ["diamond", "engagement", "solitaire", "white gold"], "White Gold",
      ["https://images.unsplash.com/photo-1605100804763-247f67b3557e?w=800&auto=format&fit=crop",
      "https://images.unsplash.com/photo-1603974372039-adc49044b6bd?w=800&auto=format&fit=crop"],
      true, false, 1704412800000),
    Row(2, "Rose Gold Twisted Band", "rose-gold-twisted-band",
      "A delicate twisted band in warm 18K rose gold \U{2014} effortlessly elegant for everyday wear.",
      18500, 1, ["rose gold", "band", "everyday", "minimalist"], "Rose Gold",
      ["https://images.unsplash.com/photo-1603561591411-07134e71a2a9?w=800&auto=format&fit=crop"],
      false, true, 1707523200000),
    Row(3, "Emerald Halo Ring", "emerald-halo-ring",
      "A vibrant Colombian emerald surrounded by a sparkling diamond halo in 22K yellow gold.",
      185000, 1, ["emerald", "halo", "yellow gold", "gemstone"], "Yellow Gold",
      ["https://images.unsplash.com/photo-1682822665515-60979096b579?q=80&w=580&auto=format&fit=crop&ixlib=rb-4.1.0&ixid=M3wxMjA3fDB8MHxwaG90by1wYWdlfHx8fGVufDB8fHx8fA%3D%3D?w=800&auto=format&fit=crop"],
      true, false, 1705708800000),
    Row(4, "Silver Stackable Rings Set", "silver-stackable-rings-set",
      "Set of three dainty sterling silver rings \U{2014} mix, match, and stack for your own unique look.",
      4500, 1, ["silver", "stackable", "set", "minimalist"], "Silver",
      ["https://images.unsplash.com/photo-1515562141207-7a88fb7ce338?w=800&auto=format&fit=crop"],
      false, true, 1709251200000)
  ]

  /** Necklaces. */
  const NECKLACE_ROWS: seq<ProductRow> := [
    Row(5, "Gold Layered Chain Necklace", "gold-layered-chain-necklace",
      "Three layers of 22K gold chains at different lengths for a sophisticated, layered look.",
      38000, 2, ["gold", "chain", "layered", "everyday"], "Yellow Gold",
      ["https://images.unsplash.com/photo-1599643478518-a784e5dc4c8f?w=800&auto=format&fit=crop"],
      true, false, 1705276800000),
    Row(6, "Pearl Strand Necklace", "pearl-strand-necklace",
      "Classic freshwater pearl strand with a 18K gold clasp \U{2014} a wardrobe essential.",
      27500, 2, ["pearl", "strand", "classic", "white gold"], "White Gold",
      ["https://plus.unsplash.com/premium_photo-1674748385436-db725f68e312?q=80&w=870&auto=format&fit=crop&ixlib=rb-4.1.0&ixid=M3wxMjA3fDB8MHxwaG90by1wYWdlfHx8fGVufDB8fHx8fA%3D%3D?w=800&auto=format&fit=crop"],
      true, false, 1706140800000),
    Row(7, "Diamond Tennis Necklace", "diamond-tennis-necklace",
      "A breathtaking line of round brilliant diamonds totalling 5 carats in 18K white gold.",
      850000, 2, ["diamond", "tennis", "luxury", "white gold"], "White Gold",
      ["https://images.unsplash.com/photo-1506630448388-4e683c67ddb0?w=800&auto=format&fit=crop"],
      true, false, 1706745600000),
    Row(8, "Sapphire Pendant Necklace", "sapphire-pendant-necklace",
      "Deep blue sapphire drop pendant on a delicate 18K white gold chain.",
      62000, 2, ["sapphire", "pendant", "blue", "white gold"], "White Gold",
      ["https://images.unsplash.com/photo-1535632066927-ab7c9ab60908?w=800&auto=format&fit=crop"],
      false, true, 1710460800000)
  ]

  /** Earrings. */
  const EARRING_ROWS: seq<ProductRow> := [
    Row(9, "Diamond Stud Earrings", "diamond-stud-earrings",
      "Half-carat each, G-color diamond studs in classic 18K white gold push-back setting.",
      95000, 3, ["diamond", "studs", "classic", "white gold"], "White Gold",
      ["https://images.unsplash.com/photo-1617038260897-41a1f14a8ca0?w=800&auto=format&fit=crop"],
      true, false, 1704844800000),
    Row(10, "Gold Hoop Earrings", "gold-hoop-earrings",
      "Chic 30mm gold hoops in 22K yellow gold \U{2014} bold enough to notice, light enough to wear all day.",
      15500, 3, ["gold", "hoops", "everyday", "yellow gold"], "Yellow Gold",
      ["https://images.unsplash.com/photo-1630019852942-f89202989a59?w=800&auto=format&fit=crop"],
      false, true, 1709596800000),
    Row(11, "Ruby Drop Earrings", "ruby-drop-earrings",
      "Vivid Burmese rubies suspended from diamond-set tops in 18K yellow gold.",
      135000, 3, ["ruby", "drop", "gemstone", "yellow gold"], "Yellow Gold",
      ["https://images.unsplash.com/photo-1588444837495-c6cfeb53f32d?w=800&auto=format&fit=crop"],
      true, false, 1708387200000),
    Row(12, "Silver Chandelier Earrings", "silver-chandelier-earrings",
      "Intricate oxidised silver chandelier earrings inspired by traditional Indian craftsmanship.",
      3800, 3, ["silver", "chandelier", "traditional", "oxidised"], "Silver",
      ["https://images.unsplash.com/photo-1596944924616-7b38e7cfac36?w=800&auto=format&fit=crop"],
      false, true, 1710892800000)
  ]

  /** Bracelets. */
  const BRACELET_ROWS: seq<ProductRow> := [
    Row(13, "Diamond Tennis Bracelet", "diamond-tennis-bracelet",
      "Classic prong-set diamond tennis bracelet \U{2014} 3 carats of round brilliants in 18K white gold.",
      425000, 4, ["diamond", "tennis", "luxury", "white gold"], "White Gold",
      ["https://images.unsplash.com/photo-1611591437281-460bfbe1220a?w=800&auto=format&fit=crop"],
      true, false, 1706572800000),
    Row(14, "Gold Charm Bracelet", "gold-charm-bracelet",
      "22K yellow gold charm bracelet \U{2014} add charms to mark life's memorable moments.",
      32000, 4, ["gold", "charm", "yellow gold", "personalised"], "Yellow Gold",
      ["https://images.unsplash.com/photo-1689367436629-1d288f1e23b6?q=80&w=387&auto=format&fit=crop&ixlib=rb-4.1.0&ixid=M3wxMjA3fDB8MHxwaG90by1wYWdlfHx8fGVufDB8fHx8fA%3D%3D?w=800&auto=format&fit=crop"],
      false, true, 1710028800000),
    Row(15, "Emerald Beaded Bracelet", "emerald-beaded-bracelet",
      "Natural emerald and 18K gold bead bracelet for a touch of colour and luxury.",
      55000, 4, ["emerald", "beaded", "green", "yellow gold"], "Yellow Gold",
      ["https://images.unsplash.com/photo-1535632066927-ab7c9ab60908?w=800&auto=format&fit=crop"],
      false, false, 1707955200000)
  ]

  /** Pendants. */
  const PENDANT_ROWS: seq<ProductRow> := [
    Row(16, "Lotus Pendant", "lotus-pendant",
      "Handcrafted lotus flower pendant in 18K yellow gold with a central pink sapphire.",
      28500, 5, ["lotus", "flower", "sapphire", "yellow gold"], "Yellow Gold",
      ["https://images.unsplash.com/photo-1535632066927-ab7c9ab60908?w=800&auto=format&fit=crop"],
      true, false, 1707091200000),
    Row(17, "Hamsa Hand Pendant", "hamsa-hand-pendant",
      "Sterling silver Hamsa pendant adorned with a turquoise evil eye for protection and good luck.",
      2800, 5, ["hamsa", "silver", "turquoise", "spiritual"], "Silver",
      ["https://images.unsplash.com/photo-1598560917505-59a3ad559071?w=800&auto=format&fit=crop"],
      false, true, 1711324800000),
    Row(18, "Initial Letter Pendant", "initial-letter-pendant",
      "Personalised block-letter pendant in your choice of 18K gold \U{2014} a thoughtful, timeless gift.",
      12500, 5, ["initial", "personalised", "gold", "gift"], "Yellow Gold",
      ["https://images.unsplash.com/photo-1600721391776-b5cd0e0048f9?w=800&auto=format&fit=crop"],
      false, true, 1711929600000),
    Row(19, "Diamond Cross Pendant", "diamond-cross-pendant",
      "Pav\U{E9}-set diamond cross in 18K white gold \U{2014} elegant faith-inspired jewellery.",
      78000, 5, ["diamond", "cross", "religious", "white gold"], "White Gold",
      ["https://images.unsplash.com/photo-1771515411694-57fb626159d1?q=80&w=387&auto=format&fit=crop&ixlib=rb-4.1.0&ixid=M3wxMjA3fDB8MHxwaG90by1wYWdlfHx8fGVufDB8fHx8fA%3D%3D?w=800&auto=format&fit=crop"],
      true, false, 1709078400000)
  ]

  /** Bangles. */
  const BANGLE_ROWS: seq<ProductRow> := [
    Row(20, "Kundan Gold Bangle", "kundan-gold-bangle",
      "Traditional Kundan-work bangle in 22K gold, set with colourful meenakari enamel.",
      68000, 6, ["kundan", "gold", "traditional", "meenakari"], "Yellow Gold",
      ["https://images.unsplash.com/photo-1741071520904-37ef3c0fea09?q=80&w=580&auto=format&fit=crop&ixlib=rb-4.1.0&ixid=M3wxMjA3fDB8MHxwaG90by1wYWdlfHx8fGVufDB8fHx8fA%3D%3D?w=800&auto=format&fit=crop"],
      true, false, 1705536000000),
    Row(21, "Diamond Bangle Bracelet", "diamond-bangle-bracelet",
      "Sleek 18K white gold bangle set with a continuous row of channel-set diamonds.",
      320000, 6, ["diamond", "bangle", "white gold", "luxury"], "White Gold",
      ["https://images.unsplash.com/photo-1611591437281-460bfbe1220a?w=800&auto=format&fit=crop"],
      true, false, 1707350400000),
    Row(22, "Silver Oxidised Bangle", "silver-oxidised-bangle",
      "Set of four oxidised silver bangles with intricate tribal motifs \U{2014} perfect for boho styling.",
      3200, 6, ["silver", "oxidised", "tribal", "boho"], "Silver",
      ["https://images.unsplash.com/photo-1515562141207-7a88fb7ce338?w=800&auto=format&fit=crop"],
      false, true, 1711756800000)
  ]

  /** Sets. */
  const SET_ROWS: seq<ProductRow> := [
    Row(23, "Bridal Gold Set", "bridal-gold-set",
      "Complete bridal set including necklace, earrings, maang tikka, and bangles in 22K gold.",
      485000, 7, ["bridal", "gold", "set", "wedding", "traditional"], "Yellow Gold",
      ["https://images.unsplash.com/photo-1515562141207-7a88fb7ce338?w=800&auto=format&fit=crop",
      "https://images.unsplash.com/photo-1599643478518-a784e5dc4c8f?w=800&auto=format&fit=crop"],
      true, false, 1704672000000),
    Row(24, "Diamond Solitaire Set", "diamond-solitaire-set",
      "Matching solitaire ring, pendant, and earrings \U{2014} each centred with a 0.5ct diamond in 18K white gold.",
      395000, 7, ["diamond", "solitaire", "set", "white gold", "luxury"], "White Gold",
      ["https://images.unsplash.com/photo-1605100804763-247f67b3557e?w=800&auto=format&fit=crop"],
      true, false, 1705881600000),
    Row(25, "Pearl Jewellery Set", "pearl-jewellery-set",
      "Freshwater pearl necklace, bracelet, and stud earrings with 18K gold clasps.",
      58000, 7, ["pearl", "set", "white gold", "classic"], "White Gold",
      ["https://images.unsplash.com/photo-1769857879388-df93b4c96bca?q=80&w=464&auto=format&fit=crop&ixlib=rb-4.1.0&ixid=M3wxMjA3fDB8MHxwaG90by1wYWdlfHx8fGVufDB8fHx8fA%3D%3D?w=800&auto=format&fit=crop"],
      false, true, 1710720000000),
    Row(26, "Ruby and Diamond Set", "ruby-and-diamond-set",
      "Elegant ruby and diamond necklace with matching drop earrings in 18K gold.",
      275000, 7, ["ruby", "diamond", "set", "yellow gold", "luxury"], "Yellow Gold",
      ["https://images.unsplash.com/photo-1588444837495-c6cfeb53f32d?w=800&auto=format&fit=crop"],
      true, false, 1707868800000)
  ]

  /** Extra products. */
  const EXTRA_ROWS: seq<ProductRow> := [
    Row(27, "Moonstone Silver Ring", "moonstone-silver-ring",
      "Mystical rainbow moonstone cabochon set in a delicate sterling silver bezel ring.",
      4200, 1, ["moonstone", "silver", "boho", "gemstone"], "Silver",
      ["https://images.unsplash.com/photo-1749635705571-a262d6c6134c?q=80&w=774&auto=format&fit=crop&ixlib=rb-4.1.0&ixid=M3wxMjA3fDB8MHxwaG90by1wYWdlfHx8fGVufDB8fHx8fA%3D%3D?w=800&auto=format&fit=crop"],
      false, true, 1712275200000),
    Row(28, "Amethyst Drop Earrings", "amethyst-drop-earrings",
      "Faceted amethyst teardrops in sterling silver \U{2014} a pop of purple for any occasion.",
      5800, 3, ["amethyst", "purple", "silver", "gemstone"], "Silver",
      ["https://images.unsplash.com/photo-1596944924616-7b38e7cfac36?w=800&auto=format&fit=crop"],
      false, true, 1712534400000)
  ]

  /** The 28 `makeProduct` calls of the product table, in table order. */
  const PRODUCT_ROWS: seq<ProductRow> :=
    RING_ROWS + NECKLACE_ROWS + EARRING_ROWS + BRACELET_ROWS +
    PENDANT_ROWS + BANGLE_ROWS + SET_ROWS + EXTRA_ROWS

  predicate IdsFrom(rows: seq<ProductRow>, first: int) {
    forall i :: 0 <= i < |rows| ==> rows[i].id == first + i
  }

  /** A row names a category in 1..7, has an image, a positive price and a known metal. */
  predicate RowFieldsValid(r: ProductRow) {
    && 1 <= r.categoryId <= 7
    && |r.images| > 0
    && r.price > 0
    && r.metalType in Utils.METAL_TYPES
  }

  predicate TagsLower(tags: seq<string>) {
    forall k :: 0 <= k < |tags| ==> IsLower(tags[k])
  }

  predicate RowWellFormed(r: ProductRow) {
    RowFieldsValid(r) && TagsLower(r.tags)
  }

  predicate RowsWellFormed(rows: seq<ProductRow>) {
    forall i :: 0 <= i < |rows| ==> RowWellFormed(rows[i])
  }

  predicate SlugsDistinct(rows: seq<ProductRow>) {
    forall i, j :: 0 <= i < j < |rows| ==> rows[i].slug != rows[j].slug
  }

  predicate SlugsDisjoint(a: seq<ProductRow>, b: seq<ProductRow>) {
    forall i, j :: 0 <= i < |a| && 0 <= j < |b| ==> a[i].slug != b[j].slug
  }

  /** Appending a group with the next ids, well-formed rows and new slugs keeps the facts of the whole prefix. */
  lemma AppendGroup(before: seq<ProductRow>, group: seq<ProductRow>)
    requires IdsFrom(before, 1) && RowsWellFormed(before) && SlugsDistinct(before)
    requires IdsFrom(group, |before| + 1) && RowsWellFormed(group) && SlugsDistinct(group)
    requires SlugsDisjoint(before, group)
    ensures IdsFrom(before + group, 1) && RowsWellFormed(before + group) && SlugsDistinct(before + group)
  {
    var all := before + group;
    forall i, j | 0 <= i < j < |all| ensures all[i].slug != all[j].slug {
      if j < |before| {
        assert all[i] == before[i] && all[j] == before[j];
      } else if |before| <= i {
        assert all[i] == group[i - |before|] && all[j] == group[j - |before|];
      } else {
        assert all[i] == before[i] && all[j] == group[j - |before|];
      }
    }
  }

  /** One group of rows: the given ids, valid fields, lower-case tags, distinct slugs. */
  lemma GroupWellFormed(group: seq<ProductRow>, first: int)
    requires IdsFrom(group, first) && SlugsDistinct(group)
    requires forall i :: 0 <= i < |group| ==> RowFieldsValid(group[i])
    requires forall i :: 0 <= i < |group| ==> TagsLower(group[i].tags)
    ensures RowsWellFormed(group)
  {
  }

  lemma RingRowsKeyed()
    ensures IdsFrom(RING_ROWS, 1) && SlugsDistinct(RING_ROWS)
    ensures forall i :: 0 <= i < |RING_ROWS| ==> RowFieldsValid(RING_ROWS[i])
  {
  }

  lemma RingRowsTagsLower()
    ensures forall i :: 0 <= i < |RING_ROWS| ==> TagsLower(RING_ROWS[i].tags)
  {
  }

  lemma NecklaceRowsKeyed()
    ensures IdsFrom(NECKLACE_ROWS, |RING_ROWS| + 1) && SlugsDistinct(NECKLACE_ROWS)
    ensures forall i :: 0 <= i < |NECKLACE_ROWS| ==> RowFieldsValid(NECKLACE_ROWS[i])
  {
  }

  lemma NecklaceRowsTagsLower()
    ensures forall i :: 0 <= i < |NECKLACE_ROWS| ==> TagsLower(NECKLACE_ROWS[i].tags)
  {
  }

  lemma NecklaceSlugsNew()
    ensures SlugsDisjoint(RING_ROWS, NECKLACE_ROWS)
  {
  }

  lemma EarringRowsKeyed()
    ensures IdsFrom(EARRING_ROWS, |RING_ROWS + NECKLACE_ROWS| + 1) && SlugsDistinct(EARRING_ROWS)
    ensures forall i :: 0 <= i < |EARRING_ROWS| ==> RowFieldsValid(EARRING_ROWS[i])
  {
  }

  lemma EarringRowsTagsLower()
    ensures forall i :: 0 <= i < |EARRING_ROWS| ==> TagsLower(EARRING_ROWS[i].tags)
  {
  }

  lemma EarringSlugsNew()
    ensures SlugsDisjoint(RING_ROWS + NECKLACE_ROWS, EARRING_ROWS)
  {
  }

  lemma BraceletRowsKeyed()
    ensures IdsFrom(BRACELET_ROWS, |RING_ROWS + NECKLACE_ROWS + EARRING_ROWS| + 1) && SlugsDistinct(BRACELET_ROWS)
    ensures forall i :: 0 <= i < |BRACELET_ROWS| ==> RowFieldsValid(BRACELET_ROWS[i])
  {
  }

  lemma BraceletRowsTagsLower()
    ensures forall i :: 0 <= i < |BRACELET_ROWS| ==> TagsLower(BRACELET_ROWS[i].tags)
  {
  }

  lemma BraceletSlugsNew()
    ensures SlugsDisjoint(RING_ROWS + NECKLACE_ROWS + EARRING_ROWS, BRACELET_ROWS)
  {
  }

  lemma PendantRowsKeyed()
    ensures IdsFrom(PENDANT_ROWS, |RING_ROWS + NECKLACE_ROWS + EARRING_ROWS + BRACELET_ROWS| + 1) && SlugsDistinct(PENDANT_ROWS)
    ensures forall i :: 0 <= i < |PENDANT_ROWS| ==> RowFieldsValid(PENDANT_ROWS[i])
  {
  }

  lemma PendantRowsTagsLower()
    ensures forall i :: 0 <= i < |PENDANT_ROWS| ==> TagsLower(PENDANT_ROWS[i].tags)
  {
  }

  lemma PendantSlugsNew()
    ensures SlugsDisjoint(RING_ROWS + NECKLACE_ROWS + EARRING_ROWS + BRACELET_ROWS, PENDANT_ROWS)
  {
  }

  lemma BangleRowsKeyed()
    ensures IdsFrom(BANGLE_ROWS, |RING_ROWS + NECKLACE_ROWS + EARRING_ROWS + BRACELET_ROWS + PENDANT_ROWS| + 1) && SlugsDistinct(BANGLE_ROWS)
    ensures forall i :: 0 <= i < |BANGLE_ROWS| ==> RowFieldsValid(BANGLE_ROWS[i])
  {
  }

  lemma BangleRowsTagsLower()
    ensures forall i :: 0 <= i < |BANGLE_ROWS| ==> TagsLower(BANGLE_ROWS[i].tags)
  {
  }

  lemma BangleSlugsNew()
    ensures SlugsDisjoint(RING_ROWS + NECKLACE_ROWS + EARRING_ROWS + BRACELET_ROWS + PENDANT_ROWS, BANGLE_ROWS)
  {
  }

  lemma SetRowsKeyed()
    ensures IdsFrom(SET_ROWS, |RING_ROWS + NECKLACE_ROWS + EARRING_ROWS + BRACELET_ROWS + PENDANT_ROWS + BANGLE_ROWS| + 1) && SlugsDistinct(SET_ROWS)
    ensures forall i :: 0 <= i < |SET_ROWS| ==> RowFieldsValid(SET_ROWS[i])
  {
  }

  lemma SetRowsTagsLower()
    ensures forall i :: 0 <= i < |SET_ROWS| ==> TagsLower(SET_ROWS[i].tags)
  {
  }

  lemma SetSlugsNew()
    ensures SlugsDisjoint(RING_ROWS + NECKLACE_ROWS + EARRING_ROWS + BRACELET_ROWS + PENDANT_ROWS + BANGLE_ROWS, SET_ROWS)
  {
  }

  lemma ExtraRowsKeyed()
    ensures IdsFrom(EXTRA_ROWS, |RING_ROWS + NECKLACE_ROWS + EARRING_ROWS + BRACELET_ROWS + PENDANT_ROWS + BANGLE_ROWS + SET_ROWS| + 1) && SlugsDistinct(EXTRA_ROWS)
    ensures forall i :: 0 <= i < |EXTRA_ROWS| ==> RowFieldsValid(EXTRA_ROWS[i])
  {
  }

  lemma ExtraRowsTagsLower()
    ensures forall i :: 0 <= i < |EXTRA_ROWS| ==> TagsLower(EXTRA_ROWS[i].tags)
  {
  }

  lemma ExtraSlugsNew()
    ensures SlugsDisjoint(RING_ROWS + NECKLACE_ROWS + EARRING_ROWS + BRACELET_ROWS + PENDANT_ROWS + BANGLE_ROWS + SET_ROWS, EXTRA_ROWS)
  {
  }

  /** The whole row table: ids 1 to 28 in order, well-formed rows, distinct slugs. */
  lemma ProductRowsValid()
    ensures |PRODUCT_ROWS| == 28
    ensures IdsFrom(PRODUCT_ROWS, 1) && RowsWellFormed(PRODUCT_ROWS) && SlugsDistinct(PRODUCT_ROWS)
  {
    RingRowsKeyed();
    RingRowsTagsLower();
    GroupWellFormed(RING_ROWS, 1);
    AppendGroup([], RING_ROWS);
    NecklaceRowsKeyed();
    NecklaceRowsTagsLower();
    GroupWellFormed(NECKLACE_ROWS, |RING_ROWS| + 1);
    NecklaceSlugsNew();
    AppendGroup(RING_ROWS, NECKLACE_ROWS);
    EarringRowsKeyed();
    EarringRowsTagsLower();
    GroupWellFormed(EARRING_ROWS, |RING_ROWS + NECKLACE_ROWS| + 1);
    EarringSlugsNew();
    AppendGroup(RING_ROWS + NECKLACE_ROWS, EARRING_ROWS);
    BraceletRowsKeyed();
    BraceletRowsTagsLower();
    GroupWellFormed(BRACELET_ROWS, |RING_ROWS + NECKLACE_ROWS + EARRING_ROWS| + 1);
    BraceletSlugsNew();
    AppendGroup(RING_ROWS + NECKLACE_ROWS + EARRING_ROWS, BRACELET_ROWS);
    PendantRowsKeyed();
    PendantRowsTagsLower();
    GroupWellFormed(PENDANT_ROWS, |RING_ROWS + NECKLACE_ROWS + EARRING_ROWS + BRACELET_ROWS| + 1);
    PendantSlugsNew();
    AppendGroup(RING_ROWS + NECKLACE_ROWS + EARRING_ROWS + BRACELET_ROWS, PENDANT_ROWS);
    BangleRowsKeyed();
    BangleRowsTagsLower();
    GroupWellFormed(BANGLE_ROWS, |RING_ROWS + NECKLACE_ROWS + EARRING_ROWS + BRACELET_ROWS + PENDANT_ROWS| + 1);
    BangleSlugsNew();
    AppendGroup(RING_ROWS + NECKLACE_ROWS + EARRING_ROWS + BRACELET_ROWS + PENDANT_ROWS, BANGLE_ROWS);
    SetRowsKeyed();
    SetRowsTagsLower();
    GroupWellFormed(SET_ROWS, |RING_ROWS + NECKLACE_ROWS + EARRING_ROWS + BRACELET_ROWS + PENDANT_ROWS + BANGLE_ROWS| + 1);
    SetSlugsNew();
    AppendGroup(RING_ROWS + NECKLACE_ROWS + EARRING_ROWS + BRACELET_ROWS + PENDANT_ROWS + BANGLE_ROWS, SET_ROWS);
    ExtraRowsKeyed();
    ExtraRowsTagsLower();
    GroupWellFormed(EXTRA_ROWS, |RING_ROWS + NECKLACE_ROWS + EARRING_ROWS + BRACELET_ROWS + PENDANT_ROWS + BANGLE_ROWS + SET_ROWS| + 1);
    ExtraSlugsNew();
    AppendGroup(RING_ROWS + NECKLACE_ROWS + EARRING_ROWS + BRACELET_ROWS + PENDANT_ROWS + BANGLE_ROWS + SET_ROWS, EXTRA_ROWS);
  }

  /** `PRODUCTS`: `makeProduct` applied to every row. */
  const PRODUCTS: seq<Product> := (
    ProductRowsValid();
    seq(|PRODUCT_ROWS|, i requires 0 <= i < |PRODUCT_ROWS| =>
      (CategoryByIdResolves(PRODUCT_ROWS[i].categoryId); MakeProduct(PRODUCT_ROWS[i]))))

  /** The process-wide store. */
  const STORE: Store := Store(CATEGORIES, PRODUCTS)

  /** Each product is `makeProduct` of the row at the same index. */
  lemma ProductsFromRows()
    ensures |PRODUCTS| == |PRODUCT_ROWS| == 28
    ensures forall i :: 0 <= i < |PRODUCTS| ==>
      RowWellFormed(PRODUCT_ROWS[i]) && PRODUCTS[i] == MakeProduct(PRODUCT_ROWS[i])
  {
    ProductRowsValid();
  }

  /** Products have ids 1 to 28, in order, and distinct slugs. */
  lemma ProductsWellKeyed()
    ensures |PRODUCTS| == 28
    ensures forall i :: 0 <= i < |PRODUCTS| ==> PRODUCTS[i].id == i + 1
    ensures ProductKeysUnique(PRODUCTS)
  {
    ProductRowsValid();
    ProductsFromRows();
  }

  /** Every product's category id lies in 1..7 and its category record is the one with that id. */
  lemma ProductCategoriesResolve()
    ensures forall i :: 0 <= i < |PRODUCTS| ==> 1 <= PRODUCTS[i].categoryId <= 7
    ensures CategoriesResolve(STORE)
  {
    ProductsFromRows();
  }

  /** Images, prices, metals and tags of the product table are well formed. */
  lemma ProductTableWellFormed()
    ensures ProductsWellFormed(PRODUCTS)
  {
    ProductsFromRows();
  }

  /** The store satisfies every invariant the query engine relies on. */
  lemma StoreIsValid()
    ensures ValidStore(STORE)
  {
    CategoriesWellKeyed();
    ProductsWellKeyed();
    ProductCategoriesResolve();
    ProductTableWellFormed();
  }
}
