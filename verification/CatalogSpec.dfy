/** The declared catalog: validation, normalisation and the keys under which its
    products and prices live in Stripe. */
module CatalogSpec {
  import opened Options
  import opened Text

  const RECURRING := "recurring"
  const ONE_TIME := "one_time"

  datatype Price = Price(amount: int, currency: string, kind: string, interval: string, intervalCount: int)

  datatype Product = Product(
    name: string, description: string, taxCategory: string,
    prices: map<string, Price>, metadata: map<string, string>)

  datatype Spec = Spec(namespace: string, products: map<string, Product>)

  predicate KeyChar(c: char) {
    'a' <= c <= 'z' || '0' <= c <= '9' || c == '_'
  }

  /** ^[a-z][a-z0-9_]{0,29}$ */
  predicate NamespaceOk(s: string) {
    1 <= |s| <= 30 && 'a' <= s[0] <= 'z' && forall i :: 0 <= i < |s| ==> KeyChar(s[i])
  }

  /** ^[a-z0-9][a-z0-9_]{0,62}$ */
  predicate KeyOk(s: string) {
    1 <= |s| <= 63 && s[0] != '_' && forall i :: 0 <= i < |s| ==> KeyChar(s[i])
  }

  /** ^[a-z]{3}$ */
  predicate CurrencyOk(s: string) {
    |s| == 3 && forall i :: 0 <= i < |s| ==> 'a' <= s[i] <= 'z'
  }

  /** Defaults: an empty type is recurring, a recurring price bills every 1 interval. */
  function NormalPrice(p: Price): Price {
    var kind := if p.kind == "" then RECURRING else p.kind;
    p.(kind := kind, intervalCount := if kind == RECURRING && p.intervalCount == 0 then 1 else p.intervalCount)
  }

  predicate PriceOk(p: Price) {
    var kind := if p.kind == "" then RECURRING else p.kind;
    && (kind == RECURRING || kind == ONE_TIME)
    && p.amount >= 0 && CurrencyOk(p.currency)
    && (kind == RECURRING ==> p.interval != "")
    && (kind == ONE_TIME ==> p.interval == "" && p.intervalCount == 0)
  }

  function NormalPrices(prices: map<string, Price>): map<string, Price> {
    map k | k in prices :: NormalPrice(prices[k])
  }

  function NormalProduct(p: Product): Product {
    p.(prices := NormalPrices(p.prices))
  }

  predicate PricesOk(prices: map<string, Price>) {
    forall k :: k in prices ==> PriceOk(prices[k])
  }

  predicate KeysOk(keys: set<string>) {
    forall k :: k in keys ==> KeyOk(k)
  }

  predicate ProductOk(p: Product) {
    p.name != "" && p.taxCategory != "" && p.prices.Keys != {} && KeysOk(p.prices.Keys) && PricesOk(p.prices)
  }

  predicate SpecOk(s: Spec) {
    && NamespaceOk(s.namespace) && s.products.Keys != {} && KeysOk(s.products.Keys)
    && forall k :: k in s.products ==> ProductOk(s.products[k])
  }

  /** What the rest of the catalog code may rely on. */
  ghost predicate WellFormed(s: Spec) {
    && SpecOk(s)
    && forall k :: k in s.products ==> NormalProduct(s.products[k]) == s.products[k]
  }

  function NormalSpec(s: Spec): Spec {
    s.(products := map k | k in s.products :: NormalProduct(s.products[k]))
  }

  /** A validated spec is well formed. */
  lemma {:induction false} NewSpecWellFormed(s: Spec)
    requires SpecOk(s)
    ensures WellFormed(NormalSpec(s))
  {
    hide ProductOk, NormalProduct;
    var n := NormalSpec(s);
    forall k | k in n.products
      ensures ProductOk(n.products[k]) && NormalProduct(n.products[k]) == n.products[k]
    {
      NormalProductIdempotent(s.products[k]);
    }
    assert n.products.Keys == s.products.Keys;
  }

  /** Validation keeps all keys, and validating again changes nothing. */
  lemma {:induction false} NewSpecIdempotent(s: Spec)
    requires SpecOk(s)
    ensures NormalSpec(s).products.Keys == s.products.Keys
    ensures forall k :: k in s.products ==> NormalSpec(s).products[k].prices.Keys == s.products[k].prices.Keys
    ensures SpecOk(NormalSpec(s)) && NormalSpec(NormalSpec(s)) == NormalSpec(s)
  {
    NewSpecWellFormed(s);
    NormalSpecFixed(NormalSpec(s));
    KeysKept(s);
  }

  lemma {:induction false} NormalSpecFixed(s: Spec)
    requires forall k :: k in s.products ==> NormalProduct(s.products[k]) == s.products[k]
    ensures NormalSpec(s) == s
  {
    assert NormalSpec(s).products == s.products;
  }

  lemma {:induction false} KeysKept(s: Spec)
    ensures NormalSpec(s).products.Keys == s.products.Keys
    ensures forall k :: k in s.products ==> NormalSpec(s).products[k].prices.Keys == s.products[k].prices.Keys
  {
    forall k | k in s.products ensures NormalProduct(s.products[k]).prices.Keys == s.products[k].prices.Keys {
    }
  }

  lemma {:induction false} NormalPriceIdempotent(p: Price)
    requires PriceOk(p)
    ensures PriceOk(NormalPrice(p)) && NormalPrice(NormalPrice(p)) == NormalPrice(p)
  {
  }

  lemma {:induction false} NormalProductIdempotent(p: Product)
    requires ProductOk(p)
    ensures ProductOk(NormalProduct(p)) && NormalProduct(NormalProduct(p)) == NormalProduct(p)
    ensures NormalProduct(p).prices.Keys == p.prices.Keys
  {
    var n := NormalProduct(p);
    assert n.prices.Keys == p.prices.Keys;
    forall k | k in n.prices
      ensures PriceOk(n.prices[k]) && NormalPrice(n.prices[k]) == n.prices[k]
    {
      NormalPriceIdempotent(p.prices[k]);
    }
    assert NormalProduct(n).prices == n.prices;
  }

  // -------------------------------------------------------------------- names

  /** What the three patterns accept, in ASCII codes and lengths: a namespace is a
      letter and up to 29 letters, digits or underscores, a key starts with a letter
      or a digit and goes on for up to 62, a currency has three letters. */
  lemma {:induction false} PatternsAccept(s: string)
    ensures NamespaceOk(s) <==>
              && s != "" && |s| - 1 <= 29 && 97 <= s[0] as int <= 122
              && forall i :: 1 <= i < |s| ==>
                   var c := s[i] as int;
                   97 <= c <= 122 || 48 <= c <= 57 || c == 95
    ensures KeyOk(s) <==>
              && s != "" && |s| - 1 <= 62 && (97 <= s[0] as int <= 122 || 48 <= s[0] as int <= 57)
              && forall i :: 1 <= i < |s| ==>
                   var c := s[i] as int;
                   97 <= c <= 122 || 48 <= c <= 57 || c == 95
    ensures CurrencyOk(s) <==>
              |s| == 3 && 97 <= s[0] as int <= 122 && 97 <= s[1] as int <= 122 && 97 <= s[2] as int <= 122
  {
  }

  // --------------------------------------------------------------- validation

  /** Collects the field errors of one price and normalises it. */
  method ValidatePrice(prefix: string, price: Price) returns (p: Price, fields: seq<string>)
    ensures p == NormalPrice(price)
    ensures fields == [] <==> PriceOk(price)
    ensures fields == [] <==>
              && price.kind in {"", "recurring", "one_time"} && price.amount >= 0 && CurrencyOk(price.currency)
              && (if price.kind == "one_time" then price.interval == "" && price.intervalCount == 0
                  else price.interval != "")
    ensures p == price.(
              kind := if price.kind == "" then "recurring" else price.kind,
              intervalCount := if price.kind in {"", "recurring"} && price.intervalCount == 0 then 1
                               else price.intervalCount)
  {
    p, fields := price, [];
    if p.kind == "" { p := p.(kind := RECURRING); }
    if p.kind != RECURRING && p.kind != ONE_TIME { fields := fields + [prefix + "type"]; }
    if p.amount < 0 { fields := fields + [prefix + "amount"]; }
    if p.currency == "" {
      fields := fields + [prefix + "currency"];
    } else if !CurrencyOk(p.currency) {
      fields := fields + [prefix + "currency"];
    }
    if p.kind == RECURRING {
      if p.interval == "" { fields := fields + [prefix + "interval"]; }
      if p.intervalCount == 0 { p := p.(intervalCount := 1); }
    } else if p.kind == ONE_TIME {
      if p.interval != "" { fields := fields + [prefix + "interval"]; }
      if p.intervalCount != 0 { fields := fields + [prefix + "interval_count"]; }
    }
  }

  /** The prices of a product, in whatever order the map gives them. */
  method ValidatePrices(prefix: string, prices: map<string, Price>)
    returns (normal: map<string, Price>, fields: seq<string>)
    ensures fields == [] <==> KeysOk(prices.Keys) && PricesOk(prices)
    ensures fields == [] ==> normal == NormalPrices(prices)
  {
    hide KeyOk, PriceOk, NormalPrice;
    normal, fields := map[], [];
    var todo := prices.Keys;
    while todo != {}
      invariant todo <= prices.Keys
      invariant fields == [] <==> forall k :: k in prices.Keys - todo ==> KeyOk(k) && PriceOk(prices[k])
      invariant fields == [] ==> normal == map k | k in prices.Keys - todo :: NormalPrice(prices[k])
      decreases |todo|
    {
      var k :| k in todo;
      todo := todo - {k};
      if !KeyOk(k) {
        fields := fields + [prefix + "prices." + k];
        assert k in prices.Keys - todo;
        continue;
      }
      var price, own := ValidatePrice(prefix + "prices." + k + ".", prices[k]);
      fields := fields + own;
      normal := normal[k := price];
      assert k in prices.Keys - todo;
    }
    assert prices.Keys - {} == prices.Keys;
  }

  /** Collects the field errors of one product and normalises it. */
  method ValidateProduct(key: string, product: Product) returns (p: Product, fields: seq<string>)
    ensures fields == [] <==> ProductOk(product)
    ensures fields == [] <==>
              && product.name != "" && product.taxCategory != "" && product.prices != map[]
              && forall k :: k in product.prices ==> KeyOk(k) && PriceOk(product.prices[k])
    ensures fields == [] ==> p == NormalProduct(product)
  {
    hide KeyOk, PriceOk;
    var prefix := "products." + key + ".";
    fields := [];
    if product.name == "" { fields := fields + [prefix + "name"]; }
    if product.taxCategory == "" { fields := fields + [prefix + "tax_category"]; }
    if product.prices.Keys == {} { fields := fields + [prefix + "prices"]; }
    var normal, own := ValidatePrices(prefix, product.prices);
    fields := fields + own;
    p := product.(prices := normal);
  }

  /** Validation collects every field error, and returns the normalised spec
      exactly when there is none. */
  method NewSpec(s: Spec) returns (r: Option<Spec>, fields: seq<string>)
    ensures fields == [] <==> SpecOk(s)
    ensures fields == [] <==>
              && NamespaceOk(s.namespace) && s.products != map[]
              && forall k :: k in s.products ==> KeyOk(k) && ProductOk(s.products[k])
    ensures r == if SpecOk(s) then Some(NormalSpec(s)) else None
  {
    hide KeyOk, ProductOk, NormalProduct, NamespaceOk;
    fields := [];
    if !NamespaceOk(s.namespace) { fields := fields + ["namespace"]; }
    if s.products.Keys == {} { fields := fields + ["products"]; }
    ghost var before := fields;
    var normal: map<string, Product> := map[];
    var todo := s.products.Keys;
    while todo != {}
      invariant todo <= s.products.Keys
      invariant fields == [] <==>
                  before == [] && forall k :: k in s.products.Keys - todo ==> KeyOk(k) && ProductOk(s.products[k])
      invariant fields == [] ==> normal == map k | k in s.products.Keys - todo :: NormalProduct(s.products[k])
      decreases |todo|
    {
      var k :| k in todo;
      todo := todo - {k};
      if !KeyOk(k) {
        fields := fields + ["products." + k];
        assert k in s.products.Keys - todo;
        continue;
      }
      var product, own := ValidateProduct(k, s.products[k]);
      fields := fields + own;
      normal := normal[k := product];
      assert k in s.products.Keys - todo;
    }
    assert s.products.Keys - {} == s.products.Keys;
    r := if fields == [] then Some(Spec(s.namespace, normal)) else None;
    assert fields == [] ==> normal == NormalSpec(s).products;
  }

  function PriceKey(namespace: string, product: string, price: string): string {
    namespace + "." + product + "." + price
  }

  function ProductId(namespace: string, product: string): string {
    "prod_" + namespace + "_" + product
  }

  lemma {:induction false} PlainKey(s: string)
    requires KeyOk(s) || NamespaceOk(s)
    ensures '.' !in s
  {
  }

  lemma {:induction false} DotFree(spec: Spec)
    requires WellFormed(spec)
    ensures '.' !in spec.namespace && forall k :: k in spec.products ==> '.' !in k
  {
    PlainKey(spec.namespace);
    forall k | k in spec.products ensures '.' !in k {
      assert k in spec.products.Keys;
      PlainKey(k);
    }
  }

  /** (product, price) -> lookup key is injective, also across namespaces. */
  lemma {:induction false} PriceKeyInjective(n: string, p: string, q: string, n': string, p': string, q': string)
    requires '.' !in n && '.' !in n' && '.' !in p && '.' !in p'
    ensures PriceKey(n, p, q) == PriceKey(n', p', q') <==> n == n' && p == p' && q == q'
  {
    if PriceKey(n, p, q) == PriceKey(n', p', q') {
      assert PriceKey(n, p, q) == n + "." + (p + "." + q);
      assert PriceKey(n', p', q') == n' + "." + (p' + "." + q');
      JoinUnique('.', n, p + "." + q, n', p' + "." + q');
      JoinUnique('.', p, q, p', q');
    }
  }

  lemma {:induction false} ProductIdInjective(n: string, p: string, q: string)
    ensures ProductId(n, p) == ProductId(n, q) <==> p == q
  {
    assert ProductId(n, p)[|"prod_" + n + "_"|..] == p;
    assert ProductId(n, q)[|"prod_" + n + "_"|..] == q;
  }

  predicate Declared(s: Spec, product: string, price: string) {
    product in s.products && price in s.products[product].prices
  }

  /** The declared (product, price) a lookup key stands for, if any. */
  function LookupKeyInSpec(s: Spec, key: string): Option<(string, string)> {
    var prefix := s.namespace + ".";
    if !(prefix <= key) then None
    else
      match Cut(key[|prefix|..], '.')
      case None => None
      case Some((p, q)) => if Declared(s, p, q) then Some((p, q)) else None
  }

  predicate DeclaredKey(s: Spec, key: string) {
    LookupKeyInSpec(s, key).Some?
  }

  /** lookupKeyInSpec inverts the key function on declared prices and finds
      nothing else, so a declared price is never taken for an undeclared one. */
  lemma {:induction false} LookupKeyRoundTrip(s: Spec, p: string, q: string)
    requires forall k :: k in s.products ==> '.' !in k
    ensures '.' !in p ==>
              LookupKeyInSpec(s, PriceKey(s.namespace, p, q)) == if Declared(s, p, q) then Some((p, q)) else None
    ensures forall key :: DeclaredKey(s, key) ==>
              var (k, r) := LookupKeyInSpec(s, key).value;
              Declared(s, k, r) && key == PriceKey(s.namespace, k, r)
  {
    hide PriceKey, LookupKeyInSpec;
    if '.' !in p { DeclaredIsFound(s, p, q); }
    forall key | DeclaredKey(s, key)
      ensures var (k, r) := LookupKeyInSpec(s, key).value;
              Declared(s, k, r) && key == PriceKey(s.namespace, k, r)
    {
      FoundIsDeclared(s, key);
    }
  }

  lemma {:induction false} DeclaredIsFound(s: Spec, p: string, q: string)
    requires '.' !in p
    ensures LookupKeyInSpec(s, PriceKey(s.namespace, p, q)) == if Declared(s, p, q) then Some((p, q)) else None
  {
    hide Cut;
    var key := PriceKey(s.namespace, p, q);
    var prefix := s.namespace + ".";
    assert key == prefix + (p + "." + q);
    assert key[|prefix|..] == p + "." + q;
    CutJoin(p, '.', q);
  }

  lemma {:induction false} FoundIsDeclared(s: Spec, key: string)
    requires LookupKeyInSpec(s, key).Some?
    ensures var (k, r) := LookupKeyInSpec(s, key).value;
            Declared(s, k, r) && key == PriceKey(s.namespace, k, r)
  {
    var prefix := s.namespace + ".";
    assert key == prefix + key[|prefix|..];
  }

  // ------------------------------------------------------------ product ids

  /** The key after "prod_<namespace>_", or "" for a foreign id. */
  function ExistingProductKey(id: string, namespace: string): string {
    var prefix := "prod_" + namespace + "_";
    if prefix <= id then id[|prefix|..] else ""
  }

  /** The namespace-blind variant: everything after the first underscore that
      follows "prod_". */
  function StripeProductSuffix(id: string): string
    requires |id| >= 5
  {
    match IndexFrom(id[5..], '_', 0)
    case None => ""
    case Some(i) => id[5 + i + 1..]
  }

  /** The blind suffix is the product key exactly when the namespace has no
      underscore; otherwise it still carries part of the namespace. */
  lemma {:induction false} SuffixIsKey(namespace: string, key: string)
    ensures ExistingProductKey(ProductId(namespace, key), namespace) == key
    ensures StripeProductSuffix(ProductId(namespace, key)) == key <==> '_' !in namespace
  {
    var id := ProductId(namespace, key);
    var prefix := "prod_" + namespace + "_";
    assert id == prefix + key && id[|prefix|..] == key;
    assert id[5..] == namespace + "_" + key;
    var rest := id[5..];
    assert rest[|namespace|] == '_';
    var i := IndexFrom(rest, '_', 0).value;
    if '_' in namespace {
      var j :| 0 <= j < |namespace| && namespace[j] == '_';
      assert rest[j] == '_';
      assert i <= j;
      assert |id[5 + i + 1..]| > |key|;
    } else {
      assert forall p :: 0 <= p < |namespace| ==> rest[p] == namespace[p] != '_';
      assert i == |namespace|;
    }
  }

  /** An id without a further underscore has no suffix. */
  lemma {:induction false} NoSuffix(id: string)
    requires |id| >= 5 && '_' !in id[5..]
    ensures StripeProductSuffix(id) == ""
  {
  }
}
