/** The stock reconciliation of `saveProductAPI` (js/api.js:93-129): after a
    product is saved, its submitted stock is merged into the shared ledger.
    `Reconciled` says declaratively what the merged ledger is; `Reconcile`
    is the step-by-step merge of the source, proved to compute it. */
module Reconciler {
  import opened Values

  /** The stock ledger: category keys ("tshirt", "jort") hold an object of
      variants, every other key a product's stock object. */
  type Ledger = map<string, Value>

  /** The fields of a product the reconciliation reads. `kind` is
      `product.type`; `stock` is falsy when no stock was submitted. */
  datatype Product = Product(id: Option<string>, kind: Option<string>, stock: Value)

  /** The two product types whose stock is shared under a category key. */
  datatype Category = Tshirt | Jort {
    function Key(): string {
      match this
      case Tshirt => "tshirt"
      case Jort => "jort"
    }

    /** What the category stores for a submitted variant value: the tshirt
        branch stores a spread copy `{ ...v }` (so `{}` for a falsy value),
        the jort branch stores the value itself, falsy or not. */
    function Stored(v: Value): Value {
      match this
      case Tshirt => Spread(v)
      case Jort => v
    }
  }

  /** The `product.type === 'tshirt'` / `=== 'jort'` branch taken. */
  function CategoryOf(kind: Option<string>): Option<Category> {
    if kind == Some("tshirt") then Some(Tshirt)
    else if kind == Some("jort") then Some(Jort)
    else None
  }

  /** `product.id || result.id`: the product's own id when it is truthy,
      otherwise the backend's answer, which may itself be missing. */
  function ResolveId(productId: Option<string>, resultId: Option<string>): (r: Option<string>)
    ensures IsSet(r) <==> IsSet(productId) || IsSet(resultId)
    ensures IsSet(productId) ==> r == productId
    ensures !IsSet(productId) && IsSet(resultId) ==> r == resultId
  {
    if IsSet(productId) then productId else resultId
  }

  /** A missing or falsy fetched ledger counts as `{}`. */
  function LedgerOrEmpty(fetched: Option<Ledger>): (r: Ledger)
    ensures fetched.None? ==> r == map[]
    ensures fetched.Some? ==> r == fetched.value
  {
    if fetched.Some? then fetched.value else map[]
  }

  /** Whether the cleanup deletes the entry under `id`: the id is truthy and
      the ledger holds a truthy value under it, whatever the product type. */
  predicate CleansUp(s: Ledger, id: Option<string>) {
    IsSet(id) && Truthy(Get(s, id.value))
  }

  /** The ledger after the cleanup of a leftover direct entry. */
  function DropDirect(s: Ledger, id: Option<string>): Ledger {
    if CleansUp(s, id) then s - {id.value} else s
  }

  /** The variants a category holds once a product of that category with
      stock `stock` is saved: exactly the submitted variant keys. */
  function Variants(c: Category, stock: map<string, Value>): map<string, Value> {
    map k | k in stock :: c.Stored(stock[k])
  }

  /** The one ledger key the type branch writes: the category key, or the
      resolved id of a generic product, or the fresh id when it has none. */
  function WrittenKey(p: Product, resultId: Option<string>, freshId: string): string {
    match CategoryOf(p.kind)
    case Some(c) => c.Key()
    case None =>
      var id := ResolveId(p.id, resultId);
      if IsSet(id) then id.value else freshId
  }

  /** The ledger after reconciling product `p` into `s`, where `resultId` is
      the id the backend returned and `freshId` the random id a generic
      product without any id is filed under. */
  function Reconciled(s: Ledger, p: Product, resultId: Option<string>, freshId: string): (r: Ledger)
    requires Truthy(p.stock)
    ensures WrittenKey(p, resultId, freshId) in r && Truthy(r[WrittenKey(p, resultId, freshId)])
    ensures r.Keys == DropDirect(s, ResolveId(p.id, resultId)).Keys + {WrittenKey(p, resultId, freshId)}
  {
    var cleaned := DropDirect(s, ResolveId(p.id, resultId));
    var key := WrittenKey(p, resultId, freshId);
    match CategoryOf(p.kind)
    case Some(c) => cleaned[key := Obj(Variants(c, p.stock.fields))]
    case None => cleaned[key := Spread(p.stock)]
  }

  /** The first `for…in` of a category branch: walks the category's current
      variants and deletes every one whose submitted value is absent or falsy. */
  method DropStaleVariants(variants: map<string, Value>, stock: map<string, Value>)
    returns (kept: map<string, Value>)
    ensures kept.Keys == set k | k in variants && Truthy(Get(stock, k))
    ensures kept.Keys <= stock.Keys
    ensures forall k :: k in kept ==> kept[k] == variants[k]
  {
    kept := variants;
    var pending := variants.Keys;
    while pending != {}
      invariant pending <= variants.Keys
      invariant kept.Keys == set k | k in variants && (k in pending || Truthy(Get(stock, k)))
      invariant forall k :: k in kept ==> kept[k] == variants[k]
      decreases pending
    {
      var variant :| variant in pending;
      if !Truthy(Get(stock, variant)) {
        kept := kept - {variant};
      }
      pending := pending - {variant};
    }
  }

  /** The second `for…in` of a category branch: stores every submitted
      variant, adding new keys and overwriting existing ones. */
  method PutVariants(c: Category, variants: map<string, Value>, stock: map<string, Value>)
    returns (merged: map<string, Value>)
    ensures merged.Keys == variants.Keys + stock.Keys
    ensures forall k :: k in stock ==> merged[k] == c.Stored(stock[k])
    ensures forall k :: k in variants && k !in stock ==> merged[k] == variants[k]
  {
    merged := variants;
    var pending := stock.Keys;
    while pending != {}
      invariant pending <= stock.Keys
      invariant merged.Keys == variants.Keys + (stock.Keys - pending)
      invariant forall k :: k in stock && k !in pending ==> merged[k] == c.Stored(stock[k])
      invariant forall k :: k in variants && (k !in stock || k in pending) ==> merged[k] == variants[k]
      decreases pending
    {
      var variant :| variant in pending;
      merged := merged[variant := c.Stored(stock[variant])];
      pending := pending - {variant};
    }
  }

  /** The reconciliation block, run once the save succeeded and stock was
      submitted: default the fetched ledger, resolve the id, delete a
      leftover direct entry, then replace the category's variants or file
      the stock under the product's id (a fresh one if it has none). */
  method Reconcile(fetched: Option<Ledger>, p: Product, resultId: Option<string>, freshId: string)
    returns (stocks: Ledger)
    requires Truthy(p.stock)
    ensures stocks == Reconciled(LedgerOrEmpty(fetched), p, resultId, freshId)
  {
    stocks := if fetched.Some? then fetched.value else map[];
    var prodId := ResolveId(p.id, resultId);
    if IsSet(prodId) && Truthy(Get(stocks, prodId.value)) {
      stocks := stocks - {prodId.value};
    }
    match CategoryOf(p.kind) {
      case Some(c) =>
        var variants := if Truthy(Get(stocks, c.Key())) then stocks[c.Key()].fields else map[];
        variants := DropStaleVariants(variants, p.stock.fields);
        variants := PutVariants(c, variants, p.stock.fields);
        assert variants == Variants(c, p.stock.fields);
        stocks := stocks[c.Key() := Obj(variants)];
      case None =>
        if !IsSet(prodId) {
          prodId := Some(freshId);
        }
        stocks := stocks[prodId.value := Spread(p.stock)];
    }
  }
}
