/** The read-modify-write around the reconciliation in `saveProductAPI`
    (js/api.js:88-133): fetch the ledger, reconcile, write the whole ledger
    back, but only after a successful save that submitted stock. */
module StockSync {
  import opened Values
  import opened Reconciler

  /** The parts of the product-save response the stock code reads. */
  datatype SaveResult = SaveResult(success: bool, id: Option<string>)

  /** The remote `/stocks` resource as this client uses it: `fetchStocks`
      reads the whole ledger, `setStocksAPI` replaces it. `current` is what a
      read answers (None for a falsy body); the counters record how often the
      resource was read and written. */
  class StocksResource {
    var current: Option<Ledger>
    var fetches: nat
    var writes: nat

    constructor (current: Option<Ledger>)
      ensures this.current == current && fetches == 0 && writes == 0
    {
      this.current := current;
      fetches := 0;
      writes := 0;
    }

    /** `fetchStocks` (js/api.js:37-40). */
    method Fetch() returns (s: Option<Ledger>)
      modifies this`fetches
      ensures s == current
      ensures fetches == old(fetches) + 1
    {
      s := current;
      fetches := fetches + 1;
    }

    /** `setStocksAPI` (js/api.js:41-51): the body replaces the whole ledger;
        there is no partial update. */
    method Replace(ledger: Ledger)
      modifies this`current, this`writes
      ensures current == Some(ledger)
      ensures writes == old(writes) + 1
    {
      current := Some(ledger);
      writes := writes + 1;
    }
  }

  /** Whether a save goes on to sync the ledger: `result.success && product.stock`. */
  predicate SyncsStock(result: SaveResult, p: Product) {
    result.success && Truthy(p.stock)
  }

  /** The stock part of `saveProductAPI`, given the save response `result`
      and the random id a generic product without an id would get. A failed
      save, or one without stock, neither reads nor writes the ledger; any
      other reads it once and writes back its reconciliation once. The save
      response is returned unchanged; the answer to the ledger write is not
      looked at. */
  method SaveProduct(stocks: StocksResource, p: Product, result: SaveResult, freshId: string)
    returns (r: SaveResult)
    modifies stocks
    ensures r == result
    ensures !SyncsStock(result, p) ==>
      && stocks.current == old(stocks.current)
      && stocks.fetches == old(stocks.fetches)
      && stocks.writes == old(stocks.writes)
    ensures SyncsStock(result, p) ==>
      && stocks.current == Some(Reconciled(LedgerOrEmpty(old(stocks.current)), p, result.id, freshId))
      && stocks.fetches == old(stocks.fetches) + 1
      && stocks.writes == old(stocks.writes) + 1
  {
    if result.success && Truthy(p.stock) {
      var fetched := stocks.Fetch();
      var ledger := Reconcile(fetched, p, result.id, freshId);
      stocks.Replace(ledger);
    }
    r := result;
  }
}
