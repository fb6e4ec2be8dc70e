# Stock-ledger reconciliation of the storefront API client

A Dafny model of the one piece of real logic in the storefront's API client
`js/api.js`: after an admin saves a product, `saveProductAPI` merges the
product's submitted stock into the shared stock ledger and writes the whole
ledger back. The ledger is a JSON object whose reserved keys `tshirt` and
`jort` hold an object of variants (styles, sizes), while every other key
holds one product's stock object. The model also covers the module-level
admin token and the rule by which each request carries it as a `Bearer`
credential.

Files:

- `values.dfy` (module `Values`): JSON values reduced to what the code looks
  at — truthiness and an object's own properties — with property reads and
  object spread `{ ...v }`.
- `reconciler.dfy` (module `Reconciler`): the ledger, the product, the
  declarative result `Reconciled`, and `Reconcile`, the step-by-step merge
  with the two `for…in` loops of each category branch, proved to compute it.
- `reconciler_props.dfy` (module `ReconcilerProperties`): what a
  reconciliation removes, writes and leaves alone, and when it is a fixed point.
- `stock_sync.dfy` (module `StockSync`): the `/stocks` resource as an object
  that is read and replaced, and the guarded read-modify-write of `saveProductAPI`.
- `admin_auth.dfy` (module `AdminAuth`): the admin token as a class field,
  its updates, and the headers of every request.

Modelling choices:

- A value is `Falsy` (null, undefined, false, 0 or '') or `Obj(fields)`.
  Category entries and direct entries have the same shape, as in the
  JavaScript; only the key tells them apart.
- Product and response ids are `Option<string>`; a missing id and `''` are
  both falsy (`IsSet`). A product's `stock` is a `Value`, falsy when absent.
- The tshirt branch stores `{ ...v }` for each submitted variant, the jort
  branch stores `v` itself; `Category.Stored` keeps the two apart, so a falsy
  submitted variant is stored as `{}` under `tshirt` and as itself under `jort`.
- The random id of a generic product without an id is a parameter
  (`freshId`); the HTTP responses are parameters (`SaveResult`, `LoginResult`).
- The ledger is a local value the method reassigns, as `stocks` is a local
  object in the source; the category's variant object is updated as a local
  value and stored back once, which gives the same final ledger as updating
  it in place through `stocks.tshirt`.

Behaviours of the code the model keeps, which a reader may not expect:

- The guard also requires `result.success`, not only submitted stock (js/api.js:91).
- The cleanup deletes any truthy entry under the product id, including a
  whole category entry when the id is literally `tshirt` or `jort` (js/api.js:101-103).
- The jort branch stores the submitted value as is, without the copy the
  tshirt branch makes (js/api.js:112, 121).
- Stale-variant removal also deletes variants whose submitted value is falsy;
  the second loop adds them back, so the resulting key set is still exactly
  the submitted one (js/api.js:108-113).
- A credential change always sends `Authorization`, as `Bearer ` with
  nothing after it when no token is held (js/api.js:29).

## Model

| member | source | states |
|---|---|---|
| `Values.Spread` | js/api.js:112 | object spread always yields an object: a copy equal to an object argument, `{}` for a falsy one |
| `Reconciler.ResolveId` | js/api.js:97 | the resolved id is set iff the product id or the returned id is; the product's own id wins when set |
| `Reconciler.DropStaleVariants` | js/api.js:107-110 | the kept variants are exactly the existing ones whose submitted value is truthy, with their old values; all of them are submitted keys |
| `Reconciler.PutVariants` | js/api.js:111-113 | the merged variants are the old keys plus the submitted keys; every submitted key holds the category's stored form of the submitted value (`Category.Stored`: a spread copy for tshirt at line 112, the value itself for jort at line 121), every other key its old value |
| `Values.Get` | js/api.js:101 | a property the object has reads as its value; a missing property reads as falsy, so a truthy read means the property is there (also the reads at lines 109 and 118) |
| `Reconciler.LedgerOrEmpty` | js/api.js:93-94 | a missing or falsy fetched ledger becomes the empty ledger; a fetched ledger is used as it is |
| `Reconciler.Reconciled` | js/api.js:97-129 | the merged ledger holds exactly the keys left after the cleanup (`CleansUp`, `DropDirect`) plus the one key the type branch writes (`WrittenKey`, chosen through `CategoryOf`), and that key holds an object: the category's `Variants`, which is what the two `for…in` loops produce together, or a copy of the stock |
| `Reconciler.Reconcile` | js/api.js:93-129 | the step-by-step merge (empty default, id resolution, cleanup, category loops or id-keyed write) yields exactly `Reconciled` of the defaulted ledger |
| `ReconcilerProperties.OtherKeysUnchanged` | js/api.js:99-129 | every key other than the written one and a cleaned-up direct entry keeps its presence and value, so a category branch leaves the other category alone |
| `ReconcilerProperties.DirectEntryRemoved` | js/api.js:97-103 | a truthy entry under the resolved id is gone afterwards, whatever the product type, unless the branch rewrites that very key |
| `ReconcilerProperties.CategoryReplaced` | js/api.js:105-122 | after a tshirt or jort save the category's key set equals the submitted key set; tshirt holds a spread copy of each value, jort the value itself |
| `ReconcilerProperties.GenericStored` | js/api.js:123-129 | a product of another type has a copy of its stock under its resolved id, or under the fresh id when none resolved |
| `ReconcilerProperties.FreshKeyAdded` | js/api.js:125-128 | a generic product with no id adds exactly one new key when the fresh id is unused, and no existing entry changes |
| `ReconcilerProperties.FixedPoint` | js/api.js:97-129 | with a resolved id, or for tshirt and jort, reconciling the same product into its own output changes nothing |
| `ReconcilerProperties.FreshKeyNotFixed` | js/api.js:125-128 | a generic product without an id is not a fixed point: a second run with a new fresh id changes the ledger |
| `StockSync.StocksResource.Fetch` | js/api.js:37-40 | reading the stocks answers the stored ledger and counts one read |
| `StockSync.StocksResource.Replace` | js/api.js:41-51 | writing the stocks replaces the whole ledger and counts one write |
| `StockSync.SaveProduct` | js/api.js:88-133 | a failed save or one without stock neither reads nor writes the ledger; otherwise one read and one write of the reconciled ledger; the save response is returned unchanged |
| `AdminAuth.AdminSession.constructor` | js/api.js:5 | the token starts as the stored one, or `''` |
| `AdminAuth.AdminSession.SetAdminToken` | js/api.js:6-9 | afterwards the token is the given one |
| `AdminAuth.AdminSession.ClearAdminToken` | js/api.js:10-13 | afterwards the token is `''` |
| `AdminAuth.AdminSession.AdminLogin` | js/api.js:20-22 | the token becomes the response's token iff the response reports success and carries a non-empty token; the response is returned unchanged |
| `AdminAuth.AdminSession.Headers` | js/api.js:15-141 | `Authorization: Bearer <token>` is sent iff a token is held for stock writes, order and product deletes and product saves, always for a credential change, never otherwise; `Content-Type: application/json` exactly on requests with a JSON body |

## Left out

- HTTP, JSON encoding and decoding and URL building: responses and the
  fetched ledger are inputs, the written ledger an output. The model assumes
  the backend stores the ledger it is sent; JSON's dropping of `undefined`
  values (which a jort variant may hold) is not modelled.
- Persisting the token in `localStorage` (js/api.js:5, 8, 12): only the
  in-memory token is modelled; the persisted value is the constructor's input.
- The random id `Math.random().toString(36).slice(2, 10)` (js/api.js:126):
  it is the parameter `freshId`, with no length assumed (the expression can
  yield fewer than eight characters).
- Truthy values that are not objects (numbers, strings, arrays) in the ledger
  or in submitted stock; the code would spread or iterate them differently.
- Property names inherited from `Object.prototype` (such as `toString`): the
  code reads them as truthy through the prototype chain; the model treats
  every name as an own property only.
- The order of keys in the ledger, which JavaScript objects keep and a map does not.
- StockSync.SaveProduct: the ledger read and write always succeed in the
  model. In the code a rejected `fetchStocks` or `setStocksAPI` call
  (js/api.js:93, 131) makes `saveProductAPI` reject instead of returning the
  save response, although the product was already saved and the ledger may
  not have been written; and the answer of `setStocksAPI` is ignored, so a
  refused ledger write (for instance without a token) still reports a
  successful save.
- Concurrent saves interleaving their read-modify-write cycles (last writer
  wins): the model is sequential.
- The request bodies of the thin endpoint wrappers (js/api.js:24-34, 54-78,
  135-141); only their headers are modelled, in `Headers`.
- The `window.*` exports (js/api.js:144-164), including the export of the
  undefined `fetchAuditLogsAPI` at line 164.
