/** What a reconciliation does to the ledger: which keys it removes, which it
    writes and with what, which it leaves alone, and when running it a second
    time changes nothing. */
module ReconcilerProperties {
  import opened Values
  import opened Reconciler

  /** Every key other than the written one and the cleaned-up direct entry
      keeps its presence and its value. In particular a category branch never
      touches the other category's entry unless the product id is that
      category's key and the entry is truthy. */
  lemma OtherKeysUnchanged(s: Ledger, p: Product, resultId: Option<string>, freshId: string, k: string)
    requires Truthy(p.stock)
    requires k != WrittenKey(p, resultId, freshId)
    requires !(CleansUp(s, ResolveId(p.id, resultId)) && k == ResolveId(p.id, resultId).value)
    ensures var r := Reconciled(s, p, resultId, freshId);
      (k in r <==> k in s) && (k in s ==> r[k] == s[k])
  {
  }

  /** A truthy entry under the resolved id is deleted whatever the product's
      type, including when the id is itself "tshirt" or "jort"; it survives
      only as the entry the branch writes afresh. */
  lemma DirectEntryRemoved(s: Ledger, p: Product, resultId: Option<string>, freshId: string)
    requires Truthy(p.stock)
    requires CleansUp(s, ResolveId(p.id, resultId))
    ensures var id := ResolveId(p.id, resultId).value;
      var r := Reconciled(s, p, resultId, freshId);
      id != WrittenKey(p, resultId, freshId) ==> id !in r
  {
  }

  /** A tshirt or jort product leaves its category holding exactly the
      submitted variant keys; tshirt stores a shallow copy of each submitted
      value, jort the value itself. */
  lemma CategoryReplaced(s: Ledger, p: Product, resultId: Option<string>, freshId: string, c: Category)
    requires Truthy(p.stock)
    requires CategoryOf(p.kind) == Some(c)
    ensures var r := Reconciled(s, p, resultId, freshId);
      && c.Key() in r && Truthy(r[c.Key()])
      && r[c.Key()].fields.Keys == p.stock.fields.Keys
      && (forall k :: k in p.stock.fields ==>
            r[c.Key()].fields[k] == (if c == Tshirt then Spread(p.stock.fields[k]) else p.stock.fields[k]))
  {
  }

  /** A product of any other type has its stock filed under its resolved id,
      or under the fresh id when it has none, as a copy of the submitted stock. */
  lemma GenericStored(s: Ledger, p: Product, resultId: Option<string>, freshId: string)
    requires Truthy(p.stock)
    requires CategoryOf(p.kind).None?
    ensures var id := ResolveId(p.id, resultId);
      var key := if IsSet(id) then id.value else freshId;
      var r := Reconciled(s, p, resultId, freshId);
      key in r && r[key] == p.stock
  {
  }

  /** A generic product with no id anywhere, filed under a fresh id the ledger
      does not use yet, adds exactly one key and changes no existing entry. */
  lemma FreshKeyAdded(s: Ledger, p: Product, resultId: Option<string>, freshId: string)
    requires Truthy(p.stock)
    requires CategoryOf(p.kind).None? && !IsSet(ResolveId(p.id, resultId))
    requires freshId !in s
    ensures var r := Reconciled(s, p, resultId, freshId);
      && r.Keys == s.Keys + {freshId}
      && |r| == |s| + 1
      && (forall k :: k in s ==> r[k] == s[k])
  {
  }

  /** Reconciling a product whose id is known, or a tshirt or jort product,
      into the ledger it produced changes nothing, whatever fresh id the
      second run would have used: the first run already deleted any truthy
      entry under the id, so the second can only delete the entry it then
      writes again, with the same value. */
  lemma FixedPoint(s: Ledger, p: Product, resultId: Option<string>, freshId: string, freshId': string)
    requires Truthy(p.stock)
    requires IsSet(ResolveId(p.id, resultId)) || CategoryOf(p.kind).Some?
    ensures var r := Reconciled(s, p, resultId, freshId);
      Reconciled(r, p, resultId, freshId') == r
  {
  }

  /** A generic product without any id is not a fixed point: a second run
      files its stock under a second fresh key. */
  lemma FreshKeyNotFixed(s: Ledger, p: Product, resultId: Option<string>, freshId: string, freshId': string)
    requires Truthy(p.stock)
    requires CategoryOf(p.kind).None? && !IsSet(ResolveId(p.id, resultId))
    requires freshId' != freshId && freshId' !in s
    ensures var r := Reconciled(s, p, resultId, freshId);
      Reconciled(r, p, resultId, freshId') != r
  {
  }
}
