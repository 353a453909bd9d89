/** products.service.ts `create`: the per-store product limit, counted under the store's row lock. */
module Products {
  import opened Common
  import opened GuardedInserts

  type StoreId = nat

  /** What the call looks up on the way: the moderation verdict is a keyword check on the new listing. */
  datatype Lookups = Lookups(listingBlocked: bool, productLimit: int, categoryFound: bool, bannedKeyword: bool, queued: bool)

  datatype Product = Product(store: StoreId, title: string, queued: bool)

  datatype Failure = DuplicateKey(key: string) | StoreNotFound | ListingBlocked | LimitReached | CategoryNotFound | BannedKeyword

  function CountOf(products: seq<Product>, store: StoreId): nat {
    if products == [] then 0
    else CountOf(products[..|products| - 1], store) + if products[|products| - 1].store == store then 1 else 0
  }

  /** A plain count: each product counts once, for its own store. */
  lemma CountAppend(products: seq<Product>, p: Product, store: StoreId)
    ensures CountOf(products + [p], store) == CountOf(products, store) + if p.store == store then 1 else 0
    ensures CountOf([], store) == 0
  {
    assert (products + [p])[..|products|] == products;
  }

  ghost predicate KeysUnique(keys: seq<string>, normalize: string -> string) {
    forall i, j | 0 <= i < j < |keys| :: normalize(keys[i]) != normalize(keys[j])
  }

  /** `normalize` trims and lower-cases. Refuses at the first key that repeats an earlier one. */
  method AssertUniqueAttributeKeys(keys: seq<string>, normalize: string -> string) returns (duplicate: Option<string>)
    ensures duplicate.None? <==> KeysUnique(keys, normalize)
    ensures duplicate.Some? ==> exists i, j | 0 <= i < j < |keys| ::
              normalize(keys[i]) == normalize(keys[j]) && duplicate.value == keys[j] && KeysUnique(keys[..j], normalize)
  {
    var seen: set<string> := {};
    for j := 0 to |keys|
      invariant seen == set i | 0 <= i < j :: normalize(keys[i])
      invariant KeysUnique(keys[..j], normalize)
    {
      var normalized := normalize(keys[j]);
      if normalized in seen {
        var i :| 0 <= i < j && normalize(keys[i]) == normalized;
        return Some(keys[j]);
      }
      seen := seen + {normalized};
    }
    assert keys[..|keys|] == keys;
    return None;
  }

  class ProductsService {
    var stores: set<StoreId>
    var products: seq<Product>

    constructor ()
      ensures stores == {} && products == []
    {
      stores, products := {}, [];
    }

    /** One call with the lock held throughout: whichever check fails, nothing is inserted. */
    method Create(keys: seq<string>, normalize: string -> string, store: StoreId, title: string, found: Lookups)
      returns (r: Result<Product, Failure>)
      modifies `products
      ensures r.Ok? <==> KeysUnique(keys, normalize) && store in stores && !found.listingBlocked
                         && CountOf(old(products), store) < found.productLimit && found.categoryFound && !found.bannedKeyword
      ensures r.Err? ==> products == old(products)
      ensures r.Err? && r.error.DuplicateKey? <==> !KeysUnique(keys, normalize)
      ensures r == Err(StoreNotFound) <==> KeysUnique(keys, normalize) && store !in stores
      ensures r == Err(LimitReached) <==>
                KeysUnique(keys, normalize) && store in stores && !found.listingBlocked && CountOf(old(products), store) >= found.productLimit
      ensures r == Err(LimitReached) ==> CountOf(products, store) >= found.productLimit
      ensures r.Ok? ==> r.value == Product(store, title, found.queued) && products == old(products) + [r.value]
      ensures r.Ok? ==> CountOf(products, store) == CountOf(old(products), store) + 1 <= found.productLimit
    {
      var duplicate := AssertUniqueAttributeKeys(keys, normalize);
      if duplicate.Some? { return Err(DuplicateKey(duplicate.value)); }
      if store !in stores { return Err(StoreNotFound); }
      if found.listingBlocked { return Err(ListingBlocked); }
      var existingCount := CountOf(products, store);
      if existingCount >= found.productLimit { return Err(LimitReached); }
      if !found.categoryFound { return Err(CategoryNotFound); }
      if found.bannedKeyword { return Err(BannedKeyword); }
      var product := Product(store, title, found.queued);
      CountAppend(products, product, store);
      products := products + [product];
      return Ok(product);
    }
  }

  // ---- Refinement of the protocol ---------------------------------------------------------------------

  /** Each of the store's products costs one. */
  function Rows(products: seq<Product>, store: StoreId): seq<Row> {
    seq(CountOf(products, store), _ => Row(-1, 0, 0))
  }

  predicate Unit(row: Row) { row.effect == -1 && 0 <= row.at }

  predicate UnitTxn(x: Txn) {
    match x
    case Inserted(row) => Unit(row)
    case Committed => true
    case Refused => true
    case _ => x.cost == 1 && 0 <= x.at
  }

  lemma {:induction false} UnitTotal(rows: seq<Row>)
    requires forall i | 0 <= i < |rows| :: Unit(rows[i])
    ensures Total(rows, 0, None) == 0 - |rows|
  {
    if rows != [] { UnitTotal(rows[..|rows| - 1]); }
  }

  /** `existingCount >= productLimit` refuses exactly when a cost of one exceeds the headroom. */
  lemma LimitIsHeadroom(limit: int, products: seq<Product>, store: StoreId)
    ensures CountOf(products, store) >= limit <==> Headroom(limit, Rows(products, store), 0) < 1
  {
    UnitTotal(Rows(products, store));
  }

  predicate CreatesOnly(steps: seq<Step>) {
    forall j | 0 <= j < |steps| :: !steps[j].Credit? && !steps[j].Amend? && (steps[j].Begin? ==> steps[j].cost == 1 && steps[j].since == 0)
  }

  lemma {:induction false} CreatesAreUnits(g: Guard, r: Run, k: nat)
    requires IsRun(g, r) && k < |r.states| && CreatesOnly(r.steps)
    requires forall i | 0 <= i < |r.states[0].rows| :: Unit(r.states[0].rows[i])
    ensures forall i | 0 <= i < |r.states[k].rows| :: Unit(r.states[k].rows[i])
    ensures forall id | id in r.states[k].txns :: UnitTxn(r.states[k].txns[id])
    ensures Credits(r.steps, k) == 0
  {
    hide Headroom;
    if k > 0 {
      CreatesAreUnits(g, r, k - 1);
      assert Taken(g, r, k - 1);
    }
  }

  /** In every interleaving of `create` calls the store's products never outgrow the limit. */
  lemma ProductsWithinLimit(limit: nat, r: Run, k: nat, products: seq<Product>, store: StoreId)
    requires IsRun(Guard(limit, true), r) && k < |r.states| && CreatesOnly(r.steps)
    requires r.states[0].rows == Rows(products, store) && CountOf(products, store) <= limit && r.states[0].advances == 0
    ensures |r.states[k].rows| == CountOf(products, store) + r.states[k].advances <= limit
  {
    var g := Guard(limit, true);
    UnitTotal(r.states[0].rows);
    NeverOverdrawn(g, r, k, 0);
    PairedWrites(g, r, k);
    CreatesAreUnits(g, r, k);
    UnitTotal(r.states[k].rows);
  }
}
