/**
 * The product store (the `Products` table) and the two queries the product
 * service runs against it: the stock of the teddy bear "福利熊玩偶" and the
 * check-then-insert that seeds it. The store is a sequence of records in the
 * order the table yields them.
 */
module Catalog {
  import opened Wrappers
  import opened Numerics
  import opened Search

  /** One row of the `Products` table; the decimal price is kept in cents. */
  datatype Product = Product(id: int64, name: string, stock: int32, priceCents: int)

  /** The one product name the service ever asks about. */
  const BearName: string := "福利熊玩偶"

  /**
   * The record the seeding operation inserts: stock 1000, price 299.
   * Its id is whatever the C# default leaves before the database assigns one.
   */
  const SeedProduct: Product := Product(0, BearName, 1000, 29900)

  /** Position of the first record named `name`: what `Where(..).FirstOrDefault()` yields. */
  function FirstNamed(store: seq<Product>, name: string): (r: Option<nat>)
    ensures r.Some? ==> r.value < |store| && store[r.value].name == name
    ensures r.Some? ==> forall j :: 0 <= j < r.value ==> store[j].name != name
    ensures r.None? <==> forall j :: 0 <= j < |store| ==> store[j].name != name
  {
    FirstIndex(store, (p: Product) => p.name == name)
  }

  /** `AnyAsync(p => p.Name == name)`. */
  predicate HasNamed(store: seq<Product>, name: string)
  {
    FirstNamed(store, name).Some?
  }

  /** The stock query: the first bear's stock, and 0 (not an error) when there is no bear. */
  function StoreStock(store: seq<Product>): (r: int32)
    ensures (forall i :: 0 <= i < |store| ==> store[i].name != BearName) ==> r == 0
    ensures forall i :: 0 <= i < |store| && store[i].name == BearName &&
                        (forall j :: 0 <= j < i ==> store[j].name != BearName)
                        ==> r == store[i].stock
  {
    match FirstNamed(store, BearName)
    case None => 0
    case Some(i) => store[i].stock
  }

  /** Number of records named `name`. */
  function CountNamed(store: seq<Product>, name: string): nat
  {
    if store == [] then 0
    else (if store[0].name == name then 1 else 0) + CountNamed(store[1..], name)
  }

  /**
   * The seeding operation: the new store and whether it inserted. It inserts
   * the seed record exactly when no bear is present, and a bear is present afterwards.
   */
  function Seeded(store: seq<Product>): (r: (seq<Product>, bool))
    ensures r.1 <==> !HasNamed(store, BearName)
    ensures HasNamed(r.0, BearName)
    ensures |r.0| == |store| + (if r.1 then 1 else 0)
    ensures r.0[..|store|] == store
    ensures r.1 ==> r.0[|store|] == SeedProduct
  {
    if HasNamed(store, BearName) then (store, false)
    else
      var s := store + [SeedProduct];
      assert s[|store|].name == BearName;
      (s, true)
  }

  /** Counting distributes over appending one record. */
  lemma {:induction false} CountNamedAppend(store: seq<Product>, p: Product, name: string)
    ensures CountNamed(store + [p], name) == CountNamed(store, name) + (if p.name == name then 1 else 0)
  {
    if store != [] {
      assert (store + [p])[1..] == store[1..] + [p];
      CountNamedAppend(store[1..], p, name);
    }
  }

  /** A store with no record of that name counts none, and conversely. */
  lemma {:induction false} CountNamedZero(store: seq<Product>, name: string)
    ensures CountNamed(store, name) == 0 <==> !HasNamed(store, name)
  {
    if store != [] {
      CountNamedZero(store[1..], name);
      if store[0].name != name {
        assert HasNamed(store, name) <==> HasNamed(store[1..], name);
      }
    }
  }

  /** Seeding a store without a bear leaves exactly one bear in it. */
  lemma SeedLeavesExactlyOneBear(store: seq<Product>)
    requires !HasNamed(store, BearName)
    ensures CountNamed(Seeded(store).0, BearName) == 1
  {
    CountNamedZero(store, BearName);
    CountNamedAppend(store, SeedProduct, BearName);
  }

  /** Two sequential seedings: the second reports false and changes nothing. */
  lemma SeedIsIdempotent(store: seq<Product>)
    ensures Seeded(Seeded(store).0) == (Seeded(store).0, false)
  {
  }

  /** Seeding a store without a bear makes the stock query report the seed's 1000. */
  lemma {:induction false} SeedThenStock(store: seq<Product>)
    requires !HasNamed(store, BearName)
    ensures StoreStock(Seeded(store).0) == 1000
  {
    var s := Seeded(store).0;
    assert s == store + [SeedProduct];
    assert forall j :: 0 <= j < |store| ==> s[j].name != BearName;
  }
}
