/**
 * The warehouse program's generic inventory repository: a dictionary from item id to item that
 * rejects duplicate ids, reports missing ids, and refuses negative quantities.
 */
module WarehouseSys {
  import opened Wrappers
  import opened Int32
  import opened DateTimes

  /**
   * An inventory item (`IInventoryItem`): `Id` and `Name` are read-only, `Quantity` is settable.
   * `details` holds the fields of the concrete item class.
   */
  datatype Item<P> = Item(id: i32, name: string, quantity: i32, details: P)

  /** The extra fields of an `ElectronicItem`. */
  datatype Electronic = Electronic(brand: string, warrantyMonths: i32)

  /** The extra field of a `GroceryItem`. */
  datatype Grocery = Grocery(expiryDate: DateTime)

  /** The repository's three custom exceptions; each carries what its message reports. */
  datatype InventoryError =
    | DuplicateItem(id: i32)
    | ItemNotFound(id: i32)
    | InvalidQuantity

  /** Every key is the id of the item stored under it. */
  ghost predicate KeyedById<P>(m: map<i32, Item<P>>)
  {
    forall k :: k in m ==> m[k].id == k
  }

  /** `InventoryRepository<T>`: the dictionary `_items` from id to item. */
  class InventoryRepository<P> {
    var items: map<i32, Item<P>>

    ghost predicate Valid()
      reads this
    {
      KeyedById(items)
    }

    constructor ()
      ensures Valid() && items == map[]
    {
      items := map[];
    }

    /** Inserts `item` under its own id, or fails if that id is already a key. */
    method AddItem(item: Item<P>) returns (outcome: Outcome<InventoryError>)
      requires Valid()
      modifies this
      ensures Valid()
      ensures item.id in old(items) ==> outcome == Fail(DuplicateItem(item.id)) && items == old(items)
      ensures item.id !in old(items) ==> outcome == Pass && items == old(items)[item.id := item]
    {
      if item.id in items {
        return Fail(DuplicateItem(item.id));
      }
      items := items[item.id := item];
      outcome := Pass;
    }

    /** The item stored under `id`, or `ItemNotFound`. */
    function GetItemById(id: i32): (r: Result<Item<P>, InventoryError>)
      requires Valid()
      reads this
      ensures r.Failure? <==> id !in items
      ensures r.Failure? ==> r.error == ItemNotFound(id)
      ensures r.Success? ==> r.value == items[id] && r.value.id == id
    {
      if id !in items then Failure(ItemNotFound(id)) else Success(items[id])
    }

    /** Deletes the entry for `id`, or fails if there is none. */
    method RemoveItem(id: i32) returns (outcome: Outcome<InventoryError>)
      requires Valid()
      modifies this
      ensures Valid()
      ensures id !in old(items) ==> outcome == Fail(ItemNotFound(id)) && items == old(items)
      ensures id in old(items) ==> outcome == Pass && items == old(items) - {id}
    {
      if id !in items {
        return Fail(ItemNotFound(id));
      }
      items := items - {id};
      outcome := Pass;
    }

    /**
     * A fresh list of the stored items, one per key (`new List<T>(_items.Values)`).
     * The order of a dictionary's values is not specified, so only the contents are.
     */
    method GetAllItems() returns (all: seq<Item<P>>)
      requires Valid()
      ensures |all| == |items|
      ensures forall i :: 0 <= i < |all| ==> all[i].id in items && items[all[i].id] == all[i]
      ensures forall k :: k in items ==> items[k] in all
      ensures forall i, j :: 0 <= i < j < |all| ==> all[i].id != all[j].id
    {
      all := [];
      var pending := items.Keys;
      while pending != {}
        invariant pending <= items.Keys
        invariant |all| + |pending| == |items.Keys|
        invariant forall i :: 0 <= i < |all| ==> all[i].id in items && items[all[i].id] == all[i]
        invariant forall i :: 0 <= i < |all| ==> all[i].id !in pending
        invariant forall k :: k in items && k !in pending ==> items[k] in all
        invariant forall i, j :: 0 <= i < j < |all| ==> all[i].id != all[j].id
        decreases |pending|
      {
        var k :| k in pending;
        all := all + [items[k]];
        pending := pending - {k};
      }
    }

    /**
     * Sets the quantity of the item under `id`. A negative quantity is refused before the id is
     * looked up, so a negative update of a missing id reports `InvalidQuantity`.
     */
    method UpdateQuantity(id: i32, newQuantity: i32) returns (outcome: Outcome<InventoryError>)
      requires Valid()
      modifies this
      ensures Valid()
      ensures newQuantity < 0 ==> outcome == Fail(InvalidQuantity) && items == old(items)
      ensures newQuantity >= 0 && id !in old(items) ==>
                outcome == Fail(ItemNotFound(id)) && items == old(items)
      ensures newQuantity >= 0 && id in old(items) ==>
                outcome == Pass && items == old(items)[id := old(items)[id].(quantity := newQuantity)]
    {
      if newQuantity < 0 {
        return Fail(InvalidQuantity);
      }
      if id !in items {
        return Fail(ItemNotFound(id));
      }
      items := items[id := items[id].(quantity := newQuantity)];
      outcome := Pass;
    }
  }

  /**
   * `WareHouseManager.IncreaseStock`: looks the item up and sets its quantity to the old quantity
   * plus `quantity`, a C# `int` addition that wraps around. The error the manager prints is returned.
   */
  method IncreaseStock<P>(repo: InventoryRepository<P>, id: i32, quantity: i32)
    returns (outcome: Outcome<InventoryError>)
    requires repo.Valid()
    modifies repo
    ensures repo.Valid()
    ensures id !in old(repo.items) ==> outcome == Fail(ItemNotFound(id)) && repo.items == old(repo.items)
    ensures id in old(repo.items) ==>
              var before := old(repo.items)[id];
              var sum := WrapAdd(before.quantity, quantity);
              (MinValue <= before.quantity + quantity <= MaxValue ==> sum == before.quantity + quantity) &&
              (sum < 0 ==> outcome == Fail(InvalidQuantity) && repo.items == old(repo.items)) &&
              (sum >= 0 ==> outcome == Pass && repo.items == old(repo.items)[id := before.(quantity := sum)])
  {
    var found := repo.GetItemById(id);
    if found.Failure? {
      return Fail(found.error);
    }
    outcome := repo.UpdateQuantity(id, WrapAdd(found.value.quantity, quantity));
  }

  /**
   * The program's seeding (`SeedData`) and exception tests (`Main`): the duplicate add of id 1
   * fails and leaves the laptop in place, removing the absent grocery 99 fails, and the call
   * commented "Invalid quantity" lowers the smartphone's stock of 20 by 5 and succeeds with 15,
   * while a delta of -16 would have been refused. The two expiry dates are the clock readings
   * the seeding takes.
   */
  method SeedAndExceptionTests(riceExpiry: DateTime, milkExpiry: DateTime)
    returns (duplicate: Outcome<InventoryError>, missing: Outcome<InventoryError>,
             lowered: Outcome<InventoryError>, smartphones: i32, refused: Outcome<InventoryError>)
    ensures duplicate == Fail(DuplicateItem(1))
    ensures missing == Fail(ItemNotFound(99))
    ensures lowered == Pass && smartphones == 15
    ensures refused == Fail(InvalidQuantity)
  {
    var electronics := new InventoryRepository<Electronic>();
    var groceries := new InventoryRepository<Grocery>();
    var a := electronics.AddItem(Item(1, "Laptop", 10, Electronic("Dell", 24)));
    var b := electronics.AddItem(Item(2, "Smartphone", 20, Electronic("Samsung", 12)));
    var c := groceries.AddItem(Item(1, "Rice", 50, Grocery(riceExpiry)));
    var d := groceries.AddItem(Item(2, "Milk", 30, Grocery(milkExpiry)));
    assert a == b == c == d == Pass;

    duplicate := electronics.AddItem(Item(1, "Tablet", 5, Electronic("Apple", 12)));
    var stored := electronics.GetItemById(1);
    assert stored == Success(Item(1, "Laptop", 10, Electronic("Dell", 24)));

    missing := groceries.RemoveItem(99);
    assert groceries.items.Keys == {1, 2};

    lowered := IncreaseStock(electronics, 2, -5);
    smartphones := electronics.items[2].quantity;
    refused := IncreaseStock(electronics, 2, -16);
    assert electronics.items[2].quantity == 15;
  }
}
