/**
 * Copy-on-write primitives over arrays of records that carry a string `id`.
 * The TypeScript constraint `T extends { id: string }` becomes a type
 * parameter `T` together with the projection `idOf` that reads the id.
 */
module GenericService {
  import opened Wrappers

  /** The ids of `items`, in array order. */
  function Ids<T>(items: seq<T>, idOf: T -> string): (r: seq<string>)
    ensures |r| == |items|
    ensures forall k :: 0 <= k < |items| ==> r[k] == idOf(items[k])
  {
    seq(|items|, k requires 0 <= k < |items| => idOf(items[k]))
  }

  /**
   * `items.findIndex(item => item.id === id)`: the first index whose id is
   * `id`, or -1 when there is none.
   */
  function FindItemIndexById<T>(id: string, items: seq<T>, idOf: T -> string): (r: int)
    ensures -1 <= r < |items|
    ensures r == -1 <==> id !in Ids(items, idOf)
    ensures r != -1 ==> idOf(items[r]) == id
    ensures forall k :: 0 <= k < r ==> idOf(items[k]) != id
  {
    if items == [] then -1
    else if idOf(items[0]) == id then 0
    else
      var k := FindItemIndexById(id, items[1..], idOf);
      assert Ids(items, idOf) == [idOf(items[0])] + Ids(items[1..], idOf);
      if k == -1 then -1 else k + 1
  }

  /**
   * `items.find(item => item.id === id)`: the first item whose id is `id`,
   * or None (`undefined`) when there is none.
   */
  function FindItemById<T>(id: string, items: seq<T>, idOf: T -> string): (r: Option<T>)
    ensures r.None? <==> id !in Ids(items, idOf)
    ensures r.Some? ==> idOf(r.value) == id && r.value in items
    ensures r.Some? ==> r.value == items[FindItemIndexById(id, items, idOf)]
  {
    if items == [] then None
    else if idOf(items[0]) == id then Some(items[0])
    else
      assert Ids(items, idOf) == [idOf(items[0])] + Ids(items[1..], idOf);
      FindItemById(id, items[1..], idOf)
  }

  /**
   * `generateNewId`: draw random strings until one is not the id of any item.
   * `draws` stands for the successive results of the random generator, which
   * is not part of this model; the loop returns only if one of them is fresh,
   * which the precondition states.
   */
  method GenerateNewId<T>(allItems: seq<T>, idOf: T -> string, draws: seq<string>) returns (id: string)
    requires exists k :: 0 <= k < |draws| && draws[k] !in Ids(allItems, idOf)
    ensures id !in Ids(allItems, idOf)
    ensures exists k :: 0 <= k < |draws| && id == draws[k] && forall j :: 0 <= j < k ==> draws[j] in Ids(allItems, idOf)
  {
    var n := 0;
    id := draws[n];
    n := n + 1;
    while FindItemById(id, allItems, idOf).Some?
      invariant 1 <= n <= |draws|
      invariant id == draws[n - 1]
      invariant forall j :: 0 <= j < n - 1 ==> draws[j] in Ids(allItems, idOf)
      invariant exists k :: n - 1 <= k < |draws| && draws[k] !in Ids(allItems, idOf)
      decreases |draws| - n
    {
      id := draws[n];
      n := n + 1;
    }
  }

  /**
   * What `updateItem` returns, as a value: the items with the first one whose
   * id is `itemId` replaced by `setter` of it; the items unchanged if none has
   * that id.
   */
  function Updated<T>(itemId: string, setter: T -> T, items: seq<T>, idOf: T -> string): (r: seq<T>)
    ensures |r| == |items|
    ensures itemId !in Ids(items, idOf) ==> r == items
    ensures forall i :: 0 <= i < |items| && idOf(items[i]) == itemId && (forall j :: 0 <= j < i ==> idOf(items[j]) != itemId) ==>
      r[i] == setter(items[i]) && forall j :: 0 <= j < |items| && j != i ==> r[j] == items[j]
  {
    var i := FindItemIndexById(itemId, items, idOf);
    if i == -1 then items else items[i := setter(items[i])]
  }

  /** A setter that leaves the id alone leaves the sequence of ids alone. */
  lemma UpdatedKeepsIds<T>(itemId: string, setter: T -> T, items: seq<T>, idOf: T -> string)
    requires forall x :: idOf(setter(x)) == idOf(x)
    ensures Ids(Updated(itemId, setter, items, idOf), idOf) == Ids(items, idOf)
  {
    var r := Updated(itemId, setter, items, idOf);
    var i := FindItemIndexById(itemId, items, idOf);
    if i != -1 {
      forall k | 0 <= k < |items| ensures idOf(r[k]) == idOf(items[k]) {
        if k == i {
          assert r[k] == setter(items[k]);
        }
      }
    }
  }

  /**
   * `updateItem`: copy `allItems` into a fresh array and overwrite, in the copy
   * only, the first item whose id is `itemId`. The input array is not modified
   * (the method may not modify it) and the result never aliases it.
   */
  method UpdateItem<T>(itemId: string, setter: T -> T, allItems: array<T>, idOf: T -> string) returns (items: array<T>)
    ensures fresh(items)
    ensures items[..] == Updated(itemId, setter, allItems[..], idOf)
  {
    items := new T[allItems.Length](k requires 0 <= k < allItems.Length reads allItems => allItems[k]);
    assert items[..] == allItems[..];
    var itemIndex := FindItemIndexById(itemId, items[..], idOf);
    if itemIndex == -1 {
      return;
    }
    items[itemIndex] := setter(items[itemIndex]);
  }
}
