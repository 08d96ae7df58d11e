/**
 * The REST service's in-memory item table: a map from id to item with
 * create, merge-update and list. Ids and timestamps are inputs.
 */
module DomainItemService {
  import opened Wrappers
  import opened Errors
  import opened InsertionOrder

  datatype Item = Item(id: string, name: string, price: real, description: Option<string>, createdAt: string, updatedAt: string)

  datatype CreateItemInput = CreateItemInput(name: string, price: real, description: Option<string>)

  /** An absent field is `None`; `??` treats null and undefined alike. */
  datatype UpdateItemInput = UpdateItemInput(name: Option<string>, price: Option<real>, description: Option<string>)

  const NotFoundMessage := "Item not found"
  const NotFoundStatus := 404

  /** `a ?? b` on an optional field. */
  function Coalesce<T>(a: Option<T>, b: T): (r: T)
    ensures a.Some? ==> r == a.value
    ensures a.None? ==> r == b
  {
    if a.Some? then a.value else b
  }

  /** The item `updateItem` builds: present fields replace, absent ones keep, id and createdAt are kept. */
  function Merge(existing: Item, input: UpdateItemInput, nowIso: string): (r: Item)
    ensures r.id == existing.id && r.createdAt == existing.createdAt && r.updatedAt == nowIso
    ensures r.name == Coalesce(input.name, existing.name)
    ensures r.price == Coalesce(input.price, existing.price)
    ensures r.description == (if input.description.Some? then input.description else existing.description)
  {
    existing.(
      name := Coalesce(input.name, existing.name),
      price := Coalesce(input.price, existing.price),
      description := if input.description.Some? then input.description else existing.description,
      updatedAt := nowIso)
  }

  /** An update with no fields only moves updatedAt. */
  lemma EmptyUpdateTouchesOnlyTimestamp(existing: Item, nowIso: string)
    ensures Merge(existing, UpdateItemInput(None, None, None), nowIso) == existing.(updatedAt := nowIso)
  {
  }

  /** Applying the same update twice is applying it once (at the later time). */
  lemma MergeIdempotent(existing: Item, input: UpdateItemInput, t1: string, t2: string)
    ensures Merge(Merge(existing, input, t1), input, t2) == Merge(existing, input, t2)
  {
  }

  /** A later update's present fields win over an earlier one's. */
  lemma LaterUpdateWins(existing: Item, first: UpdateItemInput, second: UpdateItemInput, t1: string, t2: string)
    requires second.name.Some? && second.price.Some? && second.description.Some?
    ensures Merge(Merge(existing, first, t1), second, t2) == Merge(existing, second, t2)
  {
  }

  class ItemService {
    var idToItem: map<string, Item>
    var order: seq<string>

    /** Every key is in the order exactly once, and every item is stored under its own id. */
    ghost predicate Valid()
      reads this
    {
      && NoDuplicates(order)
      && (forall k :: k in order <==> k in idToItem)
      && (forall k :: k in idToItem ==> idToItem[k].id == k)
    }

    constructor ()
      ensures Valid() && idToItem == map[] && order == []
    {
      idToItem := map[];
      order := [];
    }

    /** `listItems`: the stored items, each once, in insertion order. */
    method ListItems() returns (items: seq<Item>)
      requires Valid()
      ensures |items| == |order| == |idToItem|
      ensures forall i :: 0 <= i < |order| ==> items[i] == idToItem[order[i]]
      ensures forall item :: item in items <==> item in idToItem.Values
    {
      items := [];
      var i := 0;
      while i < |order|
        invariant 0 <= i <= |order|
        invariant |items| == i
        invariant forall j :: 0 <= j < i ==> items[j] == idToItem[order[j]]
      {
        items := items + [idToItem[order[i]]];
        i := i + 1;
      }
      DistinctCount(order, idToItem.Keys);
      forall item | item in idToItem.Values
        ensures item in items
      {
        var k :| k in idToItem && idToItem[k] == item;
        var j :| 0 <= j < |order| && order[j] == k;
        assert items[j] == item;
      }
    }

    /** `createItem(input)`: stores a new item under `id`, both timestamps `nowIso`, and returns it. */
    method CreateItem(input: CreateItemInput, id: string, nowIso: string) returns (item: Item)
      requires Valid()
      modifies this
      ensures Valid()
      ensures item.id == id && item.createdAt == item.updatedAt == nowIso
      ensures item.name == input.name && item.price == input.price && item.description == input.description
      ensures idToItem == old(idToItem)[id := item]
      ensures order == Insert(old(order), id)
    {
      item := Item(id, input.name, input.price, input.description, nowIso, nowIso);
      idToItem := idToItem[item.id := item];
      order := Insert(order, item.id);
    }

    /**
     * `updateItem(id, input)`: an unknown id is a 404 and changes nothing;
     * otherwise the merged item replaces the stored one, in place.
     */
    method UpdateItem(id: string, input: UpdateItemInput, nowIso: string) returns (r: Result<Item, Error>)
      requires Valid()
      modifies this
      ensures Valid()
      ensures id !in old(idToItem) ==>
        r == Err(HttpStatus(NotFoundStatus, NotFoundMessage)) && unchanged(this)
      ensures id in old(idToItem) ==>
        && r == Ok(Merge(old(idToItem)[id], input, nowIso))
        && r.value.id == id
        && idToItem == old(idToItem)[id := r.value]
        && order == old(order)
    {
      if id !in idToItem {
        return Err(HttpStatus(NotFoundStatus, NotFoundMessage));
      }
      var existing := idToItem[id];
      var updated := Merge(existing, input, nowIso);
      idToItem := idToItem[id := updated];
      r := Ok(updated);
    }
  }

  /** Creating then updating keeps the creation time and id, and the item is listed once. */
  method CreateThenUpdate(service: ItemService, input: CreateItemInput, change: UpdateItemInput, id: string, t1: string, t2: string)
    returns (created: Item, updated: Result<Item, Error>)
    requires service.Valid()
    modifies service
    ensures service.Valid()
    ensures updated.Ok? && updated.value.id == id && updated.value.createdAt == created.createdAt == t1
    ensures updated.value.updatedAt == t2
    ensures id in service.idToItem && service.idToItem[id] == updated.value
  {
    created := service.CreateItem(input, id, t1);
    updated := service.UpdateItem(id, change, t2);
  }
}
