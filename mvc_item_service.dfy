/**
 * The MVC service's module-level item table: a map from id to item with
 * create, spread-merge update and list. Ids are inputs.
 */
module MvcItemService {
  import opened Wrappers
  import opened Errors
  import opened InsertionOrder

  datatype Item = Item(id: string, name: string, description: Option<string>)

  datatype CreateItemInput = CreateItemInput(name: string, description: Option<string>)

  /** A key missing from the validated input is `None`. */
  datatype UpdateItemInput = UpdateItemInput(name: Option<string>, description: Option<string>)

  const NotFoundStatus := 404

  function NotFoundMessage(itemId: string): string {
    "Item with id " + itemId + " not found"
  }

  /** `{ ...existing, ...input }`: the keys the input carries override, the rest and the id stay. */
  function Spread(existing: Item, input: UpdateItemInput): (r: Item)
    ensures r.id == existing.id
    ensures input.name.Some? ==> r.name == input.name.value
    ensures input.name.None? ==> r.name == existing.name
    ensures input.description.Some? ==> r.description == input.description
    ensures input.description.None? ==> r.description == existing.description
  {
    Item(existing.id,
         if input.name.Some? then input.name.value else existing.name,
         if input.description.Some? then input.description else existing.description)
  }

  /** An input with no keys leaves the item as it was. */
  lemma EmptySpreadIsIdentity(existing: Item)
    ensures Spread(existing, UpdateItemInput(None, None)) == existing
  {
  }

  /** Spreading the same input twice is spreading it once. */
  lemma SpreadIdempotent(existing: Item, input: UpdateItemInput)
    ensures Spread(Spread(existing, input), input) == Spread(existing, input)
  {
  }

  /** Two spreads are one spread of the inputs combined, the later keys winning. */
  lemma SpreadComposes(existing: Item, first: UpdateItemInput, second: UpdateItemInput)
    ensures Spread(Spread(existing, first), second)
            == Spread(existing, UpdateItemInput(
                 if second.name.Some? then second.name else first.name,
                 if second.description.Some? then second.description else first.description))
  {
  }

  /** The module-level `items` map. */
  class ItemStore {
    var items: map<string, Item>
    var order: seq<string>

    /** Every key is in the order exactly once, and every item is stored under its own id. */
    ghost predicate Valid()
      reads this
    {
      && NoDuplicates(order)
      && (forall k :: k in order <==> k in items)
      && (forall k :: k in items ==> items[k].id == k)
    }

    constructor ()
      ensures Valid() && items == map[] && order == []
    {
      items := map[];
      order := [];
    }

    /** `listItems`: all stored items, each once, in insertion order. */
    method ListItems() returns (all: seq<Item>)
      requires Valid()
      ensures |all| == |order| == |items|
      ensures forall i :: 0 <= i < |order| ==> all[i] == items[order[i]]
      ensures forall item :: item in all <==> item in items.Values
    {
      all := [];
      var i := 0;
      while i < |order|
        invariant 0 <= i <= |order|
        invariant |all| == i
        invariant forall j :: 0 <= j < i ==> all[j] == items[order[j]]
      {
        all := all + [items[order[i]]];
        i := i + 1;
      }
      DistinctCount(order, items.Keys);
      forall item | item in items.Values
        ensures item in all
      {
        var k :| k in items && items[k] == item;
        var j :| 0 <= j < |order| && order[j] == k;
        assert all[j] == item;
      }
    }

    /** `createItem(input)`: stores `{id, name, description}` under the generated `id` and returns it. */
    method CreateItem(input: CreateItemInput, id: string) returns (item: Item)
      requires Valid()
      modifies this
      ensures Valid()
      ensures item.id == id && item.name == input.name && item.description == input.description
      ensures items == old(items)[id := item]
      ensures order == Insert(old(order), id)
    {
      item := Item(id, input.name, input.description);
      items := items[item.id := item];
      order := Insert(order, item.id);
    }

    /**
     * `updateItem(itemId, input)`: an unknown id throws a 404 and changes nothing;
     * otherwise the spread item replaces the stored one and is returned.
     */
    method UpdateItem(itemId: string, input: UpdateItemInput) returns (r: Result<Item, Error>)
      requires Valid()
      modifies this
      ensures Valid()
      ensures itemId !in old(items) ==>
        r == Err(HttpStatus(NotFoundStatus, NotFoundMessage(itemId))) && unchanged(this)
      ensures itemId in old(items) ==>
        && r == Ok(Spread(old(items)[itemId], input))
        && r.value.id == itemId
        && items == old(items)[itemId := r.value]
        && order == old(order)
    {
      if itemId !in items {
        return Err(HttpStatus(NotFoundStatus, NotFoundMessage(itemId)));
      }
      var updated := Spread(items[itemId], input);
      items := items[itemId := updated];
      r := Ok(updated);
    }
  }
}
