/** The price editor of frontend/src/components/admin/PriceEditor.js: an
    edit replaces the price of the item with the given id in the local
    list, and saving sends one price update per listed item. The number
    parsed from the input box is taken as given. */
module PriceEditor {
  import opened Common
  import opened MenuCatalog

  /** `handlePriceChange`: every item with the id gets the new price; all
      else is kept. */
  function SetPrice(items: seq<MenuItem>, id: Id, newPrice: real): (r: seq<MenuItem>)
    ensures |r| == |items|
    ensures forall k :: 0 <= k < |items| && items[k].id == id ==> r[k] == items[k].(price := newPrice)
    ensures forall k :: 0 <= k < |items| && items[k].id != id ==> r[k] == items[k]
  {
    if |items| == 0 then []
    else
      var head := if items[0].id == id then items[0].(price := newPrice) else items[0];
      [head] + SetPrice(items[1..], id, newPrice)
  }

  /** An id that no item carries leaves the list as it was. */
  lemma SetPriceNoMatch(items: seq<MenuItem>, id: Id, newPrice: real)
    requires forall k :: 0 <= k < |items| ==> items[k].id != id
    ensures SetPrice(items, id, newPrice) == items
  {
  }

  /** Only the price moves: ids, names and every other field stay put. */
  lemma SetPriceKeepsOtherFields(items: seq<MenuItem>, id: Id, newPrice: real)
    ensures forall k :: 0 <= k < |items| ==>
              SetPrice(items, id, newPrice)[k].(price := items[k].price) == items[k]
  {
  }

  /** A later edit of the same item overrides an earlier one. */
  lemma SetPriceLastWins(items: seq<MenuItem>, id: Id, p1: real, p2: real)
    ensures SetPrice(SetPrice(items, id, p1), id, p2) == SetPrice(items, id, p2)
  {
    var once := SetPrice(items, id, p1);
    assert forall k :: 0 <= k < |items| ==> once[k].id == items[k].id;
  }

  /** One request of `saveChanges`: the item's id and the price sent for
      it. */
  datatype PriceUpdate = PriceUpdate(id: Id, price: real)

  /** `saveChanges`: a request for every listed item, edited or not, in
      list order. */
  function SaveRequests(items: seq<MenuItem>): (r: seq<PriceUpdate>)
    ensures |r| == |items|
    ensures forall k :: 0 <= k < |items| ==> r[k] == PriceUpdate(items[k].id, items[k].price)
  {
    if |items| == 0 then [] else [PriceUpdate(items[0].id, items[0].price)] + SaveRequests(items[1..])
  }

  /** After an edit, saving sends the new price for every item with that id
      and the old price for the others. */
  lemma SaveCarriesEdit(items: seq<MenuItem>, id: Id, newPrice: real)
    ensures forall k :: 0 <= k < |items| ==>
              SaveRequests(SetPrice(items, id, newPrice))[k] ==
                PriceUpdate(items[k].id, if items[k].id == id then newPrice else items[k].price)
  {
  }
}
