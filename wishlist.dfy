/** The host-independent part of the wishlist: the item record, the scans
    keyed by image reference (`findIndex`, `some`) and the toggle as a
    function from the loaded list to the list that is saved. */
module Wishlist {

  /** One saved product; `imgSrc` is its identity. */
  datatype Item = Item(name: string, price: string, imgSrc: string)

  /** `i` is the first index whose entry carries the image reference `id`. */
  predicate IsFirstMatch(list: seq<Item>, id: string, i: int)
  {
    0 <= i < |list| && list[i].imgSrc == id &&
    forall k :: 0 <= k < i ==> list[k].imgSrc != id
  }

  /** No two entries share an image reference. */
  predicate UniqueIds(list: seq<Item>)
  {
    forall i, j :: 0 <= i < j < |list| ==> list[i].imgSrc != list[j].imgSrc
  }

  /** `Array.prototype.findIndex(i => i.imgSrc === id)`: the index of the
      first match, or -1 when no entry matches. */
  function FindIndex(list: seq<Item>, id: string): (r: int)
    ensures -1 <= r < |list|
    ensures r >= 0 ==> IsFirstMatch(list, id, r)
    ensures r == -1 <==> forall k :: 0 <= k < |list| ==> list[k].imgSrc != id
  {
    if list == [] then -1
    else if list[0].imgSrc == id then 0
    else
      var k := FindIndex(list[1..], id);
      if k == -1 then -1 else k + 1
  }

  /** `Array.prototype.some(item => item.imgSrc === id)`. */
  function Contains(list: seq<Item>, id: string): (r: bool)
    ensures r <==> exists k :: 0 <= k < |list| && list[k].imgSrc == id
  {
    if list == [] then false
    else list[0].imgSrc == id || Contains(list[1..], id)
  }

  /** `splice(i, 1)`: the entry at `i` is taken out, the others close up in
      their order. */
  function RemoveAt(list: seq<Item>, i: int): (r: seq<Item>)
    requires 0 <= i < |list|
    ensures |r| == |list| - 1
    ensures forall k :: 0 <= k < i ==> r[k] == list[k]
    ensures forall k :: i <= k < |r| ==> r[k] == list[k + 1]
  {
    list[..i] + list[i + 1..]
  }

  /** The list `toggleWishlistItem` saves, given the list it loaded: the first
      entry with the item's image reference is removed if there is one,
      otherwise the item is appended. */
  function Toggled(list: seq<Item>, item: Item): (r: seq<Item>)
    ensures Contains(list, item.imgSrc) ==>
      exists i :: IsFirstMatch(list, item.imgSrc, i) && r == list[..i] + list[i + 1..]
    ensures !Contains(list, item.imgSrc) ==> r == list + [item]
  {
    var i := FindIndex(list, item.imgSrc);
    if i > -1 then RemoveAt(list, i) else list + [item]
  }

  /** A removing toggle shortens the list by one and keeps every other entry
      in its order; the entry removed is the first match. */
  lemma ToggleRemovesFirstMatch(list: seq<Item>, item: Item, i: int)
    requires IsFirstMatch(list, item.imgSrc, i)
    ensures |Toggled(list, item)| == |list| - 1
    ensures Toggled(list, item)[..i] == list[..i]
    ensures Toggled(list, item)[i..] == list[i + 1..]
  {
    assert FindIndex(list, item.imgSrc) == i;
  }

  /** Toggling an item that is not in the list, then toggling it again,
      gives back the original list, contents and order. */
  lemma ToggleTwiceRestores(list: seq<Item>, item: Item)
    requires !Contains(list, item.imgSrc)
    ensures Toggled(list, item) == list + [item]
    ensures Toggled(Toggled(list, item), item) == list
  {
    var once := list + [item];
    assert IsFirstMatch(once, item.imgSrc, |list|);
    ToggleRemovesFirstMatch(once, item, |list|);
    assert once[..|list|] == list;
  }

  /** The toggle never introduces two entries with the same image
      reference. */
  lemma TogglePreservesUnique(list: seq<Item>, item: Item)
    requires UniqueIds(list)
    ensures UniqueIds(Toggled(list, item))
  {
    var i := FindIndex(list, item.imgSrc);
    if i > -1 {
      var r := RemoveAt(list, i);
      forall a, b | 0 <= a < b < |r| ensures r[a].imgSrc != r[b].imgSrc {
        var a' := if a < i then a else a + 1;
        var b' := if b < i then b else b + 1;
        assert r[a] == list[a'] && r[b] == list[b'];
      }
    }
  }

  /** With unique image references, removing the first match leaves no
      entry with that reference. */
  lemma RemoveMatchClearsId(list: seq<Item>, id: string, i: int)
    requires UniqueIds(list) && IsFirstMatch(list, id, i)
    ensures !Contains(RemoveAt(list, i), id)
  {
    var r := RemoveAt(list, i);
    forall k | 0 <= k < |r| ensures r[k].imgSrc != id {
      if k >= i {
        assert r[k] == list[k + 1];
        assert list[i].imgSrc != list[k + 1].imgSrc;
      }
    }
  }

  /** With unique image references, a toggle flips the item's membership. */
  lemma ToggleFlipsMembership(list: seq<Item>, item: Item)
    requires UniqueIds(list)
    ensures Contains(Toggled(list, item), item.imgSrc) <==> !Contains(list, item.imgSrc)
  {
    var i := FindIndex(list, item.imgSrc);
    if i > -1 {
      RemoveMatchClearsId(list, item.imgSrc, i);
    } else {
      assert (list + [item])[|list|] == item;
    }
  }

  /** Without the uniqueness invariant the flip fails: whenever two entries
      carry the item's image reference, a removing toggle leaves the item in
      the list. */
  lemma DuplicateSurvivesToggle(list: seq<Item>, item: Item, i: int, j: int)
    requires 0 <= i < j < |list|
    requires list[i].imgSrc == item.imgSrc && list[j].imgSrc == item.imgSrc
    ensures Contains(list, item.imgSrc)
    ensures Contains(Toggled(list, item), item.imgSrc)
  {
    var f := FindIndex(list, item.imgSrc);
    assert f != -1 by { assert list[i].imgSrc == item.imgSrc; }
    assert f <= i;
    var r := RemoveAt(list, f);
    assert r[j - 1] == list[j];
  }
}
