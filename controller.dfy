/** The toggle controller: the wishlist button's visible state, the initial
    membership check at page load and the click-time toggle. */
module Controller {
  import opened Wishlist
  import opened Store

  const AddLabel: string := "Add to Wish List"
  const RemoveLabel: string := "Remove from Wish List"
  /** The CSS class marking a button whose item is in the wishlist. */
  const InWishlistClass: string := "in-wishlist"

  /** The button element: its text and its class list. */
  class Button {
    var textContent: string
    var classList: set<string>

    constructor (textContent: string, classList: set<string>)
      ensures this.textContent == textContent && this.classList == classList
    {
      this.textContent := textContent;
      this.classList := classList;
    }

    /** The button reads "Remove from Wish List" and carries the marker. */
    predicate ShowsPresent()
      reads this
    {
      textContent == RemoveLabel && InWishlistClass in classList
    }

    /** The button reads "Add to Wish List" and lacks the marker. */
    predicate ShowsAbsent()
      reads this
    {
      textContent == AddLabel && InWishlistClass !in classList
    }
  }

  /** `updateWishlistButton(button, itemId)`: the button shows whether some
      stored entry has the image reference `itemId`; only the marker class
      changes in the class list, and storage is only read. */
  method UpdateWishlistButton(storage: LocalStorage, json: Json, button: Button, itemId: string)
    modifies button
    ensures Contains(Load(storage.entries, json), itemId) ==>
      button.ShowsPresent() && button.classList == old(button.classList) + {InWishlistClass}
    ensures !Contains(Load(storage.entries, json), itemId) ==>
      button.ShowsAbsent() && button.classList == old(button.classList) - {InWishlistClass}
  {
    var wishlist := Load(storage.entries, json);
    var isInWishlist := Contains(wishlist, itemId);
    if isInWishlist {
      button.textContent := RemoveLabel;
      button.classList := button.classList + {InWishlistClass};
    } else {
      button.textContent := AddLabel;
      button.classList := button.classList - {InWishlistClass};
    }
  }

  /** `toggleWishlistItem(item, button)`: the loaded list loses its first
      entry with the item's image reference, or gains the item at its end
      when there is none; the button shows the new state; the whole list
      overwrites the stored value and no other key changes. */
  method ToggleWishlistItem(storage: LocalStorage, json: Json, item: Item, button: Button)
    modifies storage, button
    ensures storage.entries ==
      Saved(old(storage.entries), json, Toggled(old(Load(storage.entries, json)), item))
    ensures Contains(old(Load(storage.entries, json)), item.imgSrc) ==>
      button.ShowsAbsent() && button.classList == old(button.classList) - {InWishlistClass}
    ensures !Contains(old(Load(storage.entries, json)), item.imgSrc) ==>
      button.ShowsPresent() && button.classList == old(button.classList) + {InWishlistClass}
    ensures Lawful(json) ==>
      Load(storage.entries, json) == Toggled(old(Load(storage.entries, json)), item)
    ensures Lawful(json) && UniqueIds(old(Load(storage.entries, json))) ==>
      UniqueIds(Load(storage.entries, json)) &&
      (button.ShowsPresent() <==> Contains(Load(storage.entries, json), item.imgSrc)) &&
      (button.ShowsAbsent() <==> !Contains(Load(storage.entries, json), item.imgSrc))
  {
    ghost var before := Load(storage.entries, json);
    var wishlist := Load(storage.entries, json);
    var itemIndex := FindIndex(wishlist, item.imgSrc);
    if itemIndex > -1 {
      // splice(itemIndex, 1); the same list as RemoveAt(wishlist, itemIndex)
      wishlist := wishlist[..itemIndex] + wishlist[itemIndex + 1..];
      assert wishlist == Toggled(before, item);
      button.textContent := AddLabel;
      button.classList := button.classList - {InWishlistClass};
    } else {
      wishlist := wishlist + [item];
      assert wishlist == Toggled(before, item);
      button.textContent := RemoveLabel;
      button.classList := button.classList + {InWishlistClass};
    }
    SaveWishlist(storage, json, wishlist);
    ToggleReloads(old(storage.entries), json, item);
  }

  /** What the next load sees after a toggle has been saved: the toggled
      list, still free of duplicate image references, holding the item
      exactly when the loaded list did not. */
  lemma ToggleReloads(entries: map<string, string>, json: Json, item: Item)
    ensures Lawful(json) ==>
      Load(Saved(entries, json, Toggled(Load(entries, json), item)), json) == Toggled(Load(entries, json), item)
    ensures Lawful(json) && UniqueIds(Load(entries, json)) ==>
      UniqueIds(Toggled(Load(entries, json), item)) &&
      (Contains(Toggled(Load(entries, json), item), item.imgSrc) <==> !Contains(Load(entries, json), item.imgSrc))
  {
    var before := Load(entries, json);
    if Lawful(json) {
      LoadSaved(entries, json, Toggled(before, item));
      if UniqueIds(before) {
        TogglePreservesUnique(before, item);
        ToggleFlipsMembership(before, item);
      }
    }
  }

  /** Two clicks on the button of an item not in the wishlist: the stored
      list is back to its contents and order, the `wishlist` entry holds that
      list stringified (whatever text it held before), no other key changes,
      and the button reads "Add to Wish List" without the marker. */
  method ClickTwice(storage: LocalStorage, json: Json, item: Item, button: Button)
    requires Lawful(json)
    requires !Contains(Load(storage.entries, json), item.imgSrc)
    modifies storage, button
    ensures storage.entries ==
      Saved(old(storage.entries), json, old(Load(storage.entries, json)))
    ensures Load(storage.entries, json) == old(Load(storage.entries, json))
    ensures button.ShowsAbsent()
    ensures button.classList == old(button.classList) - {InWishlistClass}
  {
    ghost var before := Load(storage.entries, json);
    ToggleWishlistItem(storage, json, item, button);
    assert Load(storage.entries, json) == before + [item] by {
      ToggleTwiceRestores(before, item);
    }
    assert Contains(before + [item], item.imgSrc) by {
      assert (before + [item])[|before|] == item;
    }
    ToggleWishlistItem(storage, json, item, button);
    ToggleTwiceRestores(before, item);
  }
}
