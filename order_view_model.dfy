/** OrderViewModel itself: the fields the screens observe and the
    operations that update them in place. Each method is proved to have
    exactly the effect the matching function of OrderSpec describes, and
    the frame of each setter names the only fields it may touch. */
module LunchTray {
  import opened OrderSpec
  import opened OrderLemmas

  class OrderViewModel {
    /** The catalog item names are resolved against. */
    const menuItems: Catalog

    var previousEntreePrice: real
    var previousSidePrice: real
    var previousAccompanimentPrice: real

    var entree: Option<MenuItem>
    var side: Option<MenuItem>
    var accompaniment: Option<MenuItem>

    var subtotal: real
    var total: real
    var tax: real

    /** Every mutable field, as one value. */
    ghost function State(): OrderState
      reads this
    {
      OrderState(entree, side, accompaniment,
                 previousEntreePrice, previousSidePrice, previousAccompanimentPrice,
                 subtotal, tax, total)
    }

    constructor (menu: Catalog)
      ensures menuItems == menu
      ensures State() == Initial
    {
      menuItems := menu;
      previousEntreePrice, previousSidePrice, previousAccompanimentPrice := 0.0, 0.0, 0.0;
      entree, side, accompaniment := None, None, None;
      subtotal, total, tax := 0.0, 0.0, 0.0;
    }

    /** Replaces the entree by the catalog item named `key`, moving the
        subtotal from the counted price to the new one; the side and the accompaniment
        and their shadow prices are left alone. */
    method SetEntree(key: string)
      modifies this
      ensures side == old(side) && accompaniment == old(accompaniment)
      ensures previousSidePrice == old(previousSidePrice) && previousAccompanimentPrice == old(previousAccompanimentPrice)
      ensures State() == SetCategory(old(State()), Entree, key, menuItems)
      ensures entree == Lookup(menuItems, key)
      ensures subtotal == old(subtotal) - Removed(old(State()), Entree) + PriceOf(entree)
      ensures key in menuItems ==> TaxConsistent(State())
      ensures key in menuItems && old(Counted(State())) ==> Counted(State())
      ensures key !in menuItems ==> tax == old(tax) && total == old(total)
    {
      if entree.Some? {
        previousEntreePrice := entree.value.price;
      }
      subtotal := subtotal - previousEntreePrice;
      entree := if key in menuItems then Some(menuItems[key]) else None;
      if entree.Some? {
        UpdateSubtotal(entree.value.price);
      }
      SetInCatalogOrMiss(old(State()), Entree, key, menuItems);
    }

    /** Replaces the side by the catalog item named `key`, moving the
        subtotal from the counted price to the new one; the entree and the accompaniment
        and their shadow prices are left alone. */
    method SetSide(key: string)
      modifies this
      ensures entree == old(entree) && accompaniment == old(accompaniment)
      ensures previousEntreePrice == old(previousEntreePrice) && previousAccompanimentPrice == old(previousAccompanimentPrice)
      ensures State() == SetCategory(old(State()), Side, key, menuItems)
      ensures side == Lookup(menuItems, key)
      ensures subtotal == old(subtotal) - Removed(old(State()), Side) + PriceOf(side)
      ensures key in menuItems ==> TaxConsistent(State())
      ensures key in menuItems && old(Counted(State())) ==> Counted(State())
      ensures key !in menuItems ==> tax == old(tax) && total == old(total)
    {
      if side.Some? {
        previousSidePrice := side.value.price;
      }
      subtotal := subtotal - previousSidePrice;
      side := if key in menuItems then Some(menuItems[key]) else None;
      if side.Some? {
        UpdateSubtotal(side.value.price);
      }
      SetInCatalogOrMiss(old(State()), Side, key, menuItems);
    }

    /** Replaces the accompaniment by the catalog item named `key`, moving the
        subtotal from the counted price to the new one; the entree and the side
        and their shadow prices are left alone. */
    method SetAccompaniment(key: string)
      modifies this
      ensures entree == old(entree) && side == old(side)
      ensures previousEntreePrice == old(previousEntreePrice) && previousSidePrice == old(previousSidePrice)
      ensures State() == SetCategory(old(State()), Accompaniment, key, menuItems)
      ensures accompaniment == Lookup(menuItems, key)
      ensures subtotal == old(subtotal) - Removed(old(State()), Accompaniment) + PriceOf(accompaniment)
      ensures key in menuItems ==> TaxConsistent(State())
      ensures key in menuItems && old(Counted(State())) ==> Counted(State())
      ensures key !in menuItems ==> tax == old(tax) && total == old(total)
    {
      if accompaniment.Some? {
        previousAccompanimentPrice := accompaniment.value.price;
      }
      subtotal := subtotal - previousAccompanimentPrice;
      accompaniment := if key in menuItems then Some(menuItems[key]) else None;
      if accompaniment.Some? {
        UpdateSubtotal(accompaniment.value.price);
      }
      SetInCatalogOrMiss(old(State()), Accompaniment, key, menuItems);
    }

    /** The subtotal grows by the price; tax and total follow it. */
    method UpdateSubtotal(itemPrice: real)
      modifies this`subtotal, this`tax, this`total
      ensures State() == OrderSpec.UpdateSubtotal(old(State()), itemPrice)
      ensures subtotal == old(subtotal) + itemPrice
      ensures TaxConsistent(State())
    {
      subtotal := subtotal + itemPrice;
      CalculateTaxAndTotal();
    }

    /** Tax and total are brought in line with the subtotal. */
    method CalculateTaxAndTotal()
      modifies this`tax, this`total
      ensures State() == OrderSpec.CalculateTaxAndTotal(old(State()))
      ensures TaxConsistent(State())
      ensures old(TaxConsistent(State())) ==> tax == old(tax) && total == old(total)
    {
      tax := Tax(subtotal);
      total := subtotal + tax;
    }

    /** Every field returns to its creation-time value. */
    method ResetOrder()
      modifies this
      ensures State() == Initial
    {
      entree := None;
      side := None;
      accompaniment := None;
      subtotal := 0.0;
      total := 0.0;
      tax := 0.0;
      previousEntreePrice := 0.0;
      previousSidePrice := 0.0;
      previousAccompanimentPrice := 0.0;
    }
  }
}
