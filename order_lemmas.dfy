/** What OrderViewModel's bookkeeping guarantees, and where it does not:
    single calls first, then whole sessions of calls. */
module OrderLemmas {
  import opened OrderSpec

  /** Two states the screens cannot tell apart: same selections and the
      same subtotal, tax and total (shadow prices are never shown). */
  predicate SameOrder(a: OrderState, b: OrderState)
  {
    a.entree == b.entree && a.side == b.side && a.accompaniment == b.accompaniment &&
    a.subtotal == b.subtotal && a.tax == b.tax && a.total == b.total
  }

  // ---------------------------------------------------------------------
  // Single operations
  // ---------------------------------------------------------------------

  /** calculateTaxAndTotal makes tax and total agree with the subtotal,
      touches no other field, and a second call changes nothing. */
  lemma CalculateTaxAndTotalCorrect(o: OrderState)
    ensures TaxConsistent(CalculateTaxAndTotal(o))
    ensures CalculateTaxAndTotal(o).(tax := o.tax, total := o.total) == o
    ensures CalculateTaxAndTotal(CalculateTaxAndTotal(o)) == CalculateTaxAndTotal(o)
    ensures TaxConsistent(o) ==> CalculateTaxAndTotal(o) == o
  {
  }

  /** updateSubtotal adds exactly the price and leaves tax and total
      consistent with the new subtotal; selections and shadows stay. */
  lemma UpdateSubtotalCorrect(o: OrderState, itemPrice: real)
    ensures UpdateSubtotal(o, itemPrice).subtotal == o.subtotal + itemPrice
    ensures TaxConsistent(UpdateSubtotal(o, itemPrice))
    ensures UpdateSubtotal(o, itemPrice).(subtotal := o.subtotal, tax := o.tax, total := o.total) == o
  {
  }

  /** A setter call with a key the catalog holds: the category becomes the
      catalog's item, the subtotal loses what `Removed` names and gains the
      new price, tax and total are recomputed, and the invariant is kept. */
  lemma SetInCatalog(o: OrderState, c: Category, key: string, menu: Catalog)
    requires key in menu
    ensures Selection(SetCategory(o, c, key, menu), c) == Some(menu[key])
    ensures SetCategory(o, c, key, menu).subtotal == o.subtotal - Removed(o, c) + menu[key].price
    ensures TaxConsistent(SetCategory(o, c, key, menu))
    ensures Counted(o) ==> Valid(SetCategory(o, c, key, menu))
  {
  }

  /** A setter call with a key the catalog lacks: the category becomes
      absent, the subtotal still loses what `Removed` names, the shadow
      keeps that amount, and tax and total keep their old values. */
  lemma SetCatalogMiss(o: OrderState, c: Category, key: string, menu: Catalog)
    requires key !in menu
    ensures Selection(SetCategory(o, c, key, menu), c) == None
    ensures SetCategory(o, c, key, menu).subtotal == o.subtotal - Removed(o, c)
    ensures Shadow(SetCategory(o, c, key, menu), c) == Removed(o, c)
    ensures SetCategory(o, c, key, menu).tax == o.tax
    ensures SetCategory(o, c, key, menu).total == o.total
  {
  }

  /** What a setter's contract promises beyond its effect, by hit or miss. */
  lemma SetInCatalogOrMiss(o: OrderState, c: Category, key: string, menu: Catalog)
    ensures Selection(SetCategory(o, c, key, menu), c) == Lookup(menu, key)
    ensures SetCategory(o, c, key, menu).subtotal == o.subtotal - Removed(o, c) + PriceOf(Lookup(menu, key))
    ensures key in menu ==> TaxConsistent(SetCategory(o, c, key, menu))
    ensures key in menu && Counted(o) ==> Valid(SetCategory(o, c, key, menu))
    ensures key !in menu ==> SetCategory(o, c, key, menu).tax == o.tax
    ensures key !in menu ==> SetCategory(o, c, key, menu).total == o.total
  {
    if key in menu {
      SetInCatalog(o, c, key, menu);
    } else {
      SetCatalogMiss(o, c, key, menu);
    }
  }

  /** A setter call, hit or miss, leaves the other two categories'
      selections and shadow prices as they were. */
  lemma SetOtherCategoriesUnchanged(o: OrderState, c: Category, key: string, menu: Catalog, d: Category)
    requires d != c
    ensures Selection(SetCategory(o, c, key, menu), d) == Selection(o, d)
    ensures Shadow(SetCategory(o, c, key, menu), d) == Shadow(o, d)
  {
  }

  /** Swap: choosing `a` and then `b` in one category leaves the same order
      as choosing `b` directly, from any state at all. */
  lemma SwapCorrect(o: OrderState, c: Category, a: string, b: string, menu: Catalog)
    requires a in menu && b in menu
    ensures SameOrder(SetCategory(SetCategory(o, c, a, menu), c, b, menu), SetCategory(o, c, b, menu))
  {
  }

  /** Choosing the item a category already holds leaves subtotal, tax and
      total where they were (tax and total provided they were consistent). */
  lemma ReselectKeepsTotals(o: OrderState, c: Category, key: string, menu: Catalog)
    requires key in menu && Selection(o, c) == Some(menu[key])
    ensures SetCategory(o, c, key, menu).subtotal == o.subtotal
    ensures TaxConsistent(o) ==> SameOrder(SetCategory(o, c, key, menu), o)
  {
  }

  /** resetOrder yields a valid order with nothing selected and every
      amount zero, and resetting twice is resetting once. */
  lemma ResetCorrect(o: OrderState, menu: Catalog)
    ensures Valid(Step(o, Reset, menu))
    ensures Step(o, Reset, menu).entree == None && Step(o, Reset, menu).side == None
    ensures Step(o, Reset, menu).accompaniment == None
    ensures Step(o, Reset, menu).subtotal == 0.0 && Step(o, Reset, menu).total == 0.0
    ensures Step(Step(o, Reset, menu), Reset, menu) == Step(o, Reset, menu)
  {
    assert Step(o, Reset, menu) == Initial;
    assert Valid(Initial);
  }

  /** One in-catalog call or a reset keeps the invariant. */
  lemma StepPreservesValid(o: OrderState, cmd: Command, menu: Catalog)
    requires Valid(o)
    requires cmd.Set? ==> cmd.key in menu
    ensures Valid(Step(o, cmd, menu))
  {
    match cmd
    case Set(c, key) =>
      SetInCatalog(o, c, key, menu);
    case Reset =>
      assert Valid(Initial);
  }

  /** A small catalog for the screen flow below. */
  const Burger := MenuItem("burger", 5.0)
  const Fries := MenuItem("fries", 2.0)
  const Salad := MenuItem("salad", 3.0)
  const SampleMenu: Catalog := map["burger" := Burger, "fries" := Fries, "salad" := Salad]

  lemma SampleMenuEntries()
    ensures SampleMenu["burger"] == Burger && SampleMenu["fries"] == Fries && SampleMenu["salad"] == Salad
  {
    assert "burger"[0] != "fries"[0] && "burger"[0] != "salad"[0] && "fries"[0] != "salad"[0];
  }

  lemma ChooseBurger()
    ensures SetCategory(Initial, Entree, "burger", SampleMenu) ==
            OrderState(Some(Burger), None, None, 0.0, 0.0, 0.0, 5.0, 0.4, 5.4)
  {
    SampleMenuEntries();
  }

  lemma ChooseFries(o: OrderState)
    requires o == OrderState(Some(Burger), None, None, 0.0, 0.0, 0.0, 5.0, 0.4, 5.4)
    ensures SetCategory(o, Side, "fries", SampleMenu) ==
            OrderState(Some(Burger), Some(Fries), None, 0.0, 0.0, 0.0, 7.0, 0.56, 7.56)
  {
    SampleMenuEntries();
  }

  lemma ChooseSalad(o: OrderState)
    requires o == OrderState(Some(Burger), Some(Fries), None, 0.0, 0.0, 0.0, 7.0, 0.56, 7.56)
    ensures SetCategory(o, Entree, "salad", SampleMenu) ==
            OrderState(Some(Salad), Some(Fries), None, 5.0, 0.0, 0.0, 5.0, 0.4, 5.4)
  {
    SampleMenuEntries();
  }

  /** A screen flow on the sample catalog: burger, fries, then salad in
      place of the burger, then reset. Every amount is exact at every step. */
  lemma CheckoutScenario()
    ensures var o1 := SetCategory(Initial, Entree, "burger", SampleMenu);
            var o2 := SetCategory(o1, Side, "fries", SampleMenu);
            var o3 := SetCategory(o2, Entree, "salad", SampleMenu);
            o1.subtotal == 5.0 && o1.tax == 0.4 && o1.total == 5.4 &&
            o2.subtotal == 7.0 && o2.tax == 0.56 && o2.total == 7.56 &&
            o3.entree == Some(Salad) && o3.side == Some(Fries) &&
            o3.subtotal == 5.0 && o3.tax == 0.4 && o3.total == 5.4 &&
            Step(o3, Reset, SampleMenu) == Initial
  {
    var o1 := SetCategory(Initial, Entree, "burger", SampleMenu);
    ChooseBurger();
    var o2 := SetCategory(o1, Side, "fries", SampleMenu);
    ChooseFries(o1);
    ChooseSalad(o2);
  }

  // ---------------------------------------------------------------------
  // What a catalog miss does
  // ---------------------------------------------------------------------

  /** After a miss, tax and total are stale: they still describe the order
      before the call, while the subtotal has already dropped. */
  lemma MissLeavesTaxStale(o: OrderState, c: Category, key: string, menu: Catalog)
    requires Valid(o) && key !in menu
    requires Selection(o, c).Some? && Selection(o, c).value.price != 0.0
    ensures SetCategory(o, c, key, menu).tax != Tax(SetCategory(o, c, key, menu).subtotal)
  {
    SetCatalogMiss(o, c, key, menu);
  }

  /** A miss from a selected category leaves the old price in the shadow;
      the next in-catalog call for that category subtracts it once more,
      so the subtotal falls short of the selected prices by that price. */
  lemma StaleShadowSubtractedTwice(o: OrderState, c: Category, miss: string, hit: string, menu: Catalog)
    requires Counted(o) && Selection(o, c).Some?
    requires miss !in menu && hit in menu
    ensures SetCategory(SetCategory(o, c, miss, menu), c, hit, menu).subtotal ==
            SelectedTotal(SetCategory(SetCategory(o, c, miss, menu), c, hit, menu)) - Selection(o, c).value.price
  {
    var o1 := SetCategory(o, c, miss, menu);
    SetCatalogMiss(o, c, miss, menu);
    SetInCatalog(o1, c, hit, menu);
  }

  /** The same, on a concrete catalog: burger, an unknown name, burger
      again. The order shows a burger but charges nothing for it. */
  lemma StaleShadowExample()
    ensures var menu := map["burger" := MenuItem("burger", 5.0)];
            var o1 := SetCategory(Initial, Entree, "burger", menu);
            var o2 := SetCategory(o1, Entree, "pizza", menu);
            var o3 := SetCategory(o2, Entree, "burger", menu);
            o2.subtotal == 0.0 && o2.tax == 0.4 &&
            o3.entree == Some(MenuItem("burger", 5.0)) && o3.subtotal == 0.0 && o3.total == 0.0
  {
    var menu := map["burger" := MenuItem("burger", 5.0)];
    assert "pizza" != "burger" by { assert "pizza"[0] != "burger"[0]; }
    assert "burger" in menu && "pizza" !in menu;
    var o1 := SetCategory(Initial, Entree, "burger", menu);
    SetInCatalog(Initial, Entree, "burger", menu);
    var o2 := SetCategory(o1, Entree, "pizza", menu);
    SetCatalogMiss(o1, Entree, "pizza", menu);
    SetInCatalog(o2, Entree, "burger", menu);
  }

  // ---------------------------------------------------------------------
  // Sessions of calls
  // ---------------------------------------------------------------------

  lemma InCatalogPrefix(cmds: seq<Command>, menu: Catalog)
    requires cmds != [] && InCatalog(cmds, menu)
    ensures InCatalog(cmds[..|cmds| - 1], menu)
    ensures cmds[|cmds| - 1].Set? ==> cmds[|cmds| - 1].key in menu
  {
    var init := cmds[..|cmds| - 1];
    forall i | 0 <= i < |init| && init[i].Set?
      ensures init[i].key in menu
    {
      assert init[i] == cmds[i];
    }
  }

  /** Every session of in-catalog calls and resets keeps the invariant. */
  lemma {:induction false} RunPreservesValid(o: OrderState, cmds: seq<Command>, menu: Catalog)
    requires Valid(o) && InCatalog(cmds, menu)
    ensures Valid(Run(o, cmds, menu))
    decreases |cmds|
  {
    if cmds != [] {
      var init := cmds[..|cmds| - 1];
      InCatalogPrefix(cmds, menu);
      RunPreservesValid(o, init, menu);
      StepPreservesValid(Run(o, init, menu), cmds[|cmds| - 1], menu);
    }
  }

  /** Every order a session of in-catalog calls reaches from a fresh view
      model has tax and total consistent with a subtotal that is the sum
      of the selected prices. */
  lemma {:induction false} ReachableValid(cmds: seq<Command>, menu: Catalog)
    requires InCatalog(cmds, menu)
    ensures TaxConsistent(Run(Initial, cmds, menu))
    ensures Run(Initial, cmds, menu).subtotal == SelectedTotal(Run(Initial, cmds, menu))
  {
    assert Valid(Initial);
    RunPreservesValid(Initial, cmds, menu);
    assert Valid(Run(Initial, cmds, menu));
  }

  /** Calls that all set categories other than `d` leave `d`'s selection
      and shadow price untouched, whether their keys hit or miss. */
  lemma {:induction false} RunLeavesOtherCategory(o: OrderState, cmds: seq<Command>, menu: Catalog, d: Category)
    requires forall i :: 0 <= i < |cmds| ==> cmds[i].Set? && cmds[i].category != d
    ensures Selection(Run(o, cmds, menu), d) == Selection(o, d)
    ensures Shadow(Run(o, cmds, menu), d) == Shadow(o, d)
    decreases |cmds|
  {
    if cmds != [] {
      var init, last := cmds[..|cmds| - 1], cmds[|cmds| - 1];
      assert forall i :: 0 <= i < |init| ==> init[i] == cmds[i];
      RunLeavesOtherCategory(o, init, menu, d);
      SetOtherCategoriesUnchanged(Run(o, init, menu), last.category, last.key, menu, d);
    }
  }

  /** The session that sets category `c` to each key in turn. */
  function SetsOf(c: Category, keys: seq<string>): (cmds: seq<Command>)
    ensures |cmds| == |keys|
    ensures forall i :: 0 <= i < |keys| ==> cmds[i] == Set(c, keys[i])
  {
    if keys == [] then [] else SetsOf(c, keys[..|keys| - 1]) + [Set(c, keys[|keys| - 1])]
  }

  /** Setting a category that holds an item gives the same visible order
      from two states that look the same: the shadow price plays no part. */
  lemma SetFromSameOrder(x: OrderState, y: OrderState, c: Category, key: string, menu: Catalog)
    requires SameOrder(x, y) && Selection(x, c).Some?
    ensures SameOrder(SetCategory(x, c, key, menu), SetCategory(y, c, key, menu))
  {
  }

  /** However many times a category is changed with in-catalog keys, the
      order is the one that choosing the last key alone would give. */
  lemma {:induction false} RepeatedSetsCollapse(o: OrderState, c: Category, keys: seq<string>, menu: Catalog)
    requires keys != []
    requires forall i :: 0 <= i < |keys| ==> keys[i] in menu
    ensures SameOrder(Run(o, SetsOf(c, keys), menu), SetCategory(o, c, keys[|keys| - 1], menu))
    decreases |keys|
  {
    var cmds := SetsOf(c, keys);
    var init, last := keys[..|keys| - 1], keys[|keys| - 1];
    assert cmds[..|cmds| - 1] == SetsOf(c, init);
    if init != [] {
      var prev := init[|init| - 1];
      RepeatedSetsCollapse(o, c, init, menu);
      SetInCatalog(o, c, prev, menu);
      SetFromSameOrder(Run(o, SetsOf(c, init), menu), SetCategory(o, c, prev, menu), c, last, menu);
      SwapCorrect(o, c, prev, last, menu);
    }
  }
}
