/** The order kept by the Lunch Tray app's OrderViewModel, as a value.
    OrderState is a snapshot of every field the view model mutates; the
    functions below are the effect of each of its operations on that
    snapshot, in the order the Kotlin code performs its assignments. */
module OrderSpec {

  datatype Option<T> = None | Some(value: T)

  /** An entry of the menu catalog: an item name and its price. */
  datatype MenuItem = MenuItem(name: string, price: real)

  /** The catalog the view model resolves item names against. */
  type Catalog = map<string, MenuItem>

  /** The three order slots; each has its own setter and shadow price. */
  datatype Category = Entree | Side | Accompaniment

  /** The tax on an amount at the view model's fixed `taxRate` of 0.08
      (the rate is written out as a literal here, so that the arithmetic
      stays linear for the verifier). */
  function Tax(amount: real): real
  {
    0.08 * amount
  }

  /** Every field of OrderViewModel that its operations update. */
  datatype OrderState = OrderState(
    entree: Option<MenuItem>,
    side: Option<MenuItem>,
    accompaniment: Option<MenuItem>,
    previousEntreePrice: real,
    previousSidePrice: real,
    previousAccompanimentPrice: real,
    subtotal: real,
    tax: real,
    total: real)

  /** The state of a freshly created view model, and the one resetOrder
      returns every field to. */
  const Initial: OrderState :=
    OrderState(None, None, None, 0.0, 0.0, 0.0, 0.0, 0.0, 0.0)

  function Selection(o: OrderState, c: Category): Option<MenuItem>
  {
    match c
    case Entree => o.entree
    case Side => o.side
    case Accompaniment => o.accompaniment
  }

  function Shadow(o: OrderState, c: Category): real
  {
    match c
    case Entree => o.previousEntreePrice
    case Side => o.previousSidePrice
    case Accompaniment => o.previousAccompanimentPrice
  }

  function WithSelection(o: OrderState, c: Category, item: Option<MenuItem>): (r: OrderState)
    ensures Selection(r, c) == item
    ensures forall d :: d != c ==> Selection(r, d) == Selection(o, d)
    ensures forall d :: Shadow(r, d) == Shadow(o, d)
    ensures r.subtotal == o.subtotal && r.tax == o.tax && r.total == o.total
  {
    match c
    case Entree => o.(entree := item)
    case Side => o.(side := item)
    case Accompaniment => o.(accompaniment := item)
  }

  function WithShadow(o: OrderState, c: Category, price: real): (r: OrderState)
    ensures Shadow(r, c) == price
    ensures forall d :: d != c ==> Shadow(r, d) == Shadow(o, d)
    ensures forall d :: Selection(r, d) == Selection(o, d)
    ensures r.subtotal == o.subtotal && r.tax == o.tax && r.total == o.total
  {
    match c
    case Entree => o.(previousEntreePrice := price)
    case Side => o.(previousSidePrice := price)
    case Accompaniment => o.(previousAccompanimentPrice := price)
  }

  /** The price a selection contributes to the order: nothing when absent. */
  function PriceOf(item: Option<MenuItem>): real
  {
    if item.Some? then item.value.price else 0.0
  }

  /** Sum of the prices of the selected items of all three categories. */
  function SelectedTotal(o: OrderState): real
  {
    PriceOf(o.entree) + PriceOf(o.side) + PriceOf(o.accompaniment)
  }

  /** Catalog lookup `menuItems[key]`: the item, or nothing on a miss. */
  function Lookup(menu: Catalog, key: string): Option<MenuItem>
  {
    if key in menu then Some(menu[key]) else None
  }

  /** tax and total are derived from subtotal as calculateTaxAndTotal derives them. */
  predicate TaxConsistent(o: OrderState)
  {
    o.tax == Tax(o.subtotal) && o.total == o.subtotal + o.tax
  }

  /** subtotal counts exactly the selected items, and an absent category
      keeps no shadow price that a later setter call would subtract. */
  predicate Counted(o: OrderState)
  {
    o.subtotal == SelectedTotal(o) &&
    (o.entree.None? ==> o.previousEntreePrice == 0.0) &&
    (o.side.None? ==> o.previousSidePrice == 0.0) &&
    (o.accompaniment.None? ==> o.previousAccompanimentPrice == 0.0)
  }

  /** The bookkeeping invariant of a well-formed order. */
  predicate Valid(o: OrderState)
  {
    Counted(o) && TaxConsistent(o)
  }

  /** The amount a setter call takes off the subtotal before the lookup:
      the current selection's price, or, with nothing selected, whatever
      the shadow price still holds. */
  function Removed(o: OrderState, c: Category): real
  {
    var held := Selection(o, c);
    if held.Some? then held.value.price else Shadow(o, c)
  }

  /** calculateTaxAndTotal: tax from the subtotal, total from subtotal and
      the new tax; nothing else changes. */
  function CalculateTaxAndTotal(o: OrderState): (r: OrderState)
    ensures TaxConsistent(r)
    ensures r.(tax := o.tax, total := o.total) == o
  {
    var tax := Tax(o.subtotal);
    o.(tax := tax, total := o.subtotal + tax)
  }

  /** updateSubtotal: add the price to the subtotal, then recompute tax and
      total; selections and shadow prices are left alone. */
  function UpdateSubtotal(o: OrderState, itemPrice: real): (r: OrderState)
    ensures r.subtotal == o.subtotal + itemPrice
    ensures TaxConsistent(r)
    ensures r.(subtotal := o.subtotal, tax := o.tax, total := o.total) == o
  {
    CalculateTaxAndTotal(o.(subtotal := o.subtotal + itemPrice))
  }

  /** setEntree / setSide / setAccompaniment with the given category:
      1. shadow := current selection's price, when there is a selection;
      2. subtotal := subtotal - shadow (always);
      3. selection := catalog lookup of the key (absent on a miss);
      4. on a hit, updateSubtotal(price); on a miss tax and total are left alone.
      So the category holds the lookup result, the subtotal trades what
      `Removed` names for the new price, and the shadow price keeps the
      amount that was taken off. */
  function SetCategory(o: OrderState, c: Category, key: string, menu: Catalog): (r: OrderState)
    ensures Selection(r, c) == Lookup(menu, key)
    ensures Shadow(r, c) == Removed(o, c)
    ensures r.subtotal == o.subtotal - Removed(o, c) + PriceOf(Lookup(menu, key))
    ensures key in menu ==> TaxConsistent(r)
    ensures key !in menu ==> r.tax == o.tax && r.total == o.total
  {
    var held := Selection(o, c);
    var o1 := if held.Some? then WithShadow(o, c, held.value.price) else o;
    var o2 := o1.(subtotal := o1.subtotal - Shadow(o1, c));
    var found := Lookup(menu, key);
    var o3 := WithSelection(o2, c, found);
    if found.Some? then UpdateSubtotal(o3, found.value.price) else o3
  }

  /** One call the screens make on the view model. */
  datatype Command = Set(category: Category, key: string) | Reset

  function Step(o: OrderState, cmd: Command, menu: Catalog): OrderState
  {
    match cmd
    case Set(c, key) => SetCategory(o, c, key, menu)
    case Reset => Initial
  }

  /** The state after a session of calls, one after the other. */
  function Run(o: OrderState, cmds: seq<Command>, menu: Catalog): OrderState
    decreases |cmds|
  {
    if cmds == [] then o
    else Step(Run(o, cmds[..|cmds| - 1], menu), cmds[|cmds| - 1], menu)
  }

  /** Every setter call of the session names an item of the catalog. */
  predicate InCatalog(cmds: seq<Command>, menu: Catalog)
  {
    forall i :: 0 <= i < |cmds| && cmds[i].Set? ==> cmds[i].key in menu
  }
}
