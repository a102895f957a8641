# Lunch Tray order bookkeeping, in Dafny

This project models the order state of the Lunch Tray Android app, the
`OrderViewModel` class. A customer picks an entree, a side and an
accompaniment from a menu catalog. The view model keeps the three
selections, a running `subtotal`, and the `tax` (8%) and `total` derived
from it. When a category is changed, the old item's price is taken off the
subtotal before the new item's price is added. To do that, each category
keeps a "previous price" shadow field. `resetOrder` clears everything when
the order is submitted or cancelled.

The project has three modules:

- `OrderSpec` (`order_spec.dfy`): the view model's nine mutable fields as
  one value, `OrderState`. It defines the effect of each operation on that
  value, in the order the Kotlin code makes its assignments. `SetCategory`
  stands for the three mirrored setters; `Category` picks the selection and
  the shadow field. It also defines the bookkeeping invariant `Valid`, and
  `Run`, the state after a session of calls.
- `OrderLemmas` (`order_lemmas.dfy`): what the bookkeeping guarantees. This
  covers single calls, whole sessions of in-catalog calls, and what a
  catalog miss does instead.
- `LunchTray` (`order_view_model.dfy`): the class `OrderViewModel`. Its
  fields are updated in place by `SetEntree`, `SetSide`,
  `SetAccompaniment`, `UpdateSubtotal`, `CalculateTaxAndTotal` and
  `ResetOrder`. Each method is proved to have exactly the effect of its
  `OrderSpec` function. Each setter also states which fields it leaves
  alone.

Money is a Dafny `real`, so amounts are exact rationals. The view model's
`taxRate` of `0.08` appears once, in `OrderSpec.Tax`. The catalog
(`DataSource.menuItems`) is a `map<string, MenuItem>` given to the
constructor. Its contents are not part of this model.

A catalog miss is modelled as the code behaves. One would expect a miss to
leave the subtotal unchanged and tax and total consistent with it; the code
does neither. The subtraction
of the outgoing price happens before the lookup, and `updateSubtotal` is
skipped when the lookup fails. So a miss:

- removes the old price from the subtotal;
- leaves tax and total stale;
- leaves the old price in the shadow field, and the next setter call for
  that category subtracts it again.

`MissLeavesTaxStale`, `StaleShadowSubtractedTwice` and `StaleShadowExample`
state this. The clean invariants are stated for in-catalog keys and reset.

## Model

| member | source | states |
|---|---|---|
| `OrderSpec.CalculateTaxAndTotal` | app/src/main/java/com/example/lunchtray/model/OrderViewModel.kt:172-182 | the effect of `calculateTaxAndTotal` on the order: afterwards `tax == 0.08 * subtotal` and `total == subtotal + tax`, and no other field differs from the input |
| `OrderSpec.UpdateSubtotal` | app/src/main/java/com/example/lunchtray/model/OrderViewModel.kt:155-166 | the effect of `updateSubtotal`: the subtotal grows by exactly the price, tax and total are consistent with it, and selections and shadow prices are unchanged |
| `OrderSpec.SetCategory` | app/src/main/java/com/example/lunchtray/model/OrderViewModel.kt:78-149 | the effect of `setEntree`, `setSide` and `setAccompaniment`: the category holds the catalog lookup of the key, its shadow price holds the amount taken off, and the subtotal loses that amount and gains the new price. On a hit tax and total are consistent; on a miss they keep their old values |
| `LunchTray.OrderViewModel.constructor` | app/src/main/java/com/example/lunchtray/model/OrderViewModel.kt:34-72 | a new view model has no selections, zero shadow prices and zero subtotal, tax and total |
| `LunchTray.OrderViewModel.SetEntree` | app/src/main/java/com/example/lunchtray/model/OrderViewModel.kt:78-98 | new state is `SetCategory(old, Entree, key)`. The entree becomes the catalog lookup of the key. The subtotal loses the counted price and gains the new one. Tax and total are recomputed on a hit and kept on a miss. On a hit from a state whose subtotal is the sum of the selections and whose empty categories hold a zero shadow price, both halves of that invariant still hold. Side, accompaniment and their shadow prices do not change |
| `LunchTray.OrderViewModel.SetSide` | app/src/main/java/com/example/lunchtray/model/OrderViewModel.kt:104-124 | the same for the side (including the invariant on a hit from a state whose subtotal is the sum of the selections and whose empty categories hold a zero shadow price), leaving the entree, the accompaniment and their shadow prices unchanged |
| `LunchTray.OrderViewModel.SetAccompaniment` | app/src/main/java/com/example/lunchtray/model/OrderViewModel.kt:130-149 | the same for the accompaniment (including the invariant on a hit from a state whose subtotal is the sum of the selections and whose empty categories hold a zero shadow price), leaving the entree, the side and their shadow prices unchanged |
| `LunchTray.OrderViewModel.UpdateSubtotal` | app/src/main/java/com/example/lunchtray/model/OrderViewModel.kt:155-166 | the subtotal grows by exactly the item price, and tax and total are then consistent with it. Only subtotal, tax and total are written |
| `LunchTray.OrderViewModel.CalculateTaxAndTotal` | app/src/main/java/com/example/lunchtray/model/OrderViewModel.kt:172-182 | `tax == 0.08 * subtotal` and `total == subtotal + tax` afterwards. Only tax and total are written. A second call changes nothing |
| `LunchTray.OrderViewModel.ResetOrder` | app/src/main/java/com/example/lunchtray/model/OrderViewModel.kt:188-203 | every field is back at its creation-time value |
| `OrderLemmas.SetInCatalogOrMiss` | app/src/main/java/com/example/lunchtray/model/OrderViewModel.kt:88-95 | for any key, the category becomes the lookup result, and the subtotal changes by the new price minus the removed one. A hit makes tax and total consistent and keeps the invariant. A miss keeps tax and total |
| `OrderLemmas.CalculateTaxAndTotalCorrect` | app/src/main/java/com/example/lunchtray/model/OrderViewModel.kt:172-182 | the result satisfies the tax relation and differs from the input only in tax and total. The operation is idempotent, and it is the identity on a consistent state |
| `OrderLemmas.UpdateSubtotalCorrect` | app/src/main/java/com/example/lunchtray/model/OrderViewModel.kt:155-166 | the subtotal becomes the old subtotal plus the price. Tax and total become consistent. Selections and shadow prices are unchanged |
| `OrderLemmas.SetInCatalog` | app/src/main/java/com/example/lunchtray/model/OrderViewModel.kt:88-95 | an in-catalog set gives the category the catalog item. The subtotal becomes the old subtotal minus the counted amount plus the new price. Tax and total are consistent, and the invariant is preserved |
| `OrderLemmas.SetCatalogMiss` | app/src/main/java/com/example/lunchtray/model/OrderViewModel.kt:88-95 | a miss leaves the category absent and still subtracts the counted amount (current price, or stale shadow). The shadow keeps that amount. Tax and total are not recomputed |
| `OrderLemmas.SetOtherCategoriesUnchanged` | app/src/main/java/com/example/lunchtray/model/OrderViewModel.kt:78-149 | a setter call, hit or miss, leaves the selections and shadow prices of the other two categories unchanged |
| `OrderLemmas.SwapCorrect` | app/src/main/java/com/example/lunchtray/model/OrderViewModel.kt:88-95 | choosing `a` and then `b` in one category gives the same selections, subtotal, tax and total as choosing `b` alone, from any state |
| `OrderLemmas.ReselectKeepsTotals` | app/src/main/java/com/example/lunchtray/model/OrderViewModel.kt:88-95 | choosing the item a category already holds leaves the subtotal unchanged. From a consistent state it also leaves tax and total unchanged |
| `OrderLemmas.ResetCorrect` | app/src/main/java/com/example/lunchtray/model/OrderViewModel.kt:188-203 | after a reset nothing is selected, subtotal and total are 0 and the invariant holds. Resetting twice equals resetting once |
| `OrderLemmas.StepPreservesValid` | app/src/main/java/com/example/lunchtray/model/OrderViewModel.kt:78-203 | any in-catalog setter call or a reset preserves the invariant |
| `OrderLemmas.CheckoutScenario` | app/src/main/java/com/example/lunchtray/model/OrderViewModel.kt:78-203 | burger (5.00), fries (2.00), then salad (3.00) in place of the burger: the subtotal, tax and total are 5.00/0.40/5.40, then 7.00/0.56/7.56, then 5.00/0.40/5.40. A reset then returns the order to its initial state |
| `OrderLemmas.MissLeavesTaxStale` | app/src/main/java/com/example/lunchtray/model/OrderViewModel.kt:91-95 | from a valid state, a miss on a category holding a non-free item leaves `tax != 0.08 * subtotal` |
| `OrderLemmas.StaleShadowSubtractedTwice` | app/src/main/java/com/example/lunchtray/model/OrderViewModel.kt:88-95 | selected, then miss, then hit in one category: the subtotal is the sum of the selected prices minus the first item's price |
| `OrderLemmas.StaleShadowExample` | app/src/main/java/com/example/lunchtray/model/OrderViewModel.kt:88-95 | burger (5.00), an unknown name, burger again: after the miss the subtotal is 0 and the tax is still 0.40. At the end a burger is selected and the subtotal and total are 0 |
| `OrderLemmas.RunPreservesValid` | app/src/main/java/com/example/lunchtray/model/OrderViewModel.kt:78-203 | a session of in-catalog setter calls and resets keeps the invariant |
| `OrderLemmas.ReachableValid` | app/src/main/java/com/example/lunchtray/model/OrderViewModel.kt:34-203 | every state reached from a new view model by in-catalog calls and resets has consistent tax and total, and a subtotal equal to the sum of the selected prices |
| `OrderLemmas.RunLeavesOtherCategory` | app/src/main/java/com/example/lunchtray/model/OrderViewModel.kt:78-149 | any session of setter calls on other categories, hits or misses, leaves a category's selection and shadow price unchanged |
| `OrderLemmas.RepeatedSetsCollapse` | app/src/main/java/com/example/lunchtray/model/OrderViewModel.kt:88-95 | any number of in-catalog changes to one category give the same selections, subtotal, tax and total as choosing the last key alone |

## Left out

- LiveData and MutableLiveData observation, `Transformations.map` and the `ViewModel` lifecycle: the fields are plain class fields, and observers are not modelled.
- The currency-formatted `subtotal`, `tax` and `total` strings from `NumberFormat.getCurrencyInstance()`: a locale-dependent library call.
- The `Log.i` calls: logging only.
- The contents of `DataSource.menuItems`: that file is not part of this model. The catalog is any map from name to `MenuItem(name, price)`.
- IEEE `Double` rounding: amounts are exact reals, so `0.08 * 5.00` is exactly `0.40`.
- The null checks on `_subtotal` (the `!= null` guards and the `?:` fallback in `updateSubtotal`): `_subtotal` starts at 0.0 and is never set to null, so those checks always take the non-null branch, and the subtotal is a plain `real`.
