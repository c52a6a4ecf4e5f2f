# Emergency-cart floor board and default-stock editor, in Dafny

This project models the two pieces of real logic in the emergency-cart
("carrinho de emergência") tracker's web front end.

- **The floor status board** (`Frontend/src/Routes/LocalCarrinho.jsx`).
  - The floor number of a cart is read from its free-text location: the
    first maximal run of decimal digits (`extrairNumeroAndar`).
  - The carts are put into 24 floor buckets, keeping input order and
    dropping carts whose floor is missing or outside 1..24
    (the grouping loop of `fetchCarrinhos`).
  - Each floor card gets one status (`getStatusDoAndar`) and one name
    (`getNomeCarrinhoDisplay`). Both use the priority table
    aberto(1) < estoque(2) < fechado(3) < vazio(4).
  - A click on a card (`handleToggleStatus`) advances the floor's first
    cart along aberto → fechado → estoque → aberto. It sends that change to
    the server and, on success, rewrites that cart in the local table.
- **The default-stock editor** (`Frontend/src/Routes/Estoque.jsx`).
  `handleItemChange` finds a drawer ("gaveta") by id, then an item by id
  inside it, and overwrites one field of that item. A quantity is stored as
  `parseInt(value, 10)`. When either lookup fails it does nothing.

Modules, one per concern:

- `Decimal` (decimal.dfy): digit strings, their values, and JavaScript's
  `parseInt(text, 10)`. It skips leading white space, reads an optional sign
  and the maximal digit prefix, and gives NaN when there is no digit.
- `Carts` (carts.dfy): the cart record, the JavaScript `x || fallback`
  rule on optional strings (absent and `""` are both falsy), and the
  priority table. A status missing from the table has no rank, so it never
  outranks a table status and is never outranked by one. This is how
  `undefined < n` and `n < undefined` behave in JavaScript. The model also
  treats two statuses outside the table as incomparable (see "## Left out"
  for the inherited-key case where JavaScript differs).
- `FloorGrouping` (floor_grouping.dfy): `FloorNumber`, the reference
  bucket `CartsOnFloor`, and the grouping loop `GroupByFloor`. The loop
  pushes into a 24-slot array and is proved against the reference.
- `FloorStatus` (floor_status.dfy): a direct statement of a floor's
  status (`StatusOf`). The accumulator loop `GetStatusDoAndar` is proved
  equal to it, and lemmas tie it to the rank table. `IsPriorityCart` states
  which cart the name scan settles on; the loop `GetNomeCarrinhoDisplay` is
  proved to pick that cart.
- `StatusToggle` (status_toggle.dfy): the status cycle, the PATCH the
  click sends, and the copy-and-map update of the local table. The server's
  answer is a parameter.
- `DefaultStock` (default_stock.dfy): the template record as a class over
  arrays. `HandleItemChange` writes into the found drawer's item array. It is
  proved to give the value-level edit `ChangeItem`, whose properties are
  lemmas.

Two behaviours of the name scan are worth knowing; lemmas exhibit both.

- The scan starts from the first cart. If that cart's status is missing from
  the table, no other cart outranks it, so its name is shown even on a floor
  that reads "aberto" because of another cart.
- Carts marked "vazio" take no part in the status, so such a floor reads
  "fechado". The name scan starts from the first of them.

Whenever the first cart's effective status is one of aberto, estoque or
fechado, the cart named on the card has exactly the card's status. This
holds whatever the other carts hold.

## Model

| member | source | states |
|---|---|---|
| `Carts.OrElse` | Frontend/src/Routes/LocalCarrinho.jsx:89 | the or-fallback of JavaScript gives the fallback exactly when the value is absent, empty, or the fallback itself, and the value otherwise |
| `Carts.EffectiveStatus` | Frontend/src/Routes/LocalCarrinho.jsx:73 | a cart's status is never empty, and a cart without a status counts as "estoque" |
| `Carts.Outranks` | Frontend/src/Routes/LocalCarrinho.jsx:74 | `statusPrioridade[a] < statusPrioridade[b]` holds exactly for the pairs aberto before estoque, fechado or vazio; estoque before fechado or vazio; fechado before vazio; a status outside the table is on neither side of any pair |
| `Carts.Rank` | Frontend/src/Routes/LocalCarrinho.jsx:14-19 | exactly the four keys aberto, estoque, fechado, vazio have a rank, each between 1 and 4 |
| `Decimal.ValueOfDigits` | Frontend/src/Routes/LocalCarrinho.jsx:24 | reading a number's decimal spelling back gives the number |
| `Decimal.RunEnd` | Frontend/src/Routes/LocalCarrinho.jsx:23 | the end of a digit run is the first non-digit at or after its start |
| `Decimal.ParseInt` | Frontend/src/Routes/Estoque.jsx:35 | `parseInt(value, 10)` is NaN exactly when no digit follows the leading white space and optional sign (its value otherwise is stated by `ParseIntOfSpelling`) |
| `Decimal.ParseIntOfDigitsThen` | Frontend/src/Routes/Estoque.jsx:35 | a number's canonical digits, with or without a sign, are read as that number whatever non-digit text follows (`"12.5"` gives 12) |
| `Decimal.ParseIntOfSpelling` | Frontend/src/Routes/Estoque.jsx:35 | any leading white space, an optional sign and a non-empty digit run, leading zeros allowed (`"  007x"` gives 7), are read as the signed value of those digits whatever non-digit text follows |
| `Decimal.ParseIntRoundTrip` | Frontend/src/Routes/Estoque.jsx:35 | the digits of a natural number parse back to that number |
| `FloorGrouping.FloorNumber` | Frontend/src/Routes/LocalCarrinho.jsx:22-25 | none exactly when the location holds no digit; otherwise the value of a first maximal digit run |
| `FloorGrouping.FirstDigitRunIsUnique` | Frontend/src/Routes/LocalCarrinho.jsx:23 | a string has only one first maximal digit run |
| `FloorGrouping.FloorNumberOfFirstRun` | Frontend/src/Routes/LocalCarrinho.jsx:22-25 | the floor number is the value of THE first maximal digit run |
| `FloorGrouping.FloorNumberOfFloor12B` | Frontend/src/Routes/LocalCarrinho.jsx:22-25 | "Floor 12B" reads as floor 12 |
| `FloorGrouping.FloorNumberOfQuintoAndar` | Frontend/src/Routes/LocalCarrinho.jsx:22-25 | "5º andar" reads as floor 5 |
| `FloorGrouping.FloorNumberOfFirstOfTwoRuns` | Frontend/src/Routes/LocalCarrinho.jsx:22-25 | only the first run counts: "Ala 3, sala 14" reads as floor 3 |
| `FloorGrouping.FloorNumberOfNoDigits` | Frontend/src/Routes/LocalCarrinho.jsx:22-25 | a location without digits has no floor |
| `FloorGrouping.OnBoardCount` | Frontend/src/Routes/LocalCarrinho.jsx:45 | the number of carts placed on floors 1..24 is at most the number of carts |
| `FloorGrouping.GroupByFloor` | Frontend/src/Routes/LocalCarrinho.jsx:41-49 | the loop yields exactly 24 buckets, and bucket f holds the carts whose location names floor f+1, in input order |
| `FloorGrouping.BoardHoldsPlacedCarts` | Frontend/src/Routes/LocalCarrinho.jsx:43-48 | the 24 buckets together hold exactly the carts whose floor is in 1..24, never more than the input |
| `FloorGrouping.CartsOnFloorCount` | Frontend/src/Routes/LocalCarrinho.jsx:43-48 | each copy of a cart is in the bucket of floor n exactly when its location names floor n, so carts without digits or out of range are in no bucket |
| `FloorGrouping.CartsOnFloorMembers` | Frontend/src/Routes/LocalCarrinho.jsx:45-47 | a cart is in the bucket of floor n if and only if it is an input cart whose location names floor n |
| `FloorGrouping.CartsOnFloorAppend` | Frontend/src/Routes/LocalCarrinho.jsx:43-48 | grouping keeps input order: the bucket of a concatenation is the first part's bucket followed by the second's |
| `FloorStatus.GetStatusDoAndar` | Frontend/src/Routes/LocalCarrinho.jsx:65-80 | the accumulator loop gives "vazio" for an empty floor, else "aberto" if any cart is open, else "estoque" if any cart needs restock (unset counts), else "fechado" |
| `FloorStatus.StatusIsHighestPriority` | Frontend/src/Routes/LocalCarrinho.jsx:70-76 | a non-empty floor's status is one of aberto/estoque/fechado; no cart outranks it; it is "fechado" or some cart's status |
| `FloorStatus.HighestPriorityIsStatus` | Frontend/src/Routes/LocalCarrinho.jsx:70-76 | conversely, any status with those three properties is the floor's status |
| `FloorStatus.StatusIgnoresOrder` | Frontend/src/Routes/LocalCarrinho.jsx:72-77 | the status depends only on which carts are on the floor, not on their order |
| `FloorStatus.UnknownStatusIsIgnored` | Frontend/src/Routes/LocalCarrinho.jsx:74 | a cart whose status is not one of the three cart statuses leaves a floor's status unchanged, and alone leaves the "fechado" baseline |
| `FloorStatus.OpenCartOpensFloor` | Frontend/src/Routes/LocalCarrinho.jsx:72-76 | one open cart makes the floor open, whatever the other carts are |
| `FloorStatus.StatusExamples` | Frontend/src/Routes/LocalCarrinho.jsx:66-79 | a lone cart without status reads "estoque"; closed plus open reads open; an empty floor reads "vazio" |
| `FloorStatus.GetNomeCarrinhoDisplay` | Frontend/src/Routes/LocalCarrinho.jsx:83-103 | "(Vazio)" for no cart; the lone cart's name or "" for one; otherwise the name or "Múltiplos" of the cart the priority scan settles on |
| `FloorStatus.PriorityCartIsUnique` | Frontend/src/Routes/LocalCarrinho.jsx:93-100 | the cart the scan settles on is determined: the first cart if its status is outside the table, else the earliest cart of highest priority |
| `FloorStatus.PriorityCartHasFloorStatus` | Frontend/src/Routes/LocalCarrinho.jsx:93-99 | when the first cart's status is aberto, estoque or fechado (or unset), the named cart has exactly the floor's status |
| `FloorStatus.UnknownFirstStatusKeepsItsName` | Frontend/src/Routes/LocalCarrinho.jsx:93-102 | without that condition they can differ: a first cart with an unknown status stays named on a floor that reads open |
| `FloorStatus.VazioCartsReadClosed` | Frontend/src/Routes/LocalCarrinho.jsx:70-100 | carts marked "vazio" are ignored by the status (the floor reads "fechado") while the first of them is named |
| `StatusToggle.NextStatus` | Frontend/src/Routes/LocalCarrinho.jsx:123-131 | the cycle turns aberto → fechado → estoque; the result is aberto exactly when the current status is neither aberto nor fechado (estoque, unset, "", "vazio" or unknown), so it is always one of the three |
| `StatusToggle.NextStatusCycle` | Frontend/src/Routes/LocalCarrinho.jsx:124-131 | on the three cart statuses the cycle has period exactly three |
| `StatusToggle.NextStatusOfEffective` | Frontend/src/Routes/LocalCarrinho.jsx:125-131 | cycling the raw status agrees with cycling the status the board shows (unset behaves as "estoque") |
| `StatusToggle.TogglePatch` | Frontend/src/Routes/LocalCarrinho.jsx:110-137 | a click sends an update exactly when the floor exists and holds a cart; the update names the first cart's id and its next status |
| `StatusToggle.SetStatusById` | Frontend/src/Routes/LocalCarrinho.jsx:142-144 | only the status changes, and it changes exactly on the carts with the given id |
| `StatusToggle.ToggleStatus` | Frontend/src/Routes/LocalCarrinho.jsx:110-147 | an empty floor, a floor index outside the table or a failed PATCH leaves the table unchanged; other buckets never change; the clicked bucket gets the new status on the first cart's id |
| `StatusToggle.ToggleAdvancesFirstCart` | Frontend/src/Routes/LocalCarrinho.jsx:121-147 | after a click the first cart has the next status; any cart whose status changed is in that bucket with that id; no other field of any cart changes |
| `StatusToggle.ToggleToOpenOpensFloor` | Frontend/src/Routes/LocalCarrinho.jsx:121-147 | a click that opens the first cart turns the floor card open |
| `StatusToggle.ToggleLoneCart` | Frontend/src/Routes/LocalCarrinho.jsx:121-147 | on a one-cart floor whose cart is aberto, estoque, fechado or unset (unset reads estoque), the card shows that status and each click moves it one step along the cycle; a lone "vazio" or unknown cart reads fechado and a click makes it aberto, so it is outside this claim |
| `StatusToggle.ToggleThriceRestores` | Frontend/src/Routes/LocalCarrinho.jsx:123-147 | three clicks restore the table when the carts sharing the first cart's id share its status, and that status is one of the three |
| `DefaultStock.DrawerIndex` | Frontend/src/Routes/Estoque.jsx:31 | the first drawer position with the id, or -1 exactly when no drawer has it |
| `DefaultStock.ItemIndex` | Frontend/src/Routes/Estoque.jsx:33 | the first item position with the id, or -1 exactly when no item has it |
| `DefaultStock.SetField` | Frontend/src/Routes/Estoque.jsx:35 | the id is kept; "nome" stores the text as given; "quantidade" stores `parseInt` of it; the other field is kept |
| `DefaultStock.FindGaveta` | Frontend/src/Routes/Estoque.jsx:31 | the loop finds the first drawer with the id, or -1 when there is none |
| `DefaultStock.FindItem` | Frontend/src/Routes/Estoque.jsx:33 | the loop finds the first item with the id, or -1 when there is none |
| `DefaultStock.ChangeItem` | Frontend/src/Routes/Estoque.jsx:29-39 | the edit keeps the number of drawers, every drawer's id, name and item count, and every item's id; the only item that can differ is the first item with the id in the first drawer with the id |
| `DefaultStock.ChangeItemMissingDrawer` | Frontend/src/Routes/Estoque.jsx:31-32 | no drawer with the id: the record is unchanged |
| `DefaultStock.ChangeItemMissingItem` | Frontend/src/Routes/Estoque.jsx:33-34 | drawer found but no item with the id in it: the record is unchanged |
| `DefaultStock.ChangeItemFound` | Frontend/src/Routes/Estoque.jsx:31-35 | both found: only the named field of the first such item in the first such drawer changes; all other items, drawers, ids and names, and the number and order of both, stay |
| `DefaultStock.ChangeQuantityStoresNumber` | Frontend/src/Routes/Estoque.jsx:35 | a quantity typed as a number's digits is stored as that number; an empty one is stored as NaN |
| `DefaultStock.ChangeItemKeepsLookups` | Frontend/src/Routes/Estoque.jsx:31-35 | an edit changes no id, so every later drawer or item lookup finds the same positions |
| `DefaultStock.ChangeItemIdempotent` | Frontend/src/Routes/Estoque.jsx:35 | repeating the same edit changes nothing more |
| `DefaultStock.EstoquePadrao.HandleItemChange` | Frontend/src/Routes/Estoque.jsx:29-39 | the record's drawers and items afterwards are `ChangeItem` of what they were, and no two drawers share an item array |

## Left out

- HTTP, React state, loading and error flags, `console` and `alert` are not modelled. The cart listing is the input of `GroupByFloor`. The server's answer to the status PATCH is the `patchSucceeded` parameter of `ToggleStatus`. The PUT of the template (`handleUpdateEstoque`) is not modelled either.
- The colour map with its grey fallback and all JSX, including the "Nº Andar" caption, are presentation and are not modelled.
- `parseInt` returns a double in JavaScript. The model gives an unbounded integer, so rounding above 2^53 and the value -0 are not modelled. A stored `quantidade` that was never edited is taken to be an integer.
- `DefaultStock.Field`: only the two field names the page passes are modelled, "nome" and "quantidade". JavaScript would add a property for any other name.
- `DefaultStock.EstoquePadrao.HandleItemChange`: JavaScript writes into the item object. The model replaces the item's slot in its drawer's array. The two agree because no item is shared between slots. Sharing of item arrays between drawers is excluded by `Valid()`, as in records parsed from JSON. The shallow copy of the record and the re-render it triggers are not modelled.
- A cart without `localizacao` makes `extrairNumeroAndar` throw in JavaScript, so the whole fetch fails. The model takes the location as a string. It also keeps only the cart fields the board reads: id, nome, localizacao and status.
- `FloorStatus.GetNomeCarrinhoDisplay`: two statuses that are both keys inherited by the table from `Object.prototype` (such as "valueOf" and "toString") are treated as incomparable. JavaScript looks up functions or an object for them and compares their string forms as text, so the name scan can move from one such cart to a later one where the model keeps the first. The floor's status is unaffected, because its accumulator is always a table key.
- A status or name that is not a string, such as a number, is not modelled. Both are optional strings.
- `handleToggleStatus` reads the target cart from the table it rendered, then applies the update to the newest table. The model uses one table for both, so a re-fetch in between is not modelled.
- Not among the modelled operations, because neither page modelled here has code for them: rotating the displayed cart on multi-cart floors, pushing template edits into existing carts and access-rule CRUD. The editor page states that existing carts are not affected by template edits. The backend has no handlers.
