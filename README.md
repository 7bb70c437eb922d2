# Wedding RSVP and retail inventory object models

This project models two small in-memory object systems from the repository's
`Python/Projects` directory. Both are modelled as Dafny classes whose methods
change fields in place.

**Wedding planning** (`wedding.dfy`, module `WeddingPlanning`):

- A `Wedding` owns the list of invitations, one per guest email, and the list
  of confirmed guests. Confirmed guests are compared by object identity.
- `SendInvitation` ignores an email that already has an invitation.
- `RetrieveInvitation` and `GetGuestByEmail` are first-match scans.
- An `Invitation` holds a three-valued status.
- A `Guest` answers its invitation through its wedding. Accepting confirms the
  guest once. Declining takes the guest off the confirmed list.
- A special guest, built with `Guest.Special`, may invite one plus-one and
  later uninvite it. Uninviting hard-deletes the plus-one's invitation.

**Retail inventory** (`retail.dfy`, module `RetailInventory`):

- One shared `Inventory` holds mutable `Product` objects. A product appends
  itself to the inventory when it is built.
- `AddProduct` gives a new product the last product's id plus one, or 1 when
  the inventory is empty.
- `UpdateProduct` patches the given fields of the first product with the id.
- `DeleteProduct` removes the first product with the id.
- `Order.PlaceOrder` takes stock from the first product with the id that has
  enough, and records a `(product id, quantity)` line.

Each method's contract relates the state it leaves to a pure function of the
state it started from. `Rows()` gives the inventory's values and `Emails`
gives the invitation list's emails. The lemmas prove what the programs promise
about those functions: ids stay strictly increasing and therefore unique,
emails stay distinct, a served order leaves the serving product's stock at
zero or above, and operations change no other entry. Stock set directly by
`AddProduct` or `UpdateProduct` can be any integer, as in the Python code.

`seqs.dfy` (module `Seqs`) models Python's first-match scan (`IndexOf`) and
`list.remove`, which drops the first occurrence (`RemoveFirst`). It also
holds the duplicate-freedom lemmas both models use.

`retail_scenarios.dfy` replays the usage shown in the docstring of
`retail_inventory_system.py` (lines 43-54). `wedding_scenarios.dfy` holds
walk-throughs of the wedding model. The results of both are proved from the
operations' contracts alone.

### A confirmed guest need not be invited

- `invite_plus_one` stores one new `Guest` object as `plus_one`
  (`wedding_planning_software.py`:143).
- It then calls `send_invitation` (:144), which builds a second, different
  `Guest` object (:46) and stores that one in the invitation.
- If the second object accepts, it is confirmed. `uninvite_plus_one` then
  deletes the invitation, but its identity test (:155) looks for the first
  object, so the second one stays confirmed with no invitation.
- `WeddingScenarios.StaleConfirmation` proves this outcome, so the invariant
  `Wedding.Valid` does not claim that confirmed guests are invited.
- When the `plus_one` object itself accepts, uninviting does remove it from
  both lists. `WeddingScenarios.PlusOneRoundTrip` proves that case.

## Model

| member | source | states |
|---|---|---|
| Seqs.IndexOf | Python/Projects/wedding_planning_software.py:58-61 | The first-match scan answers None exactly when the value is absent; otherwise it gives a position holding the value with no earlier occurrence. |
| Seqs.IndexOfUnique | Python/Projects/wedding_planning_software.py:58-61 | A position holding the value with no earlier occurrence is the one the scan returns. |
| Seqs.RemoveFirst | Python/Projects/wedding_planning_software.py:153 | On a present value, `list.remove` deletes exactly the entry at the first occurrence and keeps the rest in order. The branch for an absent value, which leaves the list as it is, stands for the `in`-guarded calls at :118-119 and :155-156; an unguarded call on an absent value raises in Python. |
| Seqs.RemoveFirstNoDup | Python/Projects/wedding_planning_software.py:118-119 | On a duplicate-free list, removal keeps the list duplicate-free and leaves no occurrence of the value. As a multiset, exactly that one element goes. |
| Seqs.NoDupCountOne | Python/Projects/wedding_planning_software.py:110-111 | A present element of a duplicate-free list occurs exactly once. |
| WeddingPlanning.FirstInvitation | Python/Projects/wedding_planning_software.py:152-153 | The first invitation with an email is also the first occurrence of that invitation object, so `remove` deletes that entry. |
| WeddingPlanning.RemoveInvitationEntry | Python/Projects/wedding_planning_software.py:152-153 | With distinct emails, removing the invitation found for an email deletes exactly its entry. The remaining emails stay distinct and no longer include that email. |
| WeddingPlanning.DistinctInvitations | Python/Projects/wedding_planning_software.py:39-50 | Invitations with distinct emails are distinct objects. |
| WeddingPlanning.StatusText | Python/Projects/wedding_planning_software.py:81-89 | The text a status is stored as is one of "pending", "accepted" and "declined". |
| WeddingPlanning.StatusTextInjective | Python/Projects/wedding_planning_software.py:81-89 | The three statuses are stored as three different texts, so `Status` maps one-to-one onto "pending", "accepted" and "declined". |
| WeddingPlanning.Wedding.Valid | Python/Projects/wedding_planning_software.py:39-50 | The wedding's invariant: one invitation per email, as `send_invitation`'s duplicate check keeps it; every invited guest belongs to this wedding; no guest object is confirmed twice, as the guards at :110 and :118 keep it. |
| WeddingPlanning.Wedding.InvitationsDistinct | Python/Projects/wedding_planning_software.py:39-50 | A valid wedding lists no invitation object twice. |
| WeddingPlanning.Wedding.constructor | Python/Projects/wedding_planning_software.py:23-30 | A new wedding stores both names and starts with empty lists. |
| WeddingPlanning.Wedding.SendInvitation | Python/Projects/wedding_planning_software.py:32-50 | An already-invited email changes nothing. A new email appends exactly one fresh pending invitation at the end, and earlier entries are untouched. Its fresh guest has the name and email, belongs to this wedding and is special exactly when `isSpecial` is set. Emails stay distinct. |
| WeddingPlanning.Wedding.RemoveInvitation | Python/Projects/wedding_planning_software.py:153 | `invitation_list.remove` on a present invitation deletes its first occurrence. Its email is then gone and the invariant holds. |
| WeddingPlanning.Wedding.RemoveConfirmed | Python/Projects/wedding_planning_software.py:155-156 | The membership-guarded `remove` takes the guest object off the confirmed list, keeps the other guests' order and leaves the invitations alone. |
| WeddingPlanning.Wedding.RetrieveInvitation | Python/Projects/wedding_planning_software.py:52-61 | Returns null exactly when no invitation has the email; otherwise returns the first invitation with it. |
| WeddingPlanning.Wedding.GetGuestByEmail | Python/Projects/wedding_planning_software.py:63-72 | Returns null exactly when no invitation has the email; otherwise returns the guest of the first invitation with it. |
| WeddingPlanning.Invitation.constructor | Python/Projects/wedding_planning_software.py:75-81 | A new invitation holds its guest and is pending, stored as "pending". |
| WeddingPlanning.Invitation.Accept | Python/Projects/wedding_planning_software.py:83-85 | The status becomes accepted, stored as "accepted". |
| WeddingPlanning.Invitation.Decline | Python/Projects/wedding_planning_software.py:87-89 | The status becomes declined, stored as "declined". |
| WeddingPlanning.Guest.constructor | Python/Projects/wedding_planning_software.py:92-103 | A plain guest stores its name, email, wedding and inviting email, is not special and has no plus-one. |
| WeddingPlanning.Guest.Special | Python/Projects/wedding_planning_software.py:122-131 | A special guest stores its name, email and wedding, has no inviting email, and starts with no plus-one. |
| WeddingPlanning.Guest.AcceptInvitation | Python/Projects/wedding_planning_software.py:105-111 | Without an invitation for the email nothing changes. With one, that first invitation becomes accepted and no other status changes. The guest object is appended unless already confirmed, and is then confirmed exactly once. |
| WeddingPlanning.Guest.DeclineInvitation | Python/Projects/wedding_planning_software.py:113-119 | Without an invitation for the email nothing changes. With one, that first invitation becomes declined and no other status changes. The guest object leaves the confirmed list, and the others keep their order. |
| WeddingPlanning.Guest.InvitePlusOne | Python/Projects/wedding_planning_software.py:133-144 | A no-op when a plus-one is set or the email is already invited. Otherwise `plusOne` becomes a fresh guest whose inviting email is this guest's email, and exactly one pending invitation is appended. That invitation's guest is a different object with no inviting email. The confirmed list is unchanged and emails stay distinct. |
| WeddingPlanning.Guest.UninvitePlusOne | Python/Projects/wedding_planning_software.py:146-158 | A no-op without a plus-one. Otherwise exactly the plus-one email's invitation entry is deleted and no invitation object changes. The `plusOne` object leaves the confirmed list, `plusOne` is cleared and emails stay distinct. |
| WeddingScenarios.SpecialGuestWithPlusOne | Python/Projects/wedding_planning_software.py:133-144 | Amy and Ben's wedding. Cho is invited as a special guest, accepts and invites Dee. This leaves two invitations (Cho accepted, Dee pending), Cho confirmed, and a plus-one object different from the invitation's guest. |
| WeddingScenarios.PlusOneRoundTrip | Python/Projects/wedding_planning_software.py:146-158 | A second plus-one is refused. The plus-one accepts and is then uninvited, leaving only Cho invited and confirmed. A late acceptance changes nothing. |
| WeddingScenarios.StaleConfirmation | Python/Projects/wedding_planning_software.py:143-156 | If the invitation's own guest object accepts, uninviting the plus-one deletes the invitation but leaves that guest confirmed. |
| WeddingScenarios.ChangeOfMind | Python/Projects/wedding_planning_software.py:105-119 | Accept, decline, accept, accept leaves the invitation accepted and the guest confirmed exactly once. |
| RetailInventory.OrderMessage | Python/Projects/retail_inventory_system.py:116-117 | An order not placed gives the failure text. A placed order's text starts with "Order placed successfully. Order ID: ", and the rest reads back, as a decimal number, as the order id. The text is the failure text exactly when the order was not placed. |
| RetailInventory.DecimalText | Python/Projects/retail_inventory_system.py:116 | Python's `str` of an integer: a non-empty text that starts with `-` exactly when the integer is negative, with only decimal digits after that, no leading zero after the sign, and `"0"` for zero. |
| RetailInventory.Digits | Python/Projects/retail_inventory_system.py:116 | The digits of a natural number: non-empty, decimal digits only, no leading zero, and exactly `"0"` for the number 0. |
| RetailInventory.DigitsRoundTrip | Python/Projects/retail_inventory_system.py:116 | Reading a number's digits back as a decimal number gives the number. |
| RetailInventory.DecimalRoundTrip | Python/Projects/retail_inventory_system.py:116 | Reading an integer's decimal text back, sign included, gives the integer. |
| RetailInventory.OrderMessageInjective | Python/Projects/retail_inventory_system.py:116-117 | Different outcomes, and different order ids, give different texts, so `OrderResult` maps one-to-one onto the messages. |
| RetailInventory.DecimalTextInjective | Python/Projects/retail_inventory_system.py:116 | Different integers have different decimal texts. |
| RetailInventory.NextId | Python/Projects/retail_inventory_system.py:73 | The generated id is 1 for an empty inventory. When ids strictly increase, it is greater than every id present. |
| RetailInventory.Added | Python/Projects/retail_inventory_system.py:68-74 | The rows after `add_product`: the old rows unchanged, then exactly one new row at the end with `NextId` and the given values. |
| RetailInventory.Patched | Python/Projects/retail_inventory_system.py:82-87 | A patched row keeps its id, name and category, and a patch with every field None leaves it unchanged. |
| RetailInventory.Updated | Python/Projects/retail_inventory_system.py:80-89 | The rows after `update_product` keep their length and their ids, and an absent id leaves them unchanged. |
| RetailInventory.Deleted | Python/Projects/retail_inventory_system.py:94-98 | The rows after `delete_product`: an absent id leaves them unchanged, a present one drops exactly one row, and no new row appears. |
| RetailInventory.Served | Python/Projects/retail_inventory_system.py:112 | The rows after an order is served from row k: same length and ids, row k's stock lower by exactly the quantity, every other row unchanged. |
| RetailInventory.NewCustomerInfo | Python/Projects/retail_inventory_system.py:114-115 | The customer becomes either the given value or the old one, and a present non-empty customer is never replaced by an empty or missing one. |
| RetailInventory.CanServe | Python/Projects/retail_inventory_system.py:111 | The condition `place_order` tests: the product has the ordered id and at least the ordered quantity in stock. |
| RetailInventory.ServingIndex | Python/Projects/retail_inventory_system.py:110-111 | `place_order`'s scan finds no product exactly when none has the id with enough stock. Otherwise it finds the first product that does. |
| RetailInventory.ServingIndexUnique | Python/Projects/retail_inventory_system.py:110-111 | A product that can serve, with none able to before it, is the one the scan picks. |
| RetailInventory.IncreasingUnique | Python/Projects/retail_inventory_system.py:13 | Strictly increasing ids are pairwise distinct, so the first product with an id is the only one. |
| RetailInventory.AddedIncreasing | Python/Projects/retail_inventory_system.py:73-74 | Giving the new product the last id plus one (or 1) keeps ids strictly increasing. |
| RetailInventory.UpdatedPatchesFirst | Python/Projects/retail_inventory_system.py:78-89 | On a present id, only the first product with that id changes. Its id, name and category are kept, each given field is overwritten and each absent field is kept. An absent id changes nothing. Ids never change. |
| RetailInventory.DeletedRemovesFirst | Python/Projects/retail_inventory_system.py:92-98 | On a present id, exactly the first product with that id is removed. The others keep their order and the length drops by one. An absent id changes nothing. |
| RetailInventory.IncreasingWithout | Python/Projects/retail_inventory_system.py:96 | Deleting one entry from strictly increasing ids keeps them strictly increasing. |
| RetailInventory.DeletedIncreasing | Python/Projects/retail_inventory_system.py:94-97 | Deleting a product keeps ids strictly increasing. |
| RetailInventory.DeletingLastReusesId | Python/Projects/retail_inventory_system.py:73 | Deleting the product just added removes exactly it. The next product added then gets the same id again. |
| RetailInventory.ServedTakesStock | Python/Projects/retail_inventory_system.py:110-112 | A served order takes exactly the ordered quantity from the serving product and leaves its stock non-negative. No id and no other product changes. |
| RetailInventory.ServingIsTheProduct | Python/Projects/retail_inventory_system.py:110-111 | With strictly increasing ids, an order can be served exactly when the product with that id exists and has enough stock, and that product serves it. |
| RetailInventory.RowsOfWithout | Python/Projects/retail_inventory_system.py:96 | Deleting one product from the list deletes exactly its row from the inventory's values. |
| RetailInventory.Product.Patch | Python/Projects/retail_inventory_system.py:82-87 | Each given field is overwritten and every other value is kept. |
| RetailInventory.Product.Take | Python/Projects/retail_inventory_system.py:112 | The stock drops by the amount and nothing else changes. |
| RetailInventory.Product.constructor | Python/Projects/retail_inventory_system.py:60-68 | The new product holds the given values and is appended to the end of the shared inventory, which stays free of repeated objects. |
| RetailInventory.Inventory.Valid | Python/Projects/retail_inventory_system.py:58-68 | The inventory's invariant: no product object is listed twice. Every product is appended by its own constructor, so this always holds, and it makes each in-place field update change exactly one row. |
| RetailInventory.Inventory.constructor | Python/Projects/retail_inventory_system.py:58 | The shared inventory starts empty. |
| RetailInventory.Inventory.AddProduct | Python/Projects/retail_inventory_system.py:70-75 | Appends exactly one fresh product at the end, with the next id. It returns the success message and keeps ids strictly increasing. |
| RetailInventory.Inventory.UpdateProduct | Python/Projects/retail_inventory_system.py:77-89 | The inventory's values become the first match patched and no product is added or removed. Returns the success message exactly when the id is present, and the not-found message otherwise. |
| RetailInventory.Inventory.DeleteProduct | Python/Projects/retail_inventory_system.py:91-98 | The inventory's values lose exactly the first match, and the product objects still listed are the old ones in their old order (none when the id is absent). Returns the success message exactly when the id is present, and the not-found message otherwise. Ids stay strictly increasing. |
| RetailInventory.Order.constructor | Python/Projects/retail_inventory_system.py:101-106 | The order stores its id, its lines and its customer. |
| RetailInventory.Order.PlaceOrder | Python/Projects/retail_inventory_system.py:108-117 | When a product can serve, the first such product loses exactly the quantity, the line is appended and a non-empty customer replaces the old one. The result then carries the order id. Otherwise inventory, lines and customer are unchanged and the order is not placed. Ids never change. |
| RetailScenarios.LaptopOrder | Python/Projects/retail_inventory_system.py:43-54 | Adding a laptop gives it id 1. After updating it to 45 units at price 950, an order for 2 for John Doe leaves 43 units and is placed with order id 1. |
| RetailScenarios.OrderAfterDelete | Python/Projects/retail_inventory_system.py:43-54 | After the laptop is deleted the inventory is empty, and the order fails with nothing changed. |

## Left out

- I/O: neither program reads or writes anything. The messages are returned as values: exact strings for the inventory, and an `OrderResult` for orders. `OrderMessage` gives the text for each `OrderResult`.
- Product.inventory: the class-level list shared by all instances is an `Inventory` object. It is passed to the product constructor and to `PlaceOrder`.
- RetailInventory.Order.constructor: the `products` list is copied, not aliased. Changes to a list the caller still holds are not modelled.
- RetailInventory.Inventory.Valid: the model assumes that no product object is listed twice. Without it, one product's in-place update could change two rows. Python's constructor always appends a new object, so every reachable list satisfies it.
- price: modelled as an integer. It is only stored and never computed with.
- WeddingPlanning.Guest.UninvitePlusOne: requires that the plus-one's email still has an invitation. Python's `list.remove` raises `ValueError` when it does not, and the model does not model that exception.
- WeddingPlanning.Guest.InvitePlusOne: requires a special guest, because the Python method exists only on `SpecialGuest`.
- Guest truthiness: `if self.get_guest_by_email(email)` and `if invitation` test for None only, because a Python object is always true. The only value truthiness test modelled is the non-empty check on `customer_info`.
- bride_name, groom_name and guest names are stored and never used.
- Python's dynamic typing is not modelled. Arguments are modelled with the types the code uses them at.
