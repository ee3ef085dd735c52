# Prestation catalog: a Dafny model

This project models the catalog of service offerings ("prestations") kept by
the photoToPresta web application, and the display rules of the card that
shows one offering.

- `prestation_service.dfy`, module `PrestationService`: the `Prestation`
  record as the code declares it, and the class `PrestationStore`. The store
  keeps the whole catalog in one persisted storage slot. It lists, looks up
  by id, appends a new record, replaces a record by id, changes the status of
  a record by id, and deletes every record with an id. Every write rewrites
  the slot and broadcasts a change. The slot is the field `slot`; `None`
  stands for an absent key. The broadcast is counted by the ghost field
  `saves`. Pure functions on sequences (`IndexOf`, `Lookup`, `UpdateFirst`,
  `SetStatusFirst`, `RemoveAll`) state what each operation leaves in the
  slot, and lemmas relate them.
- `prestation_card.dfy`, module `PrestationCard`: the duration text
  (`Xh`, `Ymin`, `XhYmin` or nothing), the status badge text, the price line
  and whether the card offers a delete button.

Notes on what the code does:

- Duration parts and the price are strings, not numbers. Categories are
  `femmes|hommes|enfants` and the kind is `prestation|forfait`.
- Update and status change return nothing. An unknown id is not reported as an
  error: the collection is left as it was and nothing is written.
- The code keeps no status invariant. A status change accepts any status, and
  an update may overwrite the status. So no "pending only for flyer records"
  or "active never reverts" invariant is stated.
- New ids are not checked for uniqueness. `DuplicateIdIsShadowed` shows what
  happens on a clash: lookups keep returning the older record.

## Model

| member | source | states |
|---|---|---|
| PrestationService.NewPrestation | app/services/prestationService.ts:51-61 | the new record has the given id, status pending exactly when the source is flyer (active exactly when manual), source set to the argument, and all other fields of the input; the input's own `source` is overridden |
| PrestationService.IndexOf | app/services/prestationService.ts:73 | `findIndex` on the id: -1 exactly when no record has the id, otherwise a position holding the id with no earlier position holding it |
| PrestationService.Lookup | app/services/prestationService.ts:39-49 | `find` on the id: nothing exactly when no record has the id; otherwise a record with that id that occurs at some position with no earlier match |
| PrestationService.UpdateFirst | app/services/prestationService.ts:73-82 | nothing exactly when the id is absent; otherwise same length and same ids per position, the first match replaced by the new record and every other position unchanged |
| PrestationService.SetStatusFirst | app/services/prestationService.ts:95-104 | nothing exactly when the id is absent; otherwise only the status of the first match changes, to the given status, and every other position is unchanged |
| PrestationService.RemoveAll | app/services/prestationService.ts:87 | no remaining record carries the id, every remaining record comes from the input, and every input record with another id remains |
| PrestationService.FindIndex | app/services/prestationService.ts:73 | the front-to-back scan returns the first matching position, or -1 |
| PrestationService.PrestationStore.constructor | app/services/prestationService.ts:115 | the store starts on the given storage slot, with no write made |
| PrestationService.PrestationStore.GetPrestations | app/services/prestationService.ts:31-37 | the empty sequence when the slot is absent, otherwise the stored sequence in stored order |
| PrestationService.PrestationStore.GetPrestation | app/services/prestationService.ts:39-49 | the scan returns the first stored record with the id, or nothing |
| PrestationService.PrestationStore.AddPrestation | app/services/prestationService.ts:51-67 | returns the new record, the slot becomes the old collection with that record appended, and exactly one write is made; the source defaults to manual |
| PrestationService.PrestationStore.UpdatePrestation | app/services/prestationService.ts:69-83 | with an unknown id the slot and the write count are unchanged; otherwise the slot holds the collection with the first match replaced and one write is made |
| PrestationService.PrestationStore.DeletePrestation | app/services/prestationService.ts:85-89 | the slot holds the collection without any record carrying the id, and one write is always made |
| PrestationService.PrestationStore.UpdatePrestationStatus | app/services/prestationService.ts:91-105 | with an unknown id the slot and the write count are unchanged; otherwise only the first match's status changes and one write is made |
| PrestationService.PrestationStore.SavePrestations | app/services/prestationService.ts:107-112 | the slot holds exactly the given collection, and the write count grows by one |
| PrestationService.AddedIsFound | app/services/prestationService.ts:56-66 | when no stored record has the new id, a lookup of it after adding returns the added record |
| PrestationService.DuplicateIdIsShadowed | app/services/prestationService.ts:25-29 | when the new id is already taken, a lookup after adding still returns the older record |
| PrestationService.UpdatedIsFound | app/services/prestationService.ts:73-78 | after an update of a present id, a lookup of the id returns the new record |
| PrestationService.StatusChangeIsFound | app/services/prestationService.ts:95-100 | after a status change of a present id, a lookup returns the former record with only its status changed |
| PrestationService.UpdateKeepsPositions | app/services/prestationService.ts:73-100 | after an update or a status change, the first position of every id is what it was |
| PrestationService.RemoveAllAbsent | app/services/prestationService.ts:87 | deleting an id no record carries leaves the collection identical |
| PrestationService.RemoveAllIdempotent | app/services/prestationService.ts:85-89 | deleting an id twice gives the same collection as deleting it once |
| PrestationService.DeletedIsNotFound | app/services/prestationService.ts:85-89 | after a delete, a lookup of the id finds nothing |
| PrestationService.RemoveAllKeepsOrder | app/services/prestationService.ts:87 | the remaining records are a subsequence of the input, so their relative order is kept |
| PrestationService.RemoveAllCount | app/services/prestationService.ts:87 | the result is shorter by exactly the number of records carrying the id, so all of them are removed and not only the first |
| PrestationCard.DurationText | app/components/PrestationCard.tsx:22-30 | the length is the hours part plus "h" when hours are given, plus the minutes part plus "min" when minutes are given; the text starts with hours + "h" and ends with minutes + "min" in those cases |
| PrestationCard.DurationTextEmptyIff | app/components/PrestationCard.tsx:23-26 | the duration text is empty exactly when neither part is given |
| PrestationCard.AbsentSpellingsAgree | app/components/PrestationCard.tsx:23-24 | "", "0" and "00" give the same text in either part |
| PrestationCard.TripleZeroIsPresent | app/components/PrestationCard.tsx:23-29 | "000" counts as given: it yields "000h" as hours and "000min" as minutes |
| PrestationCard.StatusLabel | app/components/PrestationCard.tsx:72-76 | the badge reads "En attente" exactly for pending and "Validée" exactly for active |
| PrestationCard.PriceText | app/components/PrestationCard.tsx:80 | the line starts with the price and the euro sign; it is longer exactly when the price is a starting price, and then ends with " (à partir de)" |
| PrestationCard.ShowsDelete | app/components/PrestationCard.tsx:72-97 | delete is offered exactly when the badge reads "Validée" and a delete handler is given, so the button's test on active agrees with the badge's test on pending |
| PrestationCard.DeleteOnlyOnValidated | app/components/PrestationCard.tsx:72-97 | with a handler, delete is offered exactly when the badge does not read "En attente"; without one, never |
| PrestationCard.NewRecordOnCard | app/components/PrestationCard.tsx:72-97 | a record just added from a flyer reads "En attente" and offers no delete; a manual one reads "Validée" and offers delete exactly when a handler is given |
| PrestationCard.ActivatedRecordOnCard | app/components/PrestationCard.tsx:72-97 | after a present record's status is set to active, its card reads "Validée" and offers delete exactly when a handler is given |

## Left out

- Id generation from `Date.now()` and `Math.random()`: nondeterministic, so the id is a parameter of `AddPrestation`. Freshness is an assumption of `AddedIsFound`; the code does not check it.
- Browser storage, JSON encoding of the collection and the `storage` event: foreign calls. The slot is a field and the event is the write counter `saves`.
- The `typeof window` server-side check in `getPrestations`: browser plumbing.
- A stored blob that does not parse (where `JSON.parse` throws): not modelled; the slot always holds a collection.
- Console logging and warnings: no effect on state.
- The card's markup, CSS classes, category icons and the `window.confirm` dialog before a delete: presentation only.
- The card's `onDelete` handler: modelled only as whether one is given.
- A record without `status` or `source`: the model assumes every stored record has a status, `active` or `pending`, as the record type declares. The code does not enforce this, since type errors are ignored at build time. The edit page passes `updatePrestation` a record with neither field, and the update stores that record as it is. Its card then reads "Validée" yet offers no delete button. The model does not capture such a record. `ShowsDelete` and `DeleteOnlyOnValidated` hold only for records that have a status.
- The model call route, the HTTP wrapper around it, the pages and the other components: I/O, navigation and rendering, with no catalog logic of their own.
