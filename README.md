# Annonceurs CRM — a Dafny model of its record logic

The annonceurs application is the contact manager of a club's event. It keeps every advertiser, partner, patron, stand holder and lottery donor in a main contact table. It keeps one tracking table per category in a hosted table database. This model covers the logic that sits under its pages:

- the completion checklist of the follow-up page (`SuiviAvancement`), its tracking cache, its pack toggles and the "Stand 3x3m" back-link;
- the type synchronisation of the API client, which keeps an entity's tracking records in line with its category;
- the brochure administration page: the filter, format derivation, page/size sync, three-bucket order, metrics, per-size statistics, page save, file names and HTML snippets;
- the financial report (`BilanFinancier`) and the dashboard leaderboard;
- the comment-log parser of the history page;
- the map filter of the application shell, the sidebar's option lists and the status colours;
- the invoice and patronage-receipt forms.

JavaScript values are modelled by `JsValues.Value`: `undefined`, `null`, booleans, integer numbers, strings, and an expanded linked record `{ Id }`. A row of a table, a form buffer or a stored preference is a `map<string, Value>`. A missing key reads as `undefined`.

The remote store is the class `Api.RecordStore`. It holds one sequence of rows per table id, the next id it will hand out, and the set of tables the network cannot reach. The follow-up page is the class `Suivi.SuiviPage`. It holds the active tab, the local entity list, the filter mode and the `trackingData` cache, and it talks to a `RecordStore`. The brochure page's `loadData` is a method that fills the two inverse indexes with a loop, annotates the kept entities, and merges the stored-data updates with a second loop.

Files, one module each:

- `wrappers.dfy`, `values.dfy`, `text.dfy`, `collections.dfy`, `sorting.dfy`: the JavaScript semantics the pages rely on. These cover `Option`/`Result`, values and truthiness, string operations (trim, lower-case, split, join, digits), filter/map/count/sum and a stable insertion sort.
- `domain.dfy`, `packs.dfy`, `forms.dfy`: the entity statuses, the comma-encoded pack tags and the spread-copy form updates.
- `api.dfy`, `sync_props.dfy`: the store, the configuration tables, the tracking operations and the type synchronisation, with the properties of the synchronisation.
- `completion.dfy`, `suivi.dfy`: the follow-up page.
- `brochure_load.dfy`, `brochure_view.dfy`: the brochure administration page.
- `bilan.dfy`, `dashboard.dfy`, `history.dfy`, `app_filter.dfy`, `sidebar.dfy`, `status_color.dfy`, `facture.dfy`, `mecenat.dfy`: the other pages and components.

## Model

| member | source | states |
|---|---|---|
| JsValues.Or | src/pages/BilanFinancier.jsx:100-101 | a JavaScript `or` is truthy exactly when one side is, and it is one of its two operands |
| JsValues.ParseAmount | src/pages/BilanFinancier.jsx:79 | `parseFloat` with 0 as fallback: a number gives itself; a value that is neither a number nor a string gives 0 |
| JsValues.LinkFormsAgree | src/services/api.js:304-309 | a bare id and the same id wrapped as `{ Id }` link to exactly the same entities |
| JsValues.NumberIdsNormalise | src/services/api.js:304-309 | the string "42", the number 42 and `{ Id: 42 }` normalise to the same key, and distinct numbers stay distinct |
| JsValues.ParseAmountOfRendering | src/pages/SuiviAvancement.jsx:269 | parsing the rendering of a whole number gives that number back |
| Api.Lookup | src/services/api.js:107-108 | a configuration key is found exactly when some entry declares it, and the value found is that of an entry with that key |
| Api.KnownCategories | src/services/api.js:88-102 | a category has a tracking table exactly when it is one of the seven configured names |
| Api.TombolaAlias | src/services/api.js:90-91 | "Tombola" and "Tombola (Lots)" share table `mm0pgifcf72rnoj` and link field `cng8iswsgb2q60o` |
| Api.SubventionBorrowsStand | src/services/api.js:94-95 | "Subvention" maps to the Stand table `midotel4vypc65e` |
| Api.SubventionHasNoLinkField | src/services/api.js:176-184 | "Subvention" has no link field |
| Api.EntryTable | src/services/api.js:88-102 | every configured category looks up to the table id of its own entry |
| Api.LinkEntry | src/services/api.js:176-184 | every category with a link field looks up to the field of its own entry |
| Api.Merge | src/services/api.js:151 | `{ ...r, ...patch }` has the keys of both; the patch's fields win and the other fields are kept |
| Api.WithoutId | src/services/api.js:159-171 | after a delete no remaining row has the deleted id |
| Api.Patched | src/services/api.js:141-157 | a PATCH keeps the number of rows and merges the body into exactly the rows with the body's id |
| Api.RecordStore.FetchTrackingData | src/services/api.js:106-126 | an unknown category or an unreachable table gives `[]`; otherwise the table's rows |
| Api.RecordStore.CreateTrackingRecord | src/services/api.js:128-139 | an unknown category fails with "Unknown type: …" and changes nothing; otherwise the row is appended with a fresh id and returned |
| Api.RecordStore.CreateAndLinkRecord | src/pages/SuiviAvancement.jsx:139 | as `createTrackingRecord`, with `Link_Annonceur` set to the entity |
| Api.RecordStore.UpdateTrackingRecord | src/services/api.js:141-157 | an unknown category fails with "Unknown type: …" and changes nothing; otherwise the table is patched with `{ Id: id, ...data }` |
| Api.RecordStore.DeleteTrackingRecord | src/services/api.js:159-171 | an unknown category fails with "Unknown type: …" and changes nothing; otherwise the row with that id is removed |
| Api.RecordStore.UpdateEntity | src/services/api.js:59-84 | the main table is patched with `{ Id: id, ...data }`; an unreachable store fails and changes nothing |
| Api.RecordStore.SynchronizeTrackingType | src/services/api.js:263-339 | the store ends as the reference fold of one step per configuration entry, and the failed categories are the visited, unreachable ones in order |
| Api.RecordStore.SyncLoop | src/services/api.js:269-338 | the loop over the entries computes that fold and report |
| Api.RecordStore.SyncTable | src/services/api.js:273-334 | one table: an unreachable table changes nothing and reports failure; otherwise the step creates one record or deletes the linked ones |
| Api.RecordStore.DeleteLinked | src/services/api.js:328-333 | the inner loop removes exactly the rows whose id is one of the linked records' ids |
| Api.Linked | src/services/api.js:304-309 | every row kept links to the entity |
| SyncProperties.VisitedEntries | src/services/api.js:269-271 | the loop skips exactly the "Tombola" alias and "Subvention"; the five visited entries name five different tables and five different categories |
| SyncProperties.StepTouchesOneTable | src/services/api.js:280-334 | a step changes only the table it visits, and only when that table is reachable |
| SyncProperties.AutoRecordLinks | src/services/api.js:319-322 | the skeleton record links to the entity |
| SyncProperties.NoneLinkedAfterDelete | src/services/api.js:325-334 | after the deletes no row links to the entity |
| SyncProperties.StepSynchronises | src/services/api.js:311-334 | after a step, the target table has a linked record and any other table has none |
| SyncProperties.StepOnSynced | src/services/api.js:311-334 | a step on a table already in that state changes nothing |
| SyncProperties.SyncFrame | src/services/api.js:269-338 | a table no visited entry names, or one that cannot be reached, keeps its rows |
| SyncProperties.SyncedStep | src/services/api.js:269-338 | one more turn of the loop keeps every table synchronised so far and synchronises its own |
| SyncProperties.SyncEstablishes | src/services/api.js:269-338 | after the loop every visited, reachable table is synchronised |
| SyncProperties.SyncOnSynced | src/services/api.js:269-338 | on a synchronised store the loop changes nothing |
| SyncProperties.SyncIdempotent | src/services/api.js:311-334 | a second run with the same category changes nothing: nothing is created and nothing deleted |
| SyncProperties.SyncOutcome | src/services/api.js:269-338 | the final rows of a visited, reachable table are those its own step makes from its initial rows |
| SyncProperties.SyncTargetTable | src/services/api.js:311-324 | the target table keeps its rows when a record already links; otherwise exactly one record with `Link_Annonceur` = entityId and the auto title is appended |
| SyncProperties.SyncOtherTable | src/services/api.js:325-334 | every other visited table loses exactly its linked records, keeps the rest in order and ends with none linked |
| SyncProperties.SyncLeavesOtherTables | src/services/api.js:269-271 | tables outside the five visited ones, and unreachable ones, keep their rows |
| SyncProperties.SyncCreations | src/services/api.js:311-324 | the number of records created is at most the number of visited entries named by the new category |
| SyncProperties.SyncCreatesAtMostOne | src/services/api.js:311-324 | one run creates at most one record |
| SyncProperties.SyncToUnvisitedCategory | src/services/api.js:263-273 | for "Subvention", "Tombola", null or an unknown value nothing is created and every reachable visited table ends with no linked record |
| Text.TrimStart | src/pages/History.jsx:25 | the leading white space `\s*` skips: a suffix of the text that starts with no white space, everything dropped being white space |
| Text.Lower | src/pages/BrochureAdmin.jsx:72 | `toLowerCase` keeps the length and lower-cases each character |
| Text.Split | src/pages/SuiviAvancement.jsx:281 | `split(',')` gives at least one piece and no piece holds the separator |
| Text.JoinSplit | src/pages/SuiviAvancement.jsx:281-292 | joining the pieces of a split gives back the text |
| Text.SplitJoin | src/pages/SuiviAvancement.jsx:281-292 | splitting the join of separator-free pieces gives back the pieces |
| Text.NatToString | src/services/api.js:308 | `String(n)` of a whole number is a non-empty run of decimal digits |
| Text.NatToStringValue | src/services/api.js:308 | the digits `String(n)` writes read back as `n`, so the rendering is injective |
| Text.ParseIntPrefix | src/pages/BrochureAdmin.jsx:238 | `parseInt(value, 10)` is a number exactly when, past white space and a sign, at least one digit follows |
| Text.ParseIntOfRendering | src/pages/BrochureAdmin.jsx:238 | `parseInt` of `String(n)` is `n` |
| Text.ParseIntOfIntRendering | src/pages/BilanFinancier.jsx:350 | `parseInt` of a number rendered by `String`, negative ones included, gives the number back |
| Collections.Filter | src/App.jsx:50-55 | `filter` keeps, in order, exactly the elements that pass |
| Collections.FilterFilter | src/App.jsx:47-72 | two filters in a row are one filter by the conjunction |
| Collections.FilterIsSubsequence | src/App.jsx:47-72 | a filter keeps the order of what it keeps |
| Collections.Find | src/pages/BilanFinancier.jsx:51-57 | `find` finds something exactly when some element passes, and then the first such element |
| Collections.MapSeq | src/pages/BilanFinancier.jsx:66-81 | `map` keeps the length and applies the function to each element |
| Sorting.Insert | src/pages/BilanFinancier.jsx:81 | one insertion adds exactly the new element |
| Sorting.SortBy | src/pages/BilanFinancier.jsx:81 | `sort` with a comparator is a permutation of its input |
| Sorting.SortBySorted | src/pages/BilanFinancier.jsx:81 | the result is ordered by the comparator's key |
| Sorting.SortByStable | src/pages/BilanFinancier.jsx:81 | elements with equal keys keep their order, as JavaScript's sort guarantees |
| Sorting.SortByConstant | src/pages/SuiviAvancement.jsx:491-498 | a comparator that always returns 0 leaves the order alone |
| Sorting.SortByTwoKeys | src/pages/SuiviAvancement.jsx:491-498 | with two keys, the sort puts every element of the smaller key, in order, before every element of the larger one |
| Sorting.SortBySum | src/pages/BilanFinancier.jsx:81-83 | sorting keeps the sum of any column |
| Sorting.SortByDistinct | src/pages/Dashboard.jsx:37 | sorting adds no duplicate |
| Sorting.CharCodes | src/pages/BrochureAdmin.jsx:224-225 | strings compare by their character codes, in order |
| Packs.PackList | src/pages/SuiviAvancement.jsx:281 | a truthy pack text splits into comma-free tags that join back to it; a falsy one gives no tag |
| Packs.ToggleFlips | src/pages/SuiviAvancement.jsx:282-289 | a click flips the clicked tag's membership |
| Packs.ToggleKeepsOthers | src/pages/SuiviAvancement.jsx:282-289 | a click keeps every other tag, and keeps the other tags in their order |
| Packs.ToggleAbsentTwice | src/pages/SuiviAvancement.jsx:280-292 | clicking an absent tag twice writes back the original pack text |
| Forms.FirstTruthy | src/components/FactureModal.jsx:40-51 | a fallback chain is the first truthy value, or `''` when none is |
| Forms.FallbackOfTwo | src/components/FactureModal.jsx:41 | `a or b or ''` is the first truthy of the two |
| Forms.FallbackToLiteral | src/components/FactureModal.jsx:25 | a chain ending in a truthy literal is the first truthy value |
| Forms.FallbackOfOne | src/components/FactureModal.jsx:43 | `a or ''` is `a` when truthy, else `''` |
| Forms.Change | src/components/FactureModal.jsx:57-60 | `handleChange` (and the sidebar's `handleFilterChange`, the same spread copy) sets the named field to the input's text and changes no other field |
| Forms.Missing | src/components/FactureModal.jsx:69 | the missing list holds exactly the required fields that are falsy |
| Forms.MissingInOrder | src/components/FactureModal.jsx:69 | the missing fields come in the required-list order |
| Forms.Generate | src/components/FactureModal.jsx:66-76 | generation runs, with the form unchanged, exactly when every required field is truthy; otherwise it is blocked with the non-empty missing list |
| Forms.UnrequiredFieldIrrelevant | src/components/FactureModal.jsx:66-76 | editing a field outside the required list never changes whether generation runs |
| Completion.RelevantEntities | src/pages/SuiviAvancement.jsx:24-68 | the tab shows exactly the contacts that pass the tab's relevance test, and nothing from outside the contact list |
| Completion.RelevantInOrder | src/pages/SuiviAvancement.jsx:24 | the tab keeps the contacts in the order of the contact list |
| Completion.ActiveRules | src/pages/SuiviAvancement.jsx:25-52 | a positive amount always makes a contact active; on the Tombola tab only Refusé and Sans réponse are turned away; elsewhere a contact is active exactly when its amount is positive or its status is signed |
| Completion.StandTabShowsLinked | src/pages/SuiviAvancement.jsx:54-65 | on the Stand tab, an active contact of any type is shown once a loaded Stand row links to it, by bare id or by an `{ Id }` object |
| Completion.OtherTabsByType | src/pages/SuiviAvancement.jsx:67 | off the Stand tab, a contact is shown only on its own type's tab, and it is shown there whenever it is active |
| Completion.TrackingRecord | src/pages/SuiviAvancement.jsx:84-93 | a tracking row is found exactly when some loaded row designates the contact, and the row found does designate it |
| Completion.TrackingAgreesWithSync | src/pages/SuiviAvancement.jsx:84-93 | the page finds a tracking row exactly when synchronisation counts the contact as linked in that table |
| Completion.LookupAcceptsEveryLinkForm | src/pages/SuiviAvancement.jsx:87-91 | a link stored as a number, as digit text or as an `{ Id }` object of either is found, and it is the row found when no earlier row links to the contact |
| Completion.TombolaRule | src/pages/SuiviAvancement.jsx:386-388 | Tombola: complete exactly when lot and logo are both `true`; the list asks for the lot, then the logo, and never for a payment; a complete row lists nothing |
| Completion.PresenceRule | src/pages/SuiviAvancement.jsx:393-396 | a count of 0, numeric or as text, is filled in; undefined, null and blank text are not |
| Completion.PartnerStandRule | src/pages/SuiviAvancement.jsx:390-401 | a partner's stand is complete exactly when tables, chairs and an Oui/Non electricity answer are filled in; its list is the three stand questions, empty exactly when complete |
| Completion.EncartRule | src/pages/SuiviAvancement.jsx:403-405 | Encart Pub: complete exactly when proof and visual are both `true`; the list asks for payment, visual and proof in that order |
| Completion.EncartCompleteYetPaymentListed | src/pages/SuiviAvancement.jsx:403-405 | an Encart Pub row with proof and visual but no payment type is complete and still lists "Paiement manquant" |
| Completion.PartnerRule | src/pages/SuiviAvancement.jsx:407-419 | Partenaires: each chosen tag whose flag is not `true` makes the row incomplete; complete implies money received; all flags plus money make it complete; without packs completeness is the money test |
| Completion.LogoAtMostOnce | src/pages/SuiviAvancement.jsx:436-474 | whatever tags are chosen, "Logo manquant" is listed at most once, on any tab |
| Completion.MecenatRule | src/pages/SuiviAvancement.jsx:421-430 | Mécénat: complete exactly when the Cerfa was sent |
| Completion.MecenatIncompleteYetNothingListed | src/pages/SuiviAvancement.jsx:421-472 | a Mécénat row with a payment type and no Cerfa is incomplete, yet nothing is listed as missing |
| Completion.DirectRule | src/pages/SuiviAvancement.jsx:421-433 | other tabs: complete exactly when a payment type or a payment proof is recorded; the list is the payment label alone |
| Completion.CompleteValue | src/pages/SuiviAvancement.jsx:385-434 | the value `isComplete` returns is truthy exactly when the tab's rule holds; it is a boolean on every tab but Partenaires, where it can be the proof field's own value |
| Completion.PartnerWithoutRecordUndefined | src/pages/SuiviAvancement.jsx:407-418 | a partner with no tracking record gets `undefined` from `ok && moneyOK` |
| Completion.ProcessEntities | src/pages/SuiviAvancement.jsx:476-484 | one row per shown contact, in order, each holding its tracking row, the value `isComplete` returned (truthy exactly when the rule holds) and its missing list; every value is a boolean off the Partenaires tab |
| Completion.AllCompareByKey | src/pages/SuiviAvancement.jsx:492-496 | on boolean values the "all" comparator is antisymmetric and orders exactly as the incomplete-first key |
| Completion.AllCompareInconsistent | src/pages/SuiviAvancement.jsx:492-496 | `false` against `undefined` compares "first" both ways, so the comparator is not consistent on the Partenaires tab |
| Completion.FilteredAll | src/pages/SuiviAvancement.jsx:486-498 | when every `complete` is a boolean, "all" shows every row, the incomplete ones first, each group in tab order |
| Completion.FilteredTodoDone | src/pages/SuiviAvancement.jsx:486-490 | "todo" shows exactly the incomplete rows and "done" exactly the complete ones, in tab order |
| Completion.FilteredOtherMode | src/pages/SuiviAvancement.jsx:486-498 | any other mode shows every row as it is |
| Completion.StatsMeaning | src/pages/SuiviAvancement.jsx:500-509 | the counts are the sizes of the todo and done views and add up to the total; the promised revenue sums the amounts of every row except partners' stands on the Stand tab |
| Suivi.StandAndPartnerTables | src/services/api.js:88-95 | the Stand and Partenaires tabs resolve to their two table ids, which differ from each other and from the main table |
| Suivi.EntryIsNotMain | src/services/api.js:88-98 | no entry of the tracking table list names the main contact table |
| Suivi.TrackingTableIsNotMain | src/services/api.js:88-98 | no tracking category resolves to the main contact table |
| Suivi.PatchLocal | src/pages/SuiviAvancement.jsx:240 | the optimistic patch keeps the length, merges the patch into the rows with the given id and leaves every other row alone |
| Suivi.EntityWithId | src/pages/SuiviAvancement.jsx:245 | an entity is found exactly when one with that id is listed, and the one found has that id |
| Suivi.RowWithId | src/pages/SuiviAvancement.jsx:296 | a cached row is found exactly when one with that id is cached, and the one found has that id |
| Suivi.NewTrackingRecord | src/pages/SuiviAvancement.jsx:245-249 | a check box on an entity without a row creates a row holding exactly the title, after the entity or "Suivi", and the clicked field |
| Suivi.StandRecord | src/pages/SuiviAvancement.jsx:306-308 | the automatic Stand row carries the new id, the link to the partner and the title `Stand - ` followed by the partner's name |
| Suivi.InitRecord | src/pages/SuiviAvancement.jsx:572-574 | the initialisation row links to the entity, is titled after it or "Suivi", and takes the next id |
| Suivi.InitCount | src/pages/SuiviAvancement.jsx:567-580 | the initialisation creates exactly one row per listed entity that had no tracking row |
| Suivi.InitRecordsLink | src/pages/SuiviAvancement.jsx:568-575 | every listed entity without a tracking row gets a created row whose link is that entity's id |
| Suivi.InitCoversAll | src/pages/SuiviAvancement.jsx:563-583 | after the initialisation every listed entity has a tracking row |
| Suivi.InitIdempotent | src/pages/SuiviAvancement.jsx:563-583 | a second initialisation after the first creates nothing |
| Suivi.CreatedRecordIsFound | src/pages/SuiviAvancement.jsx:252-259 | a row appended, with its link, for an entity that had none is the row the page then finds for it |
| Suivi.PatchKeepsLookup | src/pages/SuiviAvancement.jsx:238-241 | a patch that leaves the link alone keeps every entity's tracking row found, on the same row, patched when it is the patched one |
| Suivi.RecetteEdit | src/pages/SuiviAvancement.jsx:269-270 | an amount edit gives the edited entity the parsed amount, or 0, and every other entity keeps its own, with ids unchanged |
| Suivi.AppendRows | src/pages/SuiviAvancement.jsx:568-580 | the table after the initialisation is the old table followed by the created rows |
| Suivi.FormRow | src/pages/SuiviAvancement.jsx:134-140 | a row created by a form save holds every form field, the link to the entity and the new id |
| Suivi.SavedFormIsFound | src/pages/SuiviAvancement.jsx:132-145 | a form saved for an entity with no row gives it a row that the page then finds, holding the form's fields and the cache-only ones |
| Suivi.SuiviPage.constructor | src/pages/SuiviAvancement.jsx:10-14 | the page opens on the first tab, with an empty cache, the "all" filter and the given contact list |
| Suivi.SuiviPage.Fetched | src/services/api.js:106-125 | a tab's fetch returns the rows of its table when the table answers, and no row otherwise |
| Suivi.SuiviPage.SelectTab | src/pages/SuiviAvancement.jsx:74-82 | a tab click makes it active and caches its fetched rows, and changes nothing else |
| Suivi.SuiviPage.SelectFilter | src/pages/SuiviAvancement.jsx:600-620 | a counter click sets the filter mode and changes nothing else |
| Suivi.SuiviPage.HandleUpdate | src/pages/SuiviAvancement.jsx:235-265 | with a row id, the cache is patched at once and the store's row is patched; without one, a row titled after the entity is created, linked and appended to the cache once the store has answered; a failed request changes nothing more; no table but the tab's own is written; the whole new state (tables, id counter, cache) is the optimistic write `Suivi.WriteOutcome` of the old one |
| Suivi.SuiviPage.HandleRecetteUpdate | src/pages/SuiviAvancement.jsx:267-277 | the contact list takes the parsed amount at once and the main table is patched with it unless unreachable |
| Suivi.SuiviPage.HandlePackChange | src/pages/SuiviAvancement.jsx:280-381 | the whole new state (tables, id counter, cache) is `Suivi.PackClick` of the old one, for every tracking id, tag and tab: the toggled pack text is written as `handleUpdate` writes it, creating the partner's row when it has none, then the stand pack runs the Stand step on the link cached before the click; besides, the cache takes the pack text for a row id and another pack, and on Partenaires ticking the stand pack without a stand adds one linked, titled Stand row, unticking it with a stand deletes that row, and any other click leaves the Stand table as it was |
| Suivi.SuiviPage.WritePacks | src/pages/SuiviAvancement.jsx:292 | the pack write is `Suivi.WriteOutcome` with the pack text, on every path (a patch for a row id, a created and cached row otherwise); on Partenaires it patches the partner's row and never touches the Stand table |
| Suivi.SuiviPage.StandSideEffect | src/pages/SuiviAvancement.jsx:295-379 | the Stand table gains one linked row, or loses the partner's stand, or is left alone, as the pack click and the existing link decide; the partner's cached and stored rows take the new link, or stay as they were when nothing is done or a write fails; the counter moves only for a created stand; the whole new state is `Suivi.StandOutcome` of the old one |
| Suivi.SuiviPage.StandBackLink | src/pages/SuiviAvancement.jsx:295-379 | a tick without a stand runs the creation sequence, an untick with a stand runs the removal sequence, any other click changes nothing, and the second creation block (:358-379) cannot be reached; the whole new state is `Suivi.StandOutcome` of the old one |
| Suivi.SuiviPage.CreateStand | src/pages/SuiviAvancement.jsx:302-325 | creation: a Stand row is added and linked, the partner row takes the stand id, then the cache does; the first failing step ends the sequence |
| Suivi.SuiviPage.RemoveStand | src/pages/SuiviAvancement.jsx:337-356 | removal: the stand row is deleted, the partner's link is cleared, then the cache's; the first failing step ends the sequence |
| Suivi.SuiviPage.AddStandRow | src/pages/SuiviAvancement.jsx:306-308 | the Stand table gains exactly the linked, titled row with the next id, or the call fails and nothing changes |
| Suivi.SuiviPage.DeleteStandRow | src/pages/SuiviAvancement.jsx:344 | the Stand table loses the rows with that id, or the call fails and nothing changes |
| Suivi.SuiviPage.LinkPartnerStand | src/pages/SuiviAvancement.jsx:313-318 | the partner row and its cached copy take the stand id exactly when the Partenaires table answers; otherwise nothing changes |
| Suivi.SuiviPage.HandleInvoiceSave | src/pages/SuiviAvancement.jsx:101-158 | the invoice form's tracking fields go to the row, patched or created, and its entity fields to the contact; the description is kept only in the cache |
| Suivi.SuiviPage.HandleMecenatSave | src/pages/SuiviAvancement.jsx:172-224 | the sponsorship form's tracking fields go to the row, patched or created, and its entity fields, legal form included, to the contact |
| Suivi.SuiviPage.SaveForm | src/pages/SuiviAvancement.jsx:101-158 | the tracking side and then the entity side are saved, and the result says whether every step succeeded |
| Suivi.SuiviPage.SaveTracking | src/pages/SuiviAvancement.jsx:123-145 | the tracking side succeeds exactly when it is savable; it then leaves the cache and the store as the patched or created row requires, and changes nothing otherwise |
| Suivi.SuiviPage.PatchTracking | src/pages/SuiviAvancement.jsx:124-131 | an existing row is patched in the store with the form fields and in the cache with those and the cache-only ones, exactly when the table answers |
| Suivi.SuiviPage.CreateTracking | src/pages/SuiviAvancement.jsx:132-145 | a missing row is created with the next id and linked, then appended to the cache with the link and the cache-only fields, exactly when the table answers |
| Suivi.SuiviPage.SaveEntity | src/pages/SuiviAvancement.jsx:147-150 | the contact is patched only when it has an id; the save fails only when it has one and the main table is unreachable |
| Suivi.SuiviPage.InitMissingRecords | src/pages/SuiviAvancement.jsx:563-583 | the table gains, in order, one linked row per listed entity without a tracking row, and the count is their number |
| Suivi.SuiviPage.CreateMissing | src/pages/SuiviAvancement.jsx:567-580 | the loop appends the rows of the specification, in order, and counts them; an unreachable table gets nothing |
| Suivi.SuiviPage.CreateOne | src/pages/SuiviAvancement.jsx:569-578 | one step appends the entity's initialisation row with the next id when the table answers, and changes nothing otherwise |
| Suivi.PackClickSteps | src/pages/SuiviAvancement.jsx:280-381 | a pack click is its pack write followed, for the stand pack only, by the Stand step on the link cached before the click |
| Suivi.PackClickCounter | src/pages/SuiviAvancement.jsx:243-325 | the id counter moves once when the partner had no row and its tab's table answers (the row `handleUpdate` creates), and once more when the stand pack is ticked with no stand linked and the Stand table answers; so a stand click for a partner without a row moves it by 2 |
| Suivi.PackClickCreatesRow | src/pages/SuiviAvancement.jsx:243-259 | without a row id, on a tab whose table answers, the pack write appends one row to the table and one to the cache, linked to the entity, holding the new pack text and the next id |
| Suivi.PackClickKeepsPackText | src/pages/SuiviAvancement.jsx:280-381 | with a row id, every cached row with that id holds the new pack text after the click, whatever the Stand step does |
| Suivi.PackClickOtherTag | src/pages/SuiviAvancement.jsx:292-295 | with a row id and any pack but the stand, the cache is patched with the pack text, the counter stays, on Partenaires the Stand table keeps its rows and the partner's stored row is patched |
| Suivi.PackClickStandLink | src/pages/SuiviAvancement.jsx:292-356 | with a row id and the stand pack, the cached row takes the pack text and then the new stand's id or `null` once the Stand and the Partenaires writes both go through; the counter moves only for a created stand; on Partenaires the stored row is patched in the same two steps |
| Suivi.WriteWithRow | src/pages/SuiviAvancement.jsx:237-242 | with a row id, the write patches the cached rows with that id, keeps the counter and, on Partenaires, patches the stored row |
| Suivi.StandOutcomeEffect | src/pages/SuiviAvancement.jsx:298-356 | the Stand step acts only when the tick and the existing link agree and the Stand table answers; it then moves the counter for a created stand, and once Partenaires answers the partner's cached and stored rows take the new link; otherwise the cache and the Partenaires rows stay |
| Suivi.StandOutcomeStands | src/pages/SuiviAvancement.jsx:298-356 | the Stand step adds the partner's stand row with the next id, or deletes the linked stand, or leaves the Stand table alone |
| Suivi.StandOutcomeCache | src/pages/SuiviAvancement.jsx:313-352 | the Stand step leaves the cache alone or patches the partner's `Stand` link with the new id or `null` |
| BrochureLoad.KeyedByMeans | src/pages/BrochureAdmin.jsx:39-51 | a key filled by a `forEach` is present exactly when some element writes it, and holds what the last element writing it wrote |
| BrochureLoad.BuildIndex | src/pages/BrochureAdmin.jsx:39-51 | the loop fills the index of the specification |
| BrochureLoad.IndexedRecords | src/pages/BrochureAdmin.jsx:39-51 | an entity id is indexed exactly when some record's expanded link names it, and the record kept is the last such one |
| BrochureLoad.IndexedBackCover | src/pages/BrochureAdmin.jsx:39-44 | the partner record indexed under an id buys the back cover exactly when the last partner record linked to that id does |
| BrochureLoad.InBrochureFromRecords | src/pages/BrochureAdmin.jsx:53-81 | an entity is kept exactly when it is signed and either some insert record links to it or the last partner record linked to it buys the back cover |
| BrochureLoad.DeriveMeans | src/pages/BrochureAdmin.jsx:91-132 | the visual flag comes from either record; a partner record sets the size to 1/2 and the tracking pair, the insert record otherwise; the page is the partner's when filled in, else the insert's, else none |
| BrochureLoad.SizePriority | src/pages/BrochureAdmin.jsx:103-109 | the first marker found decides: 1/8, then 1/4, then 1/2, then the whole-page words; no marker gives no size |
| BrochureLoad.AnnotateMeans | src/pages/BrochureAdmin.jsx:130-132 | the three annotations are set and every other field of the entity is its own |
| BrochureLoad.SyncMeans | src/pages/BrochureAdmin.jsx:134-158 | the entry takes the database page as text and the derived size when there are; every other layout field is kept; no update is made exactly when nothing would change |
| BrochureLoad.SyncIdempotent | src/pages/BrochureAdmin.jsx:134-158 | a second sync with the same database facts asks for no update |
| BrochureLoad.AnnotateAndCollect | src/pages/BrochureAdmin.jsx:87-159 | the loop annotates every kept entity, in order, and collects the rewritten entries of the specification |
| BrochureLoad.MergeUpdates | src/pages/BrochureAdmin.jsx:161-169 | the new layout data is the old one with every collected entry written over it |
| BrochureLoad.LoadData | src/pages/BrochureAdmin.jsx:27-171 | the page lists the kept entities annotated, in order, and the layout data becomes the synced data |
| BrochureLoad.UpdatesAgree | src/pages/BrochureAdmin.jsx:153-158 | a kept entity's rewritten entry is collected, and none is collected when it needs none |
| BrochureLoad.SyncedEntry | src/pages/BrochureAdmin.jsx:161-169 | after the load every kept entity's entry is its synced entry, whatever other entities share its id |
| BrochureLoad.SyncedOthers | src/pages/BrochureAdmin.jsx:161-169 | entries of ids no kept entity has are left as they were |
| BrochureLoad.LoadedEntry | src/pages/BrochureAdmin.jsx:27-171 | after the load a kept entity's entry holds the database page and size when there are, and keeps its other layout fields |
| BrochureView.ScoreBuckets | src/pages/BrochureAdmin.jsx:207-211 | the score is 0 exactly for the ready entities, 1 exactly for those missing a visual and 2 exactly for the placed ones |
| BrochureView.OrderedBuckets | src/pages/BrochureAdmin.jsx:190-228 | the sorted list is a permutation of the list, scores ascend, and within a score the lower-cased titles ascend by character code |
| BrochureView.MetricsAddUp | src/pages/BrochureAdmin.jsx:324-342 | the placed, ready and missing counts add up to the total |
| BrochureView.SizeOf | src/pages/BrochureAdmin.jsx:354 | the size is always truthy and a quarter page when none is stored |
| BrochureView.StatsCount | src/pages/BrochureAdmin.jsx:352-361 | a size's counter holds the number of entities of that size and the number of those that are placed |
| BrochureView.ComputeStats | src/pages/BrochureAdmin.jsx:345-361 | the loop fills exactly the four size counters, each with the statistics of the whole list |
| BrochureView.PagesEquivalent | src/pages/BrochureAdmin.jsx:363-368 | the weighted sum of the size counts is the space of every listed entity added up, unknown sizes taking none |
| BrochureView.PagesOfStats | src/pages/BrochureAdmin.jsx:345-368 | the page equivalent computed from the filled counters is the space of every listed entity added up |
| BrochureView.PageSaveTarget | src/pages/BrochureAdmin.jsx:230-250 | nothing is sent without a tracking record; a request only sets `Page_Brochure` on the entity's own tracking record |
| BrochureView.PageSaveValue | src/pages/BrochureAdmin.jsx:238-250 | an empty value clears the page, a value that does not start with a number is not saved, anything else saves the number it starts with |
| BrochureView.PageRoundTrip | src/pages/BrochureAdmin.jsx:145-150 | a page typed in decimal is saved as that number, and the next load writes back the very text that was typed |
| BrochureView.UntrackedNeverSaved | src/pages/BrochureAdmin.jsx:93-95 | an entity with neither an insert nor a partner record never has a page saved |
| BrochureView.PartnerReceivesPage | src/pages/BrochureAdmin.jsx:116-127 | an entity with a partner record saves its page to that partner record |
| BrochureView.DataChange | src/pages/BrochureAdmin.jsx:258-266 | the edited entry takes the value in the edited field and keeps its other fields; every other entry is unchanged |
| BrochureView.DashRuns | src/pages/BrochureAdmin.jsx:274 | white-space runs become dashes, so no white space is left |
| BrochureView.Slug | src/pages/BrochureAdmin.jsx:273-275 | a slug holds only lower-case letters, digits and dashes |
| BrochureView.SlugOfSafe | src/pages/BrochureAdmin.jsx:273-275 | a string already made of slug characters is its own slug |
| BrochureView.SlugIdempotent | src/pages/BrochureAdmin.jsx:273-275 | slugging twice is slugging once |
| BrochureView.Filename | src/pages/BrochureAdmin.jsx:268-276 | a custom name wins; otherwise the name is a slug, that of "sans-titre" when the entity has no title |
| BrochureView.SnippetShowsImage | src/pages/BrochureAdmin.jsx:288-319 | each of the four sizes gives a snippet that shows the image from that size's folder |
| BrochureView.SnippetUnknown | src/pages/BrochureAdmin.jsx:288-321 | the unknown-format comment comes exactly from a size that is none of the four |
| BrochureView.CodeShowsImage | src/pages/BrochureAdmin.jsx:278-322 | the snippet shows the entity's file from its size's folder, or is the unknown-format comment exactly when the size is none of the four |
| BrochureView.CodeDefaults | src/pages/BrochureAdmin.jsx:280-286 | with no layout data the snippet is the quarter-page template, image on the left, with a ".jpg" file |
| Bilan.TrackingInfo | src/pages/BilanFinancier.jsx:49-58 | a tracking row is found exactly when some loaded row of that category designates the entity |
| Bilan.Section1Members | src/pages/BilanFinancier.jsx:61-81 | the first section lists exactly the signed advertisers, partners, sponsors and stand holders, each once, with its parsed amount |
| Bilan.RefusedNeverCounts | src/pages/BilanFinancier.jsx:62 | a refused entity is in no section |
| Bilan.Section1Ranked | src/pages/BilanFinancier.jsx:81 | the first section is ranked by amount, highest first |
| Bilan.Section1Total | src/pages/BilanFinancier.jsx:83 | the first section's total is the sum of its entities' amounts |
| Bilan.DisplayTypes | src/pages/BilanFinancier.jsx:67-74 | an insert shows its format in brackets, a partner its pack, when the tracking row gives one; any other line shows the bare type |
| Bilan.PlainLabel | src/pages/BilanFinancier.jsx:68-74 | sponsors and stand holders are labelled by their type alone, whatever the tracking row holds |
| Bilan.Section2Members | src/pages/BilanFinancier.jsx:85-92 | the second section lists the signed grants, in order, and its total is their amounts |
| Bilan.PrizeDefaults | src/pages/BilanFinancier.jsx:97-103 | a prize without a tracking row reads "N/A", once, at the entity's amount |
| Bilan.PrizeFromTracking | src/pages/BilanFinancier.jsx:97-101 | a prize shows the tracking row's description and count when they are filled in |
| Bilan.Section3Members | src/pages/BilanFinancier.jsx:94-104 | the third section lists the signed raffle entities, in order |
| Bilan.SectionsDisjoint | src/pages/BilanFinancier.jsx:61-95 | no entity is in two sections |
| Bilan.GrandTotalSums | src/pages/BilanFinancier.jsx:368 | the grand total is the amounts of the first two sections' entities |
| Bilan.GrandTotalExcludesRaffle | src/pages/BilanFinancier.jsx:368 | a raffle entity adds nothing to the grand total |
| Bilan.SumCounts | src/pages/BilanFinancier.jsx:350 | the `reduce` of the lot counts is a number exactly when every count is one; one NaN makes the sum NaN |
| Bilan.TotalLots | src/pages/BilanFinancier.jsx:350 | "Nombre Total Lots" is a number exactly when `parseInt` reads a number from every prize's count, 0 standing in for a falsy one |
| Bilan.LotCountOfNumber | src/pages/BilanFinancier.jsx:350 | a numeric lot count is read back as itself |
| Bilan.SumCountsOfNumbers | src/pages/BilanFinancier.jsx:350 | counts that are all numbers add up to the sum of the prizes' quantities |
| Bilan.TotalLotsOfNumbers | src/pages/BilanFinancier.jsx:350 | when every prize's count is a number, the lot total is the sum of the counts |
| Bilan.TotalLotsWithoutRows | src/pages/BilanFinancier.jsx:101-350 | without raffle tracking rows every prize counts as one lot, so the lot total is the number of signed raffle entities |
| Dashboard.SignedDeals | src/pages/Dashboard.jsx:13-16 | the signed deals are at most all the entities |
| Dashboard.ConversionRate | src/pages/Dashboard.jsx:17 | the rate is the signed share of all entities as a percentage, between 0 and 100, and 0 for an empty list |
| Dashboard.GoalProgress | src/pages/Dashboard.jsx:40 | the progress is the revenue as a percentage of the 8000 goal, and reaches 100 exactly when the goal is met |
| Dashboard.IndexOf | src/pages/Dashboard.jsx:23 | the row found is stored under the key, and no row is found only when none is |
| Dashboard.BuildLeaderboard | src/pages/Dashboard.jsx:19-37 | the loop and the ranking give the leaderboard of the specification |
| Dashboard.CountedMeans | src/pages/Dashboard.jsx:21-22 | an entity is left out exactly when it has no referent or its referent is the literal "Non attribué" |
| Dashboard.TallyShape | src/pages/Dashboard.jsx:19-35 | the accumulated rows have distinct referents and cover every counted entity |
| Dashboard.TallyRowsDescribe | src/pages/Dashboard.jsx:23-34 | every accumulated row holds exactly its entities' revenue, count, signed and refused deals |
| Dashboard.TallySums | src/pages/Dashboard.jsx:19-35 | the rows' counts, revenues and signed deals add up to those of the counted entities |
| Dashboard.WholeList | src/pages/Dashboard.jsx:12-16 | the counted and uncounted entities make up the whole revenue and the whole signed deals |
| Dashboard.LeaderboardRows | src/pages/Dashboard.jsx:37 | every leaderboard row describes its referent's entities, and no referent has two rows |
| Dashboard.LeaderboardReferents | src/pages/Dashboard.jsx:19-37 | a referent is on the leaderboard exactly when some counted entity has it |
| Dashboard.RowHasEntity | src/pages/Dashboard.jsx:23-25 | every leaderboard row comes from a counted entity |
| Dashboard.EntityHasRow | src/pages/Dashboard.jsx:23-25 | every counted entity has a leaderboard row |
| Dashboard.LeaderboardRanked | src/pages/Dashboard.jsx:37 | the leaderboard is ranked by revenue, highest first |
| Dashboard.LeaderboardTotals | src/pages/Dashboard.jsx:11-37 | the leaderboard's figures, with those of the uncounted entities, add up to the page's totals |
| Dashboard.Progress | src/pages/Dashboard.jsx:134 | a referent's progress is capped at 100, reached exactly when the goal is met, and is the revenue as a percentage of the goal below it |
| Dashboard.RefusedShare | src/pages/Dashboard.jsx:133-135 | the refused share is non-negative, divides by 1 for an empty row, and is at most 100 when the refusals are among the row's entities |
| Dashboard.LeaderboardShares | src/pages/Dashboard.jsx:133-135 | on the leaderboard the refused share is a true percentage of the row's entities |
| Dashboard.LeaderboardSane | src/pages/Dashboard.jsx:23-34 | every leaderboard row has an entity, and its signed and refused deals are among them |
| History.CloseAt | src/pages/History.jsx:20 | the lazy match closes the timestamp on a `]` past its first character |
| History.HeaderShaped | src/pages/History.jsx:20 | a header line is the timestamp in brackets, white space, then the text |
| History.HeaderOfPlainLine | src/pages/History.jsx:20 | a line without terminators is a header exactly when it opens with `[` and has a `]` after at least one more character |
| History.PlainStampUnbroken | src/pages/History.jsx:20 | on such a line the timestamp holds no `]` past its first character |
| History.EntriesFollowHeaders | src/pages/History.jsx:16-37 | one entry per header line, in order, each with that header's timestamp and the entity's title and id |
| History.OrphanLinesDropped | src/pages/History.jsx:17-33 | lines before the first header are dropped |
| History.HeaderThenLines | src/pages/History.jsx:20-33 | a header and the non-header lines after it make one entry: the header's timestamp and text, then each non-blank line after a line break; blank lines are dropped |
| History.NoCommentsNoEntries | src/pages/History.jsx:15 | an entity without comments contributes no entry |
| History.ScanEntity | src/pages/History.jsx:15-38 | the loop over one entity's lines gives the entries of the specification |
| History.CollectLogs | src/pages/History.jsx:12-39 | the loop over the entities gives their entries, entity after entity |
| History.ParseDate | src/pages/History.jsx:56-65 | a date is always read as five numbers |
| History.ParseWellFormed | src/pages/History.jsx:56-61 | a well-formed `DD/MM/YYYY HH:mm` timestamp is read as its own fields |
| History.NoTimeIsEpoch | src/pages/History.jsx:58-63 | a timestamp without a time part falls back to the epoch |
| History.NegateReverses | src/pages/History.jsx:43-47 | negating both dates reverses their order |
| History.LoadHistory | src/pages/History.jsx:10-50 | the history is every entry sorted newest first |
| History.HistoryOrder | src/pages/History.jsx:41-47 | the history holds every entry once and no entry is newer than one shown before it |
| AppFilter.FilteredIsConjunction | src/App.jsx:47-73 | the chain of filters keeps exactly the entities that pass every active filter, in their original order |
| AppFilter.NoFilterShowsAll | src/App.jsx:47-73 | with every filter empty the whole list is shown |
| AppFilter.ShownEntity | src/App.jsx:47-73 | a shown entity is listed and has the chosen status, type and referent, no referent for "Non attribué", and matches the search |
| Sidebar.Unique | src/components/Sidebar.jsx:5-9 | the options are values of the input, each input value appears, no two options are strictly equal, and they keep the input's order |
| Sidebar.Present | src/components/Sidebar.jsx:5-9 | only truthy values remain |
| Sidebar.Options | src/components/Sidebar.jsx:5-9 | an option list holds truthy, pairwise distinct values |
| Sidebar.OptionsCover | src/components/Sidebar.jsx:5-9 | every option is some entity's field, and every entity's truthy field is an option |
| Sidebar.FirstAppearanceOrder | src/components/Sidebar.jsx:5-9 | values come out in the order of their first appearance |
| Sidebar.UniqueGrows | src/components/Sidebar.jsx:5-9 | extending the input only ever appends to the option list |
| Sidebar.NewValueAppended | src/components/Sidebar.jsx:5-9 | a value seen for the first time goes at the end, behind every earlier value |
| StatusColor.ColorsDistinct | src/components/ReferentEntitiesList.jsx:7-22 | the five colours are distinct |
| StatusColor.GreenIffSigned | src/components/ReferentEntitiesList.jsx:14-16 | green marks exactly the signed deals |
| StatusColor.ColorTable | src/components/ReferentEntitiesList.jsx:7-22 | each colour stands for exactly its statuses, and every other status is white |
| Facture.DescriptionRule | src/components/FactureModal.jsx:16-38 | an existing description is kept; otherwise it is the event header followed by the type's line; either way it is filled in |
| Facture.SpecificLines | src/components/FactureModal.jsx:23-35 | the type's line for inserts, partners, stands and any other type, each with its own fallbacks |
| Facture.FieldFallbacks | src/components/FactureModal.jsx:41-43 | name and address take the tracking row's invoice value first and the entity's as a fallback; the SIRET comes from the entity |
| Facture.ContactFallbacks | src/components/FactureModal.jsx:44-49 | e-mail, amount and payment date take their sources in order |
| Facture.HandleGenerate | src/components/FactureModal.jsx:66-76 | generation runs, with the form unchanged, exactly when the five required fields are truthy; otherwise it reports the missing ones |
| Facture.SiretNotRequired | src/components/FactureModal.jsx:68 | editing the SIRET never changes whether an invoice can be generated, nor what is reported missing |
| Facture.OpenedFormMissing | src/components/FactureModal.jsx:14-76 | a freshly opened form is never blocked by its description, and lists its missing fields in the required order |
| Mecenat.EmptyAndIso | src/components/MecenatModal.jsx:16-18 | the empty text gives the empty string and an ISO date comes back unchanged |
| Mecenat.SlashDate | src/components/MecenatModal.jsx:19-23 | three parts around two slashes are copied, unpadded and unchecked, as year-month-day |
| Mecenat.OtherInputs | src/components/MecenatModal.jsx:16-24 | any other non-empty text gives the empty string |
| Mecenat.DigitDate | src/components/MecenatModal.jsx:16-24 | a digit-only `DD/MM/YYYY` date becomes an ISO date, which a second conversion leaves unchanged |
| Mecenat.FieldSources | src/components/MecenatModal.jsx:30-36 | the legal form comes from the entity's `juridique`, the payment type only from the tracking row, the name prefers the invoice name |
| Mecenat.InvoiceValuesReused | src/components/MecenatModal.jsx:31-34 | address, e-mail and amount take the same sources as the invoice form |
| Mecenat.StoredDateConverted | src/components/MecenatModal.jsx:37 | a stored `DD/MM/YYYY` payment date opens as the matching ISO date |
| Mecenat.HandleGenerate | src/components/MecenatModal.jsx:49-59 | generation runs, with the form unchanged, exactly when the four required fields are truthy; otherwise it reports the missing ones |
| Mecenat.OptionalFields | src/components/MecenatModal.jsx:51 | neither the SIRET nor the legal form is required |

## Left out

- HTTP and configuration: the axios calls, the tokens and environment variables, the link endpoints and both webhooks of `src/services/api.js`. The store is the abstract class `Api.RecordStore`; a failing request is a table in its `unreachable` set.
- `createAndLinkRecord` is imported by the follow-up page but is not defined in `src/services/api.js`; it is modelled as a create whose `Link_Annonceur` is the entity id.
- Deleting a row whose id is absent succeeds and changes nothing: the hosted store's own behaviour is not part of this model.
- React rendering: JSX, styling, routing, `useEffect` scheduling, `alert`, the clipboard and `window.location.reload`. The modal effects are modelled as functions of the entity and tracking record they read, for an open modal with an entity.
- Browser storage: the brochure layout data in `localStorage` and the `sessionStorage` login flag are I/O. The layout data is a parameter of the brochure functions, and `loadData` returns the updates it would store.
- `console.log` and `console.error` calls are left out; a caught error leaves the state as the model describes.
- `src/components/Map.jsx` (Leaflet rendering and coordinate parsing), `src/components/Login.jsx` (a comparison against an environment secret) and `src/pages/EntityDetails.jsx` (display only) are not part of this model.
- Concurrency: the `Promise.all` loads are sequential calls here. The un-awaited `handleUpdate` inside `handlePackChange` (src/pages/SuiviAvancement.jsx:292) is taken to finish before the "Stand 3x3m" step, so no interleaving is modelled.
- Floating point: numbers are integers. `parseFloat(x) || 0` is `JsValues.ParseAmount`, which reads the integer prefix of a string (so `"12.5"` reads as 12). `Number(...)` on date pieces accepts digit strings only. `parseInt` of a page number reads its digit prefix, without the precision loss of very large numbers.
- Number formatting: `toLocaleString` and `toFixed` are display only. The dashboard percentages are exact reals rather than doubles.
- JS `Date`: `new Date(...)` is the tuple year, month, day, hour, minute. Overflow normalisation (month 13, minute 75) is not modelled. An invalid date (NaN) is taken as the epoch tuple, so the comparator sees a number, not NaN. The time zone of `new Date(0)` is ignored.
- Strings: `toLowerCase` maps the ASCII and Latin-1 capitals that `Text.LowerChar` knows and leaves every other character alone. There is no Unicode case folding or normalisation. JavaScript compares strings by UTF-16 code units, and the model compares Dafny characters; the two orders agree below U+10000.
- A non-string truthy value where the source calls a string method, which would throw a `TypeError`, is read through `JsValues.ToStr` instead.
- Object keys: `Object.values(referentMap)` is modelled in insertion order. JavaScript lists integer-like keys first, in numeric order, so a referent named by digits would sort differently before the revenue sort; ties in revenue are then the only place the order shows. Key names inherited from the object prototype are not modelled.
- `Pack_Choisi` can be an array (a multi-select column), and `JsValues.Value` has no arrays. The financial report's label reads the pack through `JsValues.ToStr`, where the source would join an array's items with commas. The brochure filter searches the empty text for any non-string pack, where the source would search an array's items joined by spaces.
- The financial report's `trackingData` load and its failure paths are left out: the report functions take the loaded tracking lists as a parameter. The spread `...e` of a report item is modelled as the entity held in the item.
- Brochure page: the loading flag and the `try`/`catch` around `loadData` are left out. A `JSON.parse` of the stored data that yields non-object entries is not modelled. The guard `Object.keys(newAdminDataUpdates).length > 0` only decides whether to store, so it makes no difference to the state. `updateTrackingRecord` in `handlePageSave` is modelled as the request value it would send, not as a store call.
- The brochure's total page equivalent is computed in eighths of a page, to stay in integers.
- The second stand-creation block of `handlePackChange` (src/pages/SuiviAvancement.jsx:358-379) sits under `if (isSelected)`'s `else` inside the `else` of `if (!isSelected)`, so it cannot run. `Suivi.SuiviPage.StandBackLink` keeps the same nesting and puts `assert false` in that branch.
- Completion.FilteredAll: is stated only when every row's `complete` is a boolean, which `Completion.ProcessEntities` proves for every tab except Partenaires. On Partenaires, `isComplete` can return `undefined`, `null` or the proof field's own value. The "all" comparator is then not consistent (`Completion.AllCompareInconsistent`), and the order `sort` leaves depends on the engine. For those rows `Completion.FilteredItems` sorts by truthiness, incomplete rows first, which is one of the orders an engine may produce and not necessarily the one a given browser produces.
- Api.RecordStore.FetchTrackingData: the request asks for one page (`limit: 1000, offset: 0`, src/services/api.js:115-118), so a table with more than 1000 rows comes back cut to its first 1000. The model returns every row and has no page limit. Its statements about the follow-up page's cache hold for tables of at most 1000 rows.
- Api.RecordStore.SyncTable: the request asks for one page of at most 1000 rows, with `where: (Link_Annonceur,eq,entityId)` (src/services/api.js:291-298). The model ignores the server filter and applies the client-side filter to every row of the table. That is the fallback the comment at src/services/api.js:300-303 describes, for a store that ignores `where`. Because the model has no page limit, `SyncProperties.SyncCreatesAtMostOne`, `SyncProperties.SyncOtherTable` and `SyncProperties.SyncIdempotent` describe tables of at most 1000 rows, or stores that apply the filter before cutting the page. In a larger table, the listed rows can miss the entity's record, and a sync would then create a second one.
- The sidebar's `handleFilterChange` (src/components/Sidebar.jsx:11-14) is the same spread-copy update as the invoice form's `handleChange`, so `Forms.Change` models both.
