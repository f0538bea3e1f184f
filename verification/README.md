# FormworkMaster contract model in Dafny

FormworkMaster is a single-page tool for drafting formwork subcontracts
(工程模板合約). A contract has two party snapshots: party A is the
commissioning company and party B the formwork contractor. It also has a
bill of line items with a running total, and a checklist of clauses drawn
from a preset library. This project models the application's document
model and its pure list operations:

- the record types and the new-contract skeleton (`Types`, `Constants`);
- the contract editor's operations on parties, line items and clauses
  (`ContractBuilder`);
- the two collection upserts of the application shell (`App`):
  - party directories by company name;
  - the contract list by id, with finalization;
- the index-based directory screen with its save, delete and search
  (`PartyManager`);
- the contractor price history (`PriceHistory`). It groups every line item
  of every contract under its party B company name and stable-sorts each
  group newest first;
- what the printable contract derives (`PrintView`): category labels, the
  reference code, the numbered item rows, the 5% tax and the grand total,
  and the printed clause list.

Two helper modules define the JavaScript built-ins the code relies on:

- `Text`: `trim`, ASCII `toLowerCase`/`toUpperCase` and `includes`;
- `Seqs`: `filter` and `findIndex`.

`Seqs` also defines `Positions` and `SelectsInOrder`. `SelectsInOrder(r, s, p)`
says that r is exactly the elements of s satisfying p, taken in order. The
clause tab (`ContractBuilder.VisibleClauses`), item removal
(`ContractBuilder.RemoveItem`), the contractor search
(`PriceHistory.FilteredContractors`) and the printed clauses
(`PrintView.PrintedClauses`) are stated against it.

Every React state update is a pure function from the old value to the new
one. Side channels become plain values:

- the uuid is a `freshId` parameter;
- the creation time is an `int` parameter;
- the answer to `window.confirm` is a `confirmed: bool` parameter;
- an `alert` is an outcome value in the result.

Contract values are immutable, so the preset clause library cannot be
changed through a contract's copy. The deep copy in `EMPTY_CONTRACT` is
therefore modelled by plain value sharing.

## Model

| member | source | states |
|---|---|---|
| Types.SetField | components/ContractBuilder.tsx:50-55 | the edited field takes the new value and the other four fields keep theirs |
| Types.SetParty | types.ts:27-40 | the two party slots are independent: setting one leaves the other and every non-party field unchanged |
| Types.ParseCategory | types.ts:21 | a stored category string denotes category c exactly when it is c's serialized name; every other string denotes no category |
| Types.SubtotalConcat | components/ContractBuilder.tsx:114 | the left-to-right reduce over a concatenation is the sum of the reduces of the parts |
| Types.SubtotalFirst | components/ContractBuilder.tsx:114 | the reduce equals the first line's amount plus the reduce of the rest |
| Constants.EmptyContract | constants.ts:73-86 | a fresh contract is a draft titled 新建工程模板合約 with no items, total 0 (so the total invariant holds), the preset clauses element for element, both parties empty in every field, and empty location and dates |
| Constants.PresetClauseFacts | constants.ts:14-71 | the library has eight non-custom clauses with distinct ids c1 to c8, and a clause starts unselected exactly when it is c4 or c8 |
| Constants.DefaultItemFacts | constants.ts:4-12 | there are seven templates, each with a non-empty name and unit and a positive price |
| App.UpsertParty | App.tsx:55-62 | with a name already present, the first entry with it is replaced in place and all other entries and the length stay; with a new name, the party is appended |
| App.UpsertKeepsNamesUnique | App.tsx:54-62 | a directory whose names are unique still has unique names after an upsert |
| App.AddParty | App.tsx:50-64 | the directory of the given kind is upserted, with no empty-name check, and the other directory is untouched |
| App.SaveContract | App.tsx:76-88 | the stored copy is finalized; an existing id is replaced at its first index with length and other entries unchanged, and a new id is prepended with the old list shifted by one |
| App.SavedIsFinalized | App.tsx:77-86 | the saved contract with status finalized is in the list after saving |
| App.SaveContractIdempotent | App.tsx:78-86 | saving the same contract twice gives the same list as saving it once |
| App.SaveKeepsIdsUnique | App.tsx:78-86 | a contract list with unique ids keeps them through a save |
| ContractBuilder.VisibleClauses | components/ContractBuilder.tsx:494-497 | a category tab shows exactly that category's clauses in list order, and the all tab shows every clause |
| ContractBuilder.UpdateParty | components/ContractBuilder.tsx:50-55 | exactly one field of one party changes; the other party and all other contract fields are unchanged |
| ContractBuilder.LoadParty | components/ContractBuilder.tsx:58-63 | the slot becomes a value copy of the directory entry; the other party and the rest of the contract are unchanged |
| ContractBuilder.SaveCurrentParty | components/ContractBuilder.tsx:66-80 | refused exactly when the company name is empty; otherwise the directories are exactly those after the by-name upsert into the directory of the party's kind (App.tsx:50-64), so the snapshot is in it, it grows by at most one, and the other directory is unchanged |
| ContractBuilder.SaveCurrentPartyKeepsNamesUnique | components/ContractBuilder.tsx:73-79 | saving a party from the editor keeps a directory with unique company names unique |
| ContractBuilder.Recompute | components/ContractBuilder.tsx:113-116 | after the effect the stored total is the sum of price times quantity, and nothing else changes |
| ContractBuilder.AddItem | components/ContractBuilder.tsx:83-96 | exactly one line is appended, with quantity 1 and an empty note; old lines keep their order; without a preset the line is named "", in m² at price 0; the total grows by the new price |
| ContractBuilder.AddPresetItem | components/ContractBuilder.tsx:83-91 | a quick-add template's name, unit and price are copied onto the new line |
| ContractBuilder.SubtotalSplit | components/ContractBuilder.tsx:98-116 | the total is the total of the lines without an id plus the total of the lines with it |
| ContractBuilder.RemoveItem | components/ContractBuilder.tsx:98-103 | exactly the lines with that id are dropped, the others are kept in their original order, and the total loses the removed lines' amounts |
| ContractBuilder.ApplyEdit | components/ContractBuilder.tsx:108 | the named field takes the value and every other field of the line keeps its old value |
| ContractBuilder.UpdateItem | components/ContractBuilder.tsx:105-110 | length and order are kept, lines with the id get the edit, every other line is identical, and the total is recomputed |
| ContractBuilder.ComputeTotal | components/ContractBuilder.tsx:114 | the accumulating loop returns the sum of price times quantity over the lines |
| ContractBuilder.ToggleClause | components/ContractBuilder.tsx:119-124 | a clause's selection flips exactly when its id matches; no other field or clause changes |
| ContractBuilder.ToggleTwice | components/ContractBuilder.tsx:119-124 | toggling the same id twice restores the contract |
| ContractBuilder.AddCustomClause | components/ContractBuilder.tsx:126-143 | whitespace-only text changes nothing; other text is appended untrimmed as one selected custom clause |
| ContractBuilder.SaveEditing | components/ContractBuilder.tsx:152-164 | matching clauses take the new content and category; ids, custom flags and selections never change, and other clauses are identical |
| ContractBuilder.SaveEditingIdempotent | components/ContractBuilder.tsx:152-164 | saving the same edit twice equals saving it once |
| ContractBuilder.DeleteClause | components/ContractBuilder.tsx:172-180 | declined, nothing changes; confirmed, exactly the clauses with the id go and the rest keep their order |
| ContractBuilder.MoveClause | components/ContractBuilder.tsx:183-194 | the clause swaps with its neighbour in the given direction; with no such neighbour the contract is unchanged; no other position changes and the clauses are a permutation of the old ones |
| ContractBuilder.MoveUpThenDown | components/ContractBuilder.tsx:183-194 | moving a clause up and then back down restores the clause order |
| ContractBuilder.SwapHiddenNeighbours | components/ContractBuilder.tsx:191 | swapping two neighbours one of which a filter drops does not change the filtered list |
| ContractBuilder.MoveBehindHiddenNeighbour | components/ContractBuilder.tsx:546-554 | the index is a full-list index, so a move whose neighbour is hidden by the active tab leaves the tab's list unchanged |
| PartyManager.Select | components/PartyManager.tsx:26-29 | the form holds a copy of the selected entry and the selection is that index |
| PartyManager.CreateNew | components/PartyManager.tsx:31-34 | nothing is selected and every form field is empty |
| PartyManager.HandleSave | components/PartyManager.tsx:36-56 | a name that is empty after trimming is refused with no change; in create mode the form is appended and the new last index selected; in edit mode the selected entry is overwritten and nothing else changes |
| PartyManager.HandleDelete | components/PartyManager.tsx:58-65 | with nothing selected or when declined nothing changes; confirmed, exactly the selected index is removed, the rest keep their order, and the screen returns to create mode |
| PartyManager.SaveCanDuplicateNames | components/PartyManager.tsx:42-47 | saving a new entry whose name is already present leaves two entries with that name |
| PartyManager.GuardsDiffer | components/PartyManager.tsx:37 | a company name of one space is saved by the editor's guard and refused by this screen's trimmed guard |
| PartyManager.RepresentativeSearchAsWritten | components/PartyManager.tsx:70 | as written, the term "ABC" does not find a representative "ABC" |
| PartyManager.LiteralOccurrenceMatches | components/PartyManager.tsx:67-71 | with the term lower-cased on both sides, an entry whose name, tax id or representative contains the term is always found |
| PartyManager.FilteredBy | components/PartyManager.tsx:67-71 | for any entry test, the hits are accepted entries with their correct original indices, in strictly increasing index order, and no accepted entry is missing |
| PartyManager.FilteredPartiesAsWritten | components/PartyManager.tsx:67-71 | the search as written: the hits are exactly the entries the line-70 test accepts, with their original indices, in directory order, none missing |
| PartyManager.FilteredParties | components/PartyManager.tsx:67-71 | the corrected search (see Findings): the hits are the entries matching with the term lower-cased for the representative too, with their original indices, in directory order, none missing |
| PartyManager.FilteredPartiesDiffer | components/PartyManager.tsx:70 | for representative "ABC" and term "ABC" the corrected search lists the entry and the search as written lists nothing |
| PartyManager.EmptySearchListsAll | components/PartyManager.tsx:67-71 | the empty term lists every entry at its own index, in the search as written and in the corrected one |
| PriceHistory.RecordsForCount | components/PriceHistory.tsx:42-49 | a name's records number exactly the line items of the contracts with that name |
| PriceHistory.RecordsForAppend | components/PriceHistory.tsx:42-49 | a later contract with the name adds its records after the earlier ones, in item order |
| PriceHistory.RecordProvenance | components/PriceHistory.tsx:43-48 | every record carries the id, title and creation time of a contract with the name, and one of its items unchanged |
| PriceHistory.StepUnnamed | components/PriceHistory.tsx:31-33 | a contract with an empty party B name keeps the groups well formed without adding to them |
| PriceHistory.AddContract | components/PriceHistory.tsx:30-50 | one contract adds at most one group, and a contract without a party B name changes nothing |
| PriceHistory.AddContractCases | components/PriceHistory.tsx:35-49 | a named contract opens a new last group with its snapshot and records when no group has its name, and otherwise lengthens the records of exactly the group with its name, every key and snapshot unchanged |
| PriceHistory.Group | components/PriceHistory.tsx:30-50 | the fold over the contracts makes at most one group per contract |
| PriceHistory.StepNewName | components/PriceHistory.tsx:35-40 | a first-seen name gets a new last group with this contract's party B snapshot and records (names that are not inherited object properties; see Findings) |
| PriceHistory.StepKnownName | components/PriceHistory.tsx:42-49 | a known name's group keeps its snapshot and gets this contract's records appended |
| PriceHistory.GroupInvariant | components/PriceHistory.tsx:30-50 | grouping yields distinct non-empty keys covering every non-empty name, in first-seen order, each with the first contract's snapshot and all records of the name (the grouping with own keys only; see Findings) |
| PriceHistory.AddContractAsWritten | components/PriceHistory.tsx:28-49 | on the object literal, a name that is an inherited property opens no group, and the step throws exactly when the contract has items; any other name is grouped as in the model |
| PriceHistory.AsWrittenAgreesElsewhere | components/PriceHistory.tsx:28-50 | when no party B name is an inherited property, the grouping as written and the model give the same groups |
| PriceHistory.InheritedNameAsWritten | components/PriceHistory.tsx:35-43 | a party B named "toString" makes the grouping as written throw (with items) or go unrecorded (without), while the model gives it its own group |
| PriceHistory.Insert | components/PriceHistory.tsx:54 | insertion adds one record; where it lands is stated by InsertSplits |
| PriceHistory.InsertSplits | components/PriceHistory.tsx:54 | the record goes in behind exactly the records newer than it, the rest staying in order around it |
| PriceHistory.InsertKeepsOrder | components/PriceHistory.tsx:54 | inserting into a newest-first list keeps it newest first |
| PriceHistory.InsertPermutes | components/PriceHistory.tsx:54 | insertion adds exactly the one record |
| PriceHistory.InsertStable | components/PriceHistory.tsx:54 | insertion keeps the relative order of the records of each creation time, with the inserted record first among its own time |
| PriceHistory.SortNewestFirst | components/PriceHistory.tsx:53-55 | the sort keeps the number of records; order, permutation and stability are the next three rows |
| PriceHistory.SortIsNewestFirst | components/PriceHistory.tsx:53-55 | the sorted records are newest first |
| PriceHistory.SortPermutes | components/PriceHistory.tsx:53-55 | sorting only reorders the records |
| PriceHistory.SortIsStable | components/PriceHistory.tsx:53-55 | records with equal creation time keep their input order |
| PriceHistory.HistoryData | components/PriceHistory.tsx:27-58 | the history has the groups of the fold, with the same keys and snapshots, in the same order |
| PriceHistory.HistoryKeys | components/PriceHistory.tsx:27-58 | a name has a group exactly when it is non-empty and some contract's party B has it (the grouping with own keys only; see Findings) |
| PriceHistory.HistoryOrderAndInfo | components/PriceHistory.tsx:35-40 | keys are distinct and in first-seen order, and each group holds the first contract's party B snapshot |
| PriceHistory.HistoryRecords | components/PriceHistory.tsx:42-55 | a group's records are newest first, a permutation of all the name's records, stable for equal times, and one per line item |
| PriceHistory.HistoryProvenance | components/PriceHistory.tsx:43-48 | every record in a group comes from a contract with the group's name and is one of its items unchanged |
| PriceHistory.UnnamedContributesNothing | components/PriceHistory.tsx:31-33 | appending a contract without a party B name leaves the history unchanged |
| PriceHistory.FilteredContractors | components/PriceHistory.tsx:60-62 | the result is the keys containing the term, ignoring case, in key order, with none missing |
| PriceHistory.EmptySearchListsAllContractors | components/PriceHistory.tsx:60-62 | the empty term lists every key |
| PrintView.CategoryLabel | components/PrintView.tsx:21-30 | each of the five category names gets its editor tab caption, and exactly the other values get 其他條款 |
| PrintView.LabelsMatchTabs | components/ContractBuilder.tsx:17-24 | for every category the printed label is the caption of that category's tab, never the default |
| PrintView.ReferenceCode | components/PrintView.tsx:68 | the code has length min(8, length of id), at most 8, and is the upper-cased prefix of the id |
| PrintView.ReferenceCodeOfPrefix | components/PrintView.tsx:68 | characters after the eighth do not affect the code |
| PrintView.ReferenceCodeIdempotent | components/PrintView.tsx:68 | the code has no lower-case letter, so coding it again gives the same code |
| PrintView.ItemRows | components/PrintView.tsx:126-136 | one row per line in order, numbered k+1, amount equal to quantity times price, missing note printed empty |
| PrintView.RowsAddUp | components/PrintView.tsx:133-139 | the amount column sums to the subtotal of the lines |
| PrintView.Round | components/PrintView.tsx:144 | the result r satisfies r - 1/2 <= x < r + 1/2: the nearest integer, with halves going up |
| PrintView.Tax | components/PrintView.tsx:144 | the tax is the integer nearest to 5% of the total, halves up |
| PrintView.GrandTotal | components/PrintView.tsx:149 | the grand total is the integer nearest to 105% of the total, halves up |
| PrintView.TaxInIntegers | components/PrintView.tsx:143-149 | on integer totals the tax is (total + 10) div 20, the grand total is total plus tax, and a non-negative total pays between 0 and the total in tax |
| PrintView.Totals | components/PrintView.tsx:137-151 | the untaxed row is the stored total, the tax row is the rounded 5% tax, the taxed row is the rounded 105% total and equals untaxed plus tax, and with a consistent contract the untaxed row is the sum of the rows above |
| PrintView.PrintedClauses | components/PrintView.tsx:160 | exactly the selected clauses are printed, in contract order |
| Text.Trim | components/ContractBuilder.tsx:127 | `trim` returns a contiguous slice with only whitespace cut from either side, neither starting nor ending in whitespace |
| Text.TrimStartStrips | components/ContractBuilder.tsx:127 | the leading cut is all whitespace and what is kept does not start with whitespace |
| Text.TrimEndStrips | components/ContractBuilder.tsx:127 | the trailing cut is all whitespace and what is kept does not end with whitespace |
| Text.Lower | components/PartyManager.tsx:68 | `toLowerCase` keeps the length, leaves no upper-case ASCII letter, lowers each one and keeps every other character |
| Text.Upper | components/PrintView.tsx:68 | `toUpperCase` keeps the length, leaves no lower-case ASCII letter, raises each one and keeps every other character |
| Text.Contains | components/PartyManager.tsx:69 | `includes` finds only terms no longer than the string, and every string includes itself |
| Text.BlankIffAllWhitespace | components/ContractBuilder.tsx:127 | a string trims to empty exactly when all its characters are whitespace |
| Text.LowerKeepsOccurrence | components/PartyManager.tsx:68 | an occurrence survives lower-casing both sides |
| Text.ContainsEmpty | components/PriceHistory.tsx:61 | every string contains the empty string |
| Seqs.Filter | components/ContractBuilder.tsx:101 | `filter` never lengthens the array; what it keeps is stated by the next two rows |
| Seqs.FilterMembers | components/ContractBuilder.tsx:101 | every kept element is an element satisfying the predicate, and every element satisfying it is kept |
| Seqs.FilterSelectsInOrder | components/ContractBuilder.tsx:101 | `filter` keeps exactly the elements satisfying the predicate, in their original order |
| Seqs.FindIndex | App.tsx:55 | the result is -1 exactly when nothing matches, and otherwise the first matching index |

## Left out

- Persistence is not modelled: the localStorage load and save and the JSON serialisation (App.tsx:20-47). Each operation returns the collection that would be stored.
- The text-generation service and the clause-generator screen are not modelled: services/geminiService.ts is a network client and the screen is asynchronous UI around it.
- The build configuration (vite.config.ts) is not modelled.
- Presentation is not modelled: the JSX and styling, the wizard steps, the dashboard, and `toLocaleString`/`toLocaleDateString` formatting, including the printed date.
- The inline edits of title, location and dates are not modelled. They are plain field writes with no rule to state.
- UI state resets are not modelled: clearing the custom-clause text, switching to the custom tab, and clearing the clause being edited (ContractBuilder.tsx:141-142, 162-163). Only the contract data is modelled.
- `startEditing` and `cancelEditing` only touch form state and are not modelled. `SaveEditing` takes the form's content and category as parameters.
- Floating-point arithmetic is not modelled. Prices, quantities and totals are integers; `Math.round(total * 0.05)` is computed on reals. Float rounding of a product to a binary double is not modelled.
- Dates are not parsed. `createdAt` is an integer timestamp, and `new Date(...).getTime()` on invalid dates (NaN comparisons) is not modelled.
- uuid generation is a `freshId` parameter. Freshness is not assumed by any contract; operations that key by id handle every clause or item sharing it.
- The history groups are in first-seen order. `Object.keys` lists integer-like names first, in numeric order; that ordering quirk is not modelled.
- Case mapping covers ASCII letters only. `toLowerCase`/`toUpperCase` on other scripts is not modelled; the Chinese company names the application expects have no case.
- `trim` uses the ECMAScript whitespace and line-terminator set; no other Unicode space separators are included.
- App.SaveContract also writes `status` into the caller's object (App.tsx:77). That aliasing does not exist with immutable values; the stored copy is what is modelled.
- ContractBuilder.AddItem, ContractBuilder.RemoveItem and ContractBuilder.UpdateItem: each models the item update together with the total-recompute effect that follows it (ContractBuilder.tsx:113-116). The intermediate state, in which the stored total is still the old one, is not modelled.
- ContractBuilder.MoveClause: requires an index into the clause list, because the editor only calls it with the index of a rendered clause (ContractBuilder.tsx:494, 546-554).
- ContractBuilder.AddItem: `preset.price || 0` also turns a NaN price into 0; NaN is not an integer and is not modelled.
- PriceHistory.StepNewName: states the corrected grouping. For a party B name that is an inherited object property the code as written opens no group (see Findings).
- PriceHistory.GroupInvariant: states the corrected grouping. The code as written leaves inherited property names without a group, or throws when such a contract has items (see Findings).
- PriceHistory.HistoryKeys: states the corrected grouping. In the code as written an inherited property name never becomes a key (see Findings).
- PartyManager.FilteredParties: is the corrected search. The search as written is `FilteredPartiesAsWritten` (see Findings).
- Determinism of the history needs no lemma, because `HistoryData` is a function of the contract sequence.
- Contract deletion and CSV export do not appear in the code, so they are not modelled.

## Findings

| source | as written | input that shows it | evidently intended | confidence | as-written member | corrected member |
|---|---|---|---|---|---|---|
| components/PartyManager.tsx:70 | the representative is lower-cased but the search term is not | representative "ABC", term "ABC": no match, although the company-name test lower-cases both sides | lower-case the term too, as line 68 does | medium, not executed | PartyManager.RepresentativeSearchAsWritten | PartyManager.LiteralOccurrenceMatches |

| components/PriceHistory.tsx:28-43 | groups are kept in an object literal, so `!data[name]` also sees the properties every object inherits | a contract whose party B is named "toString" with one item: `data["toString"]` is the inherited method, no group opens, and `data["toString"].records.push` throws a TypeError; with no items the name gets no group | every non-empty party B name gets its own group, as with `Object.create(null)` or a `Map` | medium, not executed | PriceHistory.InheritedNameAsWritten | PriceHistory.GroupInvariant |

`PartyManager.MatchesAsWritten` and `PartyManager.FilteredPartiesAsWritten` are
the search as written; `PartyManager.Matches` and `PartyManager.FilteredParties`
are the corrected search. `PriceHistory.AddContractAsWritten` and
`PriceHistory.GroupAsWritten` are the grouping as written; `AddContract`,
`Group` and everything built on them are the corrected grouping, and
`PriceHistory.AsWrittenAgreesElsewhere` shows the two agree whenever no party B
name is an inherited property.
