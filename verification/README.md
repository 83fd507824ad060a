# Invoice generator: document derivation and form editing, in Dafny

This project models the logic of a small client-side invoice generator. The
generator is a Next.js form that edits one invoice record and a react-pdf
component that renders the record as a one-page PDF. Two parts are modelled:

- **Document derivation** (`src/components/invoice-document.tsx`). This maps an
  invoice record to what the page shows:
  - the effective type label and the document title;
  - the logo alignment chosen by `getLogoStyle`;
  - the multi-line text split into non-blank lines by `splitTextToLines`;
  - the legacy `note` merged into `marks`;
  - the item table;
  - the subtotal, the tax, discount and shipping lines, and the compound total;
  - the condition under which each region appears.
- **Form editing** (`src/app/page.tsx`). This covers:
  - the initial record;
  - every `setInvoice` handler, as an `Edit` datatype applied by `Editor.Apply`;
  - the company and user lookups;
  - the subtotal and total the form shows;
  - the export file name.

The record is an immutable datatype (`Invoices.InvoiceData`). Its optional
fields are `Option`s, so an absent tax is different from a tax of 0. Items are
a `seq`, and money is `real`. The JavaScript coercions the code relies on are
written out in module `Optional`:

- `x || "USD"` for strings;
- `x || 0` for numbers;
- `undefined` printing as `undefined` in a concatenation.

Module `Text` models JavaScript's `trim`, `split('\n')` and the blank-line
filter. It proves that split and join are inverse to each other, and that the
lines of `a + "\n" + b` are the lines of `a` followed by the lines of `b`.

In these places the code does something a reader might not expect, and the model follows the code:

- The signature region appears when either the signature image or the signer
  name is set. It is not tied to the image alone; the region is empty when
  only the name is set.
- The additional-information region appears whenever that text is non-empty,
  even if every line of it is blank.
- For a custom type with no label entered, the title is `undefined-<number>`
  and the export file name is `undefined-<number>.pdf`. The header shows
  nothing in that case.
- The currency is any string the record holds, and only `""` or absence falls
  back to `USD`. The record does not restrict it to an enumerated set.

## Model

| member | source | states |
|---|---|---|
| Text.TrimStart | src/components/invoice-document.tsx:158 | the leading part `trim` drops is all whitespace, and what remains starts with a non-whitespace character |
| Text.TrimEnd | src/components/invoice-document.tsx:158 | the trailing part `trim` drops is all whitespace, and what remains ends with a non-whitespace character |
| Text.BlankIffAllWhitespace | src/components/invoice-document.tsx:158 | `line.trim() === ''` holds exactly when every character of the line is whitespace |
| Text.Split | src/components/invoice-document.tsx:158 | `split('\n')` never returns an empty list |
| Text.SplitPiecesLackSeparator | src/components/invoice-document.tsx:158 | no piece of a split contains the separator |
| Text.SplitWithoutSeparator | src/components/invoice-document.tsx:158 | a text without the separator splits into itself alone |
| Text.JoinSplit | src/components/invoice-document.tsx:158 | joining the pieces of a split with the separator gives back the text |
| Text.SplitJoin | src/components/invoice-document.tsx:158 | splitting a join of separator-free pieces gives back those pieces |
| Text.SplitAround | src/components/invoice-document.tsx:158 | splitting `a + sep + b` gives the pieces of `a` followed by the pieces of `b` |
| Text.Filter | src/components/invoice-document.tsx:158 | the filter result is no longer than its input, and every element kept satisfies the test and comes from the input |
| Text.FilterComplete | src/components/invoice-document.tsx:158 | the filter keeps every element that passes the test |
| Text.FilterConcat | src/components/invoice-document.tsx:158 | the filter works piecewise over a concatenation, so the survivors keep their order |
| Text.SplitTextToLines | src/components/invoice-document.tsx:157-159 | an absent or empty text has no lines; every line is non-blank and has no line break |
| Text.LinesAreNonBlankPieces | src/components/invoice-document.tsx:157-159 | a string is a line of the text exactly when it is a non-blank piece of `text.split('\n')` |
| Text.LinesOfAnyText | src/components/invoice-document.tsx:157-159 | for any present text, the truthiness guard changes nothing: the lines are the non-blank pieces of the split |
| Text.LinesAround | src/components/invoice-document.tsx:157-159 | the lines of `a + "\n" + b` are the lines of `a` followed by the lines of `b` |
| Text.LinesOfOneLine | src/components/invoice-document.tsx:157-159 | a break-free text gives itself as its one line when non-blank, and no lines when blank |
| Text.NatToString | src/app/page.tsx:558 | the item number in a template literal is a non-empty string of decimal digits, with a leading `0` only for zero |
| Text.DecimalRoundTrip | src/app/page.tsx:558 | reading the printed digits back gives the number |
| Invoices.TypeNamesDistinct | src/app/page.tsx:139-144 | the stored type name equals `"custom"` exactly for the custom type, and different types have different names |
| Totals.ReduceIsSum | src/components/invoice-document.tsx:242-243 | the `reduce` fold from an accumulator adds the sum of the line totals to that accumulator |
| Totals.Subtotal | src/components/invoice-document.tsx:241-244 | the subtotal is the sum of price times quantity over the items, and 0 for an empty list |
| Totals.SumConcat | src/app/page.tsx:552-564 | the sum over a concatenation of item lists is the sum of the two sums |
| Totals.SumAround | src/app/page.tsx:536-544 | an item between two runs of items adds its line total to their sum |
| Totals.SumReplace | src/app/page.tsx:471-505 | replacing one item changes the sum by the difference of the two line totals |
| Totals.AbsentIsLikeZero | src/components/invoice-document.tsx:275-283 | an absent tax, discount or shipping gives the same total as one present with value 0 |
| Totals.TotalDecomposition | src/components/invoice-document.tsx:246-283 | total = subtotal + tax − discount − discount-on-tax + shipping, with tax and discount both taken off the pre-tax subtotal |
| Document.LogoAlignment | src/components/invoice-document.tsx:145-154 | `center` centres the logo, `right` aligns it right, and every other position, absent included, aligns it left |
| Document.Currency | src/components/invoice-document.tsx:142 | the currency prefix is the record's currency when that is non-empty, else `USD`, and never empty |
| Document.Label | src/components/invoice-document.tsx:192-195 | the label is the custom label for the custom type and the type name otherwise; it is absent only for a custom type with no label |
| Document.Title | src/components/invoice-document.tsx:170-176 | the title is label + `-` + invoice number, with `undefined` standing in for a missing label |
| Document.NoteCell | src/components/invoice-document.tsx:230 | a non-empty note is shown as itself and an absent or empty one as `-`, so the cell is `-` exactly when the note is absent, empty or itself `-`, and it is never empty |
| Document.ItemRows | src/components/invoice-document.tsx:223-235 | there is one row per item in input order, showing the item's description, price, quantity and note cell, with line total price × quantity in the invoice currency |
| Document.RowTotalsAddUp | src/components/invoice-document.tsx:231-244 | the rows' total column adds up to the subtotal printed below the table |
| Document.RowsTotalIsSum | src/components/invoice-document.tsx:231-244 | rows whose totals are the items' line totals add up to the items' sum |
| Document.PercentLineOf | src/components/invoice-document.tsx:246-269 | a tax or discount line appears exactly when its field is present; it shows that percentage and the pre-tax subtotal × percentage / 100 |
| Document.TotalsOf | src/components/invoice-document.tsx:239-285 | the totals block shows the subtotal, each optional line exactly when its field is present, the raw shipping amount, and the compound total, all in the invoice currency |
| Document.TotalMatchesLines | src/components/invoice-document.tsx:246-284 | without a discount the total is subtotal + tax line + shipping line; without tax it is subtotal − discount line + shipping line |
| Document.ZeroLineShowsWithoutMovingTotal | src/components/invoice-document.tsx:246-284 | setting an absent tax, discount or shipping to 0 makes its line appear but leaves the total unchanged |
| Document.FinalMarks | src/components/invoice-document.tsx:163-166 | with no note the text is the marks (or `""`); with only a note it is `Note:\n` + note; with both it is `Note:\n` + note + `\n\n` + marks |
| Document.FinalMarksEmptyIff | src/components/invoice-document.tsx:164-166 | the merged marks text is empty exactly when both note and marks are absent or empty |
| Document.MarksLinesCompose | src/components/invoice-document.tsx:163-167 | the marks region's lines are `Note:` and the note's lines (when there is a note), then the marks' lines; the blank separator line vanishes |
| Document.NoteOnlyLines | src/components/invoice-document.tsx:165-167 | the lines of `Note:\n` + note are `Note:` followed by the note's lines |
| Document.NoteThenMarksLines | src/components/invoice-document.tsx:166-167 | the lines of note-then-marks are `Note:`, the note's lines and the marks' lines, in that order |
| Document.Render | src/components/invoice-document.tsx:169-309 | the page shows the title and header label, and always shows the sender, recipient, invoice number and the creation and due dates of the record. The info, logo, marks and signature regions appear exactly under their conditions, and the signature image only when it is set, showing the record's signature image. It also has one table row per item and the totals block |
| Document.ScenarioAllAdjustments | src/components/invoice-document.tsx:240-284 | one item at 100 with tax, discount and shipping at 10 gives subtotal 100, tax 10, discount 10 and total 109 |
| Document.ScenarioEmpty | src/components/invoice-document.tsx:215-284 | with no items and no adjustments there are no rows, no optional lines, and the subtotal and total are 0 |
| Editor.InitialInvoice | src/app/page.tsx:72-88 | the initial record is an invoice with a left logo, USD, and one item at price 100 and quantity 1. Its creation date is the clock reading and its due date 30 days later. Sender, recipient, invoice number, custom label, information text, signature and signer name are all empty or absent, and it has no tax, discount or shipping. Its total is 100 and its title `invoice-` |
| Editor.FindFirst | src/app/page.tsx:91-102 | the user and company lookups find nothing exactly when no entry has the name; otherwise they return the first entry with that name |
| Editor.SelectUser | src/app/page.tsx:90-99 | an unknown name changes nothing. A known one sets the signer name and signature image and nothing else, so the signature region then appears for a non-empty name |
| Editor.SelectCompany | src/app/page.tsx:101-113 | an unknown name changes nothing. A known one selects the company and sets its logo, marks and information text, and nothing else |
| Editor.UpdateItem | src/app/page.tsx:449-453 | the per-item `map` keeps the length and every other item; it changes the item at the index, and nothing when the index is outside the list |
| Editor.UpdateItemSum | src/app/page.tsx:471-505 | editing one item moves the sum by the change in that item's line total |
| Editor.EditDescription | src/app/page.tsx:446-455 | only the description of item *i* changes; the length, the other items, the rest of the record and the total are unchanged |
| Editor.EditPrice | src/app/page.tsx:471-480 | only the price of item *i* changes, and the subtotal moves by (new − old price) × quantity |
| Editor.EditQuantity | src/app/page.tsx:496-505 | only the quantity of item *i* changes, and the subtotal moves by price × (new − old quantity) |
| Editor.EditNote | src/app/page.tsx:523-530 | only the note of item *i* changes; the length, the other items, the rest of the record and the total are unchanged |
| Editor.WithoutIndexSlices | src/app/page.tsx:539-541 | filtering out index *i* leaves the items before and after it, in order; an index outside the list removes nothing |
| Editor.RemoveSum | src/app/page.tsx:536-544 | dropping item *i* takes its line total off the sum |
| Editor.RemoveItem | src/app/page.tsx:536-544 | for 0 ≤ i < n the list has n − 1 items, equals the original without index *i*, and the subtotal drops by that item's line total. Nothing else changes, and an out-of-range index changes nothing |
| Editor.AddItem | src/app/page.tsx:552-564 | one item `Item <n+1>` at price 0 and quantity 1 with no note is appended. The existing items, the rest of the record and the subtotal are unchanged |
| Editor.RemoveUndoesAdd | src/app/page.tsx:536-564 | removing the item just added gives back the original record |
| Editor.Toggle | src/app/page.tsx:745-801 | an absent field becomes 10, a present one becomes absent |
| Editor.ToggleTwice | src/app/page.tsx:745-801 | two presses return an absent field to absent, but bring a present field back as 10 |
| Editor.ToggleTax | src/app/page.tsx:745-761 | the tax button flips the tax between absent and 10 and changes no other field |
| Editor.ToggleDiscount | src/app/page.tsx:763-781 | the discount button flips the discount between absent and 10 and changes no other field |
| Editor.ToggleShipping | src/app/page.tsx:783-801 | the shipping button flips shipping between absent and 10 and changes no other field |
| Editor.ToggleShowsOwnLine | src/app/page.tsx:745-801 | each button shows or hides exactly its own line in the totals block; the other two lines are unchanged |
| Editor.PercentLinesFrame | src/components/invoice-document.tsx:246-269 | the tax and discount lines depend only on the items and the currency |
| Editor.PickDate | src/app/page.tsx:376-381 | a cleared calendar selection keeps the previous date; a picked date replaces it |
| Editor.Apply | src/app/page.tsx:139-863 | only item actions change the items, and only the company selector and logo removal change the selected company. No action touches the legacy note |
| Editor.OtherEditsKeepTotal | src/app/page.tsx:868-881 | every action except price, quantity, item removal and the tax, discount and shipping controls leaves the total unchanged, adding an item included |
| Editor.TotalFrame | src/app/page.tsx:868-881 | two records with the same item sum and the same tax, discount and shipping have the same total |
| Editor.ItemCountChanges | src/app/page.tsx:536-564 | adding grows the list by one, removing an in-range index shrinks it by one, and every other action keeps its length |
| Editor.SessionKeepsTotal | src/app/page.tsx:868-881 | any sequence of actions that do not move money leaves the total unchanged |
| Editor.PageSubtotal | src/app/page.tsx:732-735 | the form's subtotal equals the document's subtotal and the sum of the line totals |
| Editor.PageTotal | src/app/page.tsx:871-879 | the form's total, computed by its own expression, equals the total the document prints |
| Editor.ExportFileName | src/app/page.tsx:887-892 | the file name is the document title + `.pdf`, so it is `<type>-<number>.pdf`, or `undefined-<number>.pdf` for a custom type with no label |

## Left out

- Editor.Apply accepts every action in every state. The page offers some controls only under a condition: the tax, discount and shipping inputs while that field is present, the logo-position buttons while there is a logo, and the custom-type input for the custom type. The model does not restrict these actions, so its lemmas over all actions cover those states as well.
- JSX layout, styles, `StyleSheet`, and react-pdf's `Document`, `Page`, `PDFViewer` and `PDFDownloadLink` are not modelled. They render through a library that is not part of this model. This includes the CSS `textTransform: uppercase` of the header: the model keeps the label as it is.
- `toFixed(2)` is not modelled. A `Document.Money` value stands for the text `<currency> <amount to two places>`, and amounts are exact reals.
- `parseFloat` is not modelled. Typed prices, quantities and percentages reach the handlers already as reals. NaN, and `|| 0` mapping NaN to 0, cannot be expressed with reals.
- `new Date()`, `toISOString` and `toLocaleDateString` are not modelled. Dates are opaque `Instant`s in milliseconds. The clock reading is a parameter of `Editor.InitialInvoice`, and one reading serves both the creation and due dates, whereas the code reads the clock twice.
- `URL.createObjectURL` and the file inputs are browser I/O. An upload is an `Edit` carrying the resulting URL, or nothing when the browser supplies no file list.
- The contents of the static user, company, marks and information tables in `src/lib/utils.ts` are not modelled. They are an `Editor.Directory` parameter, and a company missing from the marks or information map gets `""`, as the code's fallback does.
- `cn`, the navigation bar, the layout metadata and the build configuration are theme, UI and build settings with no invoice logic.
- The `isClient` loading flag and the selector's display value are not modelled, because they affect only what the form draws.
- Strings are sequences of Unicode scalar values, while JavaScript strings are UTF-16 code units. This matters to `trim` and `split` only for unpaired surrogates, which the model cannot express.
- The signer name is kept in the record but never printed, because the code that would print it is commented out.
