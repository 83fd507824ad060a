/** The values the PDF document shows for an invoice record
    (`src/components/invoice-document.tsx`): which regions appear, the header
    label and document title, the logo alignment, the item table, the totals
    block and the merged marks text. Layout, styles and the `toFixed(2)`
    rendering of amounts are left to the display: a `Money` value stands for
    the text `"<currency> <amount to 2 places>"`. */
module Document {
  import opened Optional
  import opened Text
  import opened Invoices
  import opened Totals

  /** The `alignSelf` of the logo style `getLogoStyle` picks. */
  datatype Alignment = FlexStart | AlignCenter | FlexEnd

  /** `getLogoStyle`: centre and right are honoured; any other position,
      including none, aligns the logo to the left. */
  function LogoAlignment(pos: Option<LogoPosition>): (a: Alignment)
    ensures a == AlignCenter <==> pos == Some(Center)
    ensures a == FlexEnd <==> pos == Some(Right)
    ensures a == FlexStart <==> pos != Some(Center) && pos != Some(Right)
  {
    match pos
    case Some(Center) => AlignCenter
    case Some(Right) => FlexEnd
    case _ => FlexStart
  }

  /** `invoice.currency || "USD"` */
  function Currency(inv: InvoiceData): (c: string)
    ensures Truthy(inv.currency) ==> c == inv.currency.value
    ensures !Truthy(inv.currency) ==> c == "USD"
    ensures c != ""
  {
    OrElse(inv.currency, "USD")
  }

  /** The effective type label, `type === "custom" ? customType : type`.
      It is absent only for a custom type whose label was never entered. */
  function Label(inv: InvoiceData): (l: Option<string>)
    ensures inv.docType == Custom ==> l == inv.customType
    ensures inv.docType != Custom ==> l == Some(TypeName(inv.docType))
    ensures l == None <==> inv.docType == Custom && inv.customType == None
  {
    TypeNamesDistinct(inv.docType, Custom);
    if TypeName(inv.docType) == "custom" then inv.customType else Some(TypeName(inv.docType))
  }

  /** The document title: label, `-`, invoice number. An absent label is
      concatenated by JavaScript as the text `undefined`. */
  function Title(inv: InvoiceData): (t: string)
    ensures Label(inv).Some? ==> t == Label(inv).value + "-" + inv.invNumber
    ensures Label(inv) == None ==> t == "undefined-" + inv.invNumber
    ensures inv.docType != Custom ==> t == TypeName(inv.docType) + "-" + inv.invNumber
  {
    JsString(Label(inv)) + "-" + inv.invNumber
  }

  /** An amount shown with a currency prefix. */
  datatype Money = Money(currency: string, amount: real)

  /** One row of the item table. */
  datatype Row = Row(description: string, price: Money, quantity: real, note: string, total: Money)

  /** `item.note || "-"`: the note cell is a dash exactly when the note is
      absent, empty, or itself a dash. */
  function NoteCell(note: Option<string>): (cell: string)
    ensures Truthy(note) ==> cell == note.value
    ensures !Truthy(note) ==> cell == "-"
    ensures cell == "-" <==> !Truthy(note) || note.value == "-"
    ensures cell != ""
  {
    OrElse(note, "-")
  }

  /** The row for one item. */
  function ItemRow(item: Item, currency: string): Row
  {
    Row(item.description, Money(currency, item.price), item.quantity,
        NoteCell(item.note), Money(currency, item.price * item.quantity))
  }

  /** The item table: one row per item, in the items' order, each showing the
      item's own values in the invoice currency and the line total. */
  function ItemRows(inv: InvoiceData): (rows: seq<Row>)
    ensures |rows| == |inv.items|
    ensures forall i :: 0 <= i < |rows| ==>
              && rows[i].description == inv.items[i].description
              && rows[i].price == Money(Currency(inv), inv.items[i].price)
              && rows[i].quantity == inv.items[i].quantity
              && rows[i].note == NoteCell(inv.items[i].note)
              && rows[i].total == Money(Currency(inv), LineTotal(inv.items[i]))
  {
    var cur := Currency(inv);
    seq(|inv.items|, i requires 0 <= i < |inv.items| => ItemRow(inv.items[i], cur))
  }

  /** The sum of the amounts in the rows' total column. */
  function RowsTotal(rows: seq<Row>): real
  {
    if |rows| == 0 then 0.0 else rows[0].total.amount + RowsTotal(rows[1..])
  }

  /** The table's total column adds up to the subtotal shown below it. */
  lemma RowTotalsAddUp(inv: InvoiceData)
    ensures RowsTotal(ItemRows(inv)) == Subtotal(inv.items)
  {
    RowsTotalIsSum(inv.items, ItemRows(inv));
  }

  lemma {:induction false} RowsTotalIsSum(items: seq<Item>, rows: seq<Row>)
    requires |rows| == |items|
    requires forall i :: 0 <= i < |rows| ==> rows[i].total.amount == LineTotal(items[i])
    ensures RowsTotal(rows) == Sum(items)
  {
    if |rows| > 0 {
      RowsTotalIsSum(items[1..], rows[1..]);
    }
  }

  /** A tax or discount line: `"<label> (<percent>%): <currency> <amount>"`. */
  datatype PercentLine = PercentLine(percent: real, amount: Money)

  /** The line for an optional percentage field: shown exactly when the field
      is present, its amount taken off the pre-tax subtotal. */
  function PercentLineOf(inv: InvoiceData, field: Option<real>): (line: Option<PercentLine>)
    ensures line.Some? <==> field.Some?
    ensures line.Some? ==> line.value.percent == field.value
    ensures line.Some? ==>
              line.value.amount == Money(Currency(inv), Subtotal(inv.items) * (field.value / 100.0))
  {
    if field != None then
      Some(PercentLine(OrZero(field), Money(Currency(inv), Subtotal(inv.items) * (OrZero(field) / 100.0))))
    else None
  }

  /** The totals block under the table. */
  datatype TotalsBlock = TotalsBlock(
    subtotal: Money,
    tax: Option<PercentLine>,
    discount: Option<PercentLine>,
    shipping: Option<Money>,
    total: Money)

  /** The totals block: subtotal, the optional lines, and the total. */
  function TotalsOf(inv: InvoiceData): (block: TotalsBlock)
    ensures block.subtotal == Money(Currency(inv), Sum(inv.items))
    ensures block.tax == PercentLineOf(inv, inv.tax)
    ensures block.discount == PercentLineOf(inv, inv.discount)
    ensures block.shipping.Some? <==> inv.shipping.Some?
    ensures block.shipping.Some? ==> block.shipping.value == Money(Currency(inv), inv.shipping.value)
    ensures block.total == Money(Currency(inv), Total(inv))
  {
    var cur := Currency(inv);
    TotalsBlock(
      Money(cur, Subtotal(inv.items)),
      PercentLineOf(inv, inv.tax),
      PercentLineOf(inv, inv.discount),
      if inv.shipping != None then Some(Money(cur, OrZero(inv.shipping))) else None,
      Money(cur, Total(inv)))
  }

  /** The total agrees with the lines shown above it: without a discount it is
      subtotal + tax + shipping, and without tax it is subtotal - discount +
      shipping (absent lines counting as 0). */
  lemma TotalMatchesLines(inv: InvoiceData)
    ensures var block := TotalsOf(inv);
            var shipping := if block.shipping.Some? then block.shipping.value.amount else 0.0;
            && (block.discount == None ==>
                  block.total.amount == block.subtotal.amount
                    + (if block.tax.Some? then block.tax.value.amount.amount else 0.0) + shipping)
            && (block.tax == None ==>
                  block.total.amount == block.subtotal.amount
                    - (if block.discount.Some? then block.discount.value.amount.amount else 0.0) + shipping)
  {
    TotalDecomposition(inv);
  }

  /** Toggling a field from absent to present with 0 adds its line but leaves
      the total where it was. */
  lemma ZeroLineShowsWithoutMovingTotal(inv: InvoiceData)
    ensures inv.tax == None ==>
              var after := TotalsOf(inv.(tax := Some(0.0)));
              after.tax.Some? && TotalsOf(inv).tax == None && after.total == TotalsOf(inv).total
    ensures inv.discount == None ==>
              var after := TotalsOf(inv.(discount := Some(0.0)));
              after.discount.Some? && TotalsOf(inv).discount == None && after.total == TotalsOf(inv).total
    ensures inv.shipping == None ==>
              var after := TotalsOf(inv.(shipping := Some(0.0)));
              after.shipping.Some? && TotalsOf(inv).shipping == None && after.total == TotalsOf(inv).total
  {
    AbsentIsLikeZero(inv);
  }

  /** The marks text: the legacy note, prefixed `Note:` on its own line, then a
      blank line, then the marks; either part may be missing. */
  function FinalMarks(note: Option<string>, marks: Option<string>): (r: string)
    ensures !Truthy(note) ==> r == OrElse(marks, "")
    ensures Truthy(note) && !Truthy(marks) ==> r == "Note:\n" + note.value
    ensures Truthy(note) && Truthy(marks) ==> r == "Note:\n" + note.value + "\n\n" + marks.value
  {
    var combinedMarks := OrElse(marks, "");
    var notePrefix := if Truthy(note) then "Note:\n" + note.value else "";
    if notePrefix != "" then
      (if combinedMarks != "" then notePrefix + "\n\n" + combinedMarks else notePrefix)
    else combinedMarks
  }

  /** The marks text is empty exactly when neither note nor marks has text. */
  lemma FinalMarksEmptyIff(note: Option<string>, marks: Option<string>)
    ensures FinalMarks(note, marks) == "" <==> !Truthy(note) && !Truthy(marks)
  {
    if Truthy(note) {
      assert FinalMarks(note, marks)[0] == 'N';
    }
  }

  /** The lines of the marks region: `Note:`, then the note's lines, then the
      marks' lines; the blank separator line disappears. */
  lemma MarksLinesCompose(note: Option<string>, marks: Option<string>)
    ensures SplitTextToLines(Some(FinalMarks(note, marks)))
         == (if Truthy(note) then ["Note:"] + SplitTextToLines(note) else [])
            + SplitTextToLines(marks)
  {
    if Truthy(note) {
      if Truthy(marks) {
        NoteThenMarksLines(note.value, marks.value);
      } else {
        NoteOnlyLines(note.value);
      }
    } else if !Truthy(marks) {
      assert SplitTextToLines(Some("")) == [];
    }
  }

  /** The prefix `Note:` is a single non-blank line. */
  lemma PrefixLine()
    ensures SplitTextToLines(Some("Note:")) == ["Note:"]
  {
    TrimKeepsContent("Note:", 0);
    LinesOfOneLine("Note:");
  }

  /** The note text is the prefix, a line break and the note. */
  lemma NoteTextShape(n: string)
    ensures "Note:\n" + n == "Note:" + "\n" + n
  {
  }

  /** With only a note, the lines are `Note:` and then the note's lines. */
  lemma NoteOnlyLines(n: string)
    ensures SplitTextToLines(Some("Note:\n" + n)) == ["Note:"] + SplitTextToLines(Some(n))
  {
    PrefixLine();
    NoteTextShape(n);
    LinesAround("Note:", n);
  }

  /** A leading line break adds only a blank line, which is dropped. */
  lemma BlankLineThenLines(m: string)
    ensures SplitTextToLines(Some("\n" + m)) == SplitTextToLines(Some(m))
  {
    assert "\n" + m == "" + "\n" + m;
    LinesAround("", m);
    assert SplitTextToLines(Some("")) == [];
  }

  /** Note then marks: the note, a line break, and the marks behind a blank line. */
  lemma MarksTextShape(n: string, m: string)
    ensures "Note:\n" + n + "\n\n" + m == "Note:\n" + (n + "\n" + ("\n" + m))
  {
  }

  /** With both note and marks, the lines are `Note:`, the note's lines and the
      marks' lines. */
  lemma NoteThenMarksLines(n: string, m: string)
    ensures SplitTextToLines(Some("Note:\n" + n + "\n\n" + m))
         == ["Note:"] + SplitTextToLines(Some(n)) + SplitTextToLines(Some(m))
  {
    var tail := "\n" + m;
    var body := n + "\n" + tail;
    MarksTextShape(n, m);
    calc {
      SplitTextToLines(Some("Note:\n" + n + "\n\n" + m));
      SplitTextToLines(Some("Note:\n" + body));
      { NoteOnlyLines(body); }
      ["Note:"] + SplitTextToLines(Some(body));
      { LinesAround(n, tail); }
      ["Note:"] + (SplitTextToLines(Some(n)) + SplitTextToLines(Some(tail)));
      { BlankLineThenLines(m); }
      ["Note:"] + (SplitTextToLines(Some(n)) + SplitTextToLines(Some(m)));
      ["Note:"] + SplitTextToLines(Some(n)) + SplitTextToLines(Some(m));
    }
  }

  /** The logo image and where it sits. */
  datatype LogoImage = LogoImage(src: string, alignment: Alignment)

  /** Everything the page shows, region by region. A region that is not
      rendered is `None`. */
  datatype Page = Page(
    title: string,
    additionalInfo: Option<seq<string>>,
    logo: Option<LogoImage>,
    header: Option<string>,
    from: string,
    to: string,
    invNumber: string,
    created: Instant,
    due: Instant,
    rows: seq<Row>,
    totals: TotalsBlock,
    marks: Option<seq<string>>,
    signature: Option<Option<string>>)

  /** The document for an invoice. */
  function Render(inv: InvoiceData): (page: Page)
    ensures page.title == Title(inv)
    ensures page.additionalInfo.Some? <==> Truthy(inv.additionalInfo)
    ensures page.additionalInfo.Some? ==> page.additionalInfo.value == SplitTextToLines(inv.additionalInfo)
    ensures page.logo.Some? <==> Truthy(inv.logo)
    ensures page.logo.Some? ==>
              page.logo.value == LogoImage(inv.logo.value, LogoAlignment(inv.logoPosition))
    ensures page.header == Label(inv)
    ensures page.from == inv.from && page.to == inv.to && page.invNumber == inv.invNumber
    ensures page.created == inv.date && page.due == inv.due
    ensures page.rows == ItemRows(inv)
    ensures page.totals == TotalsOf(inv)
    ensures page.marks.Some? <==> Truthy(inv.note) || Truthy(inv.marks)
    ensures page.marks.Some? ==>
              page.marks.value == SplitTextToLines(Some(FinalMarks(inv.note, inv.marks)))
    ensures page.signature.Some? <==> Truthy(inv.signature) || Truthy(inv.signatureText)
    ensures page.signature.Some? ==> (page.signature.value.Some? <==> Truthy(inv.signature))
    ensures page.signature.Some? && page.signature.value.Some? ==> page.signature.value.value == inv.signature.value
  {
    var finalMarks := FinalMarks(inv.note, inv.marks);
    FinalMarksEmptyIff(inv.note, inv.marks);
    Page(
      Title(inv),
      if Truthy(inv.additionalInfo) then Some(SplitTextToLines(inv.additionalInfo)) else None,
      if Truthy(inv.logo) then Some(LogoImage(inv.logo.value, LogoAlignment(inv.logoPosition))) else None,
      Label(inv),
      inv.from,
      inv.to,
      inv.invNumber,
      inv.date,
      inv.due,
      ItemRows(inv),
      TotalsOf(inv),
      if finalMarks != "" then Some(SplitTextToLines(Some(finalMarks))) else None,
      if Truthy(inv.signature) || Truthy(inv.signatureText) then
        Some(if Truthy(inv.signature) then Some(inv.signature.value) else None)
      else None)
  }

  /** One item at 100 with tax, discount and shipping all at 10:
      subtotal 100 and total 100 * 1.1 * 0.9 + 10 = 109. */
  lemma ScenarioAllAdjustments(inv: InvoiceData)
    requires inv.items == [Item("Item 1", 100.0, 1.0, None)]
    requires inv.tax == Some(10.0) && inv.discount == Some(10.0) && inv.shipping == Some(10.0)
    ensures Render(inv).totals.subtotal.amount == 100.0
    ensures Render(inv).totals.tax.value.amount.amount == 10.0
    ensures Render(inv).totals.discount.value.amount.amount == 10.0
    ensures Render(inv).totals.total.amount == 109.0
  {
    assert Sum(inv.items) == 100.0;
  }

  /** No items and no adjustments: an empty table and zero totals. */
  lemma ScenarioEmpty(inv: InvoiceData)
    requires inv.items == [] && inv.tax == None && inv.discount == None && inv.shipping == None
    ensures Render(inv).rows == []
    ensures Render(inv).totals.subtotal.amount == 0.0
    ensures Render(inv).totals.total.amount == 0.0
    ensures Render(inv).totals.tax == None && Render(inv).totals.discount == None
    ensures Render(inv).totals.shipping == None
  {
  }
}
