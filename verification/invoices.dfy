/** The invoice record the form edits and the document renders. The page and
    the document component declare the same shape; this is that one shape. */
module Invoices {
  import opened Optional

  /** The document types offered by the type selector. */
  datatype DocType = Invoice | Estimate | Quote | Custom

  /** The string value the selector stores for each type. */
  function TypeName(t: DocType): string
  {
    match t
    case Invoice => "invoice"
    case Estimate => "estimate"
    case Quote => "quote"
    case Custom => "custom"
  }

  /** Comparing the stored type name with `"custom"` picks out exactly the
      custom type, and no two types share a name. */
  lemma TypeNamesDistinct(t: DocType, u: DocType)
    ensures TypeName(t) == "custom" <==> t == Custom
    ensures TypeName(t) == TypeName(u) <==> t == u
  {
  }

  datatype LogoPosition = Left | Center | Right

  /** A point in time, as milliseconds since the epoch. The record keeps it as
      an ISO-8601 string; the string encoding itself is not modelled. */
  datatype Instant = Instant(millis: int)

  /** One line item. Prices and quantities are reals. */
  datatype Item = Item(description: string, price: real, quantity: real, note: Option<string>)

  datatype InvoiceData = InvoiceData(
    docType: DocType,
    customType: Option<string>,
    logo: Option<string>,
    logoPosition: Option<LogoPosition>,
    from: string,
    to: string,
    invNumber: string,
    date: Instant,
    due: Instant,
    items: seq<Item>,
    note: Option<string>,
    tax: Option<real>,
    discount: Option<real>,
    shipping: Option<real>,
    additionalInfo: Option<string>,
    signature: Option<string>,
    signatureText: Option<string>,
    marks: Option<string>,
    currency: Option<string>)
}
