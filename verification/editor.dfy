/** The invoice form (`src/app/page.tsx`): the record it starts from, the
    handlers that replace the record on each user action, the company and
    user lookups, and the figures and file name the page shows next to the
    preview. The page state is the record plus the selected company. */
module Editor {
  import opened Optional
  import opened Text
  import opened Invoices
  import opened Totals
  import opened Document

  /** `1000 * 60 * 60 * 24 * 30`: thirty days in milliseconds. */
  const ThirtyDays: int := 1000 * 60 * 60 * 24 * 30

  /** The record the form starts with; `now` is the clock reading in milliseconds. */
  function InitialInvoice(now: int): (inv: InvoiceData)
    ensures inv.docType == Invoice && inv.logoPosition == Some(Left) && inv.currency == Some("USD")
    ensures inv.items == [Item("Item 1", 100.0, 1.0, None)]
    ensures inv.date == Instant(now) && inv.due == Instant(now + ThirtyDays)
    ensures inv.due.millis - inv.date.millis == 2592000000
    ensures inv.from == "" && inv.to == "" && inv.invNumber == "" && inv.customType == None
    ensures inv.additionalInfo == None && inv.signature == None && inv.signatureText == None
    ensures inv.tax == None && inv.discount == None && inv.shipping == None
    ensures inv.logo == None && inv.note == None && inv.marks == None
    ensures Total(inv) == 100.0
    ensures Title(inv) == "invoice-"
  {
    var inv := InvoiceData(
      Invoice, None, None, Some(Left), "", "", "", Instant(now), Instant(now + ThirtyDays),
      [Item("Item 1", 100.0, 1.0, None)], None, None, None, None, None, None, None, None, Some("USD"));
    assert Sum(inv.items) == 100.0;
    inv
  }

  // ---------------------------------------------------------------------------
  // Lookups

  datatype UserInfo = UserInfo(name: string, email: string, phone: string, ccc: string, signPng: string)

  datatype CompanyLogo = CompanyLogo(name: string, logo: string)

  /** The static tables the form consults: the signature users, the companies
      with their logos, and each company's default marks and information text
      (a company missing from those maps gets the empty text). */
  datatype Directory = Directory(
    users: seq<UserInfo>,
    companies: seq<CompanyLogo>,
    marks: map<string, string>,
    info: map<string, string>)

  /** `list.find(x => x.name === name)`: the first entry with that name. */
  function FindFirst<T>(list: seq<T>, nameOf: T -> string, name: string): (r: Option<T>)
    ensures r.None? <==> forall i :: 0 <= i < |list| ==> nameOf(list[i]) != name
    ensures r.Some? ==> exists i :: 0 <= i < |list| && list[i] == r.value && nameOf(r.value) == name
                                    && forall j :: 0 <= j < i ==> nameOf(list[j]) != name
  {
    if |list| == 0 then None
    else if nameOf(list[0]) == name then Some(list[0])
    else
      var r := FindFirst(list[1..], nameOf, name);
      assert r.Some? ==> exists i :: 0 <= i < |list| && list[i] == r.value && nameOf(r.value) == name
                                     && forall j :: 0 <= j < i ==> nameOf(list[j]) != name by {
        if r.Some? {
          var k :| 0 <= k < |list[1..]| && list[1..][k] == r.value && nameOf(r.value) == name
                   && forall j :: 0 <= j < k ==> nameOf(list[1..][j]) != name;
          assert forall j :: 0 <= j < k + 1 ==> nameOf(list[j]) != name by {
            forall j | 0 <= j < k + 1 ensures nameOf(list[j]) != name {
              if j > 0 {
                assert list[j] == list[1..][j - 1];
              }
            }
          }
          assert list[k + 1] == r.value;
        }
      }
      r
  }

  /** The user list searched by name (`handleUserSelect`). */
  function FindUser(users: seq<UserInfo>, name: string): Option<UserInfo>
  {
    FindFirst(users, (u: UserInfo) => u.name, name)
  }

  /** The company list searched by name (`handleCompanySelect`). */
  function FindCompany(companies: seq<CompanyLogo>, name: string): Option<CompanyLogo>
  {
    FindFirst(companies, (c: CompanyLogo) => c.name, name)
  }

  /** `getMarksWithCompany`: the company's marks text, or `""` when it has none. */
  function MarksWithCompany(dir: Directory, company: string): string
  {
    if company in dir.marks then dir.marks[company] else ""
  }

  /** `getInformationWithCompany`: the company's information text, or `""`. */
  function InformationWithCompany(dir: Directory, company: string): string
  {
    if company in dir.info then dir.info[company] else ""
  }

  /** What the form holds: the record and the company picked in the selector. */
  datatype PageState = PageState(invoice: InvoiceData, selectedCompany: Option<string>)

  /** `handleUserSelect`: a known user becomes the signer and supplies the
      signature image; an unknown name changes nothing. */
  function SelectUser(dir: Directory, st: PageState, name: string): (r: PageState)
    ensures FindUser(dir.users, name) == None ==> r == st
    ensures FindUser(dir.users, name).Some? ==>
              var u := FindUser(dir.users, name).value;
              && r.invoice == st.invoice.(signatureText := Some(name), signature := Some(u.signPng))
              && r.selectedCompany == st.selectedCompany
    ensures FindUser(dir.users, name).Some? && name != "" ==> Render(r.invoice).signature.Some?
  {
    match FindUser(dir.users, name)
    case None => st
    case Some(u) =>
      st.(invoice := st.invoice.(signatureText := Some(u.name), signature := Some(u.signPng)))
  }

  /** `handleCompanySelect`: a known company selects itself and fills in the
      logo, marks and additional information; an unknown name changes nothing. */
  function SelectCompany(dir: Directory, st: PageState, name: string): (r: PageState)
    ensures FindCompany(dir.companies, name) == None ==> r == st
    ensures FindCompany(dir.companies, name).Some? ==>
              && r.selectedCompany == Some(name)
              && r.invoice == st.invoice.(logo := Some(FindCompany(dir.companies, name).value.logo),
                                         marks := Some(MarksWithCompany(dir, name)),
                                         additionalInfo := Some(InformationWithCompany(dir, name)))
  {
    match FindCompany(dir.companies, name)
    case None => st
    case Some(c) =>
      PageState(
        st.invoice.(logo := Some(c.logo),
                    marks := Some(MarksWithCompany(dir, name)),
                    additionalInfo := Some(InformationWithCompany(dir, name))),
        Some(name))
  }

  // ---------------------------------------------------------------------------
  // Items

  /** `items.map((i, k) => k == index ? change(i) : i)` */
  function UpdateItem(items: seq<Item>, index: int, change: Item -> Item): (r: seq<Item>)
    ensures |r| == |items|
    ensures forall j :: 0 <= j < |items| && j != index ==> r[j] == items[j]
    ensures 0 <= index < |items| ==> r == items[index := change(items[index])]
    ensures !(0 <= index < |items|) ==> r == items
  {
    seq(|items|, j requires 0 <= j < |items| => if j == index then change(items[j]) else items[j])
  }

  /** An edit of one item moves the sum by the change in that item's line total. */
  lemma UpdateItemSum(items: seq<Item>, index: int, change: Item -> Item)
    ensures 0 <= index < |items| ==>
              Sum(UpdateItem(items, index, change)) == Sum(items) - LineTotal(items[index]) + LineTotal(change(items[index]))
    ensures !(0 <= index < |items|) ==> Sum(UpdateItem(items, index, change)) == Sum(items)
  {
    if 0 <= index < |items| {
      SumReplace(items, index, change(items[index]));
    }
  }

  /** Editing the description of item `index`: nothing but that field of that
      item changes, and the totals stay where they were. */
  function EditDescription(inv: InvoiceData, index: int, text: string): (r: InvoiceData)
    ensures r == inv.(items := r.items)
    ensures |r.items| == |inv.items|
    ensures forall j :: 0 <= j < |inv.items| && j != index ==> r.items[j] == inv.items[j]
    ensures 0 <= index < |inv.items| ==> r.items[index] == inv.items[index].(description := text)
    ensures Subtotal(r.items) == Subtotal(inv.items)
    ensures Total(r) == Total(inv)
  {
    var change := (i: Item) => i.(description := text);
    var r := inv.(items := UpdateItem(inv.items, index, change));
    assert Sum(r.items) == Sum(inv.items) by {
      UpdateItemSum(inv.items, index, change);
      if 0 <= index < |inv.items| {
        assert LineTotal(change(inv.items[index])) == LineTotal(inv.items[index]);
      }
    }
    TotalFrame(r, inv);
    r
  }

  /** Editing the note of item `index`: nothing but that field of that item
      changes, and the totals stay where they were. */
  function EditNote(inv: InvoiceData, index: int, text: string): (r: InvoiceData)
    ensures r == inv.(items := r.items)
    ensures |r.items| == |inv.items|
    ensures forall j :: 0 <= j < |inv.items| && j != index ==> r.items[j] == inv.items[j]
    ensures 0 <= index < |inv.items| ==> r.items[index] == inv.items[index].(note := Some(text))
    ensures Subtotal(r.items) == Subtotal(inv.items)
    ensures Total(r) == Total(inv)
  {
    var change := (i: Item) => i.(note := Some(text));
    var r := inv.(items := UpdateItem(inv.items, index, change));
    assert Sum(r.items) == Sum(inv.items) by {
      UpdateItemSum(inv.items, index, change);
      if 0 <= index < |inv.items| {
        assert LineTotal(change(inv.items[index])) == LineTotal(inv.items[index]);
      }
    }
    TotalFrame(r, inv);
    r
  }

  /** Editing the price of item `index`: nothing but that field of that item
      changes, and the subtotal moves by the change in that item's line total. */
  function EditPrice(inv: InvoiceData, index: int, price: real): (r: InvoiceData)
    ensures r == inv.(items := r.items)
    ensures |r.items| == |inv.items|
    ensures forall j :: 0 <= j < |inv.items| && j != index ==> r.items[j] == inv.items[j]
    ensures 0 <= index < |inv.items| ==> r.items[index] == inv.items[index].(price := price)
    ensures 0 <= index < |inv.items| ==>
              Subtotal(r.items) == Subtotal(inv.items) + (price - inv.items[index].price) * inv.items[index].quantity
  {
    var r := inv.(items := UpdateItem(inv.items, index, (i: Item) => i.(price := price)));
    UpdateItemSum(inv.items, index, (i: Item) => i.(price := price));
    r
  }

  /** Editing the quantity of item `index`: nothing but that field of that item
      changes, and the subtotal moves by the change in that item's line total. */
  function EditQuantity(inv: InvoiceData, index: int, quantity: real): (r: InvoiceData)
    ensures r == inv.(items := r.items)
    ensures |r.items| == |inv.items|
    ensures forall j :: 0 <= j < |inv.items| && j != index ==> r.items[j] == inv.items[j]
    ensures 0 <= index < |inv.items| ==> r.items[index] == inv.items[index].(quantity := quantity)
    ensures 0 <= index < |inv.items| ==>
              Subtotal(r.items) == Subtotal(inv.items) + inv.items[index].price * (quantity - inv.items[index].quantity)
  {
    var r := inv.(items := UpdateItem(inv.items, index, (i: Item) => i.(quantity := quantity)));
    UpdateItemSum(inv.items, index, (i: Item) => i.(quantity := quantity));
    r
  }

  /** `s.filter((_, k) => k != index)` */
  function WithoutIndex<T>(s: seq<T>, index: int): seq<T>
  {
    if |s| == 0 then []
    else WithoutIndex(s[..|s| - 1], index) + (if |s| - 1 != index then [s[|s| - 1]] else [])
  }

  /** Dropping index `i` of a list leaves the elements before and after it, in
      order; an index outside the list drops nothing. */
  lemma {:induction false} WithoutIndexSlices<T>(s: seq<T>, index: int)
    ensures 0 <= index < |s| ==> WithoutIndex(s, index) == s[..index] + s[index + 1..]
    ensures !(0 <= index < |s|) ==> WithoutIndex(s, index) == s
  {
    if |s| > 0 {
      var init := s[..|s| - 1];
      WithoutIndexSlices(init, index);
      if index == |s| - 1 {
        assert s[index + 1..] == [];
        assert init == s[..index];
      } else if 0 <= index < |s| - 1 {
        assert init[..index] == s[..index];
        assert init[index + 1..] + [s[|s| - 1]] == s[index + 1..];
      } else {
        assert init + [s[|s| - 1]] == s;
      }
    }
  }

  /** A list is the part before index `i`, element `i`, and the part after. */
  lemma AroundIndex<T>(s: seq<T>, i: int)
    requires 0 <= i < |s|
    ensures s == s[..i] + [s[i]] + s[i + 1..]
  {
  }

  /** Dropping one item takes its line total off the sum. */
  lemma RemoveSum(items: seq<Item>, index: int)
    ensures 0 <= index < |items| ==>
              Sum(items[..index] + items[index + 1..]) == Sum(items) - LineTotal(items[index])
  {
    if 0 <= index < |items| {
      var before := items[..index];
      var after := items[index + 1..];
      AroundIndex(items, index);
      SumAround(before, items[index], after);
    }
  }

  /** Removing item `index`: the list loses exactly that item, the survivors
      keep their order, the subtotal drops by its line total, and nothing else
      changes. An index outside the list changes nothing. */
  function RemoveItem(inv: InvoiceData, index: int): (r: InvoiceData)
    ensures r == inv.(items := r.items)
    ensures 0 <= index < |inv.items| ==>
              && |r.items| == |inv.items| - 1
              && r.items == inv.items[..index] + inv.items[index + 1..]
              && Subtotal(r.items) == Subtotal(inv.items) - LineTotal(inv.items[index])
    ensures !(0 <= index < |inv.items|) ==> r == inv
  {
    WithoutIndexSlices(inv.items, index);
    RemoveSum(inv.items, index);
    inv.(items := WithoutIndex(inv.items, index))
  }

  /** The item `Add Item` appends to a list of `n` items. */
  function NewItem(n: nat): Item
  {
    Item("Item " + NatToString(n + 1), 0.0, 1.0, None)
  }

  /** `Add Item`: one item, numbered one past the current count, at price 0 and
      quantity 1, goes after the existing ones, which stay as they were; the
      subtotal does not move. */
  function AddItem(inv: InvoiceData): (r: InvoiceData)
    ensures r == inv.(items := r.items)
    ensures |r.items| == |inv.items| + 1 && r.items[..|inv.items|] == inv.items
    ensures r.items[|inv.items|].price == 0.0 && r.items[|inv.items|].quantity == 1.0
    ensures r.items[|inv.items|].note == None
    ensures r.items[|inv.items|].description == "Item " + NatToString(|inv.items| + 1)
    ensures Subtotal(r.items) == Subtotal(inv.items)
  {
    var item := NewItem(|inv.items|);
    SumConcat(inv.items, [item]);
    inv.(items := inv.items + [item])
  }

  /** Removing the item just added gives back the record. */
  lemma RemoveUndoesAdd(inv: InvoiceData)
    ensures RemoveItem(AddItem(inv), |inv.items|) == inv
  {
    var added := AddItem(inv);
    assert added.items[..|inv.items|] + added.items[|inv.items| + 1..] == inv.items;
  }

  // ---------------------------------------------------------------------------
  // Tax, discount and shipping

  /** The `+`/`-` button of an optional amount: an absent field becomes 10, a
      present one becomes absent. */
  function Toggle(field: Option<real>): (r: Option<real>)
    ensures field == None ==> r == Some(10.0)
    ensures field != None ==> r == None
  {
    if field == None then Some(10.0) else None
  }

  /** Pressing the button twice returns an absent field to absent, but a
      present field comes back as 10 whatever its value was. */
  lemma ToggleTwice(field: Option<real>)
    ensures field == None ==> Toggle(Toggle(field)) == None
    ensures field != None ==> Toggle(Toggle(field)) == Some(10.0)
  {
  }

  function ToggleTax(inv: InvoiceData): (r: InvoiceData)
    ensures r == inv.(tax := Toggle(inv.tax))
    ensures r.tax.Some? <==> inv.tax == None
  {
    inv.(tax := if inv.tax == None then Some(10.0) else None)
  }

  function ToggleDiscount(inv: InvoiceData): (r: InvoiceData)
    ensures r == inv.(discount := Toggle(inv.discount))
    ensures r.discount.Some? <==> inv.discount == None
  {
    inv.(discount := if inv.discount == None then Some(10.0) else None)
  }

  function ToggleShipping(inv: InvoiceData): (r: InvoiceData)
    ensures r == inv.(shipping := Toggle(inv.shipping))
    ensures r.shipping.Some? <==> inv.shipping == None
  {
    inv.(shipping := if inv.shipping == None then Some(10.0) else None)
  }

  /** A toggle shows or hides exactly its own line in the totals block. */
  lemma ToggleShowsOwnLine(inv: InvoiceData)
    ensures var after := TotalsOf(ToggleTax(inv));
            (after.tax.Some? <==> TotalsOf(inv).tax == None)
            && after.discount == TotalsOf(inv).discount && after.shipping == TotalsOf(inv).shipping
    ensures var after := TotalsOf(ToggleDiscount(inv));
            (after.discount.Some? <==> TotalsOf(inv).discount == None)
            && after.tax == TotalsOf(inv).tax && after.shipping == TotalsOf(inv).shipping
    ensures var after := TotalsOf(ToggleShipping(inv));
            (after.shipping.Some? <==> TotalsOf(inv).shipping == None)
            && after.tax == TotalsOf(inv).tax && after.discount == TotalsOf(inv).discount
  {
    PercentLinesFrame(inv, ToggleTax(inv));
    PercentLinesFrame(inv, ToggleDiscount(inv));
    PercentLinesFrame(inv, ToggleShipping(inv));
  }

  /** The tax and discount lines depend only on the items and the currency. */
  lemma PercentLinesFrame(a: InvoiceData, b: InvoiceData)
    requires a.items == b.items && a.currency == b.currency
    ensures forall f :: PercentLineOf(a, f) == PercentLineOf(b, f)
  {
    assert Currency(a) == Currency(b);
    forall f ensures PercentLineOf(a, f) == PercentLineOf(b, f) {
      if f.Some? {
        assert PercentLineOf(a, f).value == PercentLineOf(b, f).value;
      }
    }
  }

  // ---------------------------------------------------------------------------
  // Dates

  /** The calendar's `onSelect`: `date?.toISOString() || previous`. Clearing
      the selection keeps the previous date. */
  function PickDate(previous: Instant, picked: Option<Instant>): (r: Instant)
    ensures picked == None ==> r == previous
    ensures picked.Some? ==> r == picked.value
  {
    match picked
    case None => previous
    case Some(d) => d
  }

  // ---------------------------------------------------------------------------
  // The page

  /** Every user action on the form. Values typed into numeric inputs arrive
      already parsed; a file input delivers an object URL, or nothing when the
      browser gives no file list. */
  datatype Edit =
    | SelectType(docType: DocType)
    | TypeCustomType(text: string)
    | ChooseCompany(company: string)
    | UploadLogo(url: Option<string>)
    | RemoveLogo
    | PlaceLogo(position: LogoPosition)
    | TypeFrom(text: string)
    | TypeTo(text: string)
    | TypeInvNumber(text: string)
    | PickCreated(picked: Option<Instant>)
    | PickDue(picked: Option<Instant>)
    | TypeDescription(index: int, text: string)
    | TypePrice(index: int, amount: real)
    | TypeQuantity(index: int, amount: real)
    | TypeNote(index: int, text: string)
    | DeleteItem(index: int)
    | AppendItem
    | TypeAdditionalInfo(text: string)
    | ResetAdditionalInfo
    | TypeMarks(text: string)
    | ResetMarks
    | UploadSignature(url: Option<string>)
    | RemoveSignature
    | ChooseUser(name: string)
    | ChooseCurrency(code: string)
    | PressTax
    | PressDiscount
    | PressShipping
    | TypeTax(amount: real)
    | TypeDiscount(amount: real)
    | TypeShipping(amount: real)

  /** The actions of the item list. */
  predicate EditsItems(e: Edit)
  {
    e.TypeDescription? || e.TypePrice? || e.TypeQuantity? || e.TypeNote? || e.DeleteItem? || e.AppendItem?
  }

  /** The state after one user action. Only item actions touch the items,
      only the company selector and logo removal touch the selected company,
      and the legacy note is never touched. */
  function Apply(dir: Directory, st: PageState, e: Edit): (r: PageState)
    ensures !EditsItems(e) ==> r.invoice.items == st.invoice.items
    ensures !(e.ChooseCompany? || e.RemoveLogo?) ==> r.selectedCompany == st.selectedCompany
    ensures r.invoice.note == st.invoice.note
    ensures !MovesMoney(e) ==>
              r.invoice.tax == st.invoice.tax && r.invoice.discount == st.invoice.discount
              && r.invoice.shipping == st.invoice.shipping
  {
    var inv := st.invoice;
    match e
    case SelectType(t) => st.(invoice := inv.(docType := t))
    case TypeCustomType(text) => st.(invoice := inv.(customType := Some(text)))
    case ChooseCompany(name) => SelectCompany(dir, st, name)
    case UploadLogo(url) => if url.Some? then st.(invoice := inv.(logo := url)) else st
    case RemoveLogo => PageState(inv.(logo := None), None)
    case PlaceLogo(p) => st.(invoice := inv.(logoPosition := Some(p)))
    case TypeFrom(text) => st.(invoice := inv.(from := text))
    case TypeTo(text) => st.(invoice := inv.(to := text))
    case TypeInvNumber(text) => st.(invoice := inv.(invNumber := text))
    case PickCreated(picked) => st.(invoice := inv.(date := PickDate(inv.date, picked)))
    case PickDue(picked) => st.(invoice := inv.(due := PickDate(inv.due, picked)))
    case TypeDescription(i, text) => st.(invoice := EditDescription(inv, i, text))
    case TypePrice(i, amount) => st.(invoice := EditPrice(inv, i, amount))
    case TypeQuantity(i, amount) => st.(invoice := EditQuantity(inv, i, amount))
    case TypeNote(i, text) => st.(invoice := EditNote(inv, i, text))
    case DeleteItem(i) => st.(invoice := RemoveItem(inv, i))
    case AppendItem => st.(invoice := AddItem(inv))
    case TypeAdditionalInfo(text) => st.(invoice := inv.(additionalInfo := Some(text)))
    case ResetAdditionalInfo =>
      if Truthy(st.selectedCompany) then
        st.(invoice := inv.(additionalInfo := Some(InformationWithCompany(dir, st.selectedCompany.value))))
      else st
    case TypeMarks(text) => st.(invoice := inv.(marks := Some(text)))
    case ResetMarks =>
      if Truthy(st.selectedCompany) then
        st.(invoice := inv.(marks := Some(MarksWithCompany(dir, st.selectedCompany.value))))
      else st
    case UploadSignature(url) => st.(invoice := inv.(signature := if url.Some? then url else inv.signature))
    case RemoveSignature => st.(invoice := inv.(signature := None))
    case ChooseUser(name) => SelectUser(dir, st, name)
    case ChooseCurrency(code) => st.(invoice := inv.(currency := Some(code)))
    case PressTax => st.(invoice := ToggleTax(inv))
    case PressDiscount => st.(invoice := ToggleDiscount(inv))
    case PressShipping => st.(invoice := ToggleShipping(inv))
    case TypeTax(amount) => st.(invoice := inv.(tax := Some(amount)))
    case TypeDiscount(amount) => st.(invoice := inv.(discount := Some(amount)))
    case TypeShipping(amount) => st.(invoice := inv.(shipping := Some(amount)))
  }

  /** The actions that can move the total: prices, quantities, removing an
      item, and the tax, discount and shipping fields. */
  predicate MovesMoney(e: Edit)
  {
    e.TypePrice? || e.TypeQuantity? || e.DeleteItem?
    || e.PressTax? || e.PressDiscount? || e.PressShipping?
    || e.TypeTax? || e.TypeDiscount? || e.TypeShipping?
  }

  /** Every other action, adding an item included, leaves the total alone. */
  lemma OtherEditsKeepTotal(dir: Directory, st: PageState, e: Edit)
    requires !MovesMoney(e)
    ensures Total(Apply(dir, st, e).invoice) == Total(st.invoice)
  {
    var before := st.invoice;
    var after := Apply(dir, st, e).invoice;
    assert Sum(after.items) == Sum(before.items) by {
      match e
      case TypeDescription(i, text) =>
        assert Subtotal(EditDescription(before, i, text).items) == Subtotal(before.items);
      case TypeNote(i, text) =>
        assert Subtotal(EditNote(before, i, text).items) == Subtotal(before.items);
      case AppendItem =>
        assert Subtotal(AddItem(before).items) == Subtotal(before.items);
      case _ =>
    }
    TotalFrame(before, after);
  }

  /** The total depends only on the items, tax, discount and shipping. */
  lemma TotalFrame(a: InvoiceData, b: InvoiceData)
    requires Sum(a.items) == Sum(b.items)
    requires a.tax == b.tax && a.discount == b.discount && a.shipping == b.shipping
    ensures Total(a) == Total(b)
  {
  }

  /** Only adding and removing change the number of items, by one each way. */
  lemma ItemCountChanges(dir: Directory, st: PageState, e: Edit)
    ensures var n := |st.invoice.items|;
            var m := |Apply(dir, st, e).invoice.items|;
            if e.AppendItem? then m == n + 1
            else if e.DeleteItem? && 0 <= e.index < n then m == n - 1
            else m == n
  {
  }

  /** Applying a sequence of actions, first to last. */
  function Run(dir: Directory, st: PageState, edits: seq<Edit>): PageState
    decreases |edits|
  {
    if |edits| == 0 then st else Run(dir, Apply(dir, st, edits[0]), edits[1..])
  }

  /** Actions that never move the total leave it alone over any session. */
  lemma {:induction false} SessionKeepsTotal(dir: Directory, st: PageState, edits: seq<Edit>)
    requires forall i :: 0 <= i < |edits| ==> !MovesMoney(edits[i])
    ensures Total(Run(dir, st, edits).invoice) == Total(st.invoice)
    decreases |edits|
  {
    if |edits| > 0 {
      OtherEditsKeepTotal(dir, st, edits[0]);
      SessionKeepsTotal(dir, Apply(dir, st, edits[0]), edits[1..]);
    }
  }

  /** The subtotal figure on the form: the same `reduce` as the document's. */
  function PageSubtotal(inv: InvoiceData): (r: real)
    ensures r == Render(inv).totals.subtotal.amount
    ensures r == Sum(inv.items)
  {
    ReduceIsSum(0.0, inv.items);
    Reduce(0.0, inv.items)
  }

  /** The total figure on the form. It is computed by its own expression and
      agrees with the total the document prints. */
  function PageTotal(inv: InvoiceData): (r: real)
    ensures r == Render(inv).totals.total.amount
  {
    ReduceIsSum(0.0, inv.items);
    Reduce(0.0, inv.items) * (1.0 + OrZero(inv.tax) / 100.0) * (1.0 - OrZero(inv.discount) / 100.0)
      + OrZero(inv.shipping)
  }

  /** The download's file name: the document title followed by `.pdf`. */
  function ExportFileName(inv: InvoiceData): (name: string)
    ensures name == Render(inv).title + ".pdf"
    ensures inv.docType != Custom ==> name == TypeName(inv.docType) + "-" + inv.invNumber + ".pdf"
    ensures inv.docType == Custom && inv.customType == None ==> name == "undefined-" + inv.invNumber + ".pdf"
  {
    JsString(if TypeName(inv.docType) == "custom" then inv.customType else Some(TypeName(inv.docType)))
      + "-" + inv.invNumber + ".pdf"
  }
}
