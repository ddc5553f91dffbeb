/**
 * The summary of an INCA insurance document (Services/IncaDocumentSummarizer.cs):
 * a preflight read decides from the root element whether the file is an INCA
 * document at all; if so the document is loaded and rendered section by
 * section (header, addressee, companies, insurances, benefits, value reserves,
 * persons), with tables drawn by the text table renderer and the long lists
 * capped.  The StringBuilder is modelled as the sequence of lines appended to
 * it.
 */
module IncaDocument {
  import opened Wrappers
  import opened Text
  import opened TextTables
  import opened XmlModel

  const Xsi: string := "http://www.w3.org/2001/XMLSchema-instance"
  const IncaData: string := "http://schemas.itello.se/Inca/datamodel"
  const LoadError: string := "Error summarizing INCA document: "
  const EmptyDocument: string := "Empty INCA document."

  /** The benefits and persons listed before a "more" note, and the value reserves shown. */
  const MaxBenefits: nat := 6
  const MaxPersons: nat := 6
  const MaxReserves: nat := 5

  /**
   * The file as the two readers see it: the node stream of the preflight
   * `XmlReader`, and what `XDocument.Load` makes of the second read.
   */
  datatype IncaSource = IncaSource(preflight: NodeStream, document: DocumentLoad)

  // ---------------------------------------------------------------------
  // Detection
  // ---------------------------------------------------------------------

  /** The root is `incaDocument` (any case) in a namespace containing "schemas.itello.se/Inca" (any case). */
  predicate IsIncaRoot(c: Content)
  {
    c.ContentElement? && c.node.StartElement?
    && EqualsIgnoreCase(c.node.localName, "incaDocument")
    && ContainsIgnoreCase(c.node.namespaceUri, "schemas.itello.se/Inca")
  }

  /**
   * `TrySummarize`: `None` for "false" (the first content node is not an
   * element, it is not an INCA root, or the preflight read failed); otherwise
   * the summary, or the load error as text.
   */
  function TrySummarize(source: IncaSource): (summary: Option<string>)
    ensures summary.Some? <==> IsIncaRoot(MoveToContent(source.preflight))
    ensures summary.Some? && source.document.LoadFailed? ==>
      summary.value == LoadError + source.document.message
    ensures summary.Some? && source.document.Loaded? ==>
      summary.value == Summary(source.document.root)
  {
    if !IsIncaRoot(MoveToContent(source.preflight)) then Option.None
    else
      match source.document
      case LoadFailed(message) => Some(LoadError + message)
      case Loaded(root) => Some(Summary(root))
  }

  // ---------------------------------------------------------------------
  // Lookups
  // ---------------------------------------------------------------------

  /** `e.Attribute(name)?.Value` for an attribute in no namespace. */
  function Attr(e: XElement, name: string): Option<string>
  {
    Attribute(e, Local(name))
  }

  /** `e.Attribute(Xsi + "type")?.Value`. */
  function XsiType(e: XElement): Option<string>
  {
    Attribute(e, XName(Xsi, "type"))
  }

  /** `e.Element(ns + name)?.Value`. */
  function ChildValue(e: XElement, ns: string, name: string): Option<string>
  {
    ElementValue(e, XName(ns, name))
  }

  /** `e.Element(ns + name)?.Attribute(attribute)?.Value`. */
  function ChildAttr(e: XElement, ns: string, name: string, attribute: string): Option<string>
  {
    ElementAttribute(e, XName(ns, name), Local(attribute))
  }

  // ---------------------------------------------------------------------
  // Parts
  // ---------------------------------------------------------------------

  predicate AllVisible(parts: seq<string>)
  {
    forall k :: 0 <= k < |parts| ==> !IsBlank(parts[k])
  }

  /** `AddPart`: appends "tag: value" when the value is not null or white space, and otherwise changes nothing. */
  function AddPart(parts: seq<string>, tag: string, value: Option<string>): (r: seq<string>)
    ensures IsNullOrWhiteSpace(value) <==> r == parts
    ensures !IsNullOrWhiteSpace(value) ==> r == parts + [tag + ": " + value.value]
    ensures AllVisible(parts) ==> AllVisible(r)
  {
    if IsNullOrWhiteSpace(value) then parts
    else
      var part := tag + ": " + value.value;
      assert part[|tag|] == ':';
      parts + [part]
  }

  /** `parts.Where(p => !string.IsNullOrWhiteSpace(p))`. */
  function Visible(parts: seq<string>): (r: seq<string>)
    ensures AllVisible(r) && |r| <= |parts|
    ensures forall p :: p in r ==> p in parts
    ensures AllVisible(parts) ==> r == parts
    decreases |parts|
  {
    if |parts| == 0 then []
    else
      var rest := Visible(parts[1..]);
      assert parts == [parts[0]] + parts[1..];
      assert forall k :: 0 <= k < |parts| - 1 ==> parts[1..][k] == parts[k + 1];
      if IsBlank(parts[0]) then rest else [parts[0]] + rest
  }

  /** `values.Where(s => !string.IsNullOrWhiteSpace(s))` over nullable strings. */
  function VisibleValues(values: seq<Option<string>>): (r: seq<string>)
    ensures AllVisible(r)
    ensures |r| == 0 <==> forall k :: 0 <= k < |values| ==> IsNullOrWhiteSpace(values[k])
    decreases |values|
  {
    if |values| == 0 then []
    else
      var rest := VisibleValues(values[1..]);
      assert forall k :: 0 <= k < |values| - 1 ==> values[1..][k] == values[k + 1];
      if IsNullOrWhiteSpace(values[0]) then rest else [values[0].value] + rest
  }

  /** `Where`/`Select` over the beneficiary flags: "name=value" for each flag whose value is not blank. */
  function Flags(flags: seq<(string, Option<string>)>): (r: seq<string>)
    ensures |r| == 0 <==> forall k :: 0 <= k < |flags| ==> IsNullOrWhiteSpace(flags[k].1)
    decreases |flags|
  {
    if |flags| == 0 then []
    else
      var rest := Flags(flags[1..]);
      assert forall k :: 0 <= k < |flags| - 1 ==> flags[1..][k] == flags[k + 1];
      (if IsNullOrWhiteSpace(flags[0].1) then [] else [flags[0].0 + "=" + flags[0].1.value]) + rest
  }

  /** An "id=…" part is visible. */
  lemma IdPartVisible(first: string)
    requires StartsWith(first, "id=")
    ensures AllVisible([first])
  {
    assert first[0] == 'i';
  }

  lemma JoinStarts(sep: string, parts: seq<string>)
    requires |parts| > 0
    ensures StartsWith(Join(sep, parts), parts[0])
  {
    if |parts| > 1 {
      assert Join(sep, parts) == parts[0] + (sep + Join(sep, parts[1..]));
    }
  }

  /** Joining visible parts gives blank text exactly when there are none. */
  lemma JoinVisible(sep: string, parts: seq<string>)
    requires AllVisible(parts)
    ensures IsBlank(Join(sep, parts)) <==> |parts| == 0
  {
    if |parts| > 0 {
      JoinStarts(sep, parts);
      var j :| 0 <= j < |parts[0]| && !IsWhiteSpace(parts[0][j]);
      var joined := Join(sep, parts);
      assert joined[..|parts[0]|][j] == joined[j];
    }
  }

  /** `FormatId`: "" for a blank id, else " (personId=…)" from which the id reads back. */
  function FormatId(value: Option<string>): (r: string)
    ensures r == "" <==> IsNullOrWhiteSpace(value)
    ensures r != "" ==> |r| >= 12 && r[..11] == " (personId=" && r[11..|r| - 1] == value.value && r[|r| - 1] == ')'
  {
    if IsNullOrWhiteSpace(value) then "" else " (personId=" + value.value + ")"
  }

  /**
   * `FormatRange` (declared in the source but called nowhere): empty when both
   * ends are blank, an arrow with whichever ends are present otherwise.
   */
  function FormatRange(from: Option<string>, to: Option<string>): (r: string)
    ensures r == "" <==> IsNullOrWhiteSpace(from) && IsNullOrWhiteSpace(to)
    ensures r != "" ==> '\U{2192}' in r
    ensures !IsNullOrWhiteSpace(from) ==> StartsWith(r, from.value)
    ensures !IsNullOrWhiteSpace(to) ==> EndsWith(r, to.value)
    ensures IsNullOrWhiteSpace(from) && !IsNullOrWhiteSpace(to) ==> r == "\U{2192} " + to.value
    ensures !IsNullOrWhiteSpace(from) && IsNullOrWhiteSpace(to) ==> r == from.value + " \U{2192}"
    ensures !IsNullOrWhiteSpace(from) && !IsNullOrWhiteSpace(to) ==> r == from.value + " \U{2192} " + to.value
  {
    if IsNullOrWhiteSpace(from) && IsNullOrWhiteSpace(to) then ""
    else if IsNullOrWhiteSpace(from) then
      var r := "\U{2192} " + to.value;
      assert r[0] == '\U{2192}';
      r
    else if IsNullOrWhiteSpace(to) then
      var r := from.value + " \U{2192}";
      assert r[|r| - 1] == '\U{2192}';
      r
    else
      var r := from.value + " \U{2192} " + to.value;
      assert r[|from.value| + 1] == '\U{2192}';
      assert r[..|from.value|] == from.value;
      r
  }


  /** A list of parts written on one line: two spaces, then the visible parts joined by " | ". */
  function PartsLine(parts: seq<string>): string
  {
    "  " + Join(" | ", Visible(parts))
  }

  /** A line of parts led by an "id=" part starts with "  id=". */
  lemma IdLineStart(parts: seq<string>)
    requires |parts| > 0 && StartsWith(parts[0], "id=") && AllVisible(parts)
    ensures |PartsLine(parts)| >= 5 && PartsLine(parts)[..5] == "  id="
  {
    JoinStarts(" | ", parts);
    var joined := Join(" | ", parts);
    assert joined[..3] == parts[0][..3];
    assert PartsLine(parts)[2..5] == joined[..3];
  }

  // ---------------------------------------------------------------------
  // Document header, addressee, companies
  // ---------------------------------------------------------------------

  function HeaderLines(root: XElement): (lines: seq<string>)
    ensures |lines| >= 1 && lines[0] == "Document: " + NameText(root.name)
  {
    var parts := AddPart(AddPart(AddPart(AddPart(AddPart([],
      "type", XsiType(root)),
      "printDocumentId", Attr(root, "printDocumentId")),
      "incaVersion", Attr(root, "incaVersion")),
      "printDate", Attr(root, "printDate")),
      "userName", Attr(root, "userName"));
    ["Document: " + NameText(root.name)]
    + (if |parts| > 0 then ["  " + Join(" | ", parts)] else [])
  }

  /** The seven address fields, in the order they are listed. */
  function AddressValues(address: XElement, iddm: string): (values: seq<Option<string>>)
    ensures |values| == 7
  {
    [ChildValue(address, iddm, "addressRow1"), ChildValue(address, iddm, "row1"),
     ChildValue(address, iddm, "row2"), ChildValue(address, iddm, "row3"),
     ChildValue(address, iddm, "city"), ChildValue(address, iddm, "postCode"),
     ChildAttr(address, iddm, "country", "countryCode")]
  }

  /** The address line of a list of address fields. */
  function AddressLine(values: seq<Option<string>>): seq<string>
  {
    var summary := Join(", ", VisibleValues(values));
    if !IsBlank(summary) then ["  Address: " + summary] else []
  }

  /** The address line is written exactly when one of the address fields is not blank. */
  lemma AddressShown(values: seq<Option<string>>)
    ensures AddressLine(values) == [] <==> forall k :: 0 <= k < |values| ==> IsNullOrWhiteSpace(values[k])
  {
    JoinVisible(", ", VisibleValues(values));
  }

  function AddresseeLines(addressee: XElement, iddm: string): seq<string>
  {
    var kind := XsiType(addressee).GetOr(addressee.name.localName);
    var firstName := ChildValue(addressee, iddm, "firstName");
    var name := ChildValue(addressee, iddm, "name");
    var extras := AddPart(AddPart([],
      "Language", ChildAttr(addressee, iddm, "language", "language")),
      "Status", ChildValue(addressee, iddm, "status"));
    var address := Element(addressee, XName(iddm, "address"));
    ["Addressee (" + kind + FormatId(Attr(addressee, "personId")) + ")"]
    + (if !IsNullOrWhiteSpace(firstName) || !IsNullOrWhiteSpace(name)
       then ["  Name: " + Join(" ", VisibleValues([firstName, name]))] else [])
    + (if |extras| > 0 then ["  " + Join(" | ", extras)] else [])
    + (if address.Some? then AddressLine(AddressValues(address.value, iddm)) else [])
  }

  function CompanyParts(company: XElement, iddm: string): (parts: seq<string>)
    ensures |parts| >= 1 && StartsWith(parts[0], "id=") && AllVisible(parts)
  {
    var first := "id=" + Attr(company, "administratingCompanyId").GetOr("?");
    IdPartVisible(first);
    AddPart(AddPart(AddPart([first],
      "Name", ChildValue(company, iddm, "administratingCompanyName")),
      "Country", ChildAttr(company, iddm, "operationsCountry", "countryCode")),
      "LegalPerson", ChildAttr(company, iddm, "legalPerson", "personId"))
  }

  function CompanyLines(companies: seq<XElement>, iddm: string): (lines: seq<string>)
    ensures |lines| == |companies|
  {
    seq(|companies|, k requires 0 <= k < |companies| => PartsLine(CompanyParts(companies[k], iddm)))
  }

  function CompaniesLines(companies: seq<XElement>, iddm: string): seq<string>
  {
    if |companies| == 0 then []
    else ["Administrating Company (" + NatToString(|companies|) + ")"] + CompanyLines(companies, iddm)
  }

  // ---------------------------------------------------------------------
  // Tables
  // ---------------------------------------------------------------------

  const RoleHeaders: seq<string> := ["Role", "PersonId", "From", "To"]
  const PrimaryHeaders: seq<string> := ["ContractId", "Status", "Type", "Start", "Fee"]
  const BeneficiaryHeaders: seq<string> := ["ContractId", "Beneficiary", "From", "To", "Flags"]
  const PaymentHeaders: seq<string> :=
    ["ContractId", "Frequency", "From", "To", "Months", "%", "Receiver", "Type", "End"]
  const CompensationHeaders: seq<string> := ["ContractId", "From", "To", "Details"]

  /** The tables filled element by element. */
  datatype TableKind = Roles | Primary | Beneficiaries | Payments | Compensation

  function RoleRow(role: XElement, iddm: string): seq<string>
  {
    [ChildValue(role, iddm, "role").GetOr("(unknown role)"),
     ChildAttr(role, iddm, "person", "personId").GetOr(""),
     Attr(role, "contractRoleFrom").GetOr(""),
     Attr(role, "contractRoleTo").GetOr("")]
  }

  function PrimaryRow(benefit: XElement, iddm: string): seq<string>
  {
    [Attr(benefit, "contractId").GetOr(""),
     ChildValue(benefit, iddm, "contractStatus").GetOr(""),
     ChildValue(benefit, iddm, "benefitType").GetOr(""),
     ChildValue(benefit, iddm, "contractStartDate").GetOr(""),
     ChildValue(benefit, iddm, "feeTechnique").GetOr("")]
  }

  /** The three beneficiary flags, by name. */
  function BeneficiaryFlags(beneficiary: XElement, iddm: string): seq<(string, Option<string>)>
  {
    [("cancelable", ChildValue(beneficiary, iddm, "cancelable")),
     ("disposition", ChildValue(beneficiary, iddm, "disposition")),
     ("privateProperty", ChildValue(beneficiary, iddm, "privateProperty"))]
  }

  /** The id, from and to values of a beneficiary. */
  function BeneficiaryValues(beneficiary: XElement, iddm: string): seq<Option<string>>
  {
    [ChildValue(beneficiary, iddm, "beneficiary"), Attr(beneficiary, "beneficiaryFrom"), Attr(beneficiary, "beneficiaryTo")]
  }

  /** The row of a beneficiary with id, from and to `values`, if it has a value or a flag to show. */
  function BeneficiaryLine(contractId: string, values: seq<Option<string>>, flags: seq<(string, Option<string>)>)
    : Option<seq<string>>
    requires |values| == 3
  {
    var parts := AddPart(AddPart(AddPart([], "id", values[0]), "from", values[1]), "to", values[2]);
    var shown := Flags(flags);
    if !IsBlank(Join(" | ", Visible(parts))) || |shown| > 0 then
      Some([contractId, values[0].GetOr(""), values[1].GetOr(""), values[2].GetOr(""), Join(", ", shown)])
    else Option.None
  }

  /** A beneficiary has a row exactly when one of its id, from, to or flag values is not blank. */
  lemma BeneficiaryShown(contractId: string, values: seq<Option<string>>, flags: seq<(string, Option<string>)>)
    requires |values| == 3
    ensures BeneficiaryLine(contractId, values, flags).Some? <==>
      (exists k :: 0 <= k < 3 && !IsNullOrWhiteSpace(values[k]))
      || (exists k :: 0 <= k < |flags| && !IsNullOrWhiteSpace(flags[k].1))
  {
    var parts := AddPart(AddPart(AddPart([], "id", values[0]), "from", values[1]), "to", values[2]);
    JoinVisible(" | ", Visible(parts));
    assert |parts| == 0 <==> forall k :: 0 <= k < 3 ==> IsNullOrWhiteSpace(values[k]);
  }

  function BeneficiaryRow(benefit: XElement, iddm: string): Option<seq<string>>
  {
    var found := Element(benefit, XName(iddm, "beneficiary"));
    if found.None? then Option.None
    else
      BeneficiaryLine(Attr(benefit, "contractId").GetOr(""),
        BeneficiaryValues(found.value, iddm), BeneficiaryFlags(found.value, iddm))
  }

  function PaymentRow(benefit: XElement, iddm: string): Option<seq<string>>
  {
    var found := Element(benefit, XName(iddm, "benefitAmount"));
    if found.None? then Option.None
    else
      var payment := found.value;
      Some([Attr(benefit, "contractId").GetOr(""),
            ChildValue(benefit, iddm, "outPaymentFrequency").OrElse(ChildValue(payment, iddm, "outPaymentFrequency")).GetOr(""),
            ChildValue(payment, iddm, "benefitAmountPaymentFromDate").GetOr(""),
            ChildValue(payment, iddm, "benefitAmountPaymentToDate").GetOr(""),
            ChildValue(payment, iddm, "benefitAmountPaymentTimeInMonths").GetOr(""),
            ChildValue(payment, iddm, "benefitAmountPercentage").GetOr(""),
            ChildValue(payment, iddm, "benefitAmountPaymentReceiver").GetOr(""),
            ChildValue(payment, iddm, "benefitAmountPaymentType").GetOr(""),
            ChildValue(payment, iddm, "benefitEndDate").GetOr("")])
  }

  /** One allocation detail: "share→person", each "?" when missing. */
  function ShareText(detail: XElement, iddm: string): string
  {
    ChildValue(detail, iddm, "contractCompensationAllocationPercentage").GetOr("?")
    + "\U{2192}" + ChildAttr(detail, iddm, "person", "personId").GetOr("?")
  }

  function ShareTexts(details: seq<XElement>, iddm: string): (r: seq<string>)
    ensures |r| == |details|
  {
    seq(|details|, k requires 0 <= k < |details| => ShareText(details[k], iddm))
  }

  function CompensationRow(benefit: XElement, iddm: string): Option<seq<string>>
  {
    var found := Element(benefit, XName(iddm, "contractCompensationAllocation"));
    if found.None? then Option.None
    else
      var compensation := found.value;
      var details := ShareTexts(Elements(compensation, XName(iddm, "contractCompensationAllocationDetail")), iddm);
      Some([Attr(benefit, "contractId").GetOr(""),
            Attr(compensation, "contractCompensationAllocationFrom").GetOr(""),
            Attr(compensation, "contractCompensationAllocationTo").GetOr(""),
            if |details| > 0 then Join(", ", details) else ""])
  }

  /** The row an element adds to a table of the given kind, if any. */
  function RowOf(kind: TableKind, e: XElement, iddm: string): (row: Option<seq<string>>)
    ensures (kind == Roles || kind == Primary) ==> row.Some?
  {
    match kind
    case Roles => Some(RoleRow(e, iddm))
    case Primary => Some(PrimaryRow(e, iddm))
    case Beneficiaries => BeneficiaryRow(e, iddm)
    case Payments => PaymentRow(e, iddm)
    case Compensation => CompensationRow(e, iddm)
  }

  /** The row added, if any. */
  function Opt(row: Option<seq<string>>): (rows: seq<seq<string>>)
    ensures |rows| <= 1
  {
    if row.Some? then [row.value] else []
  }

  /** The rows a list of elements adds to a table, in order. */
  function RowsOf(kind: TableKind, xs: seq<XElement>, iddm: string): (rows: seq<seq<string>>)
    ensures |rows| <= |xs|
    decreases |xs|
  {
    if |xs| == 0 then []
    else RowsOf(kind, xs[..|xs| - 1], iddm) + Opt(RowOf(kind, xs[|xs| - 1], iddm))
  }

  lemma RowsOfOneMore(kind: TableKind, xs: seq<XElement>, i: nat, iddm: string)
    requires i < |xs|
    ensures RowsOf(kind, xs[..i + 1], iddm) == RowsOf(kind, xs[..i], iddm) + Opt(RowOf(kind, xs[i], iddm))
  {
    assert xs[..i + 1][..i] == xs[..i];
  }

  /** A table that every element adds a row to has one row per element, in order. */
  lemma {:induction false} EveryRow(kind: TableKind, xs: seq<XElement>, iddm: string)
    requires kind == Roles || kind == Primary
    ensures var rows := RowsOf(kind, xs, iddm);
      |rows| == |xs| && forall k :: 0 <= k < |xs| ==> rows[k] == RowOf(kind, xs[k], iddm).value
    decreases |xs|
  {
    if |xs| > 0 {
      var prefix := xs[..|xs| - 1];
      EveryRow(kind, prefix, iddm);
      assert forall k :: 0 <= k < |xs| - 1 ==> prefix[k] == xs[k];
    }
  }

  /** Each line prefixed with `indent`. */
  function Indented(indent: string, lines: seq<string>): (r: seq<string>)
    ensures |r| == |lines| && forall k :: 0 <= k < |lines| ==> r[k] == indent + lines[k]
  {
    seq(|lines|, k requires 0 <= k < |lines| => indent + lines[k])
  }

  /** The lines of a drawn table: `table.Build().Split(Environment.NewLine)`. */
  function TableText(headers: seq<string>, rows: seq<seq<string>>): seq<string>
  {
    SplitOn(Drawn([headers] + rows), NewLine)
  }

  /** A table under a heading, written only when its text is not empty. */
  function HeadedTable(indent: string, heading: string, headers: seq<string>, rows: seq<seq<string>>): seq<string>
  {
    if |Drawn([headers] + rows)| > 0
    then [indent + heading] + Indented(indent + "  ", TableText(headers, rows))
    else []
  }

  /** Even a table with no rows draws its header, so a table with a visible first header is always written. */
  lemma HeadingShown(indent: string, heading: string, headers: seq<string>, rows: seq<seq<string>>)
    requires |headers| > 0 && !IsBlank(headers[0])
    ensures HeadedTable(indent, heading, headers, rows) ==
      [indent + heading] + Indented(indent + "  ", TableText(headers, rows))
  {
    var all := [headers] + rows;
    TableNotBlank(all, ColumnWidths(all), 0);
  }

  function CompensationBlock(indent: string, rows: seq<seq<string>>): seq<string>
  {
    if |rows| > 0
    then [indent + "  Compensation:"] + Indented(indent + "  ", TableText(CompensationHeaders, rows)) + [""]
    else []
  }

  /** The note on `count` list entries that were left out. */
  function MoreLine(indent: string, count: int, what: string): string
  {
    indent + "  ... " + FormatN0(count) + " more " + what + " node(s)"
  }

  /** The "... N more … node(s)" note, written only when the list is longer than its cap. */
  function MoreNote(indent: string, count: nat, cap: nat, what: string): (lines: seq<string>)
    ensures |lines| == (if count > cap then 1 else 0)
  {
    if count > cap then [MoreLine(indent, count - cap, what)] else []
  }

  // ---------------------------------------------------------------------
  // Benefits, insurances, reserves, persons
  // ---------------------------------------------------------------------

  /** The benefits block for `count` benefits whose tabulated ones gave these rows. */
  function BenefitsBlock(indent: string, count: nat, primary: seq<seq<string>>, beneficiaries: seq<seq<string>>,
                         payments: seq<seq<string>>, compensation: seq<seq<string>>): seq<string>
  {
    [indent + "Benefits (" + NatToString(count) + ")"]
    + Indented(indent + "  ", TableText(PrimaryHeaders, primary))
    + HeadedTable(indent, "  Beneficiaries:", BeneficiaryHeaders, beneficiaries)
    + HeadedTable(indent, "  Payments:", PaymentHeaders, payments)
    + CompensationBlock(indent, compensation)
    + MoreNote(indent, count, MaxBenefits, "benefit")
  }

  /** `AppendBenefits` with the indent `indent`: only the first six benefits are tabulated. */
  function BenefitsLines(benefits: seq<XElement>, iddm: string, indent: string): seq<string>
  {
    var shown := Take(benefits, MaxBenefits);
    BenefitsBlock(indent, |benefits|, RowsOf(Primary, shown, iddm), RowsOf(Beneficiaries, shown, iddm),
      RowsOf(Payments, shown, iddm), RowsOf(Compensation, shown, iddm))
  }

  /** The beneficiary and payment tables are always written under their headings. */
  lemma BenefitsBlockShape(indent: string, count: nat, primary: seq<seq<string>>, beneficiaries: seq<seq<string>>,
                           payments: seq<seq<string>>, compensation: seq<seq<string>>)
    ensures BenefitsBlock(indent, count, primary, beneficiaries, payments, compensation) ==
      [indent + "Benefits (" + NatToString(count) + ")"]
      + Indented(indent + "  ", TableText(PrimaryHeaders, primary))
      + ([indent + "  Beneficiaries:"] + Indented(indent + "  ", TableText(BeneficiaryHeaders, beneficiaries)))
      + ([indent + "  Payments:"] + Indented(indent + "  ", TableText(PaymentHeaders, payments)))
      + CompensationBlock(indent, compensation)
      + MoreNote(indent, count, MaxBenefits, "benefit")
  {
    assert !IsWhiteSpace(BeneficiaryHeaders[0][0]) && !IsWhiteSpace(PaymentHeaders[0][0]);
    HeadingShown(indent, "  Beneficiaries:", BeneficiaryHeaders, beneficiaries);
    HeadingShown(indent, "  Payments:", PaymentHeaders, payments);
  }

  /** The main benefits table has one row for each of the first six benefits, in order. */
  lemma PrimaryRows(benefits: seq<XElement>, iddm: string)
    ensures var primary := RowsOf(Primary, Take(benefits, MaxBenefits), iddm);
      |primary| == MinNat(MaxBenefits, |benefits|)
      && forall k :: 0 <= k < |primary| ==> primary[k] == PrimaryRow(benefits[k], iddm)
  {
    var shown := Take(benefits, MaxBenefits);
    EveryRow(Primary, shown, iddm);
    assert forall k :: 0 <= k < |shown| ==> shown[k] == benefits[k];
  }

  /**
   * The benefits block: the count, a main table with one row for each of
   * the first six benefits in order, the beneficiary and payment tables
   * under headings that are always written, the compensation table, and the
   * note on how many benefits were left out exactly when there are more
   * than six.
   */
  lemma BenefitsShape(benefits: seq<XElement>, iddm: string, indent: string)
    ensures var primary := RowsOf(Primary, Take(benefits, MaxBenefits), iddm);
      |primary| == MinNat(MaxBenefits, |benefits|)
      && forall k :: 0 <= k < |primary| ==> primary[k] == PrimaryRow(benefits[k], iddm)
    ensures var shown := Take(benefits, MaxBenefits);
      BenefitsLines(benefits, iddm, indent) ==
        [indent + "Benefits (" + NatToString(|benefits|) + ")"]
        + Indented(indent + "  ", TableText(PrimaryHeaders, RowsOf(Primary, shown, iddm)))
        + ([indent + "  Beneficiaries:"] + Indented(indent + "  ", TableText(BeneficiaryHeaders, RowsOf(Beneficiaries, shown, iddm))))
        + ([indent + "  Payments:"] + Indented(indent + "  ", TableText(PaymentHeaders, RowsOf(Payments, shown, iddm))))
        + CompensationBlock(indent, RowsOf(Compensation, shown, iddm))
        + MoreNote(indent, |benefits|, MaxBenefits, "benefit")
  {
    var shown := Take(benefits, MaxBenefits);
    PrimaryRows(benefits, iddm);
    BenefitsBlockShape(indent, |benefits|, RowsOf(Primary, shown, iddm), RowsOf(Beneficiaries, shown, iddm),
      RowsOf(Payments, shown, iddm), RowsOf(Compensation, shown, iddm));
  }

  function ProductLines(product: XElement, iddm: string): seq<string>
  {
    var parts := AddPart(AddPart(AddPart([],
      "Name", ChildValue(product, iddm, "variantName").OrElse(ChildValue(product, iddm, "variantDescription"))),
      "Short", ChildValue(product, iddm, "variantShortName")),
      "VariantId", Attr(product, "variantId"));
    if |parts| > 0 then ["  Product: " + Join(" | ", parts)] else []
  }

  function InsuranceTitle(insurance: XElement, iddm: string, index: nat): string
  {
    var parts := AddPart(AddPart(AddPart(
      ["contractId=" + Attr(insurance, "contractId").GetOr("?")],
      "status", ChildValue(insurance, iddm, "contractStatus")),
      "subtype", ChildValue(insurance, iddm, "contractSubtype")),
      "start", ChildValue(insurance, iddm, "contractStartDate"));
    "Insurance #" + NatToString(index) + " (" + Join(", ", Visible(parts)) + ")"
  }

  function InsuranceExtras(insurance: XElement, iddm: string): seq<string>
  {
    var extras := AddPart(AddPart([],
      "Currency", ChildAttr(insurance, iddm, "contractCurrency", "currencyCode")),
      "Management", ChildValue(insurance, iddm, "investmentManagementType"));
    if |extras| > 0 then ["  " + Join(" | ", extras)] else []
  }

  /** The roles table of an insurance, under its heading, when it has roles. */
  function RolesLines(roles: seq<seq<string>>): seq<string>
  {
    if |roles| > 0 then ["  Roles:"] + Indented("  ", TableText(RoleHeaders, roles)) else []
  }

  /** The lines of an insurance before its benefits: title, extras, product and roles. */
  function InsuranceHead(insurance: XElement, iddm: string, index: nat): seq<string>
  {
    var product := Element(insurance, XName(iddm, "product"));
    [InsuranceTitle(insurance, iddm, index)]
    + InsuranceExtras(insurance, iddm)
    + (if product.Some? then ProductLines(product.value, iddm) else [])
    + RolesLines(RowsOf(Roles, Elements(insurance, XName(iddm, "contractRole")), iddm))
  }

  /** `AppendInsurance` for the insurance numbered `index`: its head, then its own benefits, if any. */
  function InsuranceLines(insurance: XElement, iddm: string, index: nat): seq<string>
  {
    var benefits := Elements(insurance, XName(iddm, "benefit"));
    InsuranceHead(insurance, iddm, index)
    + (if |benefits| > 0 then BenefitsLines(benefits, iddm, "  ") else [])
  }

  /** The insurances in order, numbered from 1, each followed by an empty line. */
  function InsurancesLines(insurances: seq<XElement>, iddm: string): seq<string>
    decreases |insurances|
  {
    if |insurances| == 0 then []
    else
      var n := |insurances|;
      InsurancesLines(insurances[..n - 1], iddm) + InsuranceLines(insurances[n - 1], iddm, n) + [""]
  }

  lemma InsurancesOneMore(insurances: seq<XElement>, i: nat, iddm: string)
    requires i < |insurances|
    ensures InsurancesLines(insurances[..i + 1], iddm) ==
      InsurancesLines(insurances[..i], iddm) + InsuranceLines(insurances[i], iddm, i + 1) + [""]
  {
    assert insurances[..i + 1][..i] == insurances[..i];
  }

  /** The value reserves shown: the first five `valueReserve` descendants in the datamodel namespace. */
  function Reserves(root: XElement): (r: seq<XElement>)
    ensures var all := Descendants(root, XName(IncaData, "valueReserve"));
      |r| == MinNat(MaxReserves, |all|) && r == all[..|r|]
    ensures forall x :: x in r ==> x.name == XName(IncaData, "valueReserve")
  {
    Take(Descendants(root, XName(IncaData, "valueReserve")), MaxReserves)
  }

  function ReserveParts(reserve: XElement): (parts: seq<string>)
    ensures |parts| >= 1 && StartsWith(parts[0], "id=") && AllVisible(parts)
  {
    var first := "id=" + Attr(reserve, "valueReserveId").GetOr("?");
    IdPartVisible(first);
    AddPart(AddPart(AddPart([first],
      "amount", ChildValue(reserve, IncaData, "reserveTotalAmount")),
      "calculatedTo", ChildValue(reserve, IncaData, "reserveCalculatedToDate")),
      "subtype", ChildValue(reserve, IncaData, "valueReserveSubtype"))
  }

  function ReserveLines(reserves: seq<XElement>): (lines: seq<string>)
    ensures |lines| == |reserves|
  {
    seq(|reserves|, k requires 0 <= k < |reserves| => PartsLine(ReserveParts(reserves[k])))
  }

  function ReservesLines(reserves: seq<XElement>): seq<string>
  {
    ["Value Reserves (showing " + NatToString(|reserves|) + ")"] + ReserveLines(reserves)
  }

  function PersonParts(person: XElement, iddm: string): (parts: seq<string>)
    ensures |parts| >= 1 && StartsWith(parts[0], "id=") && AllVisible(parts)
  {
    var first := "id=" + Attr(person, "personId").GetOr("?");
    IdPartVisible(first);
    AddPart(AddPart(AddPart(AddPart(AddPart([first],
      "type", Some(XsiType(person).GetOr(person.name.localName))),
      "name", ChildValue(person, iddm, "name").OrElse(ChildValue(person, iddm, "firstName"))),
      "status", ChildValue(person, iddm, "status")),
      "DOB", ChildValue(person, iddm, "dateOfBirth")),
      "DOD", ChildValue(person, iddm, "dateOfDeath"))
  }

  function PersonLines(persons: seq<XElement>, iddm: string): (lines: seq<string>)
    ensures |lines| == |persons|
    ensures forall k :: 0 <= k < |persons| ==> lines[k] == PartsLine(PersonParts(persons[k], iddm))
  {
    seq(|persons|, k requires 0 <= k < |persons| => PartsLine(PersonParts(persons[k], iddm)))
  }

  /** The persons block for `count` persons whose listed ones gave `lines`. */
  function PersonsBlock(count: nat, lines: seq<string>): seq<string>
  {
    ["Persons (" + NatToString(count) + ")"] + lines + MoreNote("", count, MaxPersons, "person")
  }

  /** `AppendPersons`: the count, the first six persons, and a note on the rest. */
  function PersonsLines(persons: seq<XElement>, iddm: string): seq<string>
  {
    PersonsBlock(|persons|, PersonLines(Take(persons, MaxPersons), iddm))
  }

  /** The block holds the count line, then the listed lines in order, then the note, if any. */
  lemma PersonsBlockShape(count: nat, lines: seq<string>)
    ensures var block := PersonsBlock(count, lines);
      |block| == 1 + |lines| + (if count > MaxPersons then 1 else 0)
      && forall k :: 0 <= k < |lines| ==> block[k + 1] == lines[k]
  {
  }

  /** When every listed line starts with "  id=", the note is in the block exactly when the count passes the cap. */
  lemma PersonsNote(count: nat, lines: seq<string>)
    requires forall k :: 0 <= k < |lines| ==> |lines[k]| >= 5 && lines[k][..5] == "  id="
    ensures MoreLine("", count - MaxPersons, "person") in PersonsBlock(count, lines) <==> count > MaxPersons
  {
    var block := PersonsBlock(count, lines);
    var note := MoreLine("", count - MaxPersons, "person");
    assert note[..6] == "  ... ";
    if count <= MaxPersons {
      forall k | 0 <= k < |block|
        ensures block[k] != note
      {
        if k > 0 {
          assert block[k] == lines[k - 1];
          assert block[k][..5][2] == 'i';
        } else {
          assert block[k][0] == 'P';
        }
      }
    } else {
      assert block[|block| - 1] == note;
    }
  }

  /** Every person line starts with "  id=". */
  lemma PersonLinesStart(persons: seq<XElement>, iddm: string)
    ensures var lines := PersonLines(persons, iddm);
      forall k :: 0 <= k < |lines| ==> |lines[k]| >= 5 && lines[k][..5] == "  id="
  {
    var lines := PersonLines(persons, iddm);
    forall k | 0 <= k < |lines|
      ensures |lines[k]| >= 5 && lines[k][..5] == "  id="
    {
      IdLineStart(PersonParts(persons[k], iddm));
    }
  }

  /**
   * The persons block lists exactly the first six persons, in order, and
   * contains the "more person node(s)" note, giving the count left out,
   * exactly when there are more than six.
   */
  lemma PersonsShown(persons: seq<XElement>, iddm: string)
    ensures |PersonsLines(persons, iddm)| ==
      1 + MinNat(MaxPersons, |persons|) + (if |persons| > MaxPersons then 1 else 0)
    ensures forall k :: 0 <= k < MinNat(MaxPersons, |persons|) ==>
      PersonsLines(persons, iddm)[k + 1] == PartsLine(PersonParts(persons[k], iddm))
    ensures |persons| > MaxPersons <==> MoreLine("", |persons| - MaxPersons, "person") in PersonsLines(persons, iddm)
  {
    var shown := Take(persons, MaxPersons);
    var lines := PersonLines(shown, iddm);
    assert PersonsLines(persons, iddm) == PersonsBlock(|persons|, lines);
    PersonLinesStart(shown, iddm);
    PersonsNote(|persons|, lines);
    PersonsBlockShape(|persons|, lines);
    forall k | 0 <= k < |shown|
      ensures lines[k] == PartsLine(PersonParts(persons[k], iddm))
    {
      assert shown[k] == persons[k];
    }
  }

  // ---------------------------------------------------------------------
  // Whole summary
  // ---------------------------------------------------------------------

  /** The sections after the document header. */
  function SectionLines(root: XElement): seq<string>
  {
    var iddm := root.name.ns;
    var addressee := Element(root, XName(iddm, "addressee"));
    var companies := Elements(root, XName(iddm, "administratingCompany"));
    var benefits := Elements(root, XName(iddm, "benefit"));
    var reserves := Reserves(root);
    var persons := Elements(root, XName(iddm, "person"));
    (if addressee.Some? then AddresseeLines(addressee.value, iddm) + [""] else [])
    + (if |companies| > 0 then CompaniesLines(companies, iddm) + [""] else [])
    + InsurancesLines(Elements(root, XName(iddm, "insurance")), iddm)
    + (if |benefits| > 0 then BenefitsLines(benefits, iddm, "") + [""] else [])
    + (if |reserves| > 0 then ReservesLines(reserves) + [""] else [])
    + (if |persons| > 0 then PersonsLines(persons, iddm) else [])
  }

  /** `BuildSummary`: "Empty INCA document." without a root, else the sections, trimmed at the end. */
  function Summary(root: Option<XElement>): string
  {
    if root.None? then EmptyDocument
    else TrimEnd(Lines(HeaderLines(root.value) + [""] + SectionLines(root.value)))
  }

  /** A summary of a document with a root starts with its "Document:" line. */
  lemma SummaryStart(root: XElement)
    ensures StartsWith(Summary(Some(root)), "Document:")
  {
    var lines := HeaderLines(root) + [""] + SectionLines(root);
    var first := "Document: " + NameText(root.name);
    assert lines[0] == first;
    LinesCons(lines);
    assert Lines(lines)[..9] == first[..9];
    TrimEndKeepsPrefix(Lines(lines), "Document:");
  }

  // ---------------------------------------------------------------------
  // The StringBuilder code
  // ---------------------------------------------------------------------

  /** Appends `heading`, then each line of `text` split at line breaks with `indent` before it. */
  method AppendTable(lines: seq<string>, heading: seq<string>, indent: string, text: string)
    returns (r: seq<string>)
    ensures r == lines + (heading + Indented(indent, SplitOn(text, NewLine)))
  {
    var pieces := SplitOn(text, NewLine);
    ghost var all := Indented(indent, pieces);
    r := lines + heading;
    for i := 0 to |pieces|
      invariant r == lines + heading + all[..i]
    {
      r := r + [indent + pieces[i]];
      TakeOneMore(all, i);
    }
    assert all[..|pieces|] == all;
  }

  /** `table.Build()` on a builder holding these headers and rows. */
  method DrawBuilt(table: TextTableBuilder, ghost headers: seq<string>, ghost rows: seq<seq<string>>)
    returns (text: string)
    requires table.Valid() && table.rows == [headers] + rows
    ensures text == Drawn([headers] + rows)
  {
    text := table.Build();
  }

  /** A built table appended under its heading, when its text is not empty. */
  method WriteHeaded(block: seq<string>, indent: string, heading: string, table: TextTableBuilder,
                     ghost headers: seq<string>, ghost rows: seq<seq<string>>)
    returns (r: seq<string>)
    requires table.Valid() && table.rows == [headers] + rows
    ensures r == block + HeadedTable(indent, heading, headers, rows)
  {
    var text := DrawBuilt(table, headers, rows);
    r := block;
    if |text| > 0 {
      r := AppendTable(r, [indent + heading], indent + "  ", text);
    }
  }

  /** The compensation table, drawn when it has rows, followed by an empty line. */
  method WriteCompensation(block: seq<string>, indent: string, rows: seq<seq<string>>) returns (r: seq<string>)
    ensures r == block + CompensationBlock(indent, rows)
  {
    r := block;
    if |rows| > 0 {
      var text := DrawTable(CompensationHeaders, rows);
      r := AppendTable(r, [indent + "  Compensation:"], indent + "  ", text);
      r := r + [""];
    }
  }

  /** The drawing half of `AppendBenefits`: the filled tables, written under their headings. */
  method WriteBenefits(indent: string, count: nat, primary: TextTableBuilder, beneficiaries: TextTableBuilder,
                       payments: TextTableBuilder, compensation: seq<seq<string>>,
                       ghost primaryRows: seq<seq<string>>, ghost beneficiaryRows: seq<seq<string>>,
                       ghost paymentRows: seq<seq<string>>)
    returns (block: seq<string>)
    requires primary.Valid() && primary.rows == [PrimaryHeaders] + primaryRows
    requires beneficiaries.Valid() && beneficiaries.rows == [BeneficiaryHeaders] + beneficiaryRows
    requires payments.Valid() && payments.rows == [PaymentHeaders] + paymentRows
    ensures block == BenefitsBlock(indent, count, primaryRows, beneficiaryRows, paymentRows, compensation)
  {
    var text := DrawBuilt(primary, PrimaryHeaders, primaryRows);
    block := [indent + "Benefits (" + NatToString(count) + ")"] + Indented(indent + "  ", SplitOn(text, NewLine));
    block := WriteHeaded(block, indent, "  Beneficiaries:", beneficiaries, BeneficiaryHeaders, beneficiaryRows);
    block := WriteHeaded(block, indent, "  Payments:", payments, PaymentHeaders, paymentRows);
    block := WriteCompensation(block, indent, compensation);
    block := block + MoreNote(indent, count, MaxBenefits, "benefit");
  }

  /** One turn of the loop in `AppendBenefits`: a benefit's rows go to the tables that take them. */
  method AddBenefit(primary: TextTableBuilder, beneficiaries: TextTableBuilder, payments: TextTableBuilder,
                    compensation: seq<seq<string>>, row: seq<string>, beneficiary: Option<seq<string>>,
                    payment: Option<seq<string>>, allocation: Option<seq<string>>)
    returns (allocations: seq<seq<string>>)
    requires primary != beneficiaries && primary != payments && beneficiaries != payments
    requires primary.Valid() && beneficiaries.Valid() && payments.Valid()
    modifies primary, beneficiaries, payments
    ensures primary.Valid() && beneficiaries.Valid() && payments.Valid()
    ensures primary.rows == old(primary.rows) + [row]
    ensures beneficiaries.rows == old(beneficiaries.rows) + Opt(beneficiary)
    ensures payments.rows == old(payments.rows) + Opt(payment)
    ensures allocations == compensation + Opt(allocation)
  {
    primary.AddRow(Present(row));
    if beneficiary.Some? {
      beneficiaries.AddRow(Present(beneficiary.value));
    }
    if payment.Some? {
      payments.AddRow(Present(payment.value));
    }
    allocations := compensation;
    if allocation.Some? {
      allocations := allocations + [allocation.value];
    }
  }

  lemma ConsAppend<T>(x: T, a: seq<T>, b: seq<T>)
    ensures [x] + a + b == [x] + (a + b)
  {
  }

  /** The loop of `AppendBenefits`: each tabulated benefit adds its rows to the tables. */
  method FillBenefits(primary: TextTableBuilder, beneficiaries: TextTableBuilder, payments: TextTableBuilder,
                      shown: seq<XElement>, iddm: string)
    returns (compensation: seq<seq<string>>)
    requires primary != beneficiaries && primary != payments && beneficiaries != payments
    requires primary.Valid() && primary.rows == [PrimaryHeaders]
    requires beneficiaries.Valid() && beneficiaries.rows == [BeneficiaryHeaders]
    requires payments.Valid() && payments.rows == [PaymentHeaders]
    modifies primary, beneficiaries, payments
    ensures primary.Valid() && primary.rows == [PrimaryHeaders] + RowsOf(Primary, shown, iddm)
    ensures beneficiaries.Valid() && beneficiaries.rows == [BeneficiaryHeaders] + RowsOf(Beneficiaries, shown, iddm)
    ensures payments.Valid() && payments.rows == [PaymentHeaders] + RowsOf(Payments, shown, iddm)
    ensures compensation == RowsOf(Compensation, shown, iddm)
  {
    compensation := [];
    for i := 0 to |shown|
      invariant primary.Valid() && primary.rows == [PrimaryHeaders] + RowsOf(Primary, shown[..i], iddm)
      invariant payments.Valid() && payments.rows == [PaymentHeaders] + RowsOf(Payments, shown[..i], iddm)
      invariant beneficiaries.Valid()
      invariant beneficiaries.rows == [BeneficiaryHeaders] + RowsOf(Beneficiaries, shown[..i], iddm)
      invariant compensation == RowsOf(Compensation, shown[..i], iddm)
    {
      RowsOfOneMore(Primary, shown, i, iddm);
      RowsOfOneMore(Beneficiaries, shown, i, iddm);
      RowsOfOneMore(Payments, shown, i, iddm);
      RowsOfOneMore(Compensation, shown, i, iddm);
      ConsAppend(PrimaryHeaders, RowsOf(Primary, shown[..i], iddm), Opt(RowOf(Primary, shown[i], iddm)));
      ConsAppend(BeneficiaryHeaders, RowsOf(Beneficiaries, shown[..i], iddm), Opt(RowOf(Beneficiaries, shown[i], iddm)));
      ConsAppend(PaymentHeaders, RowsOf(Payments, shown[..i], iddm), Opt(RowOf(Payments, shown[i], iddm)));
      var benefit := shown[i];
      compensation := AddBenefit(primary, beneficiaries, payments, compensation, PrimaryRow(benefit, iddm),
        BeneficiaryRow(benefit, iddm), PaymentRow(benefit, iddm), CompensationRow(benefit, iddm));
    }
    assert shown[..|shown|] == shown;
  }

  /** `AppendBenefits`: one pass over the first six benefits fills the tables, which are then drawn. */
  method AppendBenefits(benefits: seq<XElement>, iddm: string, indent: string) returns (block: seq<string>)
    ensures block == BenefitsLines(benefits, iddm, indent)
  {
    var shown := Take(benefits, MaxBenefits);
    var primary := new TextTableBuilder(Present(PrimaryHeaders));
    var payments := new TextTableBuilder(Present(PaymentHeaders));
    var beneficiaries := new TextTableBuilder(Present(BeneficiaryHeaders));
    var compensation := FillBenefits(primary, beneficiaries, payments, shown, iddm);
    block := WriteBenefits(indent, |benefits|, primary, beneficiaries, payments, compensation,
      RowsOf(Primary, shown, iddm), RowsOf(Beneficiaries, shown, iddm), RowsOf(Payments, shown, iddm));
  }

  /** `AppendPersons`: the count, then a line for each of the first six persons, then the note. */
  method AppendPersons(persons: seq<XElement>, iddm: string) returns (block: seq<string>)
    ensures block == PersonsLines(persons, iddm)
  {
    var title := "Persons (" + NatToString(|persons|) + ")";
    var shown := Take(persons, MaxPersons);
    ghost var all := PersonLines(shown, iddm);
    var lines := [];
    for i := 0 to |shown|
      invariant lines == all[..i]
    {
      lines := lines + [PartsLine(PersonParts(shown[i], iddm))];
      TakeOneMore(all, i);
    }
    assert all[..|shown|] == all;
    block := [title] + lines;
    if |persons| > MaxPersons {
      block := block + [MoreLine("", |persons| - MaxPersons, "person")];
    }
  }

  /** `AppendCompanies`: nothing for no companies, else the count and a line per company. */
  method AppendCompanies(companies: seq<XElement>, iddm: string) returns (block: seq<string>)
    ensures block == CompaniesLines(companies, iddm)
  {
    if |companies| == 0 {
      return [];
    }
    var title := "Administrating Company (" + NatToString(|companies|) + ")";
    ghost var all := CompanyLines(companies, iddm);
    block := [title];
    for i := 0 to |companies|
      invariant block == [title] + all[..i]
    {
      block := block + [PartsLine(CompanyParts(companies[i], iddm))];
      TakeOneMore(all, i);
    }
    assert all[..|companies|] == all;
  }

  /** `AppendValueReserves`: the number shown, then a line per reserve. */
  method AppendValueReserves(reserves: seq<XElement>) returns (block: seq<string>)
    ensures block == ReservesLines(reserves)
  {
    var title := "Value Reserves (showing " + NatToString(|reserves|) + ")";
    ghost var all := ReserveLines(reserves);
    block := [title];
    for i := 0 to |reserves|
      invariant block == [title] + all[..i]
    {
      block := block + [PartsLine(ReserveParts(reserves[i]))];
      TakeOneMore(all, i);
    }
    assert all[..|reserves|] == all;
  }

  /** The roles table: one row per role, drawn and written under "  Roles:". */
  method AppendRoles(block: seq<string>, roles: seq<XElement>, iddm: string) returns (r: seq<string>)
    ensures r == block + RolesLines(RowsOf(Roles, roles, iddm))
  {
    r := block;
    if |roles| > 0 {
      var rows := RowsOf(Roles, roles, iddm);
      var text := DrawTable(RoleHeaders, rows);
      r := AppendTable(r, ["  Roles:"], "  ", text);
    }
  }

  /** The first part of `AppendInsurance`: title, extras, product and roles. */
  method AppendInsuranceHead(insurance: XElement, iddm: string, index: nat) returns (block: seq<string>)
    ensures block == InsuranceHead(insurance, iddm, index)
  {
    var product := Element(insurance, XName(iddm, "product"));
    block := [InsuranceTitle(insurance, iddm, index)] + InsuranceExtras(insurance, iddm);
    if product.Some? {
      block := block + ProductLines(product.value, iddm);
    }
    block := AppendRoles(block, Elements(insurance, XName(iddm, "contractRole")), iddm);
  }

  /** `AppendInsurance`: the head, then the insurance's own benefits. */
  method AppendInsurance(insurance: XElement, iddm: string, index: nat) returns (block: seq<string>)
    ensures block == InsuranceLines(insurance, iddm, index)
  {
    block := AppendInsuranceHead(insurance, iddm, index);
    var benefits := Elements(insurance, XName(iddm, "benefit"));
    if |benefits| > 0 {
      var nested := AppendBenefits(benefits, iddm, "  ");
      block := block + nested;
    }
  }

  /** The sections after the header, appended in order. */
  method AppendSections(root: XElement) returns (sections: seq<string>)
    ensures sections == SectionLines(root)
  {
    var iddm := root.name.ns;
    var addressee := Element(root, XName(iddm, "addressee"));
    sections := [];
    if addressee.Some? {
      sections := AddresseeLines(addressee.value, iddm) + [""];
    }

    var companies := Elements(root, XName(iddm, "administratingCompany"));
    var section: seq<string> := [];
    if |companies| > 0 {
      section := AppendCompanies(companies, iddm);
      section := section + [""];
    }
    sections := sections + section;

    var insurances := Elements(root, XName(iddm, "insurance"));
    section := [];
    for i := 0 to |insurances|
      invariant section == InsurancesLines(insurances[..i], iddm)
    {
      var one := AppendInsurance(insurances[i], iddm, i + 1);
      InsurancesOneMore(insurances, i, iddm);
      section := section + one + [""];
    }
    assert insurances[..|insurances|] == insurances;
    sections := sections + section;

    var benefits := Elements(root, XName(iddm, "benefit"));
    section := [];
    if |benefits| > 0 {
      section := AppendBenefits(benefits, iddm, "");
      section := section + [""];
    }
    sections := sections + section;

    var reserves := Reserves(root);
    section := [];
    if |reserves| > 0 {
      section := AppendValueReserves(reserves);
      section := section + [""];
    }
    sections := sections + section;

    var persons := Elements(root, XName(iddm, "person"));
    section := [];
    if |persons| > 0 {
      section := AppendPersons(persons, iddm);
    }
    sections := sections + section;
  }

  /** `BuildSummary`. */
  method BuildSummary(document: Option<XElement>) returns (summary: string)
    ensures summary == Summary(document)
  {
    if document.None? {
      return EmptyDocument;
    }
    var root := document.value;
    var sections := AppendSections(root);
    summary := TrimEnd(Lines(HeaderLines(root) + [""] + sections));
  }

  /** The method reading the file: the preflight decides, then the loaded document is summarized. */
  method Summarize(source: IncaSource) returns (handled: bool, summary: string)
    ensures handled <==> TrySummarize(source).Some?
    ensures handled ==> summary == TrySummarize(source).value
    ensures !handled ==> summary == ""
  {
    summary := "";
    if !IsIncaRoot(MoveToContent(source.preflight)) {
      return false, summary;
    }
    match source.document {
      case LoadFailed(message) =>
        summary := LoadError + message;
      case Loaded(root) =>
        summary := BuildSummary(root);
    }
    handled := true;
  }
}
