/** The receipt rules of the bill route: request checks, the receipt type
    and title, the settings map read from the settings table, the company
    details taken from it, and the numbering of the ornament rows. */
module Receipt {
  import opened Text
  import opened Http

  // ---------------------------------------------------------------------------
  // Request checks

  /** Which record the receipt is generated from. */
  datatype BillSource = ByPayment(id: string) | ByLoan(id: string)

  /** The query checks that precede any database lookup: the caller must be
      signed in, and at least one of `paymentId` and `loanId` must be given;
      a payment id takes precedence over a loan id. */
  function CheckBillRequest(authenticated: bool, paymentId: Option<string>, loanId: Option<string>): (r: Outcome<BillSource>)
    ensures !authenticated <==> r == Rejected(401, "Not authenticated")
    ensures (authenticated && !Truthy(paymentId) && !Truthy(loanId))
      <==> r == Rejected(400, "Payment ID or Loan ID is required")
    ensures r.Accepted? <==> authenticated && (Truthy(paymentId) || Truthy(loanId))
    ensures r.Accepted? && Truthy(paymentId) ==> r.value == ByPayment(paymentId.value)
    ensures r.Accepted? && !Truthy(paymentId) ==> r.value == ByLoan(loanId.value)
  {
    if !authenticated then Rejected(401, "Not authenticated")
    else if !Truthy(paymentId) && !Truthy(loanId) then Rejected(400, "Payment ID or Loan ID is required")
    else if Truthy(paymentId) then Accepted(ByPayment(paymentId.value))
    else Accepted(ByLoan(loanId.value))
  }

  // ---------------------------------------------------------------------------
  // Receipt type and title

  const CustomerCopy: string := "RECEIPT - CUSTOMER COPY"
  const OfficeCopy: string := "RECEIPT - OFFICE COPY"

  /** The `type` query parameter, `customer` when it is missing or empty. */
  function ReceiptType(param: Option<string>): (t: string)
    ensures t != ""
    ensures Truthy(param) ==> t == param.value
    ensures !Truthy(param) ==> t == "customer"
  {
    OrDefault(param, "customer")
  }

  /** The heading of the receipt: the customer copy for type `customer`,
      the office copy for every other type. */
  function Title(receiptType: string): (title: string)
    ensures title == CustomerCopy <==> receiptType == "customer"
    ensures title == OfficeCopy <==> receiptType != "customer"
  {
    if receiptType == "customer" then CustomerCopy else OfficeCopy
  }

  /** Without a type the receipt is the customer copy; any other non-empty
      type, `admin` included, gives the office copy. */
  lemma {:induction false} DefaultTitle(param: Option<string>)
    ensures !Truthy(param) ==> Title(ReceiptType(param)) == CustomerCopy
    ensures Truthy(param) && param.value != "customer" ==> Title(ReceiptType(param)) == OfficeCopy
  {
    if !Truthy(param) {
      assert ReceiptType(param) == "customer";
    }
  }

  /** The name of the generated file: `bill_<type>_<reference>_<timestamp>.pdf`,
      the reference being the payment's id when there is a payment and the
      loan's reference number otherwise. */
  function BillFileName(receiptType: string, paymentRef: Option<string>, loanRef: string, timestamp: nat): (name: string)
  {
    "bill_" + receiptType + "_" + OrDefault(paymentRef, loanRef) + "_" + Decimal(timestamp) + ".pdf"
  }

  /** The file name is `bill_`, the type, `_`, the payment id (or the loan
      reference when there is none), `_`, the timestamp's digits and `.pdf`. */
  lemma BillFileNameShape(receiptType: string, paymentRef: Option<string>, loanRef: string, timestamp: nat)
    ensures var name := BillFileName(receiptType, paymentRef, loanRef, timestamp);
      var d := Decimal(timestamp);
      var r := OrDefault(paymentRef, loanRef);
      && |name| == 11 + |receiptType| + |r| + |d|
      && name[..5 + |receiptType| + 1] == "bill_" + receiptType + "_"
      && name[6 + |receiptType|..6 + |receiptType| + |r|] == r
      && name[6 + |receiptType| + |r|] == '_'
      && name[|name| - 4..] == ".pdf"
      && name[|name| - 4 - |d|..|name| - 4] == d
      && name[|name| - 5 - |d|] == '_'
  {
    var name := BillFileName(receiptType, paymentRef, loanRef, timestamp);
    var d := Decimal(timestamp);
    var head := "bill_" + receiptType + "_";
    var r := OrDefault(paymentRef, loanRef);
    assert name == head + (r + "_" + d + ".pdf");
    assert name == (head + r) + ("_" + d + ".pdf");
    assert name == (head + r + "_") + d + ".pdf";
  }

  // ---------------------------------------------------------------------------
  // Settings

  /** A row of the settings table. */
  datatype Setting = Setting(key: string, value: string)

  /** The value of the last row with `key`, if any: what a map filled row by
      row holds for that key. */
  function LastValue(rows: seq<Setting>, key: string): Option<string>
    decreases |rows|
  {
    if rows == [] then None
    else if Last(rows).key == key then Some(Last(rows).value)
    else LastValue(rows[..|rows| - 1], key)
  }

  /** Reading a key of a JavaScript object used as a dictionary: a key no row
      wrote reads as nothing. Property names every object inherits, such as
      `constructor`, are not modelled. */
  function Lookup(m: map<string, string>, key: string): (r: Option<string>)
    ensures r.Some? <==> key in m
    ensures r.Some? ==> r.value == m[key]
  {
    if key in m then Some(m[key]) else None
  }

  /** Fills the settings map from the rows in order, so a key written by
      several rows keeps the value of the last of them. */
  method BuildSettingsMap(rows: seq<Setting>) returns (m: map<string, string>)
    ensures forall key :: Lookup(m, key) == LastValue(rows, key)
  {
    m := map[];
    var i := 0;
    while i < |rows|
      invariant 0 <= i <= |rows|
      invariant forall key :: Lookup(m, key) == LastValue(rows[..i], key)
    {
      assert rows[..i + 1][..i] == rows[..i];
      m := m[rows[i].key := rows[i].value];
      i := i + 1;
    }
    assert rows[..i] == rows;
  }

  /** `LastValue` is the value of the last writer: no row has the key when
      there is none, and otherwise some row holds that value and no later
      row has the key. */
  lemma {:induction false} LastValueIsLastWriter(rows: seq<Setting>, key: string)
    ensures LastValue(rows, key).None? <==> forall i :: 0 <= i < |rows| ==> rows[i].key != key
    ensures LastValue(rows, key).Some? ==>
      exists i :: 0 <= i < |rows| && rows[i] == Setting(key, LastValue(rows, key).value)
        && forall j :: i < j < |rows| ==> rows[j].key != key
    decreases |rows|
  {
    if rows != [] {
      var init := rows[..|rows| - 1];
      LastValueIsLastWriter(init, key);
      if Last(rows).key != key {
        assert forall i :: 0 <= i < |init| ==> rows[i] == init[i];
        if LastValue(init, key).Some? {
          var i :| 0 <= i < |init| && init[i] == Setting(key, LastValue(init, key).value)
            && forall j :: i < j < |init| ==> init[j].key != key;
          assert rows[i] == init[i];
        }
      } else {
        assert rows[|rows| - 1] == Setting(key, LastValue(rows, key).value);
      }
    }
  }

  // ---------------------------------------------------------------------------
  // Company details

  /** The company details printed on the receipt. */
  datatype CompanyInfo = CompanyInfo(
    name: string, address: string, phone: string, email: string, gstin: string, signaturePath: string)

  const DefaultCompanyName: string := "OLMS Gold Loan"

  /** `settingsMap[key] || fallback`: the stored value when it is present and non-empty. */
  function SettingOr(m: map<string, string>, key: string, fallback: string): (r: string)
    ensures key in m && m[key] != "" ==> r == m[key]
    ensures !(key in m && m[key] != "") ==> r == fallback
  {
    OrDefault(Lookup(m, key), fallback)
  }

  /** With an empty default, `||` yields exactly the stored value, or the
      empty string when the key is missing. */
  predicate StoredOrEmpty(m: map<string, string>, key: string, v: string) {
    v == if key in m then m[key] else ""
  }

  /** Each detail is the stored setting when it is present and non-empty,
      and otherwise its default: the product name for the company name,
      the empty string for the rest. */
  function CompanyInfoOf(m: map<string, string>): (info: CompanyInfo)
    ensures info.name != ""
    ensures "company_name" in m && m["company_name"] != "" ==> info.name == m["company_name"]
    ensures "company_name" !in m || m["company_name"] == "" ==> info.name == DefaultCompanyName
    ensures StoredOrEmpty(m, "company_address", info.address)
    ensures StoredOrEmpty(m, "company_phone", info.phone)
    ensures StoredOrEmpty(m, "company_email", info.email)
    ensures StoredOrEmpty(m, "company_gstin", info.gstin)
    ensures StoredOrEmpty(m, "signature_path", info.signaturePath)
  {
    CompanyInfo(
      SettingOr(m, "company_name", DefaultCompanyName),
      SettingOr(m, "company_address", ""),
      SettingOr(m, "company_phone", ""),
      SettingOr(m, "company_email", ""),
      SettingOr(m, "company_gstin", ""),
      SettingOr(m, "signature_path", ""))
  }

  /** The company details read from the settings table: each field is the
      last row's value for its key, or the default when that value is empty
      or no row has the key. A later empty row overrides an earlier one. */
  lemma CompanyInfoFromRows(rows: seq<Setting>, m: map<string, string>)
    requires forall key :: Lookup(m, key) == LastValue(rows, key)
    ensures CompanyInfoOf(m).name == OrDefault(LastValue(rows, "company_name"), DefaultCompanyName)
    ensures CompanyInfoOf(m).address == OrDefault(LastValue(rows, "company_address"), "")
    ensures CompanyInfoOf(m).phone == OrDefault(LastValue(rows, "company_phone"), "")
    ensures CompanyInfoOf(m).email == OrDefault(LastValue(rows, "company_email"), "")
    ensures CompanyInfoOf(m).gstin == OrDefault(LastValue(rows, "company_gstin"), "")
    ensures CompanyInfoOf(m).signaturePath == OrDefault(LastValue(rows, "signature_path"), "")
  {
    assert Lookup(m, "company_name") == LastValue(rows, "company_name");
    assert Lookup(m, "company_address") == LastValue(rows, "company_address");
    assert Lookup(m, "company_phone") == LastValue(rows, "company_phone");
    assert Lookup(m, "company_email") == LastValue(rows, "company_email");
    assert Lookup(m, "company_gstin") == LastValue(rows, "company_gstin");
    assert Lookup(m, "signature_path") == LastValue(rows, "signature_path");
  }

  /** The script gets the signature block only for a type-`admin` receipt
      with a stored signature path; the block then adds the image when the
      file exists. */
  predicate ShowsSignature(info: CompanyInfo, receiptType: string) {
    info.signaturePath != "" && receiptType == "admin"
  }

  /** A receipt that gets the signature block is an office copy, and a
      customer copy never gets it. */
  lemma SignatureOnlyOnOfficeCopy(info: CompanyInfo, receiptType: string)
    ensures ShowsSignature(info, receiptType) ==> Title(receiptType) == OfficeCopy
    ensures Title(receiptType) == CustomerCopy ==> !ShowsSignature(info, receiptType)
  {
  }

  // ---------------------------------------------------------------------------
  // Ornament rows

  /** A pledged ornament, as far as the receipt's text columns use it. */
  datatype Ornament = Ornament(name: string, metalType: string, karat: nat)

  /** The serial, item and metal columns of a row of the ornament table. */
  datatype OrnamentRow = OrnamentRow(serial: string, item: string, metal: string)

  const Placeholder: OrnamentRow := OrnamentRow("1", "N/A", "-")

  function ItemRow(o: Ornament, i: nat): OrnamentRow {
    OrnamentRow(Decimal(i + 1), o.name, o.metalType + " (" + Decimal(o.karat) + "K)")
  }

  /** One row per ornament numbered from 1, or the single placeholder row
      when the loan's ornament list is missing or empty. */
  function OrnamentRows(ornaments: Option<seq<Ornament>>): (rows: seq<OrnamentRow>)
    ensures |rows| >= 1
    ensures ornaments.Some? && ornaments.value != [] ==> |rows| == |ornaments.value|
    ensures !(ornaments.Some? && ornaments.value != []) ==> rows == [Placeholder]
    ensures ornaments.Some? && ornaments.value != [] ==>
      forall i :: 0 <= i < |rows| ==> rows[i].item == ornaments.value[i].name
  {
    if ornaments.Some? && ornaments.value != [] then
      var os := ornaments.value;
      seq(|os|, i requires 0 <= i < |os| => ItemRow(os[i], i))
    else [Placeholder]
  }

  /** Row `i` carries serial number `i + 1`, so the serials run 1, 2, ... without gaps. */
  lemma OrnamentSerials(ornaments: Option<seq<Ornament>>)
    ensures var rows := OrnamentRows(ornaments);
      forall i :: 0 <= i < |rows| ==>
        (forall k :: 0 <= k < |rows[i].serial| ==> IsDigit(rows[i].serial[k]))
        && DigitsValue(rows[i].serial) == i + 1
  {
    var rows := OrnamentRows(ornaments);
    forall i | 0 <= i < |rows|
      ensures (forall k :: 0 <= k < |rows[i].serial| ==> IsDigit(rows[i].serial[k]))
        && DigitsValue(rows[i].serial) == i + 1
    {
      DecimalRoundTrip(i + 1);
      if !(ornaments.Some? && ornaments.value != []) {
        assert i == 0;
        assert Decimal(1) == "1";
      }
    }
  }
}
