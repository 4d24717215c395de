/** The bill record the new-bill form builds on submit. */
module BillRecord {
  import opened Wrappers
  import opened JsParseInt

  datatype Status = Pending | Accepted | Refused

  /** The raw values of the form's fields, as the browser hands them over. */
  datatype FormFields = FormFields(
    expenseType: string,
    expenseName: string,
    amount: string,
    date: string,
    vat: string,
    pct: string,
    commentary: string)

  /** A bill; `amount` is None where `parseInt` gave NaN, `fileUrl` and `fileName` are None where the handler held null. */
  datatype Bill = Bill(
    email: string,
    expenseType: string,
    name: string,
    amount: Option<int>,
    date: string,
    vat: string,
    pct: int,
    commentary: string,
    fileUrl: Option<string>,
    fileName: Option<string>,
    status: Status)

  const DefaultPct: int := 20

  /**
   * The percentage field: its parsed value, or the default when the parse is
   * falsy in JavaScript, that is NaN or zero (an empty field included).
   */
  function PctOrDefault(raw: string): (pct: int)
    ensures pct != 0
    ensures ParseInt(raw) == None || ParseInt(raw) == Some(0) ==> pct == DefaultPct
    ensures ParseInt(raw).Some? && ParseInt(raw).value != 0 ==> pct == ParseInt(raw).value
  {
    match ParseInt(raw)
    case Some(v) => if v != 0 then v else DefaultPct
    case None => DefaultPct
  }

  /** A printed non-zero percentage is kept; a printed zero becomes the default. */
  lemma PctOfDecimal(n: int)
    ensures PctOrDefault(Decimal(n)) == if n == 0 then DefaultPct else n
  {
    assert Decimal(n) + [] == Decimal(n);
    ParseIntOfDecimal(n, []);
  }

  /** An empty or blank percentage field gives the default. */
  lemma PctOfBlank(ws: string)
    requires forall i :: 0 <= i < |ws| ==> IsStrWhiteSpace(ws[i])
    ensures PctOrDefault(ws) == DefaultPct
  {
    assert ws + [] == ws;
    ParseIntSkipsWhiteSpace(ws, []);
    NaNExamples();
  }

  /**
   * The record built from the form: the session email, the status forced to
   * pending, the amount parsed with no default, the percentage defaulted, and
   * the file reference and name the handler holds at that moment.
   */
  function BuildBill(form: FormFields, email: string, fileUrl: Option<string>, fileName: Option<string>): (b: Bill)
    ensures b.status == Pending && b.email == email
    ensures b.fileUrl == fileUrl && b.fileName == fileName
    ensures b.amount == ParseInt(form.amount) && b.pct == PctOrDefault(form.pct) && b.pct != 0
    ensures b.expenseType == form.expenseType && b.name == form.expenseName && b.date == form.date
    ensures b.vat == form.vat && b.commentary == form.commentary
  {
    Bill(
      email := email,
      expenseType := form.expenseType,
      name := form.expenseName,
      amount := ParseInt(form.amount),
      date := form.date,
      vat := form.vat,
      pct := PctOrDefault(form.pct),
      commentary := form.commentary,
      fileUrl := fileUrl,
      fileName := fileName,
      status := Pending)
  }
}
