/**
 * The invoice server actions of app/lib/actions.ts: the form schema check,
 * the create/update/delete writes on the invoices table, the revalidate and
 * redirect effects they fire, and the sign-in error mapping.
 */
module Actions {
  import opened Wrappers

  const INVOICES_PATH := "/dashboard/invoices"
  const VALIDATION_FAILED := "Failed to Create Invoice."
  const SELECT_CUSTOMER := "Please select a customer."
  const AMOUNT_NOT_POSITIVE := "Please enter an amount greater than $0."
  const SELECT_STATUS := "Please select an invoice status."
  const UPDATE_FAILED := "Failed to insert invoice."
  const DELETE_FAILED := "Failed to delete invoice."
  const INVALID_CREDENTIALS := "Invalid credentials."
  const SOMETHING_WENT_WRONG := "Something went wrong."

  // ---------------------------------------------------------------------------
  // The form and its schema

  /** A form field as read from the submitted form data. */
  datatype FormValue = Missing | Text(text: string) | File

  /** The three fields the create and update forms submit. */
  datatype InvoiceForm = InvoiceForm(customerId: FormValue, amount: FormValue, status: FormValue)

  /** What `Number(...)` gives for the amount field, which `z.coerce.number()` applies first. */
  datatype Coerced = NaN | Finite(x: real)

  /**
   * A schema issue: the schema's own messages, or one of zod's default
   * issues (a missing field, a number that is NaN, a status outside the enum).
   */
  datatype Issue = Message(text: string) | Required | ExpectedNumber | InvalidEnumValue(received: string)

  /** `error.flatten().fieldErrors`: the issues per field, empty for a field that passed. */
  datatype FieldErrors = FieldErrors(customerId: seq<Issue>, amount: seq<Issue>, status: seq<Issue>)

  datatype Status = Pending | Paid

  datatype Validated = Validated(customerId: string, amount: real, status: Status)

  function StatusText(s: Status): string {
    match s
    case Pending => "pending"
    case Paid => "paid"
  }

  /** `Number(v)`: an absent field and a file both give NaN; `toNumber` parses text. */
  function Coerce(v: FormValue, toNumber: string -> Coerced): (r: Coerced)
    ensures r.Finite? ==> v.Text?
    ensures v.Text? && toNumber(v.text).Finite? ==> r.Finite?
  {
    match v
    case Text(s) => toNumber(s)
    case _ => NaN
  }

  function CustomerIdIssues(v: FormValue): seq<Issue> {
    match v
    case Missing => [Required]
    case Text(_) => []
    case File => [Message(SELECT_CUSTOMER)]
  }

  function AmountIssues(c: Coerced): seq<Issue> {
    match c
    case NaN => [ExpectedNumber]
    case Finite(x) => if x > 0.0 then [] else [Message(AMOUNT_NOT_POSITIVE)]
  }

  function ParseStatus(v: FormValue): Option<Status> {
    if v == Text("pending") then Some(Pending)
    else if v == Text("paid") then Some(Paid)
    else None
  }

  function StatusIssues(v: FormValue): seq<Issue> {
    match v
    case Missing => [Required]
    case File => [Message(SELECT_STATUS)]
    case Text(s) => if ParseStatus(v).Some? then [] else [InvalidEnumValue(s)]
  }

  /**
   * `CreateInvoice.safeParse` (and `UpdateInvoice`, the same schema): the
   * customer id must be text, the amount must coerce to a number above 0, the
   * status must be "pending" or "paid". Every field is checked; the issues of
   * all failing fields are reported together.
   */
  function Validate(form: InvoiceForm, toNumber: string -> Coerced): (r: Result<Validated, FieldErrors>)
    ensures r.Ok? <==>
      && form.customerId.Text?
      && Coerce(form.amount, toNumber).Finite? && Coerce(form.amount, toNumber).x > 0.0
      && (form.status == Text("pending") || form.status == Text("paid"))
    ensures r.Ok? ==>
      && r.value.customerId == form.customerId.text
      && r.value.amount == Coerce(form.amount, toNumber).x
      && form.status == Text(StatusText(r.value.status))
    ensures r.Err? ==>
      && (r.error.customerId == [] <==> form.customerId.Text?)
      && (r.error.amount == [] <==> Coerce(form.amount, toNumber).Finite? && Coerce(form.amount, toNumber).x > 0.0)
      && (r.error.status == [] <==> form.status == Text("pending") || form.status == Text("paid"))
      && (form.customerId == File ==> r.error.customerId == [Message(SELECT_CUSTOMER)])
      && ((Coerce(form.amount, toNumber).Finite? && Coerce(form.amount, toNumber).x <= 0.0)
          ==> r.error.amount == [Message(AMOUNT_NOT_POSITIVE)])
      && (form.status == File ==> r.error.status == [Message(SELECT_STATUS)])
  {
    var errors := FieldErrors(
      CustomerIdIssues(form.customerId),
      AmountIssues(Coerce(form.amount, toNumber)),
      StatusIssues(form.status));
    if errors == FieldErrors([], [], []) then
      Ok(Validated(form.customerId.text, Coerce(form.amount, toNumber).x, ParseStatus(form.status).value))
    else Err(errors)
  }

  /** An empty customer id is text and so passes the schema. */
  lemma EmptyCustomerIdAccepted(toNumber: string -> Coerced)
    requires toNumber("12") == Finite(12.0)
    ensures Validate(InvoiceForm(Text(""), Text("12"), Text("paid")), toNumber).Ok?
  {
  }

  // ---------------------------------------------------------------------------
  // The invoices table

  /** A stored invoice; the id is the key it is stored under. */
  datatype InvoiceRow = InvoiceRow(customerId: string, amount: real, status: string, date: string)

  /** The row `createInvoice` inserts: the amount in cents, the given day. */
  function NewRow(v: Validated, today: string): (r: InvoiceRow)
    ensures r.customerId == v.customerId && r.date == today
    ensures r.amount == v.amount * 100.0 && (r.amount > 0.0 <==> v.amount > 0.0)
    ensures r.status == "paid" <==> v.status == Paid
    ensures r.status == "pending" <==> v.status == Pending
  {
    InvoiceRow(v.customerId, v.amount * 100.0, StatusText(v.status), today)
  }

  /** A row the forms can produce: a positive amount and a known status. */
  predicate RowWellFormed(row: InvoiceRow) {
    row.amount > 0.0 && (row.status == "pending" || row.status == "paid")
  }

  /**
   * `.update({ customer_id, amount, status }).eq("id", id)`: the row with that
   * id takes the new customer, amount and status; its date stays, and every
   * other row stays as it was. No row with that id: nothing changes.
   */
  function Updated(rows: map<string, InvoiceRow>, id: string, v: Validated): (r: map<string, InvoiceRow>)
    ensures r.Keys == rows.Keys
    ensures forall k :: k in rows && k != id ==> r[k] == rows[k]
    ensures id in rows ==>
      && r[id].customerId == v.customerId
      && r[id].amount == v.amount * 100.0
      && r[id].status == StatusText(v.status)
      && r[id].date == rows[id].date
  {
    if id in rows
    then rows[id := InvoiceRow(v.customerId, v.amount * 100.0, StatusText(v.status), rows[id].date)]
    else rows
  }

  predicate AllWellFormed(rows: map<string, InvoiceRow>) {
    forall k :: k in rows ==> RowWellFormed(rows[k])
  }

  /** A validated form always yields a well-formed row. */
  lemma ValidatedRowWellFormed(form: InvoiceForm, toNumber: string -> Coerced, today: string)
    requires Validate(form, toNumber).Ok?
    ensures RowWellFormed(NewRow(Validate(form, toNumber).value, today))
  {
  }

  /** Creating, updating and deleting with validated input keep every row well formed. */
  lemma WritesKeepRowsWellFormed(rows: map<string, InvoiceRow>, form: InvoiceForm, toNumber: string -> Coerced,
                                 id: string, today: string)
    requires AllWellFormed(rows) && Validate(form, toNumber).Ok?
    ensures AllWellFormed(rows[id := NewRow(Validate(form, toNumber).value, today)])
    ensures AllWellFormed(Updated(rows, id, Validate(form, toNumber).value))
    ensures AllWellFormed(rows - {id})
  {
    var v := Validate(form, toNumber).value;
    ValidatedRowWellFormed(form, toNumber, today);
    var u := Updated(rows, id, v);
    forall k | k in u ensures RowWellFormed(u[k]) {
      if k == id {
        assert RowWellFormed(NewRow(v, rows[id].date)) by { ValidatedRowWellFormed(form, toNumber, rows[id].date); }
      }
    }
  }

  /** The invoices table, changed in place by the three writes; `fault` is the store's own error, if any. */
  class InvoicesTable {
    var rows: map<string, InvoiceRow>

    constructor (init: map<string, InvoiceRow>)
      ensures rows == init
    {
      rows := init;
    }

    /** `.insert([...])` under a fresh id the store generates. */
    method Insert(id: string, row: InvoiceRow, fault: Option<string>) returns (error: Option<string>)
      requires id !in rows
      modifies this
      ensures error == fault
      ensures rows == if fault.Some? then old(rows) else old(rows)[id := row]
    {
      error := fault;
      if fault.None? {
        rows := rows[id := row];
      }
    }

    method Update(id: string, v: Validated, fault: Option<string>) returns (error: Option<string>)
      modifies this
      ensures error == fault
      ensures rows == if fault.Some? then old(rows) else Updated(old(rows), id, v)
    {
      error := fault;
      if fault.None? {
        rows := Updated(rows, id, v);
      }
    }

    /** `.delete().eq("id", id)`: no row with that id is not an error. */
    method Delete(id: string, fault: Option<string>) returns (error: Option<string>)
      modifies this
      ensures error == fault
      ensures rows == if fault.Some? then old(rows) else old(rows) - {id}
    {
      error := fault;
      if fault.None? {
        rows := rows - {id};
      }
    }
  }

  // ---------------------------------------------------------------------------
  // The actions

  datatype Effect = Revalidate(path: string) | Redirect(path: string)

  /** The form state an action returns to the page. */
  datatype State = State(errors: FieldErrors, message: string)

  /** How an action ends: it returns a form state, throws with a message, or completes. */
  datatype Outcome = Returned(state: State) | Threw(message: string) | Completed

  /**
   * `Error.prototype.toString` (section 20.5.3.4 of ECMAScript): the name
   * alone when the message is empty, the message alone when the name is
   * empty, and otherwise the name, ": " and the message.
   */
  function ErrorToString(name: string, msg: string): string {
    if msg == "" then name else if name == "" then msg else name + ": " + msg
  }

  /**
   * The message of `new Error(error as string)` for a caught `Error` with
   * message `m`: "Error: " followed by `m`, or just "Error" when `m` is empty.
   */
  function Rethrown(m: string): (r: string)
    ensures r == "Error" <==> m == ""
    ensures m != "" ==> |r| == |m| + 7 && r[..7] == "Error: " && r[7..] == m
  {
    ErrorToString("Error", m)
  }

  class InvoiceActions {
    const table: InvoicesTable
    /** The revalidations and redirects fired so far, in order. */
    var effects: seq<Effect>

    constructor (table: InvoicesTable)
      ensures this.table == table && effects == []
    {
      this.table := table;
      effects := [];
    }

    /**
     * `createInvoice`: on a valid form, inserts one row (amount in cents,
     * `today` as its date) under the id the store generates, then revalidates
     * and redirects to the invoices page. A store error is thrown before any
     * effect; an invalid form returns its issues and writes nothing.
     */
    method CreateInvoice(form: InvoiceForm, toNumber: string -> Coerced, today: string, newId: string,
                         fault: Option<string>)
      returns (outcome: Outcome)
      requires newId !in table.rows
      modifies this, table
      ensures Validate(form, toNumber).Err? ==>
        && outcome == Returned(State(Validate(form, toNumber).error, VALIDATION_FAILED))
        && table.rows == old(table.rows) && effects == old(effects)
      ensures Validate(form, toNumber).Ok? && fault.Some? ==>
        && outcome == Threw(Rethrown(fault.value))
        && table.rows == old(table.rows) && effects == old(effects)
      ensures Validate(form, toNumber).Ok? && fault.None? ==>
        && outcome == Completed
        && table.rows == old(table.rows)[newId := NewRow(Validate(form, toNumber).value, today)]
        && effects == old(effects) + [Revalidate(INVOICES_PATH), Redirect(INVOICES_PATH)]
      ensures old(AllWellFormed(table.rows)) ==> AllWellFormed(table.rows)
    {
      var validated := Validate(form, toNumber);
      if validated.Err? {
        return Returned(State(validated.error, VALIDATION_FAILED));
      }
      ghost var before := table.rows;
      var error := table.Insert(newId, NewRow(validated.value, today), fault);
      if error.Some? {
        return Threw(Rethrown(error.value));
      }
      if AllWellFormed(before) {
        WritesKeepRowsWellFormed(before, form, toNumber, newId, today);
      }
      effects := effects + [Revalidate(INVOICES_PATH)];
      effects := effects + [Redirect(INVOICES_PATH)];
      outcome := Completed;
    }

    /**
     * `updateInvoice`: on a valid form, sets the customer, amount (in cents)
     * and status of the row with that id, then revalidates and redirects. A
     * store error throws "Failed to insert invoice." before any effect; an
     * invalid form returns its issues, with the create form's message.
     */
    method UpdateInvoice(id: string, form: InvoiceForm, toNumber: string -> Coerced, fault: Option<string>)
      returns (outcome: Outcome)
      modifies this, table
      ensures Validate(form, toNumber).Err? ==>
        && outcome == Returned(State(Validate(form, toNumber).error, VALIDATION_FAILED))
        && table.rows == old(table.rows) && effects == old(effects)
      ensures Validate(form, toNumber).Ok? && fault.Some? ==>
        && outcome == Threw(UPDATE_FAILED)
        && table.rows == old(table.rows) && effects == old(effects)
      ensures Validate(form, toNumber).Ok? && fault.None? ==>
        && outcome == Completed
        && table.rows == Updated(old(table.rows), id, Validate(form, toNumber).value)
        && effects == old(effects) + [Revalidate(INVOICES_PATH), Redirect(INVOICES_PATH)]
      ensures old(AllWellFormed(table.rows)) ==> AllWellFormed(table.rows)
    {
      var validated := Validate(form, toNumber);
      if validated.Err? {
        return Returned(State(validated.error, VALIDATION_FAILED));
      }
      ghost var before := table.rows;
      var error := table.Update(id, validated.value, fault);
      if error.Some? {
        return Threw(UPDATE_FAILED);
      }
      if AllWellFormed(before) {
        WritesKeepRowsWellFormed(before, form, toNumber, id, "");
      }
      effects := effects + [Revalidate(INVOICES_PATH)];
      effects := effects + [Redirect(INVOICES_PATH)];
      outcome := Completed;
    }

    /**
     * `deleteInvoice`: removes the row with that id and revalidates, with no
     * redirect; a store error throws "Failed to delete invoice." first.
     */
    method DeleteInvoice(id: string, fault: Option<string>) returns (outcome: Outcome)
      modifies this, table
      ensures fault.Some? ==>
        outcome == Threw(DELETE_FAILED) && table.rows == old(table.rows) && effects == old(effects)
      ensures fault.None? ==>
        && outcome == Completed
        && table.rows == old(table.rows) - {id}
        && effects == old(effects) + [Revalidate(INVOICES_PATH)]
      ensures old(AllWellFormed(table.rows)) ==> AllWellFormed(table.rows)
    {
      var error := table.Delete(id, fault);
      if error.Some? {
        return Threw(DELETE_FAILED);
      }
      effects := effects + [Revalidate(INVOICES_PATH)];
      outcome := Completed;
    }
  }

  /** Creating adds exactly one row and changes none of the others. */
  lemma CreateAddsOneRow(rows: map<string, InvoiceRow>, id: string, row: InvoiceRow)
    requires id !in rows
    ensures |rows[id := row].Keys| == |rows.Keys| + 1
    ensures forall k :: k in rows ==> k in rows[id := row] && rows[id := row][k] == rows[k]
  {
    assert rows[id := row].Keys == rows.Keys + {id};
  }

  /** Deleting removes exactly the row with that id, if there is one, and keeps the others as they were. */
  lemma DeleteRemovesOnlyThatRow(rows: map<string, InvoiceRow>, id: string)
    ensures id !in rows - {id}
    ensures forall k :: k in rows && k != id <==> k in rows - {id}
    ensures forall k :: k in rows - {id} ==> (rows - {id})[k] == rows[k]
    ensures id in rows ==> |(rows - {id}).Keys| == |rows.Keys| - 1
  {
    if id in rows {
      assert (rows - {id}).Keys == rows.Keys - {id};
    }
  }

  // ---------------------------------------------------------------------------
  // `authenticate`

  /** How the credentials sign-in ended. */
  datatype SignInResult = SignedIn | AuthError(kind: string) | OtherError(error: string)

  /** What `authenticate` gives back: nothing, a message for the form, or the rethrown error. */
  datatype AuthenticateResult = NoMessage | FormMessage(message: string) | Rethrow(error: string)

  function Authenticate(result: SignInResult): (r: AuthenticateResult)
    ensures r.FormMessage? <==> result.AuthError?
    ensures r.FormMessage? ==> (r.message == INVALID_CREDENTIALS <==> result.kind == "CredentialsSignin")
    ensures r.FormMessage? ==> r.message in {INVALID_CREDENTIALS, SOMETHING_WENT_WRONG}
    ensures r.Rethrow? <==> result.OtherError?
    ensures r.Rethrow? ==> r.error == result.error
  {
    match result
    case SignedIn => NoMessage
    case AuthError(kind) =>
      if kind == "CredentialsSignin" then FormMessage(INVALID_CREDENTIALS) else FormMessage(SOMETHING_WENT_WRONG)
    case OtherError(e) => Rethrow(e)
  }
}
