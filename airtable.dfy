/** The customer-table adapter (src/services/airtable.js): the field maps sent
    on create and update, the mapping of stored records to customers, the
    connection probe's error classification, the error messages of every
    call, and the name/e-mail search. Each HTTP exchange is an input. */
module Airtable {
  import opened Common
  import opened Text
  import opened Seqs
  import opened CivilDate

  const NameKey: string := "Name"
  const EmailKey: string := "Email"
  const AppointmentOnKey: string := "Appointment On"
  const AppointmentForKey: string := "Appointment For"
  const TimingKey: string := "Timing"

  /** The only columns the service ever writes. */
  const FieldKeys: set<string> := {NameKey, EmailKey, AppointmentOnKey, AppointmentForKey, TimingKey}

  const AccessDeniedMessage: string := "Access denied. Please check your Airtable token and base permissions."
  const NotFoundMessage: string := "Airtable base or table not found. Please verify your Base ID and table name."
  const InvalidStructureMessage: string := "Invalid table structure. Please check if the table name and fields exist."
  const ListPrefix: string := "Airtable API error: "
  const CreatePrefix: string := "Failed to create customer: "
  const UpdatePrefix: string := "Failed to update customer: "
  const DeletePrefix: string := "Failed to delete customer: "

  /** A stored row: its id and its string-valued cells; a missing key is an
      `undefined` cell. */
  datatype Record = Record(id: string, fields: map<string, string>)

  /** A customer as the service hands it to the table view; `raw` is the record it came from. */
  datatype Customer = Customer(
    id: string,
    name: string,
    email: string,
    appointmentOn: string,
    appointmentFor: string,
    timing: string,
    raw: Record)

  /** The `customerData` argument of create and update; None is `undefined` or `null`. */
  datatype CustomerInput = CustomerInput(
    name: Option<string>,
    email: Option<string>,
    appointmentOn: Option<string>,
    appointmentFor: Option<string>,
    timing: Option<string>)

  /** What one `fetch` produced: a rejected promise with its message, or a
      response with its status, status text, text body and parsed JSON body. */
  datatype HttpReply<T> =
    | NetworkFailure(message: string)
    | Http(status: nat, statusText: string, text: string, body: T)

  /** `response.ok`. */
  predicate Ok<T>(reply: HttpReply<T>)
  {
    reply.Http? && 200 <= reply.status <= 299
  }

  /** `HTTP ${status}: ${detail}`. */
  function HttpMessage(status: nat, detail: string): string
  {
    "HTTP " + Decimal(status) + ": " + detail
  }

  /** A digit string followed by a non-digit is determined by the whole:
      the digits end where the first non-digit starts. */
  lemma DigitsThenRest(a: string, x: string, b: string, y: string)
    requires AllDigits(a) && AllDigits(b) && a + x == b + y
    requires x != [] && y != [] && !IsDigit(x[0]) && !IsDigit(y[0])
    ensures a == b && x == y
  {
    LeadingDigitsOf(a, x);
    LeadingDigitsOf(b, y);
    var s := a + x;
    assert a == s[..|a|] && b == s[..|b|];
    assert x == s[|a|..] && y == s[|b|..];
  }

  /** The HTTP message determines both the status and the detail. */
  lemma HttpMessageInjective(s1: nat, d1: string, s2: nat, d2: string)
    requires HttpMessage(s1, d1) == HttpMessage(s2, d2)
    ensures s1 == s2 && d1 == d2
  {
    var m := HttpMessage(s1, d1);
    assert m == "HTTP " + (Decimal(s1) + (": " + d1));
    assert m == "HTTP " + (Decimal(s2) + (": " + d2));
    assert m[5..] == Decimal(s1) + (": " + d1) == Decimal(s2) + (": " + d2);
    DigitsThenRest(Decimal(s1), ": " + d1, Decimal(s2), ": " + d2);
    assert d1 == (": " + d1)[2..] && d2 == (": " + d2)[2..];
    ParseDecimal(s1);
    ParseDecimal(s2);
  }

  /** Is `s` matched by `/^\d{4}-\d{2}-\d{2}$/`: ten characters, digits
      except for dashes at positions 4 and 7 (no range check on month or day). */
  predicate IsDateShape(s: string)
  {
    |s| == 10 && forall i :: 0 <= i < 10 ==> if i == 4 || i == 7 then s[i] == '-' else IsDigit(s[i])
  }

  /** The customer forms take the appointment date from an `<input type="date">`,
      which reports a picked day as `yyyy-mm-dd` (the text `DayKey` writes);
      for years 0 to 9999 such a value always passes the shape check, so a
      picked date is never dropped. */
  lemma PickedDateHasDateShape(d: Date)
    requires d.Valid() && 0 <= d.year <= 9999
    ensures IsDateShape(DayKey(d))
  {
    var y, m, dd := Pad(d.year, 4), Pad(d.month + 1, 2), Pad(d.day, 2);
    var s := DayKey(d);
    assert s == y + "-" + m + "-" + dd;
    forall i | 0 <= i < 10
      ensures if i == 4 || i == 7 then s[i] == '-' else IsDigit(s[i])
    {
      if i < 4 {
        assert s[i] == y[i];
      } else if 4 < i < 7 {
        assert s[i] == m[i - 5];
      } else if 7 < i {
        assert s[i] == dd[i - 8];
      }
    }
  }

  /** The shape check accepts dates that do not exist. */
  lemma DateShapeAcceptsImpossibleDate()
    ensures IsDateShape("2025-13-45")
  {
  }

  /** `value !== undefined && value !== null && value !== ''`. */
  predicate Given(a: Option<string>)
  {
    a.Some? && a.value != ""
  }

  /** The value `createCustomer` sends under column `key`, if any. */
  function CreateEntry(data: CustomerInput, key: string): Option<string>
  {
    if key == NameKey then
      (if data.name.Some? && Trim(data.name.value) != "" then Some(Trim(data.name.value)) else None)
    else if key == EmailKey then
      (if data.email.Some? && Trim(data.email.value) != "" then Some(Trim(data.email.value)) else None)
    else if key == AppointmentOnKey then
      (if Given(data.appointmentOn) && IsDateShape(data.appointmentOn.value) then data.appointmentOn else None)
    else if key == AppointmentForKey then
      (if Given(data.appointmentFor) then data.appointmentFor else None)
    else if key == TimingKey then
      (if Given(data.timing) then data.timing else None)
    else None
  }

  /** The value `updateCustomer` sends under column `key`, if any. */
  function UpdateEntry(data: CustomerInput, key: string): Option<string>
  {
    if key == NameKey then data.name
    else if key == EmailKey then data.email
    else if key == AppointmentOnKey then
      (if Given(data.appointmentOn) && IsDateShape(data.appointmentOn.value) then data.appointmentOn else None)
    else if key == AppointmentForKey then data.appointmentFor
    else if key == TimingKey then data.timing
    else None
  }

  /** Which of the two cleaners runs. */
  datatype Operation = Create | Update

  /** The value the cleaner of `op` sends under column `key`, if any. */
  function Entry(op: Operation, data: CustomerInput, key: string): Option<string>
  {
    match op
    case Create => CreateEntry(data, key)
    case Update => UpdateEntry(data, key)
  }

  /** The `cleanFields` object of `op`, column by column. */
  function Fields(op: Operation, data: CustomerInput): (r: map<string, string>)
    ensures r.Keys <= FieldKeys
    ensures forall k :: k in r <==> k in FieldKeys && Entry(op, data, k).Some?
    ensures forall k :: k in r ==> r[k] == Entry(op, data, k).value
  {
    map k | k in FieldKeys && Entry(op, data, k).Some? :: Entry(op, data, k).value
  }

  /** The written column names are pairwise different. */
  lemma KeysDistinct()
    ensures NameKey != EmailKey && NameKey != AppointmentOnKey && NameKey != AppointmentForKey && NameKey != TimingKey
    ensures EmailKey != AppointmentOnKey && EmailKey != AppointmentForKey && EmailKey != TimingKey
    ensures AppointmentOnKey != AppointmentForKey && AppointmentOnKey != TimingKey
    ensures AppointmentForKey != TimingKey
  {
    assert NameKey[0] == 'N' && EmailKey[0] == 'E' && TimingKey[0] == 'T';
    assert AppointmentOnKey[0] == 'A' && AppointmentForKey[0] == 'A';
    assert AppointmentOnKey[12] == 'O' && AppointmentForKey[12] == 'F';
  }

  /** `m` holds exactly what the cleaner of `op` sends on the columns `keys`. */
  ghost predicate Agrees(m: map<string, string>, op: Operation, data: CustomerInput, keys: set<string>)
  {
    (forall k :: k in m <==> k in keys && Entry(op, data, k).Some?) &&
    (forall k :: k in m ==> m[k] == Entry(op, data, k).value)
  }

  /** Handling one more column: the entry, when there is one, is added. */
  lemma AgreesStep(m: map<string, string>, m': map<string, string>, op: Operation, data: CustomerInput, keys: set<string>, key: string)
    requires Agrees(m, op, data, keys) && key !in keys
    requires Entry(op, data, key).Some? ==> m' == m[key := Entry(op, data, key).value]
    requires Entry(op, data, key).None? ==> m' == m
    ensures Agrees(m', op, data, keys + {key})
  {
  }

  /** A map that agrees with the cleaner on every written column is its field map. */
  lemma FieldsUnique(m: map<string, string>, op: Operation, data: CustomerInput)
    requires Agrees(m, op, data, FieldKeys)
    ensures m == Fields(op, data)
  {
  }

  /** The create entry of each written column. */
  lemma CreateEntries(data: CustomerInput)
    ensures Entry(Create, data, NameKey) == if data.name.Some? && Trim(data.name.value) != "" then Some(Trim(data.name.value)) else None
    ensures Entry(Create, data, EmailKey) == if data.email.Some? && Trim(data.email.value) != "" then Some(Trim(data.email.value)) else None
    ensures Entry(Create, data, AppointmentOnKey) == if Given(data.appointmentOn) && IsDateShape(data.appointmentOn.value) then data.appointmentOn else None
    ensures Entry(Create, data, AppointmentForKey) == if Given(data.appointmentFor) then data.appointmentFor else None
    ensures Entry(Create, data, TimingKey) == if Given(data.timing) then data.timing else None
  {
    KeysDistinct();
  }

  /** The `cleanFields` object `createCustomer` builds. */
  method CleanCreateFields(data: CustomerInput) returns (clean: map<string, string>)
    ensures clean == Fields(Create, data)
  {
    KeysDistinct();
    CreateEntries(data);
    clean := map[];
    ghost var before := clean;
    if data.name.Some? && Trim(data.name.value) != "" {
      clean := clean[NameKey := Trim(data.name.value)];
    }
    AgreesStep(before, clean, Create, data, {}, NameKey);
    before := clean;
    if data.email.Some? && Trim(data.email.value) != "" {
      clean := clean[EmailKey := Trim(data.email.value)];
    }
    AgreesStep(before, clean, Create, data, {NameKey}, EmailKey);
    before := clean;
    if Given(data.appointmentOn) {
      var dateValue := data.appointmentOn.value;
      if IsDateShape(dateValue) {
        clean := clean[AppointmentOnKey := dateValue];
      }
    }
    AgreesStep(before, clean, Create, data, {NameKey, EmailKey}, AppointmentOnKey);
    before := clean;
    if Given(data.appointmentFor) {
      clean := clean[AppointmentForKey := data.appointmentFor.value];
    }
    AgreesStep(before, clean, Create, data, {NameKey, EmailKey, AppointmentOnKey}, AppointmentForKey);
    before := clean;
    if Given(data.timing) {
      clean := clean[TimingKey := data.timing.value];
    }
    AgreesStep(before, clean, Create, data, {NameKey, EmailKey, AppointmentOnKey, AppointmentForKey}, TimingKey);
    FieldsUnique(clean, Create, data);
  }

  /** The update entry of each written column. */
  lemma UpdateEntries(data: CustomerInput)
    ensures Entry(Update, data, NameKey) == data.name
    ensures Entry(Update, data, EmailKey) == data.email
    ensures Entry(Update, data, AppointmentOnKey) == if Given(data.appointmentOn) && IsDateShape(data.appointmentOn.value) then data.appointmentOn else None
    ensures Entry(Update, data, AppointmentForKey) == data.appointmentFor
    ensures Entry(Update, data, TimingKey) == data.timing
  {
    KeysDistinct();
  }

  /** The `cleanFields` object `updateCustomer` builds. */
  method CleanUpdateFields(data: CustomerInput) returns (clean: map<string, string>)
    ensures clean == Fields(Update, data)
  {
    KeysDistinct();
    UpdateEntries(data);
    clean := map[];
    ghost var before := clean;
    if data.name.Some? {
      clean := clean[NameKey := data.name.value];
    }
    AgreesStep(before, clean, Update, data, {}, NameKey);
    before := clean;
    if data.email.Some? {
      clean := clean[EmailKey := data.email.value];
    }
    AgreesStep(before, clean, Update, data, {NameKey}, EmailKey);
    before := clean;
    if Given(data.appointmentOn) {
      var dateValue := data.appointmentOn.value;
      if IsDateShape(dateValue) {
        clean := clean[AppointmentOnKey := dateValue];
      }
    }
    AgreesStep(before, clean, Update, data, {NameKey, EmailKey}, AppointmentOnKey);
    before := clean;
    if data.appointmentFor.Some? {
      clean := clean[AppointmentForKey := data.appointmentFor.value];
    }
    AgreesStep(before, clean, Update, data, {NameKey, EmailKey, AppointmentOnKey}, AppointmentForKey);
    before := clean;
    if data.timing.Some? {
      clean := clean[TimingKey := data.timing.value];
    }
    AgreesStep(before, clean, Update, data, {NameKey, EmailKey, AppointmentOnKey, AppointmentForKey}, TimingKey);
    FieldsUnique(clean, Update, data);
  }

  /** Create sends a name or e-mail only when it is not blank, and then trimmed;
      a date only when it has the date shape; the other two only when non-empty,
      untrimmed. */
  lemma CreateFieldRules(data: CustomerInput)
    ensures var f := Fields(Create, data);
      (NameKey in f <==> data.name.Some? && !IsBlank(data.name.value)) &&
      (NameKey in f ==> f[NameKey] == Trim(data.name.value)) &&
      (EmailKey in f <==> data.email.Some? && !IsBlank(data.email.value)) &&
      (EmailKey in f ==> f[EmailKey] == Trim(data.email.value)) &&
      (AppointmentOnKey in f <==> data.appointmentOn.Some? && IsDateShape(data.appointmentOn.value)) &&
      (AppointmentOnKey in f ==> f[AppointmentOnKey] == data.appointmentOn.value) &&
      (AppointmentForKey in f <==> Given(data.appointmentFor)) &&
      (AppointmentForKey in f ==> f[AppointmentForKey] == data.appointmentFor.value) &&
      (TimingKey in f <==> Given(data.timing)) &&
      (TimingKey in f ==> f[TimingKey] == data.timing.value)
  {
  }

  /** Update sends every present value, even an empty or blank one, untouched,
      except a date, which follows the same shape rule as create. */
  lemma UpdateFieldRules(data: CustomerInput)
    ensures var f := Fields(Update, data);
      (NameKey in f <==> data.name.Some?) &&
      (NameKey in f ==> f[NameKey] == data.name.value) &&
      (EmailKey in f <==> data.email.Some?) &&
      (EmailKey in f ==> f[EmailKey] == data.email.value) &&
      (AppointmentOnKey in f <==> data.appointmentOn.Some? && IsDateShape(data.appointmentOn.value)) &&
      (AppointmentOnKey in f ==> f[AppointmentOnKey] == data.appointmentOn.value) &&
      (AppointmentForKey in f <==> data.appointmentFor.Some?) &&
      (AppointmentForKey in f ==> f[AppointmentForKey] == data.appointmentFor.value) &&
      (TimingKey in f <==> data.timing.Some?) &&
      (TimingKey in f ==> f[TimingKey] == data.timing.value)
  {
  }

  /** Update sends a superset of the columns create sends; the date, the
      appointment purpose and the timing agree wherever create sends them. */
  lemma CreateSendsLessThanUpdate(data: CustomerInput)
    ensures var c, u := Fields(Create, data), Fields(Update, data);
      c.Keys <= u.Keys &&
      forall k :: k in c && k != NameKey && k != EmailKey ==> c[k] == u[k]
  {
  }

  /** `fields[key]`. */
  function Field(fields: map<string, string>, key: string): Option<string>
  {
    if key in fields then Some(fields[key]) else None
  }

  /** `fields[k0] || fields[k1] || ... || ''`: the first truthy cell among the aliases. */
  function FirstTruthy(fields: map<string, string>, aliases: seq<string>): (r: string)
    ensures r == "" <==> forall i :: 0 <= i < |aliases| ==> !Truthy(Field(fields, aliases[i]))
    ensures r != "" ==>
      exists i :: 0 <= i < |aliases| && Field(fields, aliases[i]) == Some(r) &&
        forall j :: 0 <= j < i ==> !Truthy(Field(fields, aliases[j]))
  {
    if aliases == [] then ""
    else
      var rest := FirstTruthy(fields, aliases[1..]);
      if Truthy(Field(fields, aliases[0])) then fields[aliases[0]]
      else
        assert forall i :: 1 <= i < |aliases| ==> aliases[i] == aliases[1..][i - 1];
        rest
  }

  /** One step of the `||` chain. */
  lemma FirstTruthyCons(fields: map<string, string>, key: string, rest: seq<string>)
    ensures FirstTruthy(fields, [key] + rest) == Or(Field(fields, key), FirstTruthy(fields, rest))
  {
    assert ([key] + rest)[1..] == rest;
  }

  const NameAliases: seq<string> := [NameKey, "name"]
  const EmailAliases: seq<string> := [EmailKey, "email"]
  const TimingAliases: seq<string> := [TimingKey, "timing", "Time"]

  /** The mapping `getCustomers` applies to each record. */
  function ListCustomer(rec: Record): (c: Customer)
    ensures c.id == rec.id && c.raw == rec
    ensures c.name == FirstTruthy(rec.fields, NameAliases)
    ensures c.email == FirstTruthy(rec.fields, EmailAliases)
    ensures c.appointmentOn == Or(Field(rec.fields, AppointmentOnKey), "")
    ensures c.appointmentFor == Or(Field(rec.fields, AppointmentForKey), "")
    ensures c.timing == FirstTruthy(rec.fields, TimingAliases)
  {
    FirstTruthyCons(rec.fields, NameKey, ["name"]);
    FirstTruthyCons(rec.fields, "name", []);
    FirstTruthyCons(rec.fields, EmailKey, ["email"]);
    FirstTruthyCons(rec.fields, "email", []);
    FirstTruthyCons(rec.fields, TimingKey, ["timing", "Time"]);
    FirstTruthyCons(rec.fields, "timing", ["Time"]);
    FirstTruthyCons(rec.fields, "Time", []);
    Customer(
      rec.id,
      Or(Field(rec.fields, NameKey), Or(Field(rec.fields, "name"), "")),
      Or(Field(rec.fields, EmailKey), Or(Field(rec.fields, "email"), "")),
      Or(Field(rec.fields, AppointmentOnKey), ""),
      Or(Field(rec.fields, AppointmentForKey), ""),
      Or(Field(rec.fields, TimingKey), Or(Field(rec.fields, "timing"), Or(Field(rec.fields, "Time"), ""))),
      rec)
  }

  /** `data.records.map(...)`: one customer per record, in order. */
  function ListCustomers(records: seq<Record>): (r: seq<Customer>)
    ensures |r| == |records|
    ensures forall i :: 0 <= i < |records| ==> r[i] == ListCustomer(records[i])
  {
    if records == [] then [] else [ListCustomer(records[0])] + ListCustomers(records[1..])
  }

  /** The mapping of the record returned by create and update: capitalised columns only. */
  function WrittenCustomer(rec: Record): (c: Customer)
    ensures c.id == rec.id && c.raw == rec
    ensures c.name == Or(Field(rec.fields, NameKey), "")
    ensures c.email == Or(Field(rec.fields, EmailKey), "")
    ensures c.appointmentOn == Or(Field(rec.fields, AppointmentOnKey), "")
    ensures c.appointmentFor == Or(Field(rec.fields, AppointmentForKey), "")
    ensures c.timing == Or(Field(rec.fields, TimingKey), "")
  {
    Customer(
      rec.id,
      Or(Field(rec.fields, NameKey), ""),
      Or(Field(rec.fields, EmailKey), ""),
      Or(Field(rec.fields, AppointmentOnKey), ""),
      Or(Field(rec.fields, AppointmentForKey), ""),
      Or(Field(rec.fields, TimingKey), ""),
      rec)
  }

  /** A record holding only the service's own columns reads the same through
      the list mapping and the create/update mapping. */
  lemma ListAgreesWithWritten(rec: Record)
    requires rec.fields.Keys <= FieldKeys
    ensures ListCustomer(rec) == WrittenCustomer(rec)
  {
    assert "name" !in rec.fields && "email" !in rec.fields;
    assert "timing" !in rec.fields && "Time" !in rec.fields;
  }

  /** When the stored record echoes the fields create sent, the customer read
      back carries the trimmed name and e-mail, the date only when it had the
      date shape, and the other values as given. */
  lemma CreateRoundTrip(data: CustomerInput, id: string)
    ensures var c := WrittenCustomer(Record(id, Fields(Create, data)));
      c.id == id &&
      c.name == (if data.name.Some? then Trim(data.name.value) else "") &&
      c.email == (if data.email.Some? then Trim(data.email.value) else "") &&
      c.appointmentOn == (if Given(data.appointmentOn) && IsDateShape(data.appointmentOn.value) then data.appointmentOn.value else "") &&
      c.appointmentFor == Or(data.appointmentFor, "") &&
      c.timing == Or(data.timing, "")
  {
  }

  /** When the stored record echoes the fields update sent, every present
      value reads back unchanged, except a date without the date shape. */
  lemma UpdateRoundTrip(data: CustomerInput, id: string)
    ensures var c := WrittenCustomer(Record(id, Fields(Update, data)));
      c.id == id &&
      c.name == Or(data.name, "") &&
      c.email == Or(data.email, "") &&
      c.appointmentOn == (if Given(data.appointmentOn) && IsDateShape(data.appointmentOn.value) then data.appointmentOn.value else "") &&
      c.appointmentFor == Or(data.appointmentFor, "") &&
      c.timing == Or(data.timing, "")
  {
  }

  /** Why `testConnection` threw. */
  datatype ProbeError =
    | Unreachable(message: string)
    | AccessDenied
    | NotFound
    | InvalidStructure
    | HttpStatus(status: nat, statusText: string)
  {
    /** The message of the error thrown. */
    function Message(): string
    {
      match this
      case Unreachable(m) => m
      case AccessDenied => AccessDeniedMessage
      case NotFound => NotFoundMessage
      case InvalidStructure => InvalidStructureMessage
      case HttpStatus(status, statusText) => HttpMessage(status, statusText)
    }
  }

  /** `testConnection`: true for an ok response; its own error for 403, 404
      and 422; the HTTP status line for any other failure status; a network
      failure propagates unchanged. */
  function Probe(reply: HttpReply<()>): (r: Result<bool, ProbeError>)
    ensures r.Success? <==> Ok(reply)
    ensures r.Success? ==> r.value
    ensures reply.NetworkFailure? ==> r == Failure(Unreachable(reply.message))
    ensures reply.Http? && !Ok(reply) ==>
      r.Failure? &&
      (r.error == AccessDenied <==> reply.status == 403) &&
      (r.error == NotFound <==> reply.status == 404) &&
      (r.error == InvalidStructure <==> reply.status == 422) &&
      (r.error.HttpStatus? <==> reply.status != 403 && reply.status != 404 && reply.status != 422) &&
      (r.error.HttpStatus? ==> r.error.status == reply.status && r.error.statusText == reply.statusText)
  {
    match reply
    case NetworkFailure(m) => Failure(Unreachable(m))
    case Http(status, statusText, _, _) =>
      if Ok(reply) then Success(true)
      else if status == 403 then Failure(AccessDenied)
      else if status == 404 then Failure(NotFound)
      else if status == 422 then Failure(InvalidStructure)
      else Failure(HttpStatus(status, statusText))
  }

  /** The messages for 403, 404 and 422 tell the three failures apart. */
  lemma ProbeMessagesDistinct()
    ensures AccessDenied.Message() != NotFound.Message()
    ensures AccessDenied.Message() != InvalidStructure.Message()
    ensures NotFound.Message() != InvalidStructure.Message()
  {
    assert |AccessDeniedMessage| == 69;
    assert |NotFoundMessage| == 76;
    assert |InvalidStructureMessage| == 73;
  }

  /** Two failed responses whose probe messages are the same status line had
      the same status and status text. */
  lemma ProbeMessageNamesStatus(a: HttpReply<()>, b: HttpReply<()>)
    requires Probe(a).Failure? && Probe(a).error.HttpStatus?
    requires Probe(b).Failure? && Probe(b).error.HttpStatus?
    requires Probe(a).error.Message() == Probe(b).error.Message()
    ensures a.status == b.status && a.statusText == b.statusText
  {
    HttpMessageInjective(a.status, a.statusText, b.status, b.statusText);
  }

  /** `getCustomers`: the probe, then the listing; any failure is rethrown
      behind "Airtable API error: ". */
  function GetCustomers(probe: HttpReply<()>, list: HttpReply<seq<Record>>): (r: Result<seq<Customer>, string>)
    ensures Probe(probe).Failure? ==> r == Failure(ListPrefix + Probe(probe).error.Message())
    ensures Probe(probe).Success? && list.NetworkFailure? ==> r == Failure(ListPrefix + list.message)
    ensures Probe(probe).Success? && list.Http? && !Ok(list) ==>
      r == Failure(ListPrefix + HttpMessage(list.status, list.statusText))
    ensures Probe(probe).Success? && Ok(list) ==> r == Success(ListCustomers(list.body))
  {
    match Probe(probe)
    case Failure(e) => Failure(ListPrefix + e.Message())
    case Success(_) =>
      match list
      case NetworkFailure(m) => Failure(ListPrefix + m)
      case Http(status, statusText, _, records) =>
        if Ok(list) then Success(ListCustomers(records))
        else Failure(ListPrefix + HttpMessage(status, statusText))
  }

  /** The outcome of the POST or PATCH in create and update: the returned
      record mapped, or an error whose HTTP detail is the response text, or
      the status text when the text is empty. */
  function WriteOutcome(prefix: string, reply: HttpReply<Record>): (r: Result<Customer, string>)
    ensures Ok(reply) ==> r == Success(WrittenCustomer(reply.body))
    ensures reply.NetworkFailure? ==> r == Failure(prefix + reply.message)
    ensures reply.Http? && !Ok(reply) && reply.text != "" ==>
      r == Failure(prefix + HttpMessage(reply.status, reply.text))
    ensures reply.Http? && !Ok(reply) && reply.text == "" ==>
      r == Failure(prefix + HttpMessage(reply.status, reply.statusText))
  {
    match reply
    case NetworkFailure(m) => Failure(prefix + m)
    case Http(status, statusText, text, record) =>
      if Ok(reply) then Success(WrittenCustomer(record))
      else Failure(prefix + HttpMessage(status, if text != "" then text else statusText))
  }

  /** `createCustomer`: the fields sent, and the created customer or the error. */
  method CreateCustomer(data: CustomerInput, reply: HttpReply<Record>) returns (sent: map<string, string>, r: Result<Customer, string>)
    ensures sent == Fields(Create, data)
    ensures r == WriteOutcome(CreatePrefix, reply)
    ensures r.Failure? ==> StartsWith(r.error, CreatePrefix)
  {
    sent := CleanCreateFields(data);
    r := WriteOutcome(CreatePrefix, reply);
  }

  /** `updateCustomer`: the fields sent, and the updated customer or the error. */
  method UpdateCustomer(data: CustomerInput, reply: HttpReply<Record>) returns (sent: map<string, string>, r: Result<Customer, string>)
    ensures sent == Fields(Update, data)
    ensures r == WriteOutcome(UpdatePrefix, reply)
    ensures r.Failure? ==> StartsWith(r.error, UpdatePrefix)
  {
    sent := CleanUpdateFields(data);
    r := WriteOutcome(UpdatePrefix, reply);
  }

  /** `deleteCustomer`: true, or an error carrying the status text (never the body). */
  function DeleteCustomer(reply: HttpReply<()>): (r: Result<bool, string>)
    ensures r.Success? <==> Ok(reply)
    ensures r.Success? ==> r.value
    ensures reply.NetworkFailure? ==> r == Failure(DeletePrefix + reply.message)
    ensures reply.Http? && !Ok(reply) ==> r == Failure(DeletePrefix + HttpMessage(reply.status, reply.statusText))
  {
    match reply
    case NetworkFailure(m) => Failure(DeletePrefix + m)
    case Http(status, statusText, _, _) =>
      if Ok(reply) then Success(true) else Failure(DeletePrefix + HttpMessage(status, statusText))
  }

  /** The test in `searchCustomers`: the lowercased query occurs in the
      lowercased name or e-mail. */
  predicate SearchMatches(c: Customer, query: string)
  {
    Contains(Lower(c.name), Lower(query)) || Contains(Lower(c.email), Lower(query))
  }

  /** `searchCustomers`: the customers matching the query, in order; a failure
      of `getCustomers` is rethrown unchanged. */
  function SearchCustomers(query: string, probe: HttpReply<()>, list: HttpReply<seq<Record>>): (r: Result<seq<Customer>, string>)
    ensures r.Success? <==> GetCustomers(probe, list).Success?
    ensures GetCustomers(probe, list).Failure? ==> r == GetCustomers(probe, list)
    ensures r.Success? ==>
      IsSubsequence(r.value, GetCustomers(probe, list).value) &&
      (forall c :: c in r.value <==> c in GetCustomers(probe, list).value && SearchMatches(c, query)) &&
      forall c :: multiset(r.value)[c] == if SearchMatches(c, query) then multiset(GetCustomers(probe, list).value)[c] else 0
  {
    match GetCustomers(probe, list)
    case Failure(m) => Failure(m)
    case Success(customers) => Success(Filter(customers, c => SearchMatches(c, query)))
  }

  /** Lowercasing twice is lowercasing once. */
  lemma LowerIdempotent(s: string)
    ensures Lower(Lower(s)) == Lower(s)
  {
  }

  /** The search ignores the case of the query. */
  lemma SearchIgnoresQueryCase(query: string, probe: HttpReply<()>, list: HttpReply<seq<Record>>)
    ensures SearchCustomers(Lower(query), probe, list) == SearchCustomers(query, probe, list)
  {
    LowerIdempotent(query);
    if GetCustomers(probe, list).Success? {
      var cs := GetCustomers(probe, list).value;
      FilterCongruent(cs, c => SearchMatches(c, Lower(query)), c => SearchMatches(c, query));
    }
  }
}
