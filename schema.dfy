/**
  The order record and the two request-body validators: the create schema
  (`insertOrderSchema`) and the partial update schema (`updateOrderSchema`).
  A validator either yields the typed record or the list of every issue it
  found, as zod does; unknown members of a body are dropped.
*/
module Schema {
  import opened Wrappers
  import Js

  /** A stored order: a row of the `orders` table. `createdAt` is a time in milliseconds. */
  datatype Order = Order(
    id: string,
    customerName: string,
    phone: string,
    medicine: string,
    status: string,
    createdAt: int)

  /** The status a new order gets when none is given: the column default. */
  const DefaultStatus: string := "pending"

  /** The statuses the update schema accepts. */
  const Statuses: seq<string> := ["pending", "processing", "completed", "cancelled"]

  const MinNameLength: nat := 2
  const MinPhoneLength: nat := 10
  const MinMedicineLength: nat := 3

  /**
    The input of the create operation. The create schema leaves out `id`,
    `createdAt` and `status`, so a validated body never carries a status; the
    store still honours one that a direct caller supplies.
  */
  datatype InsertOrder = InsertOrder(
    customerName: string,
    phone: string,
    medicine: string,
    status: Option<string>)

  /** The input of the update operation: every field is optional. */
  datatype UpdateOrder = UpdateOrder(
    customerName: Option<string>,
    phone: Option<string>,
    medicine: Option<string>,
    status: Option<string>)

  /** A JSON value, as far as the validators tell values apart: a string, or anything else. */
  datatype Json = JString(s: string) | JOther

  /**
    A parsed request body. An absent member is `None`. Members other than
    these four are dropped by both schemas and play no part.
  */
  datatype Body =
    | JObject(customerName: Option<Json>, phone: Option<Json>, medicine: Option<Json>, status: Option<Json>)
    | NonObject

  datatype Field = CustomerName | Phone | Medicine | Status

  /** What a validator can complain about, one issue per failed check. */
  datatype Issue =
    | NotAnObject
    | Required(field: Field)
    | ExpectedString(field: Field)
    | TooShort(field: Field, minimum: nat)
    | InvalidPhone
    | InvalidStatus

  /** The string a member holds, if it is present and a string. */
  function StringOf(v: Option<Json>): Option<string> {
    if v.Some? && v.value.JString? then Some(v.value.s) else None
  }

  /** A character of the phone pattern's class: a digit, `+`, `-`, white space, `(` or `)`. */
  predicate IsPhoneChar(c: char) {
    ('0' <= c <= '9') || c == '+' || c == '-' || Js.IsWhitespace(c) || c == '(' || c == ')'
  }

  /** The phone pattern: one or more characters of the phone class and nothing else. */
  predicate MatchesPhonePattern(s: string) {
    |s| > 0 && forall i :: 0 <= i < |s| ==> IsPhoneChar(s[i])
  }

  predicate ValidCustomerName(s: string) { |s| >= MinNameLength }
  predicate ValidPhone(s: string) { |s| >= MinPhoneLength && MatchesPhonePattern(s) }
  predicate ValidMedicine(s: string) { |s| >= MinMedicineLength }

  /** The create schema's rules, stated field by field. */
  predicate AcceptsInsert(body: Body) {
    && body.JObject?
    && StringOf(body.customerName).Some? && ValidCustomerName(StringOf(body.customerName).value)
    && StringOf(body.phone).Some? && ValidPhone(StringOf(body.phone).value)
    && StringOf(body.medicine).Some? && ValidMedicine(StringOf(body.medicine).value)
  }

  /** The update schema's rules: each member may be absent, and is checked when present. */
  predicate AcceptsUpdate(body: Body) {
    && body.JObject?
    && (body.customerName.Some? ==> StringOf(body.customerName).Some? && |StringOf(body.customerName).value| >= MinNameLength)
    && (body.phone.Some? ==> StringOf(body.phone).Some? && |StringOf(body.phone).value| >= MinPhoneLength)
    && (body.medicine.Some? ==> StringOf(body.medicine).Some? && |StringOf(body.medicine).value| >= MinMedicineLength)
    && (body.status.Some? ==> StringOf(body.status).Some? && StringOf(body.status).value in Statuses)
  }

  function MinLengthIssues(field: Field, s: string, minimum: nat): seq<Issue> {
    if |s| < minimum then [TooShort(field, minimum)] else []
  }

  /** The checks of a string member: its minimum length and, for the phone on create, the pattern. */
  function StringIssues(field: Field, s: string, withPattern: bool): seq<Issue> {
    match field
    case CustomerName => MinLengthIssues(field, s, MinNameLength)
    case Phone =>
      MinLengthIssues(field, s, MinPhoneLength)
      + (if withPattern && !MatchesPhonePattern(s) then [InvalidPhone] else [])
    case Medicine => MinLengthIssues(field, s, MinMedicineLength)
    case Status => if s in Statuses then [] else [InvalidStatus]
  }

  /** The issues of one member: a required one must be present, and every present one must be a string. */
  function MemberIssues(field: Field, v: Option<Json>, required: bool, withPattern: bool): seq<Issue> {
    match v
    case None => if required then [Required(field)] else []
    case Some(JOther) => [ExpectedString(field)]
    case Some(JString(s)) => StringIssues(field, s, withPattern)
  }

  /** Every issue the create schema finds, in the order of the schema's members. */
  function CreateIssues(body: Body): (issues: seq<Issue>)
    ensures issues == [] <==> AcceptsInsert(body)
    ensures InvalidPhone in issues <==>
      body.JObject? && StringOf(body.phone).Some? && !MatchesPhonePattern(StringOf(body.phone).value)
    ensures InvalidStatus !in issues && Required(Status) !in issues
  {
    match body
    case NonObject => [NotAnObject]
    case JObject(name, phone, medicine, _) =>
      MemberIssues(CustomerName, name, true, true)
      + MemberIssues(Phone, phone, true, true)
      + MemberIssues(Medicine, medicine, true, true)
  }

  /** Every issue the update schema finds, in the order of the schema's members. */
  function UpdateIssues(body: Body): (issues: seq<Issue>)
    ensures issues == [] <==> AcceptsUpdate(body)
    ensures InvalidPhone !in issues
    ensures forall f :: Required(f) !in issues
  {
    match body
    case NonObject => [NotAnObject]
    case JObject(name, phone, medicine, status) =>
      MemberIssues(CustomerName, name, false, false)
      + MemberIssues(Phone, phone, false, false)
      + MemberIssues(Medicine, medicine, false, false)
      + MemberIssues(Status, status, false, false)
  }

  /**
    `insertOrderSchema.parse`: the validated create input, or the issues.
    A validated input carries the body's three strings and no status.
  */
  function ParseInsert(body: Body): (r: Result<InsertOrder, seq<Issue>>)
    ensures r.Success? <==> AcceptsInsert(body)
    ensures r.Success? ==>
      && r.value.status == None
      && Some(r.value.customerName) == StringOf(body.customerName)
      && Some(r.value.phone) == StringOf(body.phone)
      && Some(r.value.medicine) == StringOf(body.medicine)
    ensures r.Failure? ==> r.error != [] && r.error == CreateIssues(body)
  {
    var issues := CreateIssues(body);
    if issues == [] then
      Success(InsertOrder(
        StringOf(body.customerName).value,
        StringOf(body.phone).value,
        StringOf(body.medicine).value,
        None))
    else Failure(issues)
  }

  /** `updateOrderSchema.parse`: the validated partial update, or the issues. */
  function ParseUpdate(body: Body): (r: Result<UpdateOrder, seq<Issue>>)
    ensures r.Success? <==> AcceptsUpdate(body)
    ensures r.Success? ==>
      && r.value.customerName == StringOf(body.customerName)
      && r.value.phone == StringOf(body.phone)
      && r.value.medicine == StringOf(body.medicine)
      && r.value.status == StringOf(body.status)
      && (r.value.status.Some? ==> r.value.status.value in Statuses)
    ensures r.Failure? ==> r.error != [] && r.error == UpdateIssues(body)
  {
    var issues := UpdateIssues(body);
    if issues == [] then
      Success(UpdateOrder(
        StringOf(body.customerName),
        StringOf(body.phone),
        StringOf(body.medicine),
        StringOf(body.status)))
    else Failure(issues)
  }

  /** The body a client sends to create `input`. */
  function CreateBody(input: InsertOrder): Body {
    JObject(
      Some(JString(input.customerName)),
      Some(JString(input.phone)),
      Some(JString(input.medicine)),
      if input.status.Some? then Some(JString(input.status.value)) else None)
  }

  /**
    Sending a valid create input and validating it gives the input back with
    its status dropped; an invalid one is refused.
  */
  lemma CreateBodyRoundTrip(input: InsertOrder)
    ensures ParseInsert(CreateBody(input)) ==
      if ValidCustomerName(input.customerName) && ValidPhone(input.phone) && ValidMedicine(input.medicine)
      then Success(input.(status := None))
      else Failure(CreateIssues(CreateBody(input)))
  {
  }
}
