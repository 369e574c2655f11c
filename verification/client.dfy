/** `create_hospital`: the validation gate, then at most two POSTs to the
    remote create endpoint, each reply classified as created, terminal client
    error, transient error or raised exception. */
module Client {
  import opened Wrappers
  import opened Schemas
  import Decimal

  /** `range(2)`: the number of POSTs a row may use. */
  const MaxAttempts: nat := 2

  /** The error text of a row that fails the validation gate. */
  const ValidationError: string := "name or address missing"

  /** The POST reply for each attempt (0 and 1) of one row. */
  type Script = nat -> Response

  /** The payload built from a parsed row: `row.get("phone") or None` turns an
      empty phone into `None`, and the batch id is attached. */
  function ToPayload(row: Row, batchId: string): (p: HospitalCreate)
    ensures p.name == row.name && p.address == row.address
    ensures p.phone.None? <==> (row.phone.None? || row.phone == Some(""))
    ensures p.phone.Some? ==> p.phone == row.phone
    ensures p.creationBatchId == Some(batchId)
  {
    HospitalCreate(
      row.name,
      row.address,
      if row.phone == Some("") then None else row.phone,
      Some(batchId))
  }

  /** The validation gate: both `name` and `address` must be non-empty. */
  predicate IsValid(p: HospitalCreate) {
    p.name != "" && p.address != ""
  }

  /** How one POST reply is read: a 200/201 with a readable object body is a
      success carrying its `id`; a 4xx is a terminal client error; any other
      status is transient; an exception (including one from `.json()` or from
      `.get` on a body that is not an object) is raised. */
  datatype Verdict =
    | Accepted(id: HospitalRef)
    | Rejected(detail: string)
    | Transient(detail: string)
    | Raised(msg: string)

  /** The `HTTP <code>: <text>` error detail of an unsuccessful reply. */
  function HttpDetail(code: int, text: string): string
  {
    "HTTP " + Decimal.FromInt(code) + ": " + text
  }

  /** Classifies one POST reply, in the order the source tests it. */
  function Classify(resp: Response): (v: Verdict)
    ensures v.Accepted? <==> resp.Status? && resp.code in {200, 201} && resp.body.Object?
    ensures v.Rejected? <==> resp.Status? && 400 <= resp.code < 500
    ensures v.Transient? <==> resp.Status? && resp.code !in {200, 201} && !(400 <= resp.code < 500)
    ensures v.Raised? <==> resp.Raise? || (resp.code in {200, 201} && !resp.body.Object?)
    // what each verdict carries
    ensures v.Accepted? ==> resp.Status? && resp.body.Object? && v.id == resp.body.id
    ensures v.Rejected? || v.Transient? ==> resp.Status? && v.detail == HttpDetail(resp.code, resp.text)
    ensures v.Raised? && resp.Raise? ==> v.msg == resp.msg
    ensures v.Raised? && resp.Status? && resp.body.NonObject? ==> v.msg == resp.body.getError
    ensures v.Raised? && resp.Status? && resp.body.NotJson? ==> v.msg == resp.body.decodeError
  {
    match resp
    case Raise(msg) => Raised(msg)
    case Status(code, text, body) =>
      if code == 200 || code == 201 then
        match body
        case Object(id, _) => Accepted(id)
        case NonObject(err) => Raised(err)
        case NotJson(err) => Raised(err)
      else if 400 <= code < 500 then Rejected(HttpDetail(code, text))
      else Transient(HttpDetail(code, text))
  }

  /** The result a row settles on when `v` is the verdict of its last POST. */
  predicate Settles(r: HospitalResult, v: Verdict) {
    match v
    case Accepted(id) => r.status == Created && r.hospitalId == id && r.error == None
    case Rejected(d) => r.status == Failed && r.hospitalId == None && r.error == Some(d)
    case Transient(d) => r.status == Failed && r.hospitalId == None && r.error == Some(d)
    case Raised(m) => r.status == Failed && r.hospitalId == None && r.error == Some(m)
  }

  /** The retry loop from attempt `k` on, as a state machine: a success,
      client error or exception ends it; a transient error moves to the next
      attempt, or ends it with that error when none is left. Returns the
      result and the number of POSTs used so far. */
  function Attempt(rowIdx: int, p: HospitalCreate, post: Script, k: nat): (o: (HospitalResult, nat))
    requires k < MaxAttempts
    ensures k < o.1 <= MaxAttempts
    ensures o.0.row == rowIdx && o.0.name == p.name
    ensures Settles(o.0, Classify(post(o.1 - 1)))
    ensures forall j :: k <= j < o.1 - 1 ==> Classify(post(j)).Transient?
    ensures o.1 < MaxAttempts ==> !Classify(post(o.1 - 1)).Transient?
    decreases MaxAttempts - k
  {
    match Classify(post(k))
    case Accepted(id) => (HospitalResult(rowIdx, id, p.name, Created, None), k + 1)
    case Rejected(d) => (HospitalResult(rowIdx, None, p.name, Failed, Some(d)), k + 1)
    case Raised(m) => (HospitalResult(rowIdx, None, p.name, Failed, Some(m)), k + 1)
    case Transient(d) =>
      if k + 1 < MaxAttempts then Attempt(rowIdx, p, post, k + 1)
      else (HospitalResult(rowIdx, None, p.name, Failed, Some(d)), k + 1)
  }

  /** `create_hospital` for the row labelled `rowIdx`, with `post` scripting
      the remote replies. Returns the row's result and the number of POSTs. */
  function CreateHospital(rowIdx: int, row: Row, batchId: string, post: Script): (o: (HospitalResult, nat))
    ensures o.0.row == rowIdx && o.0.name == row.name
    ensures o.1 <= MaxAttempts
    // validation gate: no POST at all
    ensures o.0.status == ValidationFailed <==> row.name == "" || row.address == ""
    ensures o.0.status == ValidationFailed ==>
              o.1 == 0 && o.0.hospitalId == None && o.0.error == Some(ValidationError)
    // at most one retry, and only after a transient error
    ensures o.0.status != ValidationFailed ==> 1 <= o.1
    ensures o.0.status != ValidationFailed ==> (o.1 == 2 <==> Classify(post(0)).Transient?)
    // the last reply decides the result
    ensures o.0.status != ValidationFailed ==> Settles(o.0, Classify(post(o.1 - 1)))
    ensures o.0.status != Created ==> o.0.hospitalId == None
  {
    var p := ToPayload(row, batchId);
    if !IsValid(p) then
      (HospitalResult(rowIdx, None, p.name, ValidationFailed, Some(ValidationError)), 0)
    else
      Attempt(rowIdx, p, post, 0)
  }

  /** A 4xx reply to the first POST ends the row as failed after that one
      attempt; no retry is made. */
  lemma ClientErrorIsTerminal(rowIdx: int, row: Row, batchId: string, post: Script)
    requires row.name != "" && row.address != ""
    requires post(0).Status? && 400 <= post(0).code < 500
    ensures CreateHospital(rowIdx, row, batchId, post).1 == 1
    ensures CreateHospital(rowIdx, row, batchId, post).0.status == Failed
    ensures CreateHospital(rowIdx, row, batchId, post).0.error
            == Some(HttpDetail(post(0).code, post(0).text))
  {
  }

  /** A transient reply followed by a success uses both POSTs and creates
      the hospital with the id of the second reply. */
  lemma RetryThenCreated(rowIdx: int, row: Row, batchId: string, post: Script)
    requires row.name != "" && row.address != ""
    requires post(0).Status? && post(0).code !in {200, 201} && !(400 <= post(0).code < 500)
    requires post(1).Status? && post(1).code in {200, 201} && post(1).body.Object?
    ensures CreateHospital(rowIdx, row, batchId, post).1 == 2
    ensures CreateHospital(rowIdx, row, batchId, post).0.status == Created
    ensures CreateHospital(rowIdx, row, batchId, post).0.hospitalId == post(1).body.id
  {
  }

  /** Two transient replies in a row end the row as failed, carrying the
      status and text of the second reply. */
  lemma TwoTransientsFail(rowIdx: int, row: Row, batchId: string, post: Script)
    requires row.name != "" && row.address != ""
    requires post(0).Status? && post(0).code !in {200, 201} && !(400 <= post(0).code < 500)
    requires post(1).Status? && post(1).code !in {200, 201} && !(400 <= post(1).code < 500)
    ensures CreateHospital(rowIdx, row, batchId, post).1 == 2
    ensures CreateHospital(rowIdx, row, batchId, post).0.status == Failed
    ensures CreateHospital(rowIdx, row, batchId, post).0.error
            == Some(HttpDetail(post(1).code, post(1).text))
  {
  }

  /** An exception on the first POST ends the row as failed with the
      exception text; it is not retried. */
  lemma ExceptionNotRetried(rowIdx: int, row: Row, batchId: string, post: Script)
    requires row.name != "" && row.address != ""
    requires post(0).Raise?
    ensures CreateHospital(rowIdx, row, batchId, post).1 == 1
    ensures CreateHospital(rowIdx, row, batchId, post).0.status == Failed
    ensures CreateHospital(rowIdx, row, batchId, post).0.error == Some(post(0).msg)
  {
  }
}
