/** The records exchanged by the ingestion pipeline: the parsed row, the
    create payload, the per-row result and the bulk response, plus the shape of
    a reply from the remote hospital directory. */
module Schemas {
  import opened Wrappers

  /** A remote hospital id as the handlers hold it: the `id` field of a create
      reply, `None` when that field is absent (or when there was no reply). */
  type HospitalRef = Option<string>

  /** One normalised CSV row: the dict `{name, address, phone}` built by the
      parser; `phone` is `None` when the record had fewer than three cells. */
  datatype Row = Row(name: string, address: string, phone: Option<string>)

  /** The JSON body posted to the remote create endpoint (`HospitalCreate`). */
  datatype HospitalCreate = HospitalCreate(
    name: string,
    address: string,
    phone: Option<string>,
    creationBatchId: Option<string>)

  /** The three values the `status` string of a result takes. */
  datatype ResultStatus = Created | Failed | ValidationFailed

  /** The outcome for one row (`HospitalResult`); `row` is the 1-based label. */
  datatype HospitalResult = HospitalResult(
    row: int,
    hospitalId: HospitalRef,
    name: string,
    status: ResultStatus,
    error: Option<string>)

  /** The reply of the bulk upload endpoint (`BulkResponse`). */
  datatype BulkResponse = BulkResponse(
    batchId: string,
    totalHospitals: int,
    processedHospitals: int,
    failedHospitals: int,
    processingTimeSeconds: real,
    batchActivated: bool,
    hospitals: seq<HospitalResult>)

  /** What `resp.json()` yields on a remote reply: an object (only its `id` and
      `active` fields matter here), valid JSON that is not an object (so that
      calling `.get` on it raises the carried message), or text that is not
      JSON at all (so that `.json()` itself raises the carried message). */
  datatype Body =
    | Object(id: HospitalRef, active: Option<bool>)
    | NonObject(getError: string)
    | NotJson(decodeError: string)

  /** One remote call as the caller observes it: a reply with a status code,
      its text and its body, or a raised transport exception with its message. */
  datatype Response =
    | Status(code: int, text: string, body: Body)
    | Raise(msg: string)
}
