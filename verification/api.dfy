/** The handlers of `app/main.py` that drive the core: the bulk upload (its
    gates, the dispatch, the created-id extraction, the unconditional save
    and the counts) and the batch lookup, delete and list handlers with their
    not-found gates. Remote calls are scripted by function parameters. */
module Api {
  import opened Wrappers
  import opened Schemas
  import opened Seqs
  import opened Text
  import Decimal
  import opened Parser
  import opened Client
  import opened Dispatcher
  import opened Storage

  /** `settings.MAX_CSV_ROWS` at its default. */
  const MaxCsvRows: nat := 20

  const NotCsvError: string := "Only CSV files allowed."
  const NoRowsError: string := "CSV contains no valid rows"
  const BatchNotFound: string := "Batch not found"

  /** The detail of the row-limit rejection, `f"Max rows allowed: {MAX}"`. */
  function TooManyRowsError(): string {
    "Max rows allowed: " + Decimal.FromInt(MaxCsvRows)
  }

  /** How a handler fails: an `HTTPException` it raises, or an exception it
      does not catch (a remote call that raised, or a reply body that could
      not be read), which the framework turns into a server error. */
  datatype Failure = HttpError(status: int, detail: string) | Unhandled(msg: string)

  /** `file.filename.lower().endswith(".csv")`. */
  predicate IsCsvName(filename: string) {
    EndsWith(Lower(filename), ".csv")
  }

  /** The extension test ignores case: a name passes exactly when its
      lower-cased form does. */
  lemma CsvNameIgnoresCase(filename: string)
    ensures IsCsvName(Lower(filename)) <==> IsCsvName(filename)
  {
    LowerIdempotent(filename);
  }

  /** `[r.hospital_id for r in results if r.status == "created"]`. */
  function CreatedIds(rs: seq<HospitalResult>): (ids: seq<HospitalRef>)
    ensures |ids| <= |rs|
    ensures |ids| == 0 <==> !AnyCreated(rs)
    ensures forall k :: 0 <= k < |ids| ==>
              exists i :: 0 <= i < |rs| && rs[i].status == Created && rs[i].hospitalId == ids[k]
  {
    if |rs| == 0 then []
    else
      var rest := CreatedIds(rs[1..]);
      assert forall i :: 1 <= i < |rs| ==> rs[i] == rs[1..][i - 1];
      assert AnyCreated(rs) <==> rs[0].status == Created || AnyCreated(rs[1..]);
      if rs[0].status == Created then [rs[0].hospitalId] + rest else rest
  }

  /** The id of every created result is extracted: listing is complete. */
  lemma {:induction false} CreatedIdsComplete(rs: seq<HospitalResult>, i: nat)
    requires i < |rs| && rs[i].status == Created
    ensures rs[i].hospitalId in CreatedIds(rs)
    decreases |rs|
  {
    if i > 0 {
      assert rs[1..][i - 1] == rs[i];
      CreatedIdsComplete(rs[1..], i - 1);
    }
  }

  /** Extraction distributes over concatenation of result lists. */
  lemma {:induction false} CreatedIdsAppend(a: seq<HospitalResult>, b: seq<HospitalResult>)
    ensures CreatedIds(a + b) == CreatedIds(a) + CreatedIds(b)
    decreases |a|
  {
    if |a| == 0 {
      assert a + b == b;
    } else {
      assert (a + b)[1..] == a[1..] + b;
      CreatedIdsAppend(a[1..], b);
    }
  }

  /** 1 for a created result, else 0. */
  function CreatedMark(r: HospitalResult): nat {
    if r.status == Created then 1 else 0
  }

  /** Taking one result out of a list lowers the created count by its mark. */
  lemma {:induction false} CreatedCountRemove(b: seq<HospitalResult>, j: nat)
    requires j < |b|
    ensures |CreatedIds(b)| == |CreatedIds(b[..j] + b[j + 1..])| + CreatedMark(b[j])
  {
    assert b == b[..j] + ([b[j]] + b[j + 1..]);
    CreatedIdsAppend(b[..j], [b[j]] + b[j + 1..]);
    CreatedIdsAppend([b[j]], b[j + 1..]);
    CreatedIdsAppend(b[..j], b[j + 1..]);
  }

  /** The number of created results does not depend on the order in which
      they were collected. */
  lemma {:induction false} CreatedCountPermutation(a: seq<HospitalResult>, b: seq<HospitalResult>)
    requires multiset(a) == multiset(b)
    ensures |CreatedIds(a)| == |CreatedIds(b)|
    decreases |a|
  {
    if |a| == 0 {
      assert |b| == |multiset(b)| == 0;
    } else {
      assert a[0] in multiset(b);
      var j :| 0 <= j < |b| && b[j] == a[0];
      RemoveOne(a, b, j);
      CreatedCountPermutation(a[1..], b[..j] + b[j + 1..]);
      CreatedCountRemove(b, j);
      CreatedCountRemove(a, 0);
      assert a[..0] + a[1..] == a[1..];
    }
  }

  /** What the bulk upload leaves behind: its reply, the registry after it,
      and the remote calls it made. */
  datatype Upload = Upload(reply: Result<BulkResponse, Failure>, registry: Registry, traffic: Traffic)

  /** The event loop's choice of completion order for a dispatch of `n` row
      tasks. */
  type Scheduler = nat -> seq<nat>

  /** Whatever the number of tasks, the scheduler completes each exactly once. */
  ghost predicate IsScheduler(schedule: Scheduler) {
    forall n: nat :: IsCompletionOrder(schedule(n), n)
  }

  /** `bulk_upload`: `records` are the CSV records of the uploaded file,
      `batchId` the fresh id the source draws from `uuid4`, `schedule` gives
      the completion order of the row tasks, and `remote`, `activation`,
      `elapsed` describe the dispatch as in `ProcessRows`. */
  function BulkUpload(filename: string, records: seq<Record>, batchId: string, remote: Remote,
                      schedule: Scheduler, activation: Response, elapsed: real, reg: Registry): (u: Upload)
    requires IsScheduler(schedule)
    // the gates, in order, each before any remote call or registry change
    ensures !IsCsvName(filename) ==>
              u == Upload(Failure(HttpError(400, NotCsvError)), reg, Traffic(0, 0))
    ensures IsCsvName(filename) && |Parse(records)| == 0 ==>
              u == Upload(Failure(HttpError(400, NoRowsError)), reg, Traffic(0, 0))
    ensures IsCsvName(filename) && |Parse(records)| > MaxCsvRows ==>
              u == Upload(Failure(HttpError(400, TooManyRowsError())), reg, Traffic(0, 0))
    ensures u.reply.Success? <==> IsCsvName(filename) && 0 < |Parse(records)| <= MaxCsvRows
    // past the gates: the counts, the results and the saved batch
    ensures u.reply.Success? ==>
              var rows := Parse(records);
              var inputs := InputResults(rows, batchId, remote);
              var b := u.reply.value;
              && b.batchId == batchId
              && b.totalHospitals == |rows|
              && b.processedHospitals == |CreatedIds(b.hospitals)| == |CreatedIds(inputs)|
              && b.processedHospitals + b.failedHospitals == b.totalHospitals
              && 0 <= b.processedHospitals <= b.totalHospitals
              && multiset(b.hospitals) == multiset(inputs)
              && (b.batchActivated <==> AnyCreated(inputs) && ActivationSucceeded(activation))
              && b.processingTimeSeconds == elapsed
              && u.registry == SaveBatch(reg, batchId, CreatedIds(b.hospitals))
              && u.traffic.activations == (if AnyCreated(inputs) then 1 else 0)
              && u.traffic.posts <= MaxAttempts * |rows|
  {
    if !IsCsvName(filename) then
      Upload(Failure(HttpError(400, NotCsvError)), reg, Traffic(0, 0))
    else
      var rows := Parse(records);
      if |rows| == 0 then
        Upload(Failure(HttpError(400, NoRowsError)), reg, Traffic(0, 0))
      else if |rows| > MaxCsvRows then
        Upload(Failure(HttpError(400, TooManyRowsError())), reg, Traffic(0, 0))
      else
        var (dispatch, traffic) := ProcessRows(rows, batchId, remote, schedule(|rows|), activation, elapsed);
        var results := dispatch.results;
        var createdIds := CreatedIds(results);
        CreatedCountPermutation(results, InputResults(rows, batchId, remote));
        var response := BulkResponse(
          batchId,
          |rows|,
          |createdIds|,
          |rows| - |createdIds|,
          dispatch.processingTime,
          dispatch.activated,
          results);
        Upload(Success(response), SaveBatch(reg, batchId, createdIds), traffic)
  }

  /** A member fetch that raises: the remote call itself, or `.json()` on a
      200 reply whose body is not JSON. */
  predicate FetchCrashes(resp: Response) {
    resp.Raise? || (resp.code == 200 && resp.body.NotJson?)
  }

  /** The message of the exception a crashing fetch raises. */
  function CrashMessage(resp: Response): string
    requires FetchCrashes(resp)
  {
    if resp.Raise? then resp.msg else resp.body.decodeError
  }

  /** The fetch of one member answered 200 with body `b`. */
  predicate Fetched(resp: Response, b: Body) {
    resp.Status? && resp.code == 200 && resp.body == b
  }

  /** The member loop of `batch_details`: GET each id in order, keep the body
      of every 200 reply, skip the rest; the first exception ends the loop. */
  function FetchMembers(ids: seq<HospitalRef>, fetch: HospitalRef -> Response): (r: Result<seq<Body>, Failure>)
    ensures r.Success? <==> forall i :: 0 <= i < |ids| ==> !FetchCrashes(fetch(ids[i]))
    ensures r.Failure? ==> r.error.Unhandled?
    ensures r.Success? ==> |r.value| <= |ids|
    ensures r.Success? ==> forall b :: b in r.value ==> exists i :: 0 <= i < |ids| && Fetched(fetch(ids[i]), b)
    ensures r.Success? ==> forall i, b :: 0 <= i < |ids| && Fetched(fetch(ids[i]), b) ==> b in r.value
  {
    if |ids| == 0 then Success([])
    else
      var resp := fetch(ids[0]);
      assert forall i :: 1 <= i < |ids| ==> ids[i] == ids[1..][i - 1];
      if FetchCrashes(resp) then Failure(Unhandled(CrashMessage(resp)))
      else
        match FetchMembers(ids[1..], fetch)
        case Failure(e) => Failure(e)
        case Success(rest) =>
          if resp.code == 200 then Success([resp.body] + rest) else Success(rest)
  }

  /** The member loop over one id: the body of a 200 reply, or nothing. */
  lemma FetchMembersOne(id: HospitalRef, fetch: HospitalRef -> Response)
    ensures !FetchCrashes(fetch(id)) ==>
              FetchMembers([id], fetch)
              == Success(if fetch(id).Status? && fetch(id).code == 200 then [fetch(id).body] else [])
  {
    var resp := fetch(id);
    assert [id][1..] == [];
    assert FetchMembers([], fetch) == Success([]);
    if resp.Status? {
      assert [resp.body] + [] == [resp.body];
    }
  }

  /** The member loop distributes over concatenation of id lists: bodies come
      back in the order of their ids, once per occurrence. With
      `FetchMembersOne` this fixes the result to the bodies of the 200
      replies, in order and with multiplicity. */
  lemma {:induction false} FetchMembersAppend(a: seq<HospitalRef>, b: seq<HospitalRef>, fetch: HospitalRef -> Response)
    ensures FetchMembers(a + b, fetch).Success? ==>
              && FetchMembers(a, fetch).Success?
              && FetchMembers(b, fetch).Success?
              && FetchMembers(a + b, fetch).value == FetchMembers(a, fetch).value + FetchMembers(b, fetch).value
    decreases |a|
  {
    if |a| == 0 {
      assert a + b == b;
    } else {
      assert (a + b)[0] == a[0];
      assert (a + b)[1..] == a[1..] + b;
      FetchMembersAppend(a[1..], b, fetch);
    }
  }

  /** `batch_details(batch_id)`. */
  function BatchDetails(reg: Registry, batchId: string, fetch: HospitalRef -> Response): (r: Result<seq<Body>, Failure>)
    // not found both for an unknown id and for an empty batch
    ensures r == Failure(HttpError(404, BatchNotFound)) <==>
              GetBatch(reg, batchId) == None || GetBatch(reg, batchId) == Some([])
    ensures batchId in reg && |reg[batchId]| > 0 ==> r == FetchMembers(reg[batchId], fetch)
  {
    var ids := GetBatch(reg, batchId);
    if ids.None? || |ids.value| == 0 then Failure(HttpError(404, BatchNotFound))
    else FetchMembers(ids.value, fetch)
  }

  /** The member loop of `delete_batch`: DELETE each id in order; the status
      of a reply is ignored, but an exception ends the loop. Returns the
      message of that exception, if any, and the ids a DELETE was sent for. */
  function DeleteMembers(ids: seq<HospitalRef>, remove: HospitalRef -> Response): (o: (Option<string>, seq<HospitalRef>))
    ensures o.0.None? <==> forall i :: 0 <= i < |ids| ==> !remove(ids[i]).Raise?
    ensures o.0.None? ==> o.1 == ids
    ensures o.0.Some? ==>
              && 0 < |o.1| <= |ids| && o.1 == ids[..|o.1|]
              && remove(ids[|o.1| - 1]) == Raise(o.0.value)
              && forall i :: 0 <= i < |o.1| - 1 ==> !remove(ids[i]).Raise?
  {
    if |ids| == 0 then (None, [])
    else
      var resp := remove(ids[0]);
      assert forall i :: 1 <= i < |ids| ==> ids[i] == ids[1..][i - 1];
      if resp.Raise? then (Some(resp.msg), [ids[0]])
      else
        var (crash, sent) := DeleteMembers(ids[1..], remove);
        (crash, [ids[0]] + sent)
  }

  /** The reply of a successful batch delete. */
  datatype DeleteReply = DeleteReply(batchId: string, deleted: bool)

  /** What the batch delete leaves behind: its reply, the registry after it,
      and the ids a DELETE was sent for. */
  datatype Deletion = Deletion(reply: Result<DeleteReply, Failure>, registry: Registry, deleteCalls: seq<HospitalRef>)

  /** `delete_batch(batch_id)`. */
  function DeleteBatch(reg: Registry, batchId: string, remove: HospitalRef -> Response): (d: Deletion)
    // not found both for an unknown id and for an empty batch: nothing is touched
    ensures GetBatch(reg, batchId) == None || GetBatch(reg, batchId) == Some([]) ==>
              d == Deletion(Failure(HttpError(404, BatchNotFound)), reg, [])
    // found and every member DELETE returned: the entry is removed after the loop
    ensures batchId in reg && |reg[batchId]| > 0 && DeleteMembers(reg[batchId], remove).0.None? ==>
              && d.reply == Success(DeleteReply(batchId, true))
              && d.deleteCalls == reg[batchId]
              && d.registry == RemoveBatch(reg, batchId).0
              && GetBatch(d.registry, batchId) == None
    // a member DELETE raised: the handler fails and the entry stays
    ensures batchId in reg && |reg[batchId]| > 0 && DeleteMembers(reg[batchId], remove).0.Some? ==>
              && d.reply == Failure(Unhandled(DeleteMembers(reg[batchId], remove).0.value))
              && d.registry == reg
  {
    var ids := GetBatch(reg, batchId);
    if ids.None? || |ids.value| == 0 then Deletion(Failure(HttpError(404, BatchNotFound)), reg, [])
    else
      var (crash, sent) := DeleteMembers(ids.value, remove);
      if crash.Some? then Deletion(Failure(Unhandled(crash.value)), reg, sent)
      else Deletion(Success(DeleteReply(batchId, true)), RemoveBatch(reg, batchId).0, sent)
  }

  /** One entry of the batch listing. */
  datatype BatchSummary = BatchSummary(batchId: string, totalHospitals: int, active: bool)

  /** The reply of `list_batches`. */
  datatype BatchListing = BatchListing(count: int, batches: seq<BatchSummary>)

  /** The `active` flag of a batch, probed from its first member: false for
      an empty batch or a non-200 reply, else the member's `active` field
      (false when absent). Reading the reply can raise, which fails the
      handler. */
  function ProbeActive(ids: seq<HospitalRef>, probe: HospitalRef -> Response): (r: Result<bool, Failure>)
    ensures |ids| == 0 ==> r == Success(false)
    // true exactly when the first member reads back with `active` set
    ensures r == Success(true) <==>
              |ids| > 0 && probe(ids[0]).Status? && probe(ids[0]).code == 200
              && probe(ids[0]).body.Object? && probe(ids[0]).body.active == Some(true)
    // the handler fails exactly when reading the first member raises
    ensures r.Failure? <==>
              |ids| > 0 && (probe(ids[0]).Raise? || (probe(ids[0]).code == 200 && !probe(ids[0]).body.Object?))
    ensures r.Failure? ==> r.error.Unhandled?
    ensures |ids| > 0 && probe(ids[0]).Raise? ==> r == Failure(Unhandled(probe(ids[0]).msg))
  {
    if |ids| == 0 then Success(false)
    else
      match probe(ids[0])
      case Raise(msg) => Failure(Unhandled(msg))
      case Status(code, _, body) =>
        if code != 200 then Success(false)
        else
          match body
          case Object(_, active) => Success(active.GetOr(false))
          case NonObject(err) => Failure(Unhandled(err))
          case NotJson(err) => Failure(Unhandled(err))
  }

  /** The summaries of the batches `keys`, in that order. */
  function Summaries(reg: Registry, keys: seq<string>, probe: HospitalRef -> Response): (r: Result<seq<BatchSummary>, Failure>)
    requires forall i :: 0 <= i < |keys| ==> keys[i] in reg
    ensures r.Success? <==> forall i :: 0 <= i < |keys| ==> ProbeActive(reg[keys[i]], probe).Success?
    ensures r.Failure? ==>
              exists i :: 0 <= i < |keys| && ProbeActive(reg[keys[i]], probe) == Failure(r.error)
    ensures r.Success? ==> |r.value| == |keys|
    ensures r.Success? ==> forall i :: 0 <= i < |keys| ==>
              && r.value[i].batchId == keys[i]
              && r.value[i].totalHospitals == |reg[keys[i]]|
              && r.value[i].active == ProbeActive(reg[keys[i]], probe).value
  {
    if |keys| == 0 then Success([])
    else
      assert forall i :: 1 <= i < |keys| ==> keys[i] == keys[1..][i - 1];
      var ids := reg[keys[0]];
      match ProbeActive(ids, probe)
      case Failure(e) => Failure(e)
      case Success(active) =>
        match Summaries(reg, keys[1..], probe)
        case Failure(e) => Failure(e)
        case Success(rest) => Success([BatchSummary(keys[0], |ids|, active)] + rest)
  }

  /** `keys` lists every batch id of the registry exactly once: the iteration
      order of the snapshot `get_all_batches` returns. */
  predicate EnumeratesKeys(keys: seq<string>, reg: Registry) {
    multiset(keys) == multiset(reg.Keys)
  }

  /** `list_batches()`: one summary per batch, counted. */
  function ListBatches(reg: Registry, keys: seq<string>, probe: HospitalRef -> Response): (r: Result<BatchListing, Failure>)
    requires EnumeratesKeys(keys, reg)
    ensures forall i :: 0 <= i < |keys| ==> keys[i] in reg
    // the listing fails exactly when probing some batch raises
    ensures r.Success? <==>
              forall i :: 0 <= i < |keys| ==> keys[i] in reg && ProbeActive(reg[keys[i]], probe).Success?
    ensures r.Success? ==> r.value.count == |r.value.batches| == |reg|
    ensures r.Success? ==> forall i :: 0 <= i < |keys| ==>
              && r.value.batches[i].batchId == keys[i]
              && keys[i] in reg
              && r.value.batches[i].totalHospitals == |reg[keys[i]]|
              && r.value.batches[i].active == ProbeActive(reg[keys[i]], probe).value
              && (|reg[keys[i]]| == 0 ==> !r.value.batches[i].active)
  {
    var snapshot := GetAllBatches(reg);
    assert forall i :: 0 <= i < |keys| ==> keys[i] in multiset(snapshot.Keys);
    assert |keys| == |multiset(keys)| == |multiset(snapshot.Keys)| == |snapshot.Keys|;
    match Summaries(snapshot, keys, probe)
    case Failure(e) => Failure(e)
    case Success(batches) => Success(BatchListing(|batches|, batches))
  }

  /** An empty batch, as an upload whose rows all failed saves it, is listed
      but cannot be reached through the lookup or the delete handler: both
      answer not found, and the entry stays in the registry. */
  lemma EmptyBatchUnreachable(reg: Registry, batchId: string,
                              fetch: HospitalRef -> Response, remove: HospitalRef -> Response)
    ensures var saved := SaveBatch(reg, batchId, []);
            && GetBatch(saved, batchId) == Some([])
            && BatchDetails(saved, batchId, fetch) == Failure(HttpError(404, BatchNotFound))
            && DeleteBatch(saved, batchId, remove).reply == Failure(HttpError(404, BatchNotFound))
            && GetBatch(DeleteBatch(saved, batchId, remove).registry, batchId) == Some([])
  {
  }

  /** An upload that passes the gates but creates nothing skips activation
      and saves an empty batch, which the lookup handler then reports as not
      found. */
  lemma NothingCreatedSavesEmptyBatch(filename: string, records: seq<Record>, batchId: string, remote: Remote,
                                      schedule: Scheduler, activation: Response, elapsed: real, reg: Registry,
                                      fetch: HospitalRef -> Response)
    requires IsScheduler(schedule)
    ensures var u := BulkUpload(filename, records, batchId, remote, schedule, activation, elapsed, reg);
            u.reply.Success? && u.reply.value.processedHospitals == 0 ==>
              && u.reply.value.failedHospitals == u.reply.value.totalHospitals
              && !u.reply.value.batchActivated
              && u.traffic.activations == 0
              && GetBatch(u.registry, batchId) == Some([])
              && BatchDetails(u.registry, batchId, fetch) == Failure(HttpError(404, BatchNotFound))
  {
    var u := BulkUpload(filename, records, batchId, remote, schedule, activation, elapsed, reg);
    if u.reply.Success? && u.reply.value.processedHospitals == 0 {
      assert |CreatedIds(u.reply.value.hospitals)| == 0;
    }
  }
}
