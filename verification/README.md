# Hospital bulk-ingest backend: a Dafny model

This project models the core of a small hospital-management backend. A client
uploads a CSV file of hospitals, and the backend does the following:

- it parses the file into rows (an optional header, blank records skipped,
  cells trimmed);
- it checks the upload gates: a `.csv` name, at least one row, at most
  `MAX_CSV_ROWS` = 20 rows;
- it creates every row on a remote hospital directory, concurrently, with one
  retry on a transient error;
- it activates the batch when something was created;
- it records the ids it created under a fresh batch id in an in-memory
  registry;
- it answers with per-row results and counts.

Three further handlers work on that registry. One lists the members of a
batch, one deletes a batch remotely and locally, and one lists every batch
with its size and active flag.

The modules follow the program:

| file | module | models |
|---|---|---|
| `wrappers.dfy` | `Wrappers` | `Option` and `Result` |
| `text.dfy` | `Text` | `str.strip()`, ASCII `str.lower()` and `str.endswith` |
| `decimal.dfy` | `Decimal` | `str(int)` for the error texts |
| `schemas.dfy` | `Schemas` | the pydantic records; a remote reply as status, text and body, or a raised exception |
| `seqs.dfy` | `Seqs` | flattening and permuted gathering of sequences |
| `parser.dfy` | `Parser` | `parse_csv_bytes`, from the CSV records onwards |
| `client.dfy` | `Client` | `create_hospital`: validation, classification and the retry loop |
| `dispatcher.dfy` | `Dispatcher` | `process_rows`: fan-out, fan-in and activation |
| `storage.dfy` | `Storage` | the batch registry |
| `api.dfy` | `Api` | the `bulk_upload`, `batch_details`, `delete_batch` and `list_batches` handlers |

The environment enters as parameters:

- The remote POST replies are a function from the row label and the attempt
  number to a reply.
- Completion of the concurrent row tasks is a permutation `order` of the row
  indices. For the upload handler it comes from a scheduler, a function from
  the number of tasks to such an order.
- The activation reply is a `Response`.
- The measured elapsed time is an opaque `real`.
- The fresh batch id is a string argument.
- The member GET and DELETE replies used by the batch handlers are functions
  from the hospital id to a reply.
- The iteration order of the registry snapshot is a sequence that lists each
  key exactly once.
- An exception that a handler does not catch is a `Failure.Unhandled`
  result. A raised `HTTPException` is a `Failure.HttpError` result.

## Model

| member | source | states |
|---|---|---|
| Text.Strip | app/processor.py:29-31 | A stripped cell neither starts nor ends with whitespace (the Python `isspace` set) and is no longer than the cell. |
| Text.StripSlice | app/processor.py:29-31 | `strip()` keeps one contiguous slice of the cell, and everything it removes on either side is whitespace. |
| Text.StripEmpty | app/processor.py:27 | `not c.strip()` holds exactly when the cell is all whitespace, including the empty cell. |
| Text.StripTrimmed | app/processor.py:29-31 | Stripping an already trimmed string changes nothing. |
| Decimal.FromNat | app/main.py:60 | The rendering of a count is non-empty and all digits, with no leading zero except for 0. |
| Decimal.FromNatRoundTrip | app/main.py:60 | Reading the rendered digits back gives the original number. |
| Decimal.FromInt | app/processor.py:61 | `str(code)`: a minus sign exactly for negative codes, followed by the digits of the magnitude. |
| Parser.Normalise | app/processor.py:29-32 | A kept record gives trimmed name and address. The phone is absent exactly when the record has fewer than three cells. A record with fewer than two cells gets an empty address. |
| Parser.RowsOf | app/processor.py:27-28 | Each record contributes at most one row, and none exactly when it has no cells or only whitespace cells. |
| Parser.DataStart | app/processor.py:21-22 | Data starts at record 1 exactly when the first record's first cell, stripped and lower-cased, is `name`. Otherwise it starts at record 0: the start is at most 1. |
| Parser.Parse | app/processor.py:24-33 | No more rows come out than there are data records. |
| Parser.ParseInOrder | app/processor.py:24-33 | The rows equal the head-first reading of the data records: each blank record is skipped wherever it occurs, and every other record becomes its normalised row, in input order and once per record. |
| Parser.ParseSound | app/processor.py:24-33 | Every parsed row is the normalisation of a non-blank data record. |
| Parser.ParseComplete | app/processor.py:24-33 | Every non-blank data record appears as its normalised row. |
| Parser.ParseNoBlank | app/processor.py:24-33 | When no data record is blank, the rows are the normalised data records, one to one and in order. |
| Parser.LaterHeaderIsData | app/processor.py:20-22 | Only the first record can be a header. After a blank first record, a `name,...` record is read as the first data row. |
| Client.ToPayload | app/processor.py:40-45 | The payload copies name and address and attaches the batch id. An empty phone becomes `None`; any other phone is kept. |
| Client.Classify | app/processor.py:55-65 | A reply is a success exactly on 200/201 with an object body, and a terminal error exactly on a 4xx. Every other status is transient. An exception, or an unreadable success body, counts as raised. A success carries the body's `id`. A terminal or transient error carries `HTTP <code>: <text>` of that reply. A raised verdict carries the exception's message. |
| Client.Attempt | app/processor.py:54-63 | The loop ends after at most two POSTs, on the first non-transient reply or after the second transient one. All earlier replies were transient, and the last reply decides the result. |
| Client.CreateHospital | app/processor.py:35-65 | Validation fails exactly when name or address is empty; such a row gets no POST and the fixed error. A valid row gets 1 or 2 POSTs, and 2 exactly when the first reply was transient. A result that was not created carries no id. |
| Client.ClientErrorIsTerminal | app/processor.py:59-61 | A 4xx reply to the first POST fails the row after one POST, with `HTTP <code>: <text>`. |
| Client.RetryThenCreated | app/processor.py:54-58 | A transient first reply followed by a success creates the row with the second reply's id, after two POSTs. |
| Client.TwoTransientsFail | app/processor.py:54-63 | Two transient replies fail the row with the second reply's status and text. |
| Client.ExceptionNotRetried | app/processor.py:64-65 | An exception on the first POST fails the row with the exception text, after one POST. |
| Dispatcher.PermutationOfIndices | app/processor.py:80-83 | Every rearrangement of the row indices is a completion order: it has one entry per row, each in range. |
| Dispatcher.InputResults | app/processor.py:80 | There is one result per row, and the row at index `i` is labelled `i + 1`. |
| Dispatcher.Posts | app/processor.py:80-83 | A dispatch sends at most two POSTs per row. |
| Dispatcher.AnyCreatedPermutation | app/processor.py:86 | Whether some result was created does not depend on the completion order. |
| Dispatcher.ProcessRows | app/processor.py:67-98 | The results list holds one result per row in completion order, and it is a permutation of the input-order results. Activation is attempted once exactly when some row was created, and never otherwise. `activated` holds exactly when that attempt got 200 or 204. |
| Seqs.GatherPermutation | app/processor.py:80-83 | Collecting the same results in any two completion orders yields the same multiset. |
| Seqs.GatherIndices | app/processor.py:80-83 | Collecting in index order reproduces the input-order list. |
| Storage.SaveBatch | app/storage.py:7-9 | After a save, the batch reads back exactly as saved, even when empty, and every other batch reads back unchanged. |
| Storage.RemoveBatch | app/storage.py:19-24 | A remove reports whether the batch was present and leaves it unknown. Every other batch is unchanged, and an absent batch leaves the registry as it was. |
| Storage.LookupAfterCalls | app/storage.py:7-24 | After any sequence of saves and removes, a lookup returns the last write to that id. If the last write was a remove, the lookup returns nothing. If no call touched the id, it returns the initial value. |
| Storage.NeverSavedIsUnknown | app/storage.py:4-13 | From the empty registry at start-up, a batch id that was never saved is unknown. |
| Storage.NoSaveLastWrite | app/storage.py:11-13 | With no save of an id, its last write is never a list of ids. |
| Api.CsvNameIgnoresCase | app/main.py:50 | The extension gate ignores case: a name passes exactly when its lower-cased form passes. |
| Api.CreatedIds | app/main.py:67 | The extracted ids are empty exactly when nothing was created. Each one is the id of some created result. |
| Api.CreatedIdsComplete | app/main.py:67 | The id of every created result is extracted. |
| Api.CreatedIdsAppend | app/main.py:67 | Extraction distributes over concatenation. |
| Api.CreatedCountPermutation | app/main.py:76-77 | The processed count is the same for every completion order. |
| Api.BulkUpload | app/main.py:48-81 | The gates reject in order with 400: not a `.csv` name, no rows, more than 20 rows. A rejection makes no remote call and changes no registry entry. Past the gates: `total` = rows, `processed` = created results, `processed + failed = total`, and the hospitals are a permutation of the row results. `batch_activated` holds exactly when some row was created and activation got 200/204. The created ids are saved even when there are none. |
| Api.FetchMembers | app/main.py:94-99 | The loop succeeds exactly when no fetch raises, and a raise fails the handler. A success holds a body exactly when some member's fetch answered 200 with it. |
| Api.FetchMembersOne | app/main.py:96-99 | For one id that does not raise, the loop keeps the body of a 200 reply and nothing otherwise. |
| Api.FetchMembersAppend | app/main.py:96-99 | The loop distributes over concatenated id lists. With the one-id case, this fixes a success to the 200 bodies in id order, once per occurrence. |
| Api.BatchDetails | app/main.py:88-101 | The reply is 404 `Batch not found` exactly when the id is unknown or its list is empty. Otherwise it is the member loop. |
| Api.DeleteMembers | app/main.py:126-128 | A DELETE goes to every member in order, whatever the reply status. An exception stops the loop at the member that raised. |
| Api.DeleteBatch | app/main.py:119-133 | An unknown or empty batch gets 404 and nothing is touched. Otherwise every member is deleted and then the entry is removed, with reply `deleted: true`. A raised member DELETE fails the handler and leaves the entry. |
| Api.ProbeActive | app/main.py:145-153 | An empty batch is inactive. `active` is true exactly when the first member's GET is 200 with an object whose `active` is true. The probe fails exactly when that GET raises or its 200 body cannot be read as an object. A raised GET fails with the exception's message. |
| Api.Summaries | app/main.py:143-159 | The summaries succeed exactly when every batch's probe does. A failure carries the error of some failing probe. Each summary names its batch, gives its size, and takes `active` from that batch's probe. |
| Api.ListBatches | app/main.py:136-161 | The listing fails exactly when probing some batch raises. Otherwise it has one summary per registry entry, in snapshot order, and `count` equals the number of batches. Each summary's `active` is its batch's probe result, and an empty batch is inactive. |
| Api.EmptyBatchUnreachable | app/main.py:88-133 | An empty saved batch answers 404 to both details and delete, and delete leaves it in the registry. |
| Api.NothingCreatedSavesEmptyBatch | app/main.py:64-92 | A successful upload with 0 processed reports every row as failed and makes no activation call. It still saves an empty batch, which details then reports as not found. |

## Left out

- HTTP transport (`httpx`), timeouts, the base URL and the FastAPI routing and serialisation are not modelled. Remote replies are function parameters, and a timeout is one of the raised exceptions.
- Concurrency (`asyncio.Semaphore` with `CONCURRENCY`, `as_completed`, the registry lock) is reduced to two things. The completion order is a permutation argument. Each registry call is an atomic step on a map value, which is what the lock guarantees.
- Byte decoding (`utf-8-sig`, BOM removal) and CSV quoting and splitting are not modelled. The parser starts from the list of records that `csv.reader` yields.
- `time.time()` and `uuid.uuid4()` are not modelled. The elapsed time and the batch id are parameters.
- `str.lower()` is modelled on the ASCII range only. Non-ASCII upper-case letters in a header cell or a filename are left unchanged.
- The settings are fixed at their defaults (`MAX_CSV_ROWS` = 20). Environment overrides are not modelled.
- The routes `root`, `list_hospitals`, `delete_hospital`, `activate_batch` and `deactivate_batch` are plain proxies outside the ingestion core and are not modelled. `deactivate_batch` registers the same method and path as `activate_batch`.
- The JSON `id` of a created hospital is modelled as an optional string, and the JSON `active` field as an optional boolean. A JSON `null`, or a non-boolean `active` value returned as is, is not distinguished from an absent field.
- Parser.Normalise: the contract states trimmedness and the defaults for missing cells. It does not state which cell each field comes from; that is only in the definition.
- Parser.Parse: the contract gives only the length bound. Row contents, order and multiplicity are stated by `Parser.ParseInOrder`, against the head-first reference reading `Parser.Kept`.
