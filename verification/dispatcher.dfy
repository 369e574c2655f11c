/** `process_rows`: one `create_hospital` per row (row labels are 1-based),
    fan-in in completion order, then the activation decision. The scheduler
    is abstracted as the completion order, a permutation of the row indices. */
module Dispatcher {
  import opened Wrappers
  import opened Schemas
  import opened Client
  import opened Seqs

  /** POST replies for every row: `remote(label, attempt)`. */
  type Remote = (int, nat) -> Response

  /** `order` lists every row index exactly once: the order in which the
      concurrent per-row tasks completed. The length and range conjuncts
      follow from the multiset equality (`PermutationOfIndices`); they are
      spelled out so that every use has them at hand. */
  predicate IsCompletionOrder(order: seq<nat>, n: nat) {
    && |order| == n
    && (forall k :: 0 <= k < |order| ==> order[k] < n)
    && multiset(order) == multiset(Indices(n))
  }

  /** A rearrangement of the indices `0 .. n-1` has length `n` and only
      in-range entries. */
  lemma PermutationOfIndices(order: seq<nat>, n: nat)
    requires multiset(order) == multiset(Indices(n))
    ensures IsCompletionOrder(order, n)
  {
    assert |order| == |multiset(order)| == |multiset(Indices(n))| == n;
    forall k | 0 <= k < |order|
      ensures order[k] < n
    {
      assert order[k] in multiset(Indices(n));
    }
  }

  /** The outcome of row `i` (0-based) together with its POST count. */
  function RowOutcome(rows: seq<Row>, batchId: string, remote: Remote, i: nat): (HospitalResult, nat)
    requires i < |rows|
  {
    CreateHospital(i + 1, rows[i], batchId, (k: nat) => remote(i + 1, k))
  }

  /** The per-row results in input order: the reference the gathered list is
      a permutation of. */
  function InputResults(rows: seq<Row>, batchId: string, remote: Remote): (rs: seq<HospitalResult>)
    ensures |rs| == |rows|
    ensures forall i :: 0 <= i < |rows| ==> rs[i] == RowOutcome(rows, batchId, remote, i).0
    ensures forall i :: 0 <= i < |rows| ==> rs[i].row == i + 1 && rs[i].name == rows[i].name
  {
    seq(|rows|, i requires 0 <= i < |rows| => RowOutcome(rows, batchId, remote, i).0)
  }

  /** The total number of POSTs issued for the rows `0 .. n-1`. */
  function Posts(rows: seq<Row>, batchId: string, remote: Remote, n: nat): (total: nat)
    requires n <= |rows|
    ensures total <= MaxAttempts * n
  {
    if n == 0 then 0 else Posts(rows, batchId, remote, n - 1) + RowOutcome(rows, batchId, remote, n - 1).1
  }

  /** Some result has status `created`. */
  predicate AnyCreated(rs: seq<HospitalResult>) {
    exists i :: 0 <= i < |rs| && rs[i].status == Created
  }

  /** Whether a result was created does not depend on the order of the list. */
  lemma AnyCreatedPermutation(a: seq<HospitalResult>, b: seq<HospitalResult>)
    requires multiset(a) == multiset(b)
    ensures AnyCreated(a) <==> AnyCreated(b)
  {
    if AnyCreated(a) {
      var i :| 0 <= i < |a| && a[i].status == Created;
      assert a[i] in multiset(b);
    }
    if AnyCreated(b) {
      var i :| 0 <= i < |b| && b[i].status == Created;
      assert b[i] in multiset(a);
    }
  }

  /** The reply to the activation PATCH counts as activated on 200 or 204; an
      exception leaves it false. */
  function ActivationSucceeded(reply: Response): bool {
    reply.Status? && reply.code in {200, 204}
  }

  /** The triple `process_rows` returns. */
  datatype Dispatch = Dispatch(results: seq<HospitalResult>, activated: bool, processingTime: real)

  /** The remote calls a dispatch issued: POSTs to create and PATCHes to
      activate. Not returned by the source; recorded to state its effects. */
  datatype Traffic = Traffic(posts: nat, activations: nat)

  /** `process_rows(rows, batch_id)`: `remote` scripts the create replies,
      `order` is the completion order of the row tasks, `activation` the
      reply to the activation call (if made) and `elapsed` the wall-clock
      time the source measures. */
  function ProcessRows(rows: seq<Row>, batchId: string, remote: Remote, order: seq<nat>,
                       activation: Response, elapsed: real): (o: (Dispatch, Traffic))
    requires IsCompletionOrder(order, |rows|)
    // one result per row, in completion order: a permutation of the input-order results
    ensures |o.0.results| == |rows|
    ensures forall k :: 0 <= k < |order| ==>
              o.0.results[k] == RowOutcome(rows, batchId, remote, order[k]).0
    ensures multiset(o.0.results) == multiset(InputResults(rows, batchId, remote))
    // activation is attempted once iff some row was created, and never otherwise
    ensures o.1.activations == (if AnyCreated(InputResults(rows, batchId, remote)) then 1 else 0)
    ensures o.0.activated <==>
              AnyCreated(InputResults(rows, batchId, remote)) && ActivationSucceeded(activation)
    ensures o.1.posts <= MaxAttempts * |rows|
    ensures o.0.processingTime == elapsed
  {
    var inputs := InputResults(rows, batchId, remote);
    var results := Gather(inputs, order);
    GatherPermutation(inputs, order, Indices(|rows|));
    GatherIndices(inputs);
    AnyCreatedPermutation(results, inputs);
    var createdAny := AnyCreated(results);
    var activated := createdAny && ActivationSucceeded(activation);
    (Dispatch(results, activated, elapsed),
     Traffic(Posts(rows, batchId, remote, |rows|), if createdAny then 1 else 0))
  }
}
