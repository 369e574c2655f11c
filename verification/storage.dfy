/** The batch registry of `app/storage.py`: a map from batch id to the list
    of hospital ids the batch created. The lock serialises every operation,
    so each is a single step on the map value. */
module Storage {
  import opened Wrappers
  import opened Schemas

  /** The registry's contents. */
  type Registry = map<string, seq<HospitalRef>>

  /** The registry at process start. */
  const Empty: Registry := map[]

  /** `get_batch(batch_id)`: the saved ids, or `None` for an unknown id. */
  function GetBatch(reg: Registry, batchId: string): Option<seq<HospitalRef>> {
    if batchId in reg then Some(reg[batchId]) else None
  }

  /** `save_batch(batch_id, ids)`: inserts or overwrites the entry for
      `batchId`; afterwards it reads back as exactly `ids` (even when empty),
      and every other id reads back as before. */
  function SaveBatch(reg: Registry, batchId: string, ids: seq<HospitalRef>): (r: Registry)
    ensures GetBatch(r, batchId) == Some(ids)
    ensures forall other :: other != batchId ==> GetBatch(r, other) == GetBatch(reg, other)
    ensures r.Keys == reg.Keys + {batchId}
  {
    reg[batchId := ids]
  }

  /** `get_all_batches()`: a snapshot of the whole map. Maps are values here,
      so later saves and removes cannot change a snapshot already taken. */
  function GetAllBatches(reg: Registry): Registry {
    reg
  }

  /** `remove_batch(batch_id)`: deletes the entry; reports whether it was
      present. Afterwards the id reads back as `None` and every other id
      reads back as before. */
  function RemoveBatch(reg: Registry, batchId: string): (o: (Registry, bool))
    ensures o.1 <==> batchId in reg
    ensures GetBatch(o.0, batchId) == None
    ensures forall other :: other != batchId ==> GetBatch(o.0, other) == GetBatch(reg, other)
    ensures o.0.Keys == reg.Keys - {batchId}
    ensures !o.1 ==> o.0 == reg
  {
    if batchId in reg then (reg - {batchId}, true) else (reg, false)
  }

  /** One mutating registry call. */
  datatype Op = Save(batchId: string, ids: seq<HospitalRef>) | Remove(batchId: string)

  /** The registry after one call. */
  function Step(reg: Registry, op: Op): Registry {
    match op
    case Save(id, ids) => SaveBatch(reg, id, ids)
    case Remove(id) => RemoveBatch(reg, id).0
  }

  /** The registry after a sequence of calls, applied in order. */
  function Apply(reg: Registry, ops: seq<Op>): Registry {
    if |ops| == 0 then reg else Step(Apply(reg, ops[..|ops| - 1]), ops[|ops| - 1])
  }

  /** What `get_batch(batchId)` should answer after `ops`, read off the calls
      alone: the ids of the last save of `batchId`, `None` if a remove of it
      came later, and `initial` if no call touched it. */
  function LastWrite(ops: seq<Op>, batchId: string, initial: Option<seq<HospitalRef>>): Option<seq<HospitalRef>> {
    if |ops| == 0 then initial
    else
      match ops[|ops| - 1]
      case Save(id, ids) =>
        if id == batchId then Some(ids) else LastWrite(ops[..|ops| - 1], batchId, initial)
      case Remove(id) =>
        if id == batchId then None else LastWrite(ops[..|ops| - 1], batchId, initial)
  }

  /** The registry answers every lookup with the last write to that id: a
      save is read back exactly until the next save or remove of the same
      id, and calls on other ids never disturb it. */
  lemma {:induction false} LookupAfterCalls(reg: Registry, ops: seq<Op>, batchId: string)
    ensures GetBatch(Apply(reg, ops), batchId) == LastWrite(ops, batchId, GetBatch(reg, batchId))
  {
    if |ops| > 0 {
      LookupAfterCalls(reg, ops[..|ops| - 1], batchId);
    }
  }

  /** From process start, an id never saved is unknown. */
  lemma {:induction false} NeverSavedIsUnknown(ops: seq<Op>, batchId: string)
    requires forall k :: 0 <= k < |ops| ==> !(ops[k].Save? && ops[k].batchId == batchId)
    ensures GetBatch(Apply(Empty, ops), batchId) == None
  {
    LookupAfterCalls(Empty, ops, batchId);
    NoSaveLastWrite(ops, batchId);
  }

  /** Without a save of `batchId`, the last write to it is never `Some`. */
  lemma {:induction false} NoSaveLastWrite(ops: seq<Op>, batchId: string)
    requires forall k :: 0 <= k < |ops| ==> !(ops[k].Save? && ops[k].batchId == batchId)
    ensures LastWrite(ops, batchId, None) == None
  {
    if |ops| > 0 {
      NoSaveLastWrite(ops[..|ops| - 1], batchId);
    }
  }
}
