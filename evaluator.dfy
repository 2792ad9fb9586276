/**
 * The user-data evaluator (src/evaluators/userDataEvaluator.ts): a gate
 * (`validate`) that decides whether to run extraction for a message, and a
 * handler that merges a model extraction into the stored profile under a
 * confidence gate and writes the result to the host's memory tables.
 */
module UserDataEvaluator {
  import opened Wrappers
  import opened UserDataTypes

  /** A profile as the evaluator stores it: the `UserData` fields and the extraction confidence. */
  datatype StoredRecord = StoredRecord(data: UserData, confidence: Option<real>)

  /**
   * What `JSON.parse` yields for a memory's `content.text`. A written record
   * is read back as itself.
   */
  datatype Content =
    | Unparsable                              // JSON.parse throws
    | JsonNull                                // the text "null"
    | OtherJson                               // a number, string, boolean or array
    | Profile(record: StoredRecord)           // an object with the profile's keys
    | CompletionNotice(record: StoredRecord)  // `{type: "USER_DATA_COMPLETE", data}`

  /** A memory as `createMemory` stores it. */
  datatype Memory = Memory(userId: string, agentId: string, roomId: string, content: Content, createdAt: int)

  /** `ExtractionResult`: what the model call returns when it succeeds. */
  datatype Extraction = Extraction(
    name: Option<string>,
    location: Option<string>,
    occupation: Option<string>,
    confidence: real,
    source: string)

  /** The model call: it throws, reports `success: false`, or returns a value. */
  datatype ModelReply = CallThrows | Unsuccessful | Success(value: Extraction)

  /** The table holding a user's profile records under a character. */
  function DataTableName(characterName: string, userId: string): string
  {
    characterName + "/" + userId + "/data"
  }

  /** The table holding a user's completion notices under a character. */
  function StatusTableName(characterName: string, userId: string): string
  {
    characterName + "/" + userId + "/status"
  }

  lemma DataAndStatusTablesDiffer(characterName: string, userId: string)
    ensures DataTableName(characterName, userId) != StatusTableName(characterName, userId)
  {
  }

  /** The memories of a table, newest first; a table never written is empty. */
  function TableOf(tables: map<string, seq<Memory>>, table: string): seq<Memory>
  {
    if table in tables then tables[table] else []
  }

  /** The memories of `ms` that belong to `roomId`, in order. */
  function InRoom(ms: seq<Memory>, roomId: string): (r: seq<Memory>)
    ensures |r| <= |ms|
    ensures forall m :: m in r ==> m in ms && m.roomId == roomId
  {
    if ms == [] then []
    else (if ms[0].roomId == roomId then [ms[0]] else []) + InRoom(ms[1..], roomId)
  }

  /** `getMemories({roomId})` on a table. */
  function GetMemories(tables: map<string, seq<Memory>>, table: string, roomId: string): seq<Memory>
  {
    InRoom(TableOf(tables, table), roomId)
  }

  /** The host's memory tables, keyed by table name. */
  class MemoryStore {
    var tables: map<string, seq<Memory>>

    /** `createMemory`: the new memory becomes the first one its table lists. */
    method CreateMemory(table: string, m: Memory)
      modifies this
      ensures tables == old(tables)[table := [m] + TableOf(old(tables), table)]
    {
      tables := tables[table := [m] + TableOf(tables, table)];
    }
  }

  /** The three tracked fields are truthy and the stored `isComplete` flag is true. */
  predicate MarkedComplete(d: UserData)
  {
    Known(d.name) && Known(d.location) && Known(d.occupation) && d.isComplete == Some(true)
  }

  /**
   * `validate`: run extraction unless the first stored record parses to an
   * object whose three fields are truthy and whose `isComplete` flag is set.
   */
  function Validate(tables: map<string, seq<Memory>>, characterName: string, userId: string, roomId: string): (run: bool)
    ensures var existing := GetMemories(tables, DataTableName(characterName, userId), roomId);
      && (existing == [] ==> run)
      && (existing != [] && !existing[0].content.Profile? ==> run)
      && (!run <==> existing != [] && existing[0].content.Profile? && MarkedComplete(existing[0].content.record.data))
  {
    var existing := GetMemories(tables, DataTableName(characterName, userId), roomId);
    if |existing| == 0 then true
    else match existing[0].content
      case Unparsable => true
      case JsonNull => true
      case OtherJson => true
      case CompletionNotice(_) => true
      case Profile(rec) => !MarkedComplete(rec.data)
  }

  /** The profile the handler starts from when the user has no record yet. */
  function DefaultRecord(now: int): StoredRecord
  {
    StoredRecord(UserData(None, None, None, Some(now), Some(false)), Some(0.0))
  }

  /** `currentData`: the parsed first record, or the default; None when parsing throws. */
  function CurrentData(existing: seq<Memory>, now: int): Option<Content>
  {
    if |existing| > 0 then
      if existing[0].content.Unparsable? then None else Some(existing[0].content)
    else Some(Profile(DefaultRecord(now)))
  }

  /** `currentData.confidence`: only a profile object carries one; it reads as undefined on anything else. */
  function StoredConfidence(c: Content): Option<real>
  {
    if c.Profile? then c.record.confidence else None
  }

  /** `newData.confidence > currentData.confidence`; a comparison with undefined is false. */
  predicate Improves(current: Content, x: Extraction)
  {
    StoredConfidence(current).Some? && x.confidence > StoredConfidence(current).value
  }

  function Max(a: real, b: real): real
  {
    if a >= b then a else b
  }

  /** The three extracted fields are truthy. */
  predicate ExtractionComplete(x: Extraction)
  {
    Known(x.name) && Known(x.location) && Known(x.occupation)
  }

  /**
   * `updatedData`: each field guarded by the same confidence comparison as
   * the enclosing branch, confidence the larger of the two, `isComplete`
   * recomputed from the extraction.
   */
  function MergedRecord(current: StoredRecord, currentConfidence: real, x: Extraction, now: int): (r: StoredRecord)
    ensures x.confidence > currentConfidence ==>
      && r.data.name == x.name && r.data.location == x.location && r.data.occupation == x.occupation
      && r.confidence == Some(x.confidence)
      && r.data.isComplete == Some(Known(r.data.name) && Known(r.data.location) && Known(r.data.occupation))
    ensures r.data.lastUpdated == Some(now)
  {
    var newer := x.confidence > currentConfidence;
    StoredRecord(
      UserData(
        if newer then x.name else current.data.name,
        if newer then x.location else current.data.location,
        if newer then x.occupation else current.data.occupation,
        Some(now),
        Some(ExtractionComplete(x))),
      Some(Max(x.confidence, currentConfidence)))
  }

  /** What one handler run reports, and the profile record it writes, if any. */
  datatype Decision = Decision(ok: bool, write: Option<StoredRecord>)

  /**
   * The handler's outcome on the memories it read and the model's reply.
   * It fails when parsing throws, when the model call throws, or when a
   * successful reply meets a stored `null` (reading its confidence throws);
   * it writes exactly when the reply succeeded with a strictly higher
   * confidence than the stored one.
   */
  function Decide(existing: seq<Memory>, extract: Content -> ModelReply, now: int): (d: Decision)
    ensures !d.ok <==>
      || CurrentData(existing, now).None?
      || extract(CurrentData(existing, now).value).CallThrows?
      || (extract(CurrentData(existing, now).value).Success? && CurrentData(existing, now).value.JsonNull?)
    ensures d.write.Some? <==>
      && CurrentData(existing, now).Some?
      && extract(CurrentData(existing, now).value).Success?
      && Improves(CurrentData(existing, now).value, extract(CurrentData(existing, now).value).value)
    ensures d.write.Some? ==>
      var x := extract(CurrentData(existing, now).value).value;
      && d.ok
      && d.write.value.data == UserData(x.name, x.location, x.occupation, Some(now), Some(ExtractionComplete(x)))
      && d.write.value.confidence == Some(x.confidence)
  {
    match CurrentData(existing, now)
    case None => Decision(false, None)
    case Some(current) =>
      match extract(current)
      case CallThrows => Decision(false, None)
      case Unsuccessful => Decision(true, None)
      case Success(x) =>
        if current.JsonNull? then Decision(false, None)
        else if Improves(current, x) then
          Decision(true, Some(MergedRecord(current.record, current.record.confidence.value, x, now)))
        else Decision(true, None)
  }

  /** A completion notice is due for a complete record with confidence above 0.8. */
  predicate StatusDue(rec: StoredRecord)
  {
    rec.data.isComplete == Some(true) && rec.confidence.Some? && rec.confidence.value > 0.8
  }

  function Prepend(tables: map<string, seq<Memory>>, table: string, m: Memory): map<string, seq<Memory>>
  {
    tables[table := [m] + TableOf(tables, table)]
  }

  /** The memory tables after the handler's writes. */
  function AfterWrite(tables: map<string, seq<Memory>>, characterName: string, userId: string, roomId: string,
                      write: Option<StoredRecord>, now: int): map<string, seq<Memory>>
  {
    match write
    case None => tables
    case Some(rec) =>
      var withData := Prepend(tables, DataTableName(characterName, userId),
                              Memory(userId, characterName, roomId, Profile(rec), now));
      if StatusDue(rec) then
        Prepend(withData, StatusTableName(characterName, userId),
                Memory(userId, characterName, roomId, CompletionNotice(rec), now))
      else withData
  }

  /**
   * `handler`: read the first record (or start from the default), ask the
   * model, and write a merged record (and a completion notice) when the
   * extraction is strictly more confident than what is stored.
   */
  method Handler(store: MemoryStore, characterName: string, userId: string, roomId: string,
                 extract: Content -> ModelReply, now: int) returns (ok: bool)
    modifies store
    ensures var d := Decide(GetMemories(old(store.tables), DataTableName(characterName, userId), roomId), extract, now);
      && ok == d.ok
      && store.tables == AfterWrite(old(store.tables), characterName, userId, roomId, d.write, now)
    ensures var d := Decide(GetMemories(old(store.tables), DataTableName(characterName, userId), roomId), extract, now);
      d.write.Some? ==> Validate(store.tables, characterName, userId, roomId) == !d.write.value.data.isComplete.value
  {
    var table := DataTableName(characterName, userId);
    var existing := GetMemories(store.tables, table, roomId);
    ghost var d := Decide(existing, extract, now);
    var current: Content;
    if |existing| > 0 {
      if existing[0].content.Unparsable? {
        return false;
      }
      current := existing[0].content;
    } else {
      current := Profile(DefaultRecord(now));
    }
    var reply := extract(current);
    if reply.CallThrows? {
      return false;
    }
    if reply.Success? {
      var x := reply.value;
      if current.JsonNull? {
        return false;
      }
      if current.Profile? && current.record.confidence.Some? && x.confidence > current.record.confidence.value {
        var updated := MergedRecord(current.record, current.record.confidence.value, x, now);
        store.CreateMemory(table, Memory(userId, characterName, roomId, Profile(updated), now));
        if updated.data.isComplete == Some(true) && updated.confidence.value > 0.8 {
          store.CreateMemory(StatusTableName(characterName, userId),
                             Memory(userId, characterName, roomId, CompletionNotice(updated), now));
        }
        GateAfterWrite(old(store.tables), characterName, userId, roomId, extract, now);
      }
    }
    return true;
  }

  /** After a write, the handler's own record is the first one the data table lists. */
  lemma WrittenRecordReadFirst(tables: map<string, seq<Memory>>, characterName: string, userId: string,
                               roomId: string, rec: StoredRecord, now: int)
    ensures var after := GetMemories(AfterWrite(tables, characterName, userId, roomId, Some(rec), now),
                                     DataTableName(characterName, userId), roomId);
      after != [] && after[0].content == Profile(rec)
  {
  }

  /** The stored confidence strictly increases with every write. */
  lemma ConfidenceStrictlyIncreases(tables: map<string, seq<Memory>>, characterName: string, userId: string,
                                    roomId: string, extract: Content -> ModelReply, now: int, later: int)
    ensures var table := DataTableName(characterName, userId);
      var existing := GetMemories(tables, table, roomId);
      var d := Decide(existing, extract, now);
      d.write.Some? ==>
        var before := CurrentData(existing, now);
        var after := CurrentData(GetMemories(AfterWrite(tables, characterName, userId, roomId, d.write, now), table, roomId), later);
        && before.Some? && after.Some?
        && StoredConfidence(before.value).Some? && StoredConfidence(after.value).Some?
        && StoredConfidence(after.value).value > StoredConfidence(before.value).value
  {
  }

  /** Replaying an extraction that was just written changes nothing. */
  lemma ReplayWritesNothing(tables: map<string, seq<Memory>>, characterName: string, userId: string,
                            roomId: string, extract: Content -> ModelReply, now: int,
                            extract2: Content -> ModelReply, later: int)
    requires var existing := GetMemories(tables, DataTableName(characterName, userId), roomId);
      var d := Decide(existing, extract, now);
      d.write.Some? && extract2(Profile(d.write.value)) == extract(CurrentData(existing, now).value)
    ensures var existing := GetMemories(tables, DataTableName(characterName, userId), roomId);
      var d := Decide(existing, extract, now);
      var d2 := Decide(GetMemories(AfterWrite(tables, characterName, userId, roomId, d.write, now),
                                   DataTableName(characterName, userId), roomId), extract2, later);
      d2 == Decision(true, None)
  {
  }

  /** Once a record is written, the gate stays open exactly when that record is incomplete. */
  lemma GateAfterWrite(tables: map<string, seq<Memory>>, characterName: string, userId: string,
                       roomId: string, extract: Content -> ModelReply, now: int)
    ensures var existing := GetMemories(tables, DataTableName(characterName, userId), roomId);
      var d := Decide(existing, extract, now);
      d.write.Some? ==>
        Validate(AfterWrite(tables, characterName, userId, roomId, d.write, now), characterName, userId, roomId)
          == !ExtractionComplete(extract(CurrentData(existing, now).value).value)
  {
  }

  /**
   * A completion notice is written only for an extraction whose three
   * fields are truthy and whose confidence exceeds 0.8; tables other than
   * the user's data and status tables never change.
   */
  lemma WritesTouchOnlyOwnTables(tables: map<string, seq<Memory>>, characterName: string, userId: string,
                                 roomId: string, extract: Content -> ModelReply, now: int)
    ensures var existing := GetMemories(tables, DataTableName(characterName, userId), roomId);
      var d := Decide(existing, extract, now);
      var after := AfterWrite(tables, characterName, userId, roomId, d.write, now);
      && (TableOf(after, StatusTableName(characterName, userId)) != TableOf(tables, StatusTableName(characterName, userId)) <==>
            d.write.Some?
            && ExtractionComplete(extract(CurrentData(existing, now).value).value)
            && extract(CurrentData(existing, now).value).value.confidence > 0.8)
      && (forall t :: t != DataTableName(characterName, userId) && t != StatusTableName(characterName, userId) ==>
            TableOf(after, t) == TableOf(tables, t))
  {
  }

  /**
   * With no record yet, the run fails only when the model call throws, and a
   * record is written exactly for a successful extraction with positive confidence.
   */
  lemma FirstExtractionAgainstDefault(extract: Content -> ModelReply, now: int)
    ensures Decide([], extract, now).ok <==> !extract(Profile(DefaultRecord(now))).CallThrows?
    ensures Decide([], extract, now).write.Some? <==>
      extract(Profile(DefaultRecord(now))).Success? && extract(Profile(DefaultRecord(now))).value.confidence > 0.0
  {
  }
}
