/**
 * One collection's data file and the five request handlers over it. Each
 * handler is one sequential load, change, save step; the outside world's
 * answers during that step (the clock, today's date, whether the read and
 * each write succeed) are given as an `Env`.
 */
module FileStore {
  import opened Wrappers
  import opened Json
  import opened Collection

  /**
   * What the outside world answers during one request: the clock when the
   * data file is read (the target seed's id), the clock when add builds its
   * record, today's date, whether reading the file succeeds (any read error,
   * also on a present file), whether the seeding write of a failed read
   * succeeds, and whether the handler's own write succeeds.
   */
  datatype Env = Env(readClock: int, clock: int, today: string, readOk: bool, seedOk: bool, saveOk: bool)

  /** The HTTP answer of a handler. */
  datatype Reply =
    | Saved(count: nat)        // 200 `{message, count}`
    | Created(record: Record)  // 200, the new record
    | Deleted(deletedId: int)  // 200 `{message, deletedId}`
    | Updated(record: Record)  // 200, the merged record
    | NotFound                 // 404
    | ServerError              // 500

  /**
   * What reading a data file yields: its records, or the seed record when the
   * file is missing, does not parse, or the read itself fails (`!readOk`).
   */
  function Loaded(kind: Kind, file: Option<seq<Record>>, now: int, readOk: bool): (rs: seq<Record>)
    ensures readOk && file.Some? ==> rs == file.value
    ensures !readOk || file.None? ==> rs == [Seed(kind, now)]
  {
    if readOk && file.Some? then file.value else [Seed(kind, now)]
  }

  /**
   * The data file after a read: a failed read writes the seed, if it can,
   * over whatever the file held.
   */
  function AfterLoad(kind: Kind, file: Option<seq<Record>>, now: int, readOk: bool, seedOk: bool): (f: Option<seq<Record>>)
    ensures readOk && file.Some? ==> f == file
    ensures !readOk || file.None? ==> f == (if seedOk then Some([Seed(kind, now)]) else file)
    ensures f != file ==> f == Some(Loaded(kind, file, now, readOk))
  {
    if readOk && file.Some? then file
    else if seedOk then Some([Seed(kind, now)])
    else file
  }

  class Store {
    /** Which collection this store keeps; it fixes the seed and the defaults. */
    const kind: Kind
    /** The data file: its records, or None when it is missing or does not parse. */
    var file: Option<seq<Record>>

    constructor (kind: Kind, file: Option<seq<Record>>)
      ensures this.kind == kind && this.file == file
    {
      this.kind := kind;
      this.file := file;
    }

    /**
     * Overwrites the whole data file with `records`; `ok` is whether the
     * file system accepts the write. A failed write reports false and
     * leaves the file as it was.
     */
    method Write(records: seq<Record>, ok: bool) returns (success: bool)
      modifies this
      ensures success == ok
      ensures file == if ok then Some(records) else old(file)
    {
      if ok {
        file := Some(records);
      }
      success := ok;
    }

    /**
     * Reads the data file. When it is missing, does not parse or cannot be
     * read, the seed record is written (a failure of that write is ignored)
     * and returned.
     */
    method Load(now: int, readOk: bool, seedOk: bool) returns (records: seq<Record>)
      modifies this
      ensures records == Loaded(kind, old(file), now, readOk)
      ensures file == AfterLoad(kind, old(file), now, readOk, seedOk)
    {
      if readOk && file.Some? {
        records := file.value;
      } else {
        records := [Seed(kind, now)];
        var _ := Write(records, seedOk);
      }
    }

    /** GET: the collection as read. */
    method List(env: Env) returns (records: seq<Record>)
      modifies this
      ensures records == Loaded(kind, old(file), env.readClock, env.readOk)
      ensures file == AfterLoad(kind, old(file), env.readClock, env.readOk, env.seedOk)
    {
      records := Load(env.readClock, env.readOk, env.seedOk);
    }

    /**
     * POST of a whole array: the data file becomes exactly `records`, without
     * reading it first, and the reply counts them.
     */
    method ReplaceAll(records: seq<Record>, env: Env) returns (reply: Reply)
      modifies this
      ensures reply == if env.saveOk then Saved(|records|) else ServerError
      ensures file == if env.saveOk then Some(records) else old(file)
    {
      var success := Write(records, env.saveOk);
      if success {
        reply := Saved(|records|);
      } else {
        reply := ServerError;
      }
    }

    /**
     * POST .../add: appends one record built from the request body, with the
     * clock as its id and the collection's defaults for missing or falsy
     * fields, and answers with that record.
     */
    method Add(body: Record, env: Env) returns (reply: Reply)
      modifies this
      ensures var loaded := Loaded(kind, old(file), env.readClock, env.readOk);
        var added := NewRecord(kind, body, env.clock, env.today);
        && reply == (if env.saveOk then Created(added) else ServerError)
        && file == if env.saveOk then Some(loaded + [added]) else AfterLoad(kind, old(file), env.readClock, env.readOk, env.seedOk)
    {
      var records := Load(env.readClock, env.readOk, env.seedOk);
      var added := NewRecord(kind, body, env.clock, env.today);
      records := records + [added];
      var success := Write(records, env.saveOk);
      if success {
        reply := Created(added);
      } else {
        reply := ServerError;
      }
    }

    /**
     * DELETE .../:id: keeps the records whose id differs from `id`. When that
     * removes nothing (also when the path id did not parse) the answer is 404
     * and nothing is written after the read; otherwise the survivors are
     * saved and the id is echoed.
     */
    method Delete(id: Option<int>, env: Env) returns (reply: Reply)
      modifies this
      ensures var loaded := Loaded(kind, old(file), env.readClock, env.readOk);
        var afterLoad := AfterLoad(kind, old(file), env.readClock, env.readOk, env.seedOk);
        if FindIndex(loaded, id) == -1 then
          reply == NotFound && file == afterLoad
        else
          && id.Some?
          && reply == (if env.saveOk then Deleted(id.value) else ServerError)
          && file == if env.saveOk then Some(RemoveById(loaded, id)) else afterLoad
    {
      var records := Load(env.readClock, env.readOk, env.seedOk);
      var kept := RemoveById(records, id);
      RemoveByIdUnchangedIff(records, id);
      if |kept| == |records| {
        reply := NotFound;
        return;
      }
      var success := Write(kept, env.saveOk);
      if success {
        reply := Deleted(id.value);
      } else {
        reply := ServerError;
      }
    }

    /**
     * PUT .../:id: merges the patch over the first record with the id and
     * answers with the merged record; 404 when no record has the id.
     */
    method Update(id: Option<int>, patch: Record, env: Env) returns (reply: Reply)
      modifies this
      ensures var loaded := Loaded(kind, old(file), env.readClock, env.readOk);
        var afterLoad := AfterLoad(kind, old(file), env.readClock, env.readOk, env.seedOk);
        var i := FindIndex(loaded, id);
        if i == -1 then
          reply == NotFound && file == afterLoad
        else
          var merged := Merge(loaded[i], patch);
          && reply == (if env.saveOk then Updated(merged) else ServerError)
          && file == if env.saveOk then Some(loaded[i := merged]) else afterLoad
    {
      var records := Load(env.readClock, env.readOk, env.seedOk);
      var index := FindIndex(records, id);
      if index == -1 {
        reply := NotFound;
        return;
      }
      records := records[index := Merge(records[index], patch)];
      var success := Write(records, env.saveOk);
      if success {
        reply := Updated(records[index]);
      } else {
        reply := ServerError;
      }
    }
  }

  /**
   * A job's life from an empty data file: add with only company and
   * position, read it back, mark it as interviewing, delete it.
   */
  method JobLifecycle(now: int, today: string)
  {
    var jobs := new Store(Jobs, Some([]));
    var env := Env(now, now, today, true, true, true);
    var body := map["company" := Str("Acme"), "position" := Str("SWE")];

    var reply := jobs.Add(body, env);
    assert reply.Created?;
    var job := reply.record;
    assert job["id"] == Num(now as real);
    assert job["status"] == Str("applied") && job["appliedDate"] == Str(today);
    assert job["company"] == Str("Acme");
    assert [] + [job] == [job];
    var listed := jobs.List(env);
    assert listed == [job];

    InterviewThenDelete(jobs, job, env);
  }

  /** The second half of the lifecycle: update the job's status, then delete it. */
  method InterviewThenDelete(jobs: Store, job: Record, env: Env)
    requires jobs.file == Some([job])
    requires "id" in job && "company" in job && job["id"] == Num(env.clock as real)
    requires env.readOk && env.saveOk
    modifies jobs
  {
    var id := Some(env.clock);
    var patch := map["status" := Str("interview")];
    assert FindIndex([job], id) == 0;
    var reply := jobs.Update(id, patch, env);
    var updated := Merge(job, patch);
    assert [job][0] == job && [job][0 := updated] == [updated];
    assert reply == Updated(updated) && jobs.file == Some([updated]);
    var listed := jobs.List(env);
    assert listed == [updated] && "company" !in patch;
    assert listed[0]["status"] == Str("interview") && listed[0]["company"] == job["company"];

    assert FindIndex(listed, id) == 0;
    assert RemoveById(listed, id) == [];
    reply := jobs.Delete(id, env);
    assert reply == Deleted(env.clock);
    listed := jobs.List(env);
    assert listed == [];
  }
}
