/**
 * The collection operations shared by the jobs and the targets endpoints:
 * the seed record and the add-defaults table of each collection, building a
 * new record from a request body, finding and filtering by id, and the
 * shallow merge of an update. Everything here is a pure function on values;
 * the store that loads, mutates and saves a collection is in module FileStore.
 */
module Collection {
  import opened Wrappers
  import opened Json
  import opened Sequences

  /** The two collections the service keeps, each in its own data file. */
  datatype Kind = Jobs | Targets

  /**
   * The single record a collection is seeded with when its data file cannot
   * be read. The job seed has the fixed id 1; the target seed takes its id
   * from the clock at the moment of the read.
   */
  function Seed(kind: Kind, now: int): (r: Record)
    ensures "id" in r
    ensures r["id"] == Num(if kind == Jobs then 1.0 else now as real)
    ensures "status" in r && Truthy(r["status"])
  {
    match kind
    case Jobs =>
      map[
        "id" := Num(1.0),
        "company" := Str("Irdeto"),
        "position" := Str("Junior Software Engineer"),
        "status" := Str("applied"),
        "appliedDate" := Str("2025-08-31"),
        "notes" := Str("Application confirmed on 8/31. Under review by talent acquisition team.")
      ]
    case Targets =>
      map[
        "id" := Num(now as real),
        "companyName" := Str("Example Target Company"),
        "industry" := Str("Technology"),
        "location" := Str("Amsterdam, Netherlands"),
        "priority" := Str("high"),
        "targetPosition" := Str("Software Engineer"),
        "applicationTimeline" := Str("Q1 2025"),
        "researchNotes" := Str("Sample research notes for target company analysis"),
        "contactInfo" := Str(""),
        "websiteUrl" := Str("https://example.com"),
        "careerPageUrl" := Str("https://example.com/careers"),
        "status" := Str("researching")
      ]
  }

  /**
   * The fields an added record is built from, each with the value used when
   * the request leaves it out or gives a falsy value. The job's applied date
   * defaults to today's date, given as `today`.
   */
  function AddDefaults(kind: Kind, today: string): (d: Record)
    ensures "id" !in d
    ensures "status" in d
    ensures kind == Jobs ==>
      && "position" in d && "appliedDate" in d
      && d["status"] == Str("applied") && d["position"] == Str("New Position")
      && d["appliedDate"] == Str(today)
    ensures kind == Targets ==>
      && "priority" in d
      && d["priority"] == Str("medium") && d["status"] == Str("researching")
  {
    match kind
    case Jobs =>
      map[
        "company" := Str("New Company"),
        "description" := Str(""),
        "position" := Str("New Position"),
        "status" := Str("applied"),
        "appliedDate" := Str(today),
        "link" := Str(""),
        "notes" := Str("")
      ]
    case Targets =>
      map[
        "companyName" := Str("New Target Company"),
        "industry" := Str("Technology"),
        "location" := Str("Amsterdam, Netherlands"),
        "priority" := Str("medium"),
        "targetPosition" := Str("Software Engineer"),
        "applicationTimeline" := Str("Q1 2025"),
        "researchNotes" := Str(""),
        "contactInfo" := Str(""),
        "websiteUrl" := Str(""),
        "careerPageUrl" := Str(""),
        "status" := Str("researching")
      ]
  }

  /** JavaScript's `body.key || default`. */
  function FieldOr(body: Record, key: string, default: Value): (v: Value)
    ensures v == default || (key in body && v == body[key] && Truthy(v))
    ensures key in body && Truthy(body[key]) ==> v == body[key]
    ensures key !in body ==> v == default
  {
    if key in body && Truthy(body[key]) then body[key] else default
  }

  /**
   * The record the add endpoint appends: the id is the clock value `now`,
   * and every field of the defaults table is the request's value when that
   * value is truthy and the table's default otherwise. Request fields that
   * are not in the table, a client-chosen id among them, are dropped.
   */
  function NewRecord(kind: Kind, body: Record, now: int, today: string): (r: Record)
    ensures r.Keys == AddDefaults(kind, today).Keys + {"id"}
    ensures r["id"] == Num(now as real)
    ensures forall k :: k in AddDefaults(kind, today) && k in body && Truthy(body[k]) ==> r[k] == body[k]
    ensures forall k :: k in AddDefaults(kind, today) && (k !in body || !Truthy(body[k])) ==>
              r[k] == AddDefaults(kind, today)[k]
  {
    var d := AddDefaults(kind, today);
    map k | k in d.Keys + {"id"} :: if k == "id" then Num(now as real) else FieldOr(body, k, d[k])
  }

  /**
   * Whether a stored record has the id parsed from the request path, compared
   * as JavaScript's `===` does: a record without an id, one whose id is not
   * that number, and every record when the path id did not parse (NaN) fail.
   */
  predicate Matches(r: Record, id: Option<int>)
    ensures id.None? ==> !Matches(r, id)
    ensures "id" !in r ==> !Matches(r, id)
    ensures "id" in r && !r["id"].Num? ==> !Matches(r, id)
    ensures Matches(r, id) <==> id.Some? && "id" in r && r["id"].Num? && r["id"].n == id.value as real
  {
    id.Some? && "id" in r && r["id"] == Num(id.value as real)
  }

  /** No record of `rs` has the id `id`. */
  predicate NoneMatch(rs: seq<Record>, id: Option<int>) {
    forall i :: 0 <= i < |rs| ==> !Matches(rs[i], id)
  }

  /**
   * JavaScript's `rs.findIndex(r => r.id === id)`: the first index whose
   * record has the id, or -1 when there is none.
   */
  function FindIndex(rs: seq<Record>, id: Option<int>): (i: int)
    ensures -1 <= i < |rs|
    ensures i == -1 <==> NoneMatch(rs, id)
    ensures 0 <= i ==> Matches(rs[i], id) && forall j :: 0 <= j < i ==> !Matches(rs[j], id)
  {
    if rs == [] then -1
    else if Matches(rs[0], id) then 0
    else
      var k := FindIndex(rs[1..], id);
      if k == -1 then -1 else k + 1
  }

  /**
   * JavaScript's `rs.filter(r => r.id !== id)`: the records without the id,
   * in their original order.
   */
  function RemoveById(rs: seq<Record>, id: Option<int>): (kept: seq<Record>)
    ensures |kept| <= |rs|
    ensures forall j :: 0 <= j < |kept| ==> !Matches(kept[j], id)
  {
    if rs == [] then []
    else (if Matches(rs[0], id) then [] else [rs[0]]) + RemoveById(rs[1..], id)
  }

  /** The shallow merge `{...current, ...patch}` of an update. */
  function Merge(current: Record, patch: Record): (r: Record)
    ensures r.Keys == current.Keys + patch.Keys
    ensures forall k :: k in patch ==> r[k] == patch[k]
    ensures forall k :: k in current && k !in patch ==> r[k] == current[k]
  {
    current + patch
  }

  /** No two records of the collection carry the same id. */
  ghost predicate UniqueIds(rs: seq<Record>) {
    forall i, j :: 0 <= i < j < |rs| && "id" in rs[i] && "id" in rs[j] ==> rs[i]["id"] != rs[j]["id"]
  }

  // ---------------------------------------------------------------------
  // Add

  /**
   * Adding a record that add itself produced, at the same clock value,
   * reproduces it: every field the add kept from the request is truthy and
   * survives, every other field is the default again.
   */
  lemma NewRecordIdempotent(kind: Kind, body: Record, now: int, today: string)
    ensures NewRecord(kind, NewRecord(kind, body, now, today), now, today) == NewRecord(kind, body, now, today)
  {
  }

  /**
   * What add stores depends on the request only through the fields of the
   * defaults table: two requests that agree on those build the same record.
   */
  lemma NewRecordIgnoresOtherFields(kind: Kind, b1: Record, b2: Record, now: int, today: string)
    requires forall k :: k in AddDefaults(kind, today) ==> (k in b1 <==> k in b2)
    requires forall k :: k in AddDefaults(kind, today) && k in b1 ==> b1[k] == b2[k]
    ensures NewRecord(kind, b1, now, today) == NewRecord(kind, b2, now, today)
  {
  }

  /**
   * An add whose clock value is not yet an id of the collection keeps ids
   * unique, and a later lookup of that id finds the appended record.
   */
  lemma AddKeepsIdsUnique(rs: seq<Record>, kind: Kind, body: Record, now: int, today: string)
    requires UniqueIds(rs)
    requires FindIndex(rs, Some(now)) == -1
    ensures UniqueIds(rs + [NewRecord(kind, body, now, today)])
    ensures FindIndex(rs + [NewRecord(kind, body, now, today)], Some(now)) == |rs|
  {
    AppendFreshIdKeepsUnique(rs, NewRecord(kind, body, now, today), now);
  }

  /** Appending a record whose id no record has yet keeps ids unique. */
  lemma AppendFreshIdKeepsUnique(rs: seq<Record>, r: Record, now: int)
    requires UniqueIds(rs)
    requires NoneMatch(rs, Some(now))
    requires Matches(r, Some(now))
    ensures UniqueIds(rs + [r])
    ensures FindIndex(rs + [r], Some(now)) == |rs|
  {
    var rs' := rs + [r];
    forall i, j | 0 <= i < j < |rs'| && "id" in rs'[i] && "id" in rs'[j]
      ensures rs'[i]["id"] != rs'[j]["id"]
    {
      assert rs'[i] == rs[i];
      if j == |rs| {
        assert !Matches(rs[i], Some(now));
      } else {
        assert rs'[j] == rs[j];
      }
    }
    assert Matches(rs'[|rs|], Some(now));
    assert rs'[..|rs|] == rs;
  }

  // ---------------------------------------------------------------------
  // Delete

  /** Filtering distributes over concatenation, so survivors keep their order. */
  lemma {:induction false} RemoveByIdAppend(a: seq<Record>, b: seq<Record>, id: Option<int>)
    ensures RemoveById(a + b, id) == RemoveById(a, id) + RemoveById(b, id)
  {
    if a == [] {
      assert a + b == b;
    } else {
      var head := if Matches(a[0], id) then [] else [a[0]];
      ConsAppend(a, b);
      assert RemoveById(a + b, id) == head + RemoveById(a[1..] + b, id);
      RemoveByIdAppend(a[1..], b, id);
      AppendAssoc(head, RemoveById(a[1..], id), RemoveById(b, id));
    }
  }

  /** Filtering keeps a collection in which no record has the id as it is. */
  lemma {:induction false} RemoveByIdNoMatch(rs: seq<Record>, id: Option<int>)
    requires NoneMatch(rs, id)
    ensures RemoveById(rs, id) == rs
  {
    if rs != [] {
      RemoveByIdNoMatch(rs[1..], id);
    }
  }

  /**
   * Every record without the id survives as often as it occurred, and no
   * record with the id survives.
   */
  lemma {:induction false} RemoveByIdCounts(rs: seq<Record>, id: Option<int>, r: Record)
    ensures multiset(RemoveById(rs, id))[r] == if Matches(r, id) then 0 else multiset(rs)[r]
  {
    if rs != [] {
      RemoveByIdCounts(rs[1..], id, r);
      HeadTail(rs);
      var head := if Matches(rs[0], id) then [] else [rs[0]];
      assert multiset(RemoveById(rs, id)) == multiset(head) + multiset(RemoveById(rs[1..], id));
    }
  }

  /**
   * The delete handler's not-found test: the filter leaves the length as it
   * was exactly when no record has the id, which is when findIndex answers -1.
   */
  lemma {:induction false} RemoveByIdUnchangedIff(rs: seq<Record>, id: Option<int>)
    ensures |RemoveById(rs, id)| == |rs| <==> FindIndex(rs, id) == -1
    ensures FindIndex(rs, id) == -1 ==> RemoveById(rs, id) == rs
  {
    var i := FindIndex(rs, id);
    if i == -1 {
      RemoveByIdNoMatch(rs, id);
    } else {
      SplitAt(rs, i);
      RemoveByIdAppend(rs[..i], [rs[i]] + rs[i + 1..], id);
      RemoveByIdAppend([rs[i]], rs[i + 1..], id);
      assert RemoveById([rs[i]], id) == [];
    }
  }

  /**
   * With unique ids, deleting an id that is present removes exactly the
   * record findIndex locates and nothing else.
   */
  lemma RemoveByIdUniqueRemovesOne(rs: seq<Record>, id: Option<int>)
    requires UniqueIds(rs)
    requires FindIndex(rs, id) != -1
    ensures RemoveById(rs, id) == rs[..FindIndex(rs, id)] + rs[FindIndex(rs, id) + 1..]
    ensures |RemoveById(rs, id)| == |rs| - 1
  {
    var i := FindIndex(rs, id);
    SplitAt(rs, i);
    NoMatchAfterFirst(rs, id, i);
    RemoveByIdDropsOne(rs[..i], rs[i], rs[i + 1..], id);
  }

  /** Filtering a collection in which exactly one record has the id drops that record. */
  lemma RemoveByIdDropsOne(pre: seq<Record>, r: Record, post: seq<Record>, id: Option<int>)
    requires NoneMatch(pre, id) && Matches(r, id) && NoneMatch(post, id)
    ensures RemoveById(pre + [r] + post, id) == pre + post
  {
    assert RemoveById(pre + [r], id) == pre by {
      RemoveByIdAppend(pre, [r], id);
      RemoveByIdNoMatch(pre, id);
      assert RemoveById([r], id) == [];
    }
    RemoveByIdAppend(pre + [r], post, id);
    RemoveByIdNoMatch(post, id);
  }

  /** With unique ids, no record after one that has the id has it too. */
  lemma NoMatchAfterFirst(rs: seq<Record>, id: Option<int>, i: nat)
    requires UniqueIds(rs)
    requires i < |rs| && Matches(rs[i], id)
    ensures NoneMatch(rs[i + 1..], id)
  {
  }

  /** No record of `rs` carries the id value `v`. */
  ghost predicate IdAbsent(v: Value, rs: seq<Record>) {
    forall k :: 0 <= k < |rs| && "id" in rs[k] ==> rs[k]["id"] != v
  }

  /** For a parsed id, "no record matches it" and "its value is absent" are the same. */
  lemma NoneMatchIsIdAbsent(rs: seq<Record>, x: int)
    ensures NoneMatch(rs, Some(x)) <==> IdAbsent(Num(x as real), rs)
  {
  }

  /** Ids are unique in a collection when they are in its tail and its head's id is not there. */
  lemma UniqueIdsCons(rs: seq<Record>)
    requires rs != []
    ensures UniqueIds(rs) <==> UniqueIds(rs[1..]) && ("id" in rs[0] ==> IdAbsent(rs[0]["id"], rs[1..]))
  {
  }

  /** Filtering cannot bring in an id value that was absent. */
  lemma {:induction false} RemoveByIdKeepsIdAbsent(v: Value, rs: seq<Record>, id: Option<int>)
    requires IdAbsent(v, rs)
    ensures IdAbsent(v, RemoveById(rs, id))
  {
    if rs != [] {
      var t := rs[1..];
      assert IdAbsent(v, t) by {
        assert forall k :: 0 <= k < |t| ==> t[k] == rs[k + 1];
      }
      RemoveByIdKeepsIdAbsent(v, t, id);
      var head := if Matches(rs[0], id) then [] else [rs[0]];
      var kt := RemoveById(t, id);
      assert RemoveById(rs, id) == head + kt;
      assert forall k :: 0 <= k < |head| ==> head[k] == rs[0];
    }
  }

  /** Deleting never makes two records share an id. */
  lemma {:induction false} RemoveByIdKeepsIdsUnique(rs: seq<Record>, id: Option<int>)
    requires UniqueIds(rs)
    ensures UniqueIds(RemoveById(rs, id))
  {
    if rs != [] {
      var t := rs[1..];
      UniqueIdsCons(rs);
      RemoveByIdKeepsIdsUnique(t, id);
      var kt := RemoveById(t, id);
      if !Matches(rs[0], id) {
        var kept := [rs[0]] + kt;
        assert kept[0] == rs[0] && kept[1..] == kt;
        if "id" in rs[0] {
          RemoveByIdKeepsIdAbsent(rs[0]["id"], t, id);
        }
        UniqueIdsCons(kept);
      }
    }
  }

  // ---------------------------------------------------------------------
  // Update

  /**
   * Updating the record at index `i` leaves every other record, and the
   * length, as they were; the merged record keeps every field the patch
   * does not name and takes every field it does.
   */
  lemma UpdateAtIndex(rs: seq<Record>, i: nat, patch: Record)
    requires i < |rs|
    ensures var rs' := rs[i := Merge(rs[i], patch)];
      && |rs'| == |rs|
      && (forall j :: 0 <= j < |rs| && j != i ==> rs'[j] == rs[j])
      && (forall k :: k in patch ==> rs'[i][k] == patch[k])
      && (forall k :: k in rs[i] && k !in patch ==> rs'[i][k] == rs[i][k])
  {
  }

  /**
   * A patch that does not carry an id keeps ids unique, and the updated
   * record is still the first one with its id.
   */
  lemma UpdateKeepsIds(rs: seq<Record>, id: Option<int>, patch: Record)
    requires UniqueIds(rs)
    requires FindIndex(rs, id) != -1
    requires "id" !in patch
    ensures var i := FindIndex(rs, id);
      var rs' := rs[i := Merge(rs[i], patch)];
      UniqueIds(rs') && FindIndex(rs', id) == i
  {
    var i := FindIndex(rs, id);
    var rs' := rs[i := Merge(rs[i], patch)];
    assert Matches(rs'[i], id);
    assert forall j :: 0 <= j < |rs| ==> rs'[j].Keys * {"id"} == rs[j].Keys * {"id"};
  }

  /** Applying the same patch twice stores what applying it once stores. */
  lemma MergeIdempotent(current: Record, patch: Record)
    ensures Merge(Merge(current, patch), patch) == Merge(current, patch)
  {
  }
}
