/**
 * `ResultService` (metriq-api/service/resultService.js): `submit`, which
 * checks the submission, the task and the method in that order, creates
 * the result, files its id on the submission and then strips deleted
 * results from the populated list it returns; and the `delete` soft delete.
 */
module Results {
  import opened Wrappers
  import opened Seqs

  type Key = string

  /** A result document: who filed it, for which submission, task and method, and its deletion mark. */
  datatype ResultDoc = ResultDoc(
    id: Key,
    user: Key,
    submission: Key,
    taskId: Option<Key>,
    methodId: Option<Key>,
    deletedDate: Option<int>)

  /** A submission document as far as results go: the ids of its results. */
  datatype SubmissionDoc = SubmissionDoc(id: Key, results: seq<Key>)

  /** The fields of the request body that `submit` checks. */
  datatype ResultRequest = ResultRequest(taskId: Option<Key>, methodId: Option<Key>)

  /** The submission `submit` returns, its `results` populated with documents. */
  datatype PopulatedSubmission = PopulatedSubmission(id: Key, results: seq<ResultDoc>)

  const SubmissionNotFound := "Submission not found"
  const TaskUndefined := "Result requires task to be defined."
  const MethodUndefined := "Result requires method to be defined."
  const ResultNotFound := "Result not found."

  predicate IsDeleted(r: ResultDoc) {
    r.deletedDate.Some?
  }

  predicate IsLive(r: ResultDoc) {
    !IsDeleted(r)
  }

  /** The position of the first submission with this id. */
  function FindSubmission(subs: seq<SubmissionDoc>, id: Key): (k: Option<nat>)
    ensures k.Some? ==> k.value < |subs| && subs[k.value].id == id
    ensures k.None? ==> forall j :: 0 <= j < |subs| ==> subs[j].id != id
    decreases |subs|
  {
    if subs == [] then None
    else if subs[0].id == id then Some(0)
    else match FindSubmission(subs[1..], id)
      case None => None
      case Some(j) => Some(j + 1)
  }

  /** The position of the first result with this id. */
  function FindResult(results: seq<ResultDoc>, id: Key): (k: Option<nat>)
    ensures k.Some? ==> k.value < |results| && results[k.value].id == id
    ensures k.None? ==> forall j :: 0 <= j < |results| ==> results[j].id != id
    decreases |results|
  {
    if results == [] then None
    else if results[0].id == id then Some(0)
    else match FindResult(results[1..], id)
      case None => None
      case Some(j) => Some(j + 1)
  }

  /**
   * `populate('results')`: each id replaced by its document, in order; an id
   * with no document is dropped, as Mongoose does for populated arrays.
   */
  function Populate(ids: seq<Key>, results: seq<ResultDoc>): (docs: seq<ResultDoc>)
    ensures |docs| <= |ids|
    ensures forall d :: d in docs ==> d in results && d.id in ids
    decreases |ids|
  {
    if ids == [] then []
    else
      var rest := Populate(ids[1..], results);
      match FindResult(results, ids[0])
      case None => rest
      case Some(k) => [results[k]] + rest
  }

  /** Populating a list with one more id appends that id's document. */
  lemma {:induction false} PopulateAppend(ids: seq<Key>, id: Key, results: seq<ResultDoc>)
    requires FindResult(results, id).Some?
    ensures Populate(ids + [id], results) == Populate(ids, results) + [results[FindResult(results, id).value]]
    decreases |ids|
  {
    if ids == [] {
      assert Populate([id], results) == [results[FindResult(results, id).value]] + Populate([], results);
    } else {
      assert (ids + [id])[1..] == ids[1..] + [id];
      PopulateAppend(ids[1..], id, results);
    }
  }

  /**
   * The check order of `submit` before anything is written: the submission,
   * then the task, then the method. The existence lookups of the task and
   * the method are started without being awaited and can never refuse.
   */
  function SubmitChecks(subs: seq<SubmissionDoc>, submissionId: Key, req: ResultRequest): (r: Result<nat>)
    ensures FindSubmission(subs, submissionId).None? <==> r == Failure(SubmissionNotFound)
    ensures r.Success? <==> FindSubmission(subs, submissionId).Some? && req.taskId.Some? && req.methodId.Some?
    ensures r.Success? ==> r.value == FindSubmission(subs, submissionId).value
  {
    match FindSubmission(subs, submissionId)
    case None => Failure(SubmissionNotFound)
    case Some(k) =>
      if req.taskId.None? then Failure(TaskUndefined)
      else if req.methodId.None? then Failure(MethodUndefined)
      else Success(k)
  }

  /** A missing task is reported before a missing method, and a missing submission before either. */
  lemma SubmitCheckOrder(subs: seq<SubmissionDoc>, submissionId: Key, req: ResultRequest)
    ensures FindSubmission(subs, submissionId).Some? && req.taskId.None? ==> SubmitChecks(subs, submissionId, req) == Failure(TaskUndefined)
    ensures FindSubmission(subs, submissionId).Some? && req.taskId.Some? && req.methodId.None? ==>
      SubmitChecks(subs, submissionId, req) == Failure(MethodUndefined)
  {
  }

  /**
   * The `while` loop of `submit`: deleted results are spliced out of the
   * list in place, the index moving on only past a live one.
   */
  method RemoveDeleted(list0: seq<ResultDoc>) returns (list: seq<ResultDoc>)
    ensures list == Filter(list0, IsLive)
  {
    list := list0;
    var i := 0;
    ghost var k := 0;
    while i < |list|
      invariant 0 <= i <= |list| && 0 <= k <= |list0|
      invariant list[..i] == Filter(list0[..k], IsLive)
      invariant list[i..] == list0[k..]
      decreases |list| - i
    {
      if IsDeleted(list[i]) {
        DropStep(list0, k, list, i);
        list := list[..i] + list[i + 1..];
      } else {
        KeepStep(list0, k, list, i);
        i := i + 1;
      }
      k := k + 1;
    }
    assert list0[..k] == list0;
    assert list[..i] == list;
  }

  /** Filtering one more element of a prefix appends that element if it is kept. */
  lemma FilterPrefixStep(xs: seq<ResultDoc>, k: nat)
    requires k < |xs|
    ensures Filter(xs[..k + 1], IsLive) == Filter(xs[..k], IsLive) + (if IsLive(xs[k]) then [xs[k]] else [])
  {
    assert xs[..k + 1] == xs[..k] + [xs[k]];
    FilterConcat(xs[..k], [xs[k]], IsLive);
  }

  /** Splicing out a deleted result keeps the loop invariant of `RemoveDeleted`, one element further on. */
  lemma DropStep(list0: seq<ResultDoc>, k: nat, list: seq<ResultDoc>, i: nat)
    requires i < |list| && k <= |list0|
    requires list[..i] == Filter(list0[..k], IsLive) && list[i..] == list0[k..]
    requires IsDeleted(list[i])
    ensures k + 1 <= |list0|
    ensures (list[..i] + list[i + 1..])[..i] == Filter(list0[..k + 1], IsLive)
    ensures (list[..i] + list[i + 1..])[i..] == list0[k + 1..]
  {
    assert list0[k] == list[i] by { assert list[i..][0] == list0[k..][0]; }
    FilterPrefixStep(list0, k);
    var after := list[..i] + list[i + 1..];
    assert after[..i] == list[..i];
    assert after[i..] == list[i + 1..] == list[i..][1..];
  }

  /** Stepping past a live result keeps the loop invariant of `RemoveDeleted`. */
  lemma KeepStep(list0: seq<ResultDoc>, k: nat, list: seq<ResultDoc>, i: nat)
    requires i < |list| && k <= |list0|
    requires list[..i] == Filter(list0[..k], IsLive) && list[i..] == list0[k..]
    requires !IsDeleted(list[i])
    ensures k + 1 <= |list0|
    ensures list[..i + 1] == Filter(list0[..k + 1], IsLive)
    ensures list[i + 1..] == list0[k + 1..]
  {
    assert list0[k] == list[i] by { assert list[i..][0] == list0[k..][0]; }
    FilterPrefixStep(list0, k);
    assert list[..i + 1] == list[..i] + [list[i]];
    assert list[i + 1..] == list[i..][1..];
  }

  /** After the loop no deleted result is left, every live one is, and the survivors keep their order. */
  lemma RemoveDeletedKeepsLive(list0: seq<ResultDoc>)
    ensures forall d :: d in Filter(list0, IsLive) <==> d in list0 && IsLive(d)
  {
    forall d | d in list0 && IsLive(d) ensures d in Filter(list0, IsLive) {
      FilterKeeps(list0, IsLive, d);
    }
  }

  class ResultService {
    var results: seq<ResultDoc>
    var submissions: seq<SubmissionDoc>

    constructor (results0: seq<ResultDoc>, submissions0: seq<SubmissionDoc>)
      ensures results == results0 && submissions == submissions0
    {
      results := results0;
      submissions := submissions0;
    }

    /**
     * `submit`: after the checks the result is created as `newId` (the
     * database may refuse with `createError`), its id is pushed onto the
     * submission's `results` and saved, and the submission comes back with
     * its results populated and the deleted ones removed.
     */
    method Submit(userId: Key, submissionId: Key, req: ResultRequest, newId: Key, createOk: bool, createError: string)
        returns (r: Result<PopulatedSubmission>)
      requires FindResult(results, newId).None?
      modifies this
      ensures SubmitChecks(old(submissions), submissionId, req).Failure? ==>
        r == Failure(SubmitChecks(old(submissions), submissionId, req).error) && unchanged(this)
      ensures SubmitChecks(old(submissions), submissionId, req).Success? && !createOk ==> r == Failure(createError) && unchanged(this)
      ensures SubmitChecks(old(submissions), submissionId, req).Success? && createOk ==>
        var k := SubmitChecks(old(submissions), submissionId, req).value;
        var doc := ResultDoc(newId, userId, submissionId, req.taskId, req.methodId, None);
        var ids := old(submissions)[k].results + [newId];
        && results == old(results) + [doc]
        && submissions == old(submissions)[k := old(submissions)[k].(results := ids)]
        && r == Success(PopulatedSubmission(submissionId, Filter(Populate(ids, results), IsLive)))
    {
      var checked := SubmitChecks(submissions, submissionId, req);
      if checked.Failure? {
        return Failure(checked.error);
      }
      if !createOk {
        return Failure(createError);
      }
      var k := checked.value;
      var doc := ResultDoc(newId, userId, submissionId, req.taskId, req.methodId, None);
      results := results + [doc];
      var submission := submissions[k];
      submission := submission.(results := submission.results + [newId]);
      submissions := submissions[k := submission];
      var populated := Populate(submission.results, results);
      var live := RemoveDeleted(populated);
      return Success(PopulatedSubmission(submissionId, live));
    }

    /** `delete`: a missing or already deleted result is refused; otherwise it is marked deleted at `now`. */
    method Delete(resultId: Key, now: int) returns (r: Result<ResultDoc>)
      modifies this
      ensures FindResult(old(results), resultId).None? ==> r == Failure(ResultNotFound) && unchanged(this)
      ensures FindResult(old(results), resultId).Some? ==>
        var k := FindResult(old(results), resultId).value;
        if IsDeleted(old(results)[k]) then r == Failure(ResultNotFound) && unchanged(this)
        else
          var d := old(results)[k].(deletedDate := Some(now));
          r == Success(d) && results == old(results)[k := d] && submissions == old(submissions)
    {
      var found := FindResult(results, resultId);
      if found.None? {
        return Failure(ResultNotFound);
      }
      var k := found.value;
      var result := results[k];
      if IsDeleted(result) {
        return Failure(ResultNotFound);
      }
      result := result.(deletedDate := Some(now));
      results := results[k := result];
      return Success(result);
    }
  }

  /** The new result is live, so it is in the list `submit` returns. */
  lemma SubmittedResultReturned(ids: seq<Key>, results: seq<ResultDoc>, doc: ResultDoc)
    requires FindResult(results, doc.id).None? && IsLive(doc)
    ensures doc in Filter(Populate(ids + [doc.id], results + [doc]), IsLive)
  {
    var after := results + [doc];
    FindResultAppended(results, doc);
    PopulateAppend(ids, doc.id, after);
    assert doc in Populate(ids + [doc.id], after);
    FilterKeeps(Populate(ids + [doc.id], after), IsLive, doc);
  }

  /** A document appended under a fresh id is found at the end. */
  lemma {:induction false} FindResultAppended(results: seq<ResultDoc>, doc: ResultDoc)
    requires FindResult(results, doc.id).None?
    ensures FindResult(results + [doc], doc.id) == Some(|results|)
    decreases |results|
  {
    if results != [] {
      assert (results + [doc])[1..] == results[1..] + [doc];
      FindResultAppended(results[1..], doc);
    }
  }

  /** A second `delete` of a result finds it deleted. */
  lemma {:induction false} SecondDeleteRefused(results: seq<ResultDoc>, id: Key, now: int)
    requires FindResult(results, id).Some?
    ensures var k := FindResult(results, id).value;
      var after := results[k := results[k].(deletedDate := Some(now))];
      FindResult(after, id) == Some(k) && IsDeleted(after[k])
    decreases |results|
  {
    var k := FindResult(results, id).value;
    if k > 0 {
      var after := results[k := results[k].(deletedDate := Some(now))];
      assert after[1..] == results[1..][k - 1 := results[k].(deletedDate := Some(now))];
      SecondDeleteRefused(results[1..], id, now);
    }
  }
}
