/**
 * The operations of `PlatformService` (metriq-api/service/platformService.js)
 * that read and change the category store: `populate`, `submit`, `update`,
 * `subscribe` and `addOrRemovePlatformSubmission`.
 */
module PlatformServices {
  import opened Wrappers
  import opened Seqs
  import Text
  import opened Categories

  const PlatformNotFound := "Platform not found."
  const UserNotFound := "User not found."
  const SubmissionNotFound := "Submission not found."
  const NameInUse := "Platform name already in use."
  const ParentNotFound := "Parent platform ID does not exist."
  const CollectionRefNotFound := "Submission reference in Platform collection not found."
  const RefHasResults := "Cannot delete submission platform reference with result. Change or delete results in the submission that use this platform, first."

  /** JavaScript truthiness of an optional numeric id: present and not 0. */
  predicate Truthy(x: Option<Id>) {
    x.Some? && x.value != 0
  }

  // ---------------------------------------------------------------------------
  // populate
  // ---------------------------------------------------------------------------

  /** The three rolled-up totals `populate` attaches to a category. */
  datatype Counts = Counts(submissionCount: nat, upvoteTotal: nat, resultCount: nat)

  /** A row of a top-level listing (`id, name, description, url`), with the fields `populate` adds. */
  datatype Listing = Listing(id: Id, name: string, description: string, url: Option<string>, counts: Option<Counts>, isSubscribed: Option<bool>)

  /** Which totals to attach: the three queries as written, or counts over live rows only. */
  datatype Tally = AsWritten | LiveRows

  /** The totals of category `id` under `tally`. */
  function CountsOf(s: Store, tally: Tally, id: Id): Counts {
    match tally
    case AsWritten => Counts(SubmissionRowCount(s, id), LikeRowCount(s, id), ResultRowCount(s, id))
    case LiveRows => Counts(LiveSubmissionCount(s, id), LiveLikeCount(s, id), LiveResultCount(s, id))
  }

  /**
   * As written the submission total is at least 1; the live one is zero
   * exactly when nothing live is filed anywhere in the category's closure.
   */
  lemma CountsOfBounds(s: Store, tally: Tally, id: Id)
    ensures tally == AsWritten ==> CountsOf(s, tally, id).submissionCount >= 1
    ensures tally == LiveRows ==>
      (CountsOf(s, tally, id).submissionCount == 0 <==> forall p :: p in LiveRefPlatforms(s.refs) ==> p !in Closure(s, id))
  {
    match tally
    case AsWritten => SubmissionRowCountPositive(s, id);
    case LiveRows => LiveSubmissionCountZero(s, id);
  }

  /** One row of the first loop: the row with its category's counts attached. */
  function Annotated(s: Store, tally: Tally, l: Listing): Listing {
    l.(counts := Some(CountsOf(s, tally, l.id)))
  }

  /** Every row with its totals attached, in input order. */
  function AnnotateAll(s: Store, tally: Tally, rows: seq<Listing>): (r: seq<Listing>)
    ensures |r| == |rows|
    ensures forall k :: 0 <= k < |r| ==> r[k] == Annotated(s, tally, rows[k])
  {
    seq(|rows|, k requires 0 <= k < |rows| => Annotated(s, tally, rows[k]))
  }

  /**
   * The first loop of `populate`: each row, in place, gets the totals the
   * three count queries give for its category (`counts`); nothing else changes.
   */
  method AttachCounts(result: seq<Listing>, counts: Id -> Counts) returns (rows: seq<Listing>)
    ensures |rows| == |result|
    ensures forall k :: 0 <= k < |rows| ==> rows[k] == result[k].(counts := Some(counts(result[k].id)))
  {
    rows := result;
    var i := 0;
    while i < |rows|
      invariant 0 <= i <= |rows| == |result|
      invariant forall k :: 0 <= k < i ==> rows[k] == result[k].(counts := Some(counts(result[k].id)))
      invariant forall k :: i <= k < |rows| ==> rows[k] == result[k]
    {
      rows := rows[i := rows[i].(counts := Some(counts(rows[i].id)))];
      i := i + 1;
    }
  }

  /** Rows carrying their own category's totals are the annotated rows. */
  lemma AttachedIsAnnotated(s: Store, tally: Tally, result: seq<Listing>, rows: seq<Listing>)
    requires |rows| == |result|
    requires forall k :: 0 <= k < |rows| ==> rows[k] == result[k].(counts := Some(CountsOf(s, tally, result[k].id)))
    ensures rows == AnnotateAll(s, tally, result)
  {
    var a := AnnotateAll(s, tally, result);
    forall k | 0 <= k < |rows| ensures rows[k] == a[k] {
      assert a[k] == Annotated(s, tally, result[k]);
    }
  }

  predicate HasSubmissions(l: Listing) {
    l.counts.Some? && l.counts.value.submissionCount > 0
  }

  /** The first two loops of `populate`: annotate every row, then keep those with a positive submission count. */
  function Listed(s: Store, tally: Tally, rows: seq<Listing>): seq<Listing> {
    Filter(AnnotateAll(s, tally, rows), HasSubmissions)
  }

  /** The third loop of `populate`: with a truthy user id, flag each row with whether that user subscribes to it. */
  function MarkSubscribed(s: Store, rows: seq<Listing>, userId: Option<Id>): (r: seq<Listing>)
    ensures |r| == |rows|
    ensures Truthy(userId) ==> forall k :: 0 <= k < |r| ==>
      r[k] == rows[k].(isSubscribed := Some(Subscription(userId.value, rows[k].id) in s.subscriptions))
    ensures !Truthy(userId) ==> r == rows
  {
    if Truthy(userId) then
      seq(|rows|, k requires 0 <= k < |rows| => rows[k].(isSubscribed := Some(Subscription(userId.value, rows[k].id) in s.subscriptions)))
    else rows
  }

  lemma AnnotateAllConcat(s: Store, tally: Tally, a: seq<Listing>, b: seq<Listing>)
    ensures AnnotateAll(s, tally, a + b) == AnnotateAll(s, tally, a) + AnnotateAll(s, tally, b)
  {
  }

  /**
   * The listing holds exactly the input rows whose submission count is
   * positive, each carrying its three totals.
   */
  lemma ListedExactly(s: Store, tally: Tally, rows: seq<Listing>, x: Listing)
    ensures x in Listed(s, tally, rows) <==>
      exists k :: 0 <= k < |rows| && x == rows[k].(counts := Some(CountsOf(s, tally, rows[k].id))) && CountsOf(s, tally, rows[k].id).submissionCount > 0
  {
    if x in Listed(s, tally, rows) {
      ListedIsAnnotated(s, tally, rows, x);
    }
    if exists k :: 0 <= k < |rows| && x == rows[k].(counts := Some(CountsOf(s, tally, rows[k].id))) && CountsOf(s, tally, rows[k].id).submissionCount > 0 {
      var k :| 0 <= k < |rows| && x == rows[k].(counts := Some(CountsOf(s, tally, rows[k].id))) && CountsOf(s, tally, rows[k].id).submissionCount > 0;
      AnnotatedIsListed(s, tally, rows, k);
    }
  }

  /** A listed row is an input row with its totals attached. */
  lemma ListedIsAnnotated(s: Store, tally: Tally, rows: seq<Listing>, x: Listing)
    requires x in Listed(s, tally, rows)
    ensures exists k :: 0 <= k < |rows| && x == rows[k].(counts := Some(CountsOf(s, tally, rows[k].id))) && CountsOf(s, tally, rows[k].id).submissionCount > 0
  {
    var a := AnnotateAll(s, tally, rows);
    var k :| 0 <= k < |a| && a[k] == x;
    assert x == rows[k].(counts := Some(CountsOf(s, tally, rows[k].id)));
  }

  /** An input row whose submission total is positive is listed, with its totals attached. */
  lemma AnnotatedIsListed(s: Store, tally: Tally, rows: seq<Listing>, k: nat)
    requires k < |rows| && CountsOf(s, tally, rows[k].id).submissionCount > 0
    ensures rows[k].(counts := Some(CountsOf(s, tally, rows[k].id))) in Listed(s, tally, rows)
  {
    var a := AnnotateAll(s, tally, rows);
    assert a[k] == rows[k].(counts := Some(CountsOf(s, tally, rows[k].id)));
    FilterKeeps(a, HasSubmissions, a[k]);
  }

  /** The listing keeps input order: listing two runs of rows is listing each and concatenating. */
  lemma ListedConcat(s: Store, tally: Tally, a: seq<Listing>, b: seq<Listing>)
    ensures Listed(s, tally, a + b) == Listed(s, tally, a) + Listed(s, tally, b)
  {
    AnnotateAllConcat(s, tally, a, b);
    FilterConcat(AnnotateAll(s, tally, a), AnnotateAll(s, tally, b), HasSubmissions);
  }

  /** With the totals as written every category passes the filter, so `populate` drops nothing. */
  lemma AsWrittenListsEveryRow(s: Store, rows: seq<Listing>)
    ensures Listed(s, AsWritten, rows) == AnnotateAll(s, AsWritten, rows)
  {
    forall k | 0 <= k < |rows| {
      CountsOfBounds(s, AsWritten, rows[k].id);
    }
    FilterAll(AnnotateAll(s, AsWritten, rows), HasSubmissions);
  }

  /** With live totals, a category with nothing filed anywhere below it is dropped. */
  lemma EmptyCategoryNotListed(s: Store, rows: seq<Listing>, x: Listing)
    requires forall p :: p in LiveRefPlatforms(s.refs) ==> p !in Closure(s, x.id)
    ensures x.(counts := Some(CountsOf(s, LiveRows, x.id))) !in Listed(s, LiveRows, rows)
  {
    CountsOfBounds(s, LiveRows, x.id);
    ListedExactly(s, LiveRows, rows, x.(counts := Some(CountsOf(s, LiveRows, x.id))));
  }

  // ---------------------------------------------------------------------------
  // Store updates shared by submit and addOrRemovePlatformSubmission
  // ---------------------------------------------------------------------------

  predicate RefersTo(r: SubmissionRef, submissionId: Id, platformId: Id) {
    IsLive(r) && r.submissionId == submissionId && r.platformId == platformId
  }

  /** `submissionPlatformRefService.getByFks`: the first live ref filing the submission under the platform. */
  function FindRef(refs: seq<SubmissionRef>, submissionId: Id, platformId: Id): (r: Option<nat>)
    ensures r.Some? ==> r.value < |refs| && RefersTo(refs[r.value], submissionId, platformId)
    ensures r.Some? ==> forall k :: 0 <= k < r.value ==> !RefersTo(refs[k], submissionId, platformId)
    ensures r.None? ==> forall k :: 0 <= k < |refs| ==> !RefersTo(refs[k], submissionId, platformId)
    decreases |refs|
  {
    if refs == [] then None
    else if RefersTo(refs[0], submissionId, platformId) then Some(0)
    else match FindRef(refs[1..], submissionId, platformId)
      case None => None
      case Some(k) => Some(k + 1)
  }

  /** A ref id no ref uses yet. */
  function NextRefId(refs: seq<SubmissionRef>): (n: Id)
    ensures n >= 1
    ensures forall k :: 0 <= k < |refs| ==> refs[k].id < n
    decreases |refs|
  {
    if refs == [] then 1
    else var m := NextRefId(refs[1..]); if refs[0].id < m then m else refs[0].id + 1
  }

  /** `submissionPlatformRefService.createOrFetch`: keep the live ref if there is one, else add one. */
  function CreateOrFetch(refs: seq<SubmissionRef>, submissionId: Id, userId: Id, platformId: Id): seq<SubmissionRef> {
    if FindRef(refs, submissionId, platformId).Some? then refs
    else refs + [SubmissionRef(NextRefId(refs), submissionId, platformId, userId, None)]
  }

  /** After `createOrFetch` the submission is filed under the platform, by a ref that did not exist or by the one that did. */
  lemma CreateOrFetchFiles(refs: seq<SubmissionRef>, submissionId: Id, userId: Id, platformId: Id)
    ensures FindRef(CreateOrFetch(refs, submissionId, userId, platformId), submissionId, platformId).Some?
    ensures refs <= CreateOrFetch(refs, submissionId, userId, platformId)
  {
    var r := CreateOrFetch(refs, submissionId, userId, platformId);
    if FindRef(refs, submissionId, platformId).None? {
      assert RefersTo(r[|refs|], submissionId, platformId);
    }
  }

  /** Fetching again finds what the first call filed: `createOrFetch` is idempotent. */
  lemma CreateOrFetchIdempotent(refs: seq<SubmissionRef>, submissionId: Id, userId: Id, platformId: Id)
    ensures var once := CreateOrFetch(refs, submissionId, userId, platformId);
            CreateOrFetch(once, submissionId, userId, platformId) == once
  {
    CreateOrFetchFiles(refs, submissionId, userId, platformId);
  }

  /** A live ref filed under a category makes its live submission count, and every ancestor's, positive. */
  lemma FiledMeansCounted(s: Store, submissionId: Id, platformId: Id, ancestor: Id)
    requires FindRef(s.refs, submissionId, platformId).Some?
    requires platformId in Closure(s, ancestor)
    ensures CountsOf(s, LiveRows, ancestor).submissionCount >= 1
  {
    var k := FindRef(s.refs, submissionId, platformId).value;
    LiveRefPlatformsHas(s.refs, k);
    CountsOfBounds(s, LiveRows, ancestor);
  }

  lemma {:induction false} LiveRefPlatformsHas(refs: seq<SubmissionRef>, k: nat)
    requires k < |refs| && IsLive(refs[k])
    ensures refs[k].platformId in LiveRefPlatforms(refs)
    decreases |refs|
  {
    if k > 0 {
      LiveRefPlatformsHas(refs[1..], k - 1);
    }
  }

  /** The results a removal must not orphan: live results attributed to a ref of this submission on this platform. */
  predicate HasResults(s: Store, platformId: Id, submissionId: Id) {
    exists i, j :: 0 <= i < |s.results| && 0 <= j < |s.refs| &&
      s.results[i].deletedAt.None? && s.results[i].submissionPlatformRefId == Some(s.refs[j].id) &&
      s.refs[j].submissionId == submissionId && s.refs[j].platformId == platformId
  }

  /** `deleteByPk` on a paranoid table: the row stays, marked deleted at `now`. */
  function SoftDeleteRef(refs: seq<SubmissionRef>, k: nat, now: int): (r: seq<SubmissionRef>)
    requires k < |refs|
    ensures |r| == |refs| && !IsLive(r[k])
    ensures forall j :: 0 <= j < |refs| && j != k ==> r[j] == refs[j]
  {
    refs[k := refs[k].(deletedAt := Some(now))]
  }

  // ---------------------------------------------------------------------------
  // update
  // ---------------------------------------------------------------------------

  /** An update-request field: key missing (`undefined`), `null`, or a value. */
  datatype Field<T> = Undefined | Null | Given(value: T)

  /** The request body of `update`; numeric fields are already parsed. */
  datatype UpdateRequest = UpdateRequest(
    name: Option<string>,
    fullName: Option<string>,
    description: Option<string>,
    parentPlatform: Field<int>,
    provider: Field<int>,
    architecture: Field<int>,
    url: Field<string>)

  /** A truthy numeric field. */
  predicate GivenNonZero(f: Field<int>) {
    f.Given? && f.value != 0
  }

  /** The parent a platform gets when `parentPlatform` is sent: the requested one, unless falsy or the platform itself. */
  function NewParent(id: Id, f: Field<int>): Option<Id> {
    if GivenNonZero(f) && f.value != id then Some(f.value) else None
  }

  /** A truthy id, or `null`. */
  function OptionalId(f: Field<int>): Option<Id> {
    if GivenNonZero(f) then Some(f.value) else None
  }

  /** The fields of platform `id` after `update` applies `req`, each one only when its key is sent. */
  function Updated(id: Id, p: Platform, req: UpdateRequest): Platform {
    p.(name := if req.name.Some? then Text.Trim(req.name.value) else p.name,
       fullName := if req.fullName.Some? then Text.Trim(req.fullName.value) else p.fullName,
       description := if req.description.Some? then Text.Trim(req.description.value) else p.description,
       parent := if req.parentPlatform.Undefined? then p.parent else NewParent(id, req.parentPlatform),
       providerId := if req.provider.Undefined? then p.providerId else OptionalId(req.provider),
       architectureId := if req.architecture.Undefined? then p.architectureId else OptionalId(req.architecture),
       url := match req.url case Undefined => p.url case Null => None case Given(u) => Some(u))
  }

  /** The text fields `update` sets, each trimmed and only when its key is sent. */
  method UpdateText(p: Platform, req: UpdateRequest) returns (q: Platform)
    ensures q == p.(name := Updated(0, p, req).name, fullName := Updated(0, p, req).fullName,
                    description := Updated(0, p, req).description)
  {
    q := p;
    if req.name.Some? {
      q := q.(name := Text.Trim(req.name.value));
    }
    if req.fullName.Some? {
      q := q.(fullName := Text.Trim(req.fullName.value));
    }
    if req.description.Some? {
      q := q.(description := Text.Trim(req.description.value));
    }
  }

  /** The parent and provider fields `update` sets, each only when its key is sent. */
  method UpdateParentProvider(id: Id, p: Platform, req: UpdateRequest) returns (q: Platform)
    ensures q == p.(parent := Updated(id, p, req).parent, providerId := Updated(id, p, req).providerId)
  {
    q := p;
    if !req.parentPlatform.Undefined? {
      var parent := if GivenNonZero(req.parentPlatform) && req.parentPlatform.value != id then Some(req.parentPlatform.value) else None;
      q := q.(parent := parent);
    }
    if !req.provider.Undefined? {
      q := q.(providerId := if GivenNonZero(req.provider) then Some(req.provider.value) else None);
    }
  }

  /** The architecture and url fields `update` sets, each only when its key is sent. */
  method UpdateArchitectureUrl(p: Platform, req: UpdateRequest) returns (q: Platform)
    ensures q == p.(architectureId := Updated(0, p, req).architectureId, url := Updated(0, p, req).url)
  {
    q := p;
    if !req.architecture.Undefined? {
      q := q.(architectureId := if GivenNonZero(req.architecture) then Some(req.architecture.value) else None);
    }
    match req.url {
      case Undefined =>
      case Null => q := q.(url := None);
      case Given(u) => q := q.(url := Some(u));
    }
  }

  /** Whatever `parentPlatform` says, an update that sends it never makes a platform its own parent. */
  lemma UpdateNeverSelfParent(id: Id, p: Platform, req: UpdateRequest)
    requires !req.parentPlatform.Undefined? || p.parent != Some(id)
    ensures Updated(id, p, req).parent != Some(id)
  {
  }

  /** A key the request does not send leaves its field as it was; the owner, and the data-set flag, never change. */
  lemma UpdateKeepsUnsent(id: Id, p: Platform, req: UpdateRequest)
    ensures var q := Updated(id, p, req);
      && (req.name.None? ==> q.name == p.name)
      && (req.fullName.None? ==> q.fullName == p.fullName)
      && (req.description.None? ==> q.description == p.description)
      && (req.parentPlatform.Undefined? ==> q.parent == p.parent)
      && (req.provider.Undefined? ==> q.providerId == p.providerId)
      && (req.architecture.Undefined? ==> q.architectureId == p.architectureId)
      && (req.url.Undefined? ==> q.url == p.url)
      && q.userId == p.userId && q.isDataSet == p.isDataSet
  {
  }

  /** Sent text fields are stored trimmed. */
  lemma UpdateTrims(id: Id, p: Platform, req: UpdateRequest)
    requires req.name.Some?
    ensures Text.Trimmed(Updated(id, p, req).name)
  {
  }

  /**
   * Only direct self-parenting is refused: a platform can be given its own
   * child as parent, closing a loop in the tree.
   */
  lemma UpdateCanCloseLoop()
    ensures var q := Platform("a", "", "", None, None, None, false, None, 1);
            var c := q.(parent := Some(1));
            var s := map[1 := q, 2 := c];
            var req := UpdateRequest(None, None, None, Given(2), Undefined, Undefined, Undefined);
            Acyclic(s) && !Acyclic(s[1 := Updated(1, q, req)])
  {
    var q := Platform("a", "", "", None, None, None, false, None, 1);
    var c := q.(parent := Some(1));
    var s := map[1 := q, 2 := c];
    var req := UpdateRequest(None, None, None, Given(2), Undefined, Undefined, Undefined);
    var t := s[1 := Updated(1, q, req)];
    assert s.Keys == {1, 2};
    assert Ancestor(s, 1, 3) == None;
    assert Ancestor(s, 2, 3) == None;
    assert t.Keys == {1, 2};
    assert Ancestor(t, 1, 3) == Some(2);
  }

  // ---------------------------------------------------------------------------
  // submit
  // ---------------------------------------------------------------------------

  /** The request body of `submit`; `submissions` is the comma-separated list of submission ids. */
  datatype SubmitRequest = SubmitRequest(
    name: string,
    fullName: string,
    description: string,
    parentPlatform: Field<int>,
    architecture: Field<int>,
    provider: Field<int>,
    isDataSet: Field<bool>,
    url: Field<string>,
    submissions: Option<string>)

  /** `getByName`: an exact match on the stored name. */
  predicate NameTaken(platforms: map<Id, Platform>, name: string) {
    exists id :: id in platforms && platforms[id].name == name
  }

  /** The platform row `submit` creates. */
  function NewPlatform(userId: Id, req: SubmitRequest): Platform {
    Platform(req.name, req.fullName, req.description,
             OptionalId(req.parentPlatform),
             match req.architecture case Given(a) => Some(a) case _ => None,
             match req.provider case Given(p) => Some(p) case _ => None,
             match req.isDataSet case Given(b) => b case _ => false,
             match req.url case Given(u) => Some(u) case Null => Some("") case Undefined => None,
             userId)
  }

  /**
   * The submission-list loop of `submit`, run over `pieces` against the refs
   * so far: blank pieces are skipped, and the first piece that names no
   * submission stops the loop with `false`, keeping the refs filed before it.
   */
  function Linked(submissions: seq<Id>, refs: seq<SubmissionRef>, pieces: seq<string>, userId: Id, platformId: Id): (r: (bool, seq<SubmissionRef>))
    decreases |pieces|
  {
    if pieces == [] then (true, refs)
    else
      var prev := Linked(submissions, refs, pieces[..|pieces| - 1], userId, platformId);
      var t := Text.Trim(pieces[|pieces| - 1]);
      if !prev.0 || t == [] then prev
      else
        var n := Text.ParseInt(t);
        if n.None? || n.value !in submissions then (false, prev.1)
        else (true, CreateOrFetch(prev.1, n.value, userId, platformId))
  }

  /**
   * The loop of `submit` over the submission list: it stops at the first
   * non-blank piece that names no submission and files every piece before it.
   */
  method LinkPieces(submissions: seq<Id>, refs0: seq<SubmissionRef>, pieces: seq<string>, userId: Id, platformId: Id)
    returns (ok: bool, refs: seq<SubmissionRef>)
    ensures (ok, refs) == Linked(submissions, refs0, pieces, userId, platformId)
  {
    refs := refs0;
    var i := 0;
    while i < |pieces|
      invariant 0 <= i <= |pieces|
      invariant Linked(submissions, refs0, pieces[..i], userId, platformId) == (true, refs)
    {
      assert pieces[..i + 1][..i] == pieces[..i];
      var t := Text.Trim(pieces[i]);
      if t != [] {
        var n := Text.ParseInt(t);
        if n.None? || n.value !in submissions {
          LinkedStaysFailed(submissions, refs0, pieces, i + 1, userId, platformId);
          return false, refs;
        }
        refs := CreateOrFetch(refs, n.value, userId, platformId);
      }
      i := i + 1;
    }
    assert pieces[..i] == pieces;
    return true, refs;
  }

  /** Once the loop has failed, later pieces change nothing. */
  lemma {:induction false} LinkedStaysFailed(submissions: seq<Id>, refs: seq<SubmissionRef>, pieces: seq<string>, i: nat, userId: Id, platformId: Id)
    requires i <= |pieces| && !Linked(submissions, refs, pieces[..i], userId, platformId).0
    ensures Linked(submissions, refs, pieces, userId, platformId) == Linked(submissions, refs, pieces[..i], userId, platformId)
    decreases |pieces| - i
  {
    if i < |pieces| {
      var longer := pieces[..i + 1];
      assert longer[..|longer| - 1] == pieces[..i];
      assert Linked(submissions, refs, longer, userId, platformId) == Linked(submissions, refs, pieces[..i], userId, platformId);
      LinkedStaysFailed(submissions, refs, pieces, i + 1, userId, platformId);
    } else {
      assert pieces[..i] == pieces;
    }
  }

  /**
   * When the loop succeeds, every non-blank piece parsed to an existing
   * submission, and that submission is now filed under the platform.
   */
  lemma {:induction false} LinkedFilesEveryPiece(submissions: seq<Id>, refs: seq<SubmissionRef>, pieces: seq<string>, userId: Id, platformId: Id, k: nat)
    requires Linked(submissions, refs, pieces, userId, platformId).0
    requires k < |pieces| && Text.Trim(pieces[k]) != []
    ensures var n := Text.ParseInt(Text.Trim(pieces[k]));
            n.Some? && n.value in submissions &&
            FindRef(Linked(submissions, refs, pieces, userId, platformId).1, n.value, platformId).Some?
    decreases |pieces|
  {
    var init := pieces[..|pieces| - 1];
    var prev := Linked(submissions, refs, init, userId, platformId);
    var t := Text.Trim(pieces[|pieces| - 1]);
    if k == |pieces| - 1 {
      CreateOrFetchFiles(prev.1, Text.ParseInt(t).value, userId, platformId);
    } else {
      assert init[k] == pieces[k];
      LinkedFilesEveryPiece(submissions, refs, init, userId, platformId, k);
      if t != [] {
        var n := Text.ParseInt(t).value;
        var m := Text.ParseInt(Text.Trim(pieces[k])).value;
        CreateOrFetchKeeps(prev.1, n, userId, platformId, m);
      }
    }
  }

  /** `createOrFetch` keeps every ref already filed. */
  lemma CreateOrFetchKeeps(refs: seq<SubmissionRef>, submissionId: Id, userId: Id, platformId: Id, other: Id)
    requires FindRef(refs, other, platformId).Some?
    ensures FindRef(CreateOrFetch(refs, submissionId, userId, platformId), other, platformId).Some?
  {
    var r := CreateOrFetch(refs, submissionId, userId, platformId);
    var k := FindRef(refs, other, platformId).value;
    CreateOrFetchFiles(refs, submissionId, userId, platformId);
    assert r[k] == refs[k];
  }

  /** The loop only ever adds refs. */
  lemma {:induction false} LinkedExtends(submissions: seq<Id>, refs: seq<SubmissionRef>, pieces: seq<string>, userId: Id, platformId: Id)
    ensures refs <= Linked(submissions, refs, pieces, userId, platformId).1
    decreases |pieces|
  {
    if pieces != [] {
      var prev := Linked(submissions, refs, pieces[..|pieces| - 1], userId, platformId);
      LinkedExtends(submissions, refs, pieces[..|pieces| - 1], userId, platformId);
      var t := Text.Trim(pieces[|pieces| - 1]);
      if prev.0 && t != [] {
        var n := Text.ParseInt(t);
        if n.Some? && n.value in submissions {
          CreateOrFetchFiles(prev.1, n.value, userId, platformId);
        }
      }
    }
  }

  /** The pieces of the submissions field, `[]` when it is missing or empty. */
  function Pieces(field: Option<string>): seq<string> {
    if Text.Falsy(field) then [] else Text.Split(field.value, ',')
  }

  // ---------------------------------------------------------------------------
  // subscribe
  // ---------------------------------------------------------------------------

  /** Delete the subscription if it exists, else create it. */
  function Toggled(subs: set<Subscription>, sub: Subscription): (r: set<Subscription>)
    ensures sub in r <==> sub !in subs
    ensures forall t :: t != sub ==> (t in r <==> t in subs)
  {
    if sub in subs then subs - {sub} else subs + {sub}
  }

  /** Subscribing twice restores the subscriptions as they were. */
  lemma ToggledTwice(subs: set<Subscription>, sub: Subscription)
    ensures Toggled(Toggled(subs, sub), sub) == subs
  {
  }

  // ---------------------------------------------------------------------------
  // The service
  // ---------------------------------------------------------------------------

  class PlatformService {
    var db: Store

    constructor (db0: Store)
      ensures db == db0
    {
      db := db0;
    }

    /**
     * `populate`: attach the three totals to each row, keep the rows with
     * submissions, and with a truthy user id flag each kept row with whether
     * that user subscribes to it. With `tally == AsWritten` the totals are
     * those of the three queries as written; `LiveRows` gives the corrected ones.
     */
    method Populate(result: seq<Listing>, userId: Option<Id>, tally: Tally) returns (filtered: seq<Listing>)
      ensures filtered == MarkSubscribed(db, Listed(db, tally, result), userId)
    {
      var s := db;
      var rows := AttachCounts(result, id => CountsOf(s, tally, id));
      AttachedIsAnnotated(s, tally, result, rows);
      filtered := KeepWithSubmissions(rows);
      if Truthy(userId) {
        filtered := FlagSubscriptions(filtered, userId.value);
      }
    }

    /** The second loop of `populate`. */
    method KeepWithSubmissions(rows: seq<Listing>) returns (filtered: seq<Listing>)
      requires forall k :: 0 <= k < |rows| ==> rows[k].counts.Some?
      ensures filtered == Filter(rows, HasSubmissions)
    {
      filtered := [];
      var i := 0;
      while i < |rows|
        invariant 0 <= i <= |rows|
        invariant filtered == Filter(rows[..i], HasSubmissions)
      {
        FilterConcat(rows[..i], [rows[i]], HasSubmissions);
        assert rows[..i + 1] == rows[..i] + [rows[i]];
        if rows[i].counts.value.submissionCount > 0 {
          filtered := filtered + [rows[i]];
        }
        i := i + 1;
      }
      assert rows[..i] == rows;
    }

    /** The third loop of `populate`. */
    method FlagSubscriptions(listed: seq<Listing>, userId: Id) returns (filtered: seq<Listing>)
      requires userId != 0
      ensures filtered == MarkSubscribed(db, listed, Some(userId))
    {
      filtered := listed;
      var i := 0;
      while i < |filtered|
        invariant 0 <= i <= |filtered| == |listed|
        invariant forall k :: 0 <= k < i ==> filtered[k] == listed[k].(isSubscribed := Some(Subscription(userId, listed[k].id) in db.subscriptions))
        invariant forall k :: i <= k < |filtered| ==> filtered[k] == listed[k]
      {
        var subscribed := Subscription(userId, filtered[i].id) in db.subscriptions;
        filtered := filtered[i := filtered[i].(isSubscribed := Some(subscribed))];
        i := i + 1;
      }
    }

    /**
     * `submit`: refuse a taken name and a missing parent, then create the
     * platform under `id`, the key the database assigns, and file the listed
     * submissions under it.
     */
    method Submit(userId: Id, req: SubmitRequest, id: Id) returns (r: Result<Id>)
      requires id !in db.platforms
      modifies this
      ensures NameTaken(old(db.platforms), req.name) ==> r == Failure(NameInUse) && db == old(db)
      ensures !NameTaken(old(db.platforms), req.name) && GivenNonZero(req.parentPlatform) && req.parentPlatform.value !in old(db.platforms) ==>
        r == Failure(ParentNotFound) && db == old(db)
      ensures !NameTaken(old(db.platforms), req.name) && (GivenNonZero(req.parentPlatform) ==> req.parentPlatform.value in old(db.platforms)) ==>
        var linked := Linked(old(db.submissions), old(db.refs), Pieces(req.submissions), userId, id);
        && db == old(db).(platforms := old(db.platforms)[id := NewPlatform(userId, req)], refs := linked.1)
        && r == (if linked.0 then Success(id) else Failure(CollectionRefNotFound))
    {
      if NameTaken(db.platforms, req.name) {
        return Failure(NameInUse);
      }
      var platform := NewPlatform(userId, req);
      if GivenNonZero(req.parentPlatform) && req.parentPlatform.value !in db.platforms {
        return Failure(ParentNotFound);
      }
      db := db.(platforms := db.platforms[id := platform]);
      var ok, refs := LinkPieces(db.submissions, db.refs, Pieces(req.submissions), userId, id);
      db := db.(refs := refs);
      r := if ok then Success(id) else Failure(CollectionRefNotFound);
    }

    /** `update`: each field whose key is sent is replaced, then the platform is saved. */
    method Update(platformId: Id, req: UpdateRequest) returns (r: Result<Platform>)
      modifies this
      ensures platformId !in old(db.platforms) ==> r == Failure(PlatformNotFound) && db == old(db)
      ensures platformId in old(db.platforms) ==>
        var p := Updated(platformId, old(db.platforms)[platformId], req);
        r == Success(p) && db == old(db).(platforms := old(db.platforms)[platformId := p])
    {
      if platformId !in db.platforms {
        return Failure(PlatformNotFound);
      }
      var platform := UpdateText(db.platforms[platformId], req);
      platform := UpdateParentProvider(platformId, platform, req);
      platform := UpdateArchitectureUrl(platform, req);
      db := db.(platforms := db.platforms[platformId := platform]);
      return Success(platform);
    }

    /** `subscribe`: after both lookups succeed, delete the user's subscription if it exists, else create it. */
    method Subscribe(platformId: Id, userId: Id) returns (r: Result<Platform>)
      modifies this
      ensures platformId !in old(db.platforms) ==> r == Failure(PlatformNotFound) && db == old(db)
      ensures platformId in old(db.platforms) && userId !in old(db.users) ==> r == Failure(UserNotFound) && db == old(db)
      ensures platformId in old(db.platforms) && userId in old(db.users) ==>
        r == Success(old(db.platforms)[platformId]) &&
        db == old(db).(subscriptions := Toggled(old(db.subscriptions), Subscription(userId, platformId)))
    {
      if platformId !in db.platforms {
        return Failure(PlatformNotFound);
      }
      if userId !in db.users {
        return Failure(UserNotFound);
      }
      var sub := Subscription(userId, platformId);
      if sub in db.subscriptions {
        db := db.(subscriptions := db.subscriptions - {sub});
      } else {
        db := db.(subscriptions := db.subscriptions + {sub});
      }
      return Success(db.platforms[platformId]);
    }

    /**
     * `addOrRemovePlatformSubmission`: file the submission under the
     * platform, or remove the filing unless results still use it; `now` is
     * the deletion time the database would stamp.
     */
    method AddOrRemovePlatformSubmission(isAdd: bool, platformId: Id, submissionId: Id, userId: Id, now: int) returns (r: Result<Id>)
      modifies this
      ensures platformId !in old(db.platforms) ==> r == Failure(PlatformNotFound) && db == old(db)
      ensures platformId in old(db.platforms) && submissionId !in old(db.submissions) ==> r == Failure(SubmissionNotFound) && db == old(db)
      ensures platformId in old(db.platforms) && submissionId in old(db.submissions) && isAdd ==>
        r == Success(submissionId) && db == old(db).(refs := CreateOrFetch(old(db.refs), submissionId, userId, platformId))
      ensures platformId in old(db.platforms) && submissionId in old(db.submissions) && !isAdd ==>
        match FindRef(old(db.refs), submissionId, platformId)
        case None => r == Success(submissionId) && db == old(db)
        case Some(k) =>
          if HasResults(old(db), platformId, submissionId) then r == Failure(RefHasResults) && db == old(db)
          else r == Success(submissionId) && db == old(db).(refs := SoftDeleteRef(old(db.refs), k, now))
    {
      if platformId !in db.platforms {
        return Failure(PlatformNotFound);
      }
      if submissionId !in db.submissions {
        return Failure(SubmissionNotFound);
      }
      if isAdd {
        db := db.(refs := CreateOrFetch(db.refs, submissionId, userId, platformId));
      } else {
        var ref := FindRef(db.refs, submissionId, platformId);
        if ref.Some? {
          if HasResults(db, platformId, submissionId) {
            return Failure(RefHasResults);
          }
          db := db.(refs := SoftDeleteRef(db.refs, ref.value, now));
        }
      }
      return Success(submissionId);
    }
  }

  /** A refused removal leaves the filing in place: the ref is still found and still live. */
  lemma RefusedRemovalKeepsRef(s: Store, platformId: Id, submissionId: Id)
    requires FindRef(s.refs, submissionId, platformId).Some? && HasResults(s, platformId, submissionId)
    ensures RefersTo(s.refs[FindRef(s.refs, submissionId, platformId).value], submissionId, platformId)
  {
  }

  /** A removal deletes the ref it found, and leaves every other ref as it was. */
  lemma RemovalDeletesFoundRef(refs: seq<SubmissionRef>, submissionId: Id, platformId: Id, now: int)
    requires FindRef(refs, submissionId, platformId).Some?
    ensures var k := FindRef(refs, submissionId, platformId).value;
            var after := SoftDeleteRef(refs, k, now);
            !IsLive(after[k]) && (forall j :: 0 <= j < |refs| && j != k ==> after[j] == refs[j])
  {
  }
}
