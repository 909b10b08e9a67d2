/**
 * The Postgres `SubmissionService` (metriq-api/service/submissionService.js):
 * name normalisation and submission validation, the ranked listings built by
 * `sqlLike` / `sqlTagLike`, the `upvote` toggle on a submission's `likes`
 * list, the tag-splitting loop of `submit`, and `addOrRemoveTag`.
 */
module SqlSubmissions {
  import opened Wrappers
  import opened Seqs
  import Text
  import opened Ranking

  type Id = int

  /** A `submissions` row; `likes` is the list of user ids that `upvote` edits. */
  datatype Submission = Submission(
    id: Id,
    userId: Id,
    nameNormal: string,
    createdAt: int,
    approvedAt: Option<int>,
    deletedAt: Option<int>,
    likes: seq<Id>)

  /** A `likes` row, the table the listings count. */
  datatype Like = Like(submissionId: Id, userId: Id)

  /** A tag (category label) and the submissions it lists. */
  datatype Tag = Tag(id: Id, name: string, submissions: seq<Id>)

  /** A `submissionTagRefs` row. */
  datatype TagRef = TagRef(id: Id, submissionId: Id, tagId: Id)

  datatype SqlStore = SqlStore(
    submissions: seq<Submission>,
    likes: seq<Like>,
    tags: seq<Tag>,
    tagRefs: seq<TagRef>,
    users: set<Id>)

  const SubmissionNotFound := "Submission not found."
  const UserNotFound := "User not found."
  const NameBlank := "Submission name cannot be blank."
  const ContentUrlBlank := "Submission content URL cannot be blank."
  const NameInUse := "Submission name already in use."
  const DivisionByZero := "division by zero"
  const CategoryNotFound := "Category not found"
  const TagNotFound := "Tag not found."
  /** What `ref.delete()` on a missing ref raises instead of a reply. */
  const NullRefCrash := "TypeError: ref is null"

  // ---------------------------------------------------------------------------
  // Lookups
  // ---------------------------------------------------------------------------

  /** `findByPk`: the position of the submission with this id. */
  function FindSubmission(subs: seq<Submission>, id: Id): (k: Option<nat>)
    ensures k.Some? ==> k.value < |subs| && subs[k.value].id == id
    ensures k.None? ==> forall j :: 0 <= j < |subs| ==> subs[j].id != id
    decreases |subs|
  {
    if subs == [] then None
    else if subs[0].id == id then Some(0)
    else match FindSubmission(subs[1..], id)
      case None => None
      case Some(j) => Some(j + 1)
  }

  /** `getByName`: the first submission whose stored normal name is the normalised `name`. */
  function GetByName(db: SqlStore, name: string): (r: Option<Submission>)
    ensures r.Some? ==> r.value in db.submissions && r.value.nameNormal == Text.Normalize(name)
    ensures r.None? ==> forall s :: s in db.submissions ==> s.nameNormal != Text.Normalize(name)
  {
    FirstNamed(db.submissions, Text.Normalize(name))
  }

  function FirstNamed(subs: seq<Submission>, nameNormal: string): (r: Option<Submission>)
    ensures r.Some? ==> r.value in subs && r.value.nameNormal == nameNormal
    ensures r.None? ==> forall s :: s in subs ==> s.nameNormal != nameNormal
    decreases |subs|
  {
    if subs == [] then None
    else if subs[0].nameNormal == nameNormal then Some(subs[0])
    else FirstNamed(subs[1..], nameNormal)
  }

  /** Names that differ only in letter case or surrounding white space find the same submission. */
  lemma GetByNameCollides(db: SqlStore, name: string, pre: string, post: string)
    requires Text.AllSpace(pre) && Text.AllSpace(post)
    ensures GetByName(db, pre + Text.ToUpper(name) + post) == GetByName(db, name)
  {
    Text.VariantNormalizes(name, pre, post);
  }

  /** Looking up an already normalised name finds what the raw name finds. */
  lemma GetByNameNormalised(db: SqlStore, name: string)
    ensures GetByName(db, Text.Normalize(name)) == GetByName(db, name)
  {
    Text.NormalizeIdempotent(name);
  }

  // ---------------------------------------------------------------------------
  // validateSubmission
  // ---------------------------------------------------------------------------

  /** The fields of a submission request that validation reads. */
  datatype SubmissionRequest = SubmissionRequest(submissionName: Option<string>, submissionContentUrl: Option<string>)

  /** `validateSubmission`: the error of the first failing check, in source order. */
  function ValidateSubmission(db: SqlStore, req: SubmissionRequest): Result<()> {
    if Text.Falsy(req.submissionName) then Failure(NameBlank)
    else if Text.Falsy(req.submissionContentUrl) || Text.Trim(req.submissionContentUrl.value) == [] then Failure(ContentUrlBlank)
    else if Text.Normalize(req.submissionName.value) == [] then Failure(NameBlank)
    else if GetByName(db, Text.Normalize(req.submissionName.value)).Some? then Failure(NameInUse)
    else Success(())
  }

  /** A blank name is reported before anything else; a blank URL before any name check that follows it. */
  lemma ValidateSubmissionOrder(db: SqlStore, req: SubmissionRequest)
    ensures Text.Falsy(req.submissionName) ==> ValidateSubmission(db, req) == Failure(NameBlank)
    ensures !Text.Falsy(req.submissionName) && (req.submissionContentUrl.None? || Text.AllSpace(req.submissionContentUrl.value)) ==>
      ValidateSubmission(db, req) == Failure(ContentUrlBlank)
    ensures !Text.Falsy(req.submissionName) && Text.AllSpace(req.submissionName.value) && ValidateSubmission(db, req) != Failure(ContentUrlBlank) ==>
      ValidateSubmission(db, req) == Failure(NameBlank)
  {
    if req.submissionContentUrl.Some? && Text.AllSpace(req.submissionContentUrl.value) {
      AllSpaceTrimsEmpty(req.submissionContentUrl.value);
    }
    if req.submissionName.Some? && Text.AllSpace(req.submissionName.value) {
      AllSpaceTrimsEmpty(req.submissionName.value);
    }
  }

  lemma AllSpaceTrimsEmpty(s: string)
    requires Text.AllSpace(s)
    ensures Text.Trim(s) == []
  {
    Text.TrimIsInfix(s);
    var i, j :| 0 <= i <= j <= |s| && Text.Trim(s) == s[i..j] && Text.AllSpace(s[..i]) && Text.AllSpace(s[j..]);
  }

  /** Validation succeeds exactly when every check passes: both fields present, neither blank, the name unused. */
  lemma ValidateSubmissionSucceeds(db: SqlStore, req: SubmissionRequest)
    ensures ValidateSubmission(db, req).Success? <==>
      && req.submissionName.Some? && req.submissionContentUrl.Some?
      && Text.Trim(req.submissionContentUrl.value) != []
      && Text.Normalize(req.submissionName.value) != []
      && forall s :: s in db.submissions ==> s.nameNormal != Text.Normalize(req.submissionName.value)
  {
    if ValidateSubmission(db, req).Success? {
      SucceedsOnlyIfUnused(db, req);
    }
    if && req.submissionName.Some? && req.submissionContentUrl.Some?
       && Text.Trim(req.submissionContentUrl.value) != []
       && Text.Normalize(req.submissionName.value) != []
       && forall s :: s in db.submissions ==> s.nameNormal != Text.Normalize(req.submissionName.value)
    {
      UnusedSucceeds(db, req);
    }
  }

  lemma SucceedsOnlyIfUnused(db: SqlStore, req: SubmissionRequest)
    requires ValidateSubmission(db, req).Success?
    ensures req.submissionName.Some? && req.submissionContentUrl.Some?
    ensures Text.Trim(req.submissionContentUrl.value) != [] && Text.Normalize(req.submissionName.value) != []
    ensures forall s :: s in db.submissions ==> s.nameNormal != Text.Normalize(req.submissionName.value)
  {
    SuccessMeansChecksPass(db, req);
    NormalNameLookup(db, req.submissionName.value);
  }

  lemma UnusedSucceeds(db: SqlStore, req: SubmissionRequest)
    requires req.submissionName.Some? && req.submissionContentUrl.Some?
    requires Text.Trim(req.submissionContentUrl.value) != [] && Text.Normalize(req.submissionName.value) != []
    requires forall s :: s in db.submissions ==> s.nameNormal != Text.Normalize(req.submissionName.value)
    ensures ValidateSubmission(db, req).Success?
  {
    var name, url := req.submissionName.value, req.submissionContentUrl.value;
    NonBlankFields(name, url);
    NormalNameLookup(db, name);
    FirstNamedAbsent(db.submissions, Text.Normalize(name));
    ChecksPassSucceed(db, req);
  }

  /** Looking up a name already in normal form searches for that name itself. */
  lemma NormalNameLookup(db: SqlStore, name: string)
    ensures GetByName(db, Text.Normalize(name)) == FirstNamed(db.submissions, Text.Normalize(name))
  {
    Text.NormalizeIdempotent(name);
  }

  lemma FirstNamedAbsent(subs: seq<Submission>, nameNormal: string)
    requires forall s :: s in subs ==> s.nameNormal != nameNormal
    ensures FirstNamed(subs, nameNormal) == None
  {
  }

  lemma ChecksPassSucceed(db: SqlStore, req: SubmissionRequest)
    requires !Text.Falsy(req.submissionName) && !Text.Falsy(req.submissionContentUrl)
    requires Text.Trim(req.submissionContentUrl.value) != [] && Text.Normalize(req.submissionName.value) != []
    requires GetByName(db, Text.Normalize(req.submissionName.value)) == None
    ensures ValidateSubmission(db, req).Success?
  {
  }

  lemma SuccessMeansChecksPass(db: SqlStore, req: SubmissionRequest)
    requires ValidateSubmission(db, req).Success?
    ensures !Text.Falsy(req.submissionName) && !Text.Falsy(req.submissionContentUrl)
    ensures Text.Trim(req.submissionContentUrl.value) != [] && Text.Normalize(req.submissionName.value) != []
    ensures GetByName(db, Text.Normalize(req.submissionName.value)) == None
  {
  }

  lemma EmptyTrimsEmpty()
    ensures Text.Trim("") == [] && Text.Normalize("") == []
  {
  }

  /** A submission stored under the normal form of `name` is what `getByName` finds for it. */
  lemma GetByNameFinds(db: SqlStore, s: Submission, name: string)
    requires s in db.submissions && s.nameNormal == Text.Normalize(name)
    ensures GetByName(db, Text.Normalize(name)).Some?
  {
    Text.NormalizeIdempotent(name);
  }

  lemma NonBlankFields(name: string, url: string)
    requires Text.Normalize(name) != [] && Text.Trim(url) != []
    ensures name != "" && url != ""
  {
    EmptyTrimsEmpty();
  }

  /** A name whose normal form is taken is refused as in use, once the earlier checks pass. */
  lemma ValidateSubmissionRefusesTaken(db: SqlStore, s: Submission, name: string, url: string)
    requires s in db.submissions && s.nameNormal == Text.Normalize(name) && s.nameNormal != []
    requires Text.Trim(url) != []
    ensures ValidateSubmission(db, SubmissionRequest(Some(name), Some(url))) == Failure(NameInUse)
  {
    NonBlankFields(name, url);
    GetByNameFinds(db, s, name);
    RefusesFoundName(db, name, url);
  }

  lemma RefusesFoundName(db: SqlStore, name: string, url: string)
    requires name != "" && url != "" && Text.Trim(url) != [] && Text.Normalize(name) != []
    requires GetByName(db, Text.Normalize(name)).Some?
    ensures ValidateSubmission(db, SubmissionRequest(Some(name), Some(url))) == Failure(NameInUse)
  {
  }

  /** A name already taken in any mix of case and padding is refused as in use. */
  lemma ValidateSubmissionRefusesVariant(db: SqlStore, s: Submission, name: string, pre: string, post: string, url: string)
    requires s in db.submissions && s.nameNormal == Text.Normalize(name) && s.nameNormal != []
    requires Text.AllSpace(pre) && Text.AllSpace(post) && Text.Trim(url) != []
    ensures ValidateSubmission(db, SubmissionRequest(Some(pre + Text.ToUpper(name) + post), Some(url))) == Failure(NameInUse)
  {
    Text.VariantNormalizes(name, pre, post);
    ValidateSubmissionRefusesTaken(db, s, pre + Text.ToUpper(name) + post, url);
  }

  // ---------------------------------------------------------------------------
  // Ranked listings
  // ---------------------------------------------------------------------------

  /** A row of a ranked listing: the submission, `upvotesCount` and `isUpvoted`. */
  datatype Ranked = Ranked(submission: Submission, upvotesCount: nat, isUpvoted: bool)

  /** `COUNT(likes.*)` over the submission's like rows (the NULL row of an unliked submission is not counted). */
  function LikeCount(likes: seq<Like>, submissionId: Id): nat
    decreases |likes|
  {
    if likes == [] then 0 else (if likes[0].submissionId == submissionId then 1 else 0) + LikeCount(likes[1..], submissionId)
  }

  /** `SUM(CASE likes."userId" WHEN userId THEN 1 ELSE 0 END)` over the submission's like rows. */
  function UserLikeSum(likes: seq<Like>, submissionId: Id, userId: Id): nat
    decreases |likes|
  {
    if likes == [] then 0
    else (if likes[0] == Like(submissionId, userId) then 1 else 0) + UserLikeSum(likes[1..], submissionId, userId)
  }

  /** `isUpvoted` holds exactly when the user has a like row for the submission. */
  lemma {:induction false} UserLikeSumPositive(likes: seq<Like>, submissionId: Id, userId: Id)
    ensures UserLikeSum(likes, submissionId, userId) > 0 <==> Like(submissionId, userId) in likes
    decreases |likes|
  {
    if likes != [] {
      UserLikeSumPositive(likes[1..], submissionId, userId);
      assert likes == [likes[0]] + likes[1..];
    }
  }

  /** Every like the user gave is one of the submission's likes. */
  lemma {:induction false} UserLikeSumAtMostCount(likes: seq<Like>, submissionId: Id, userId: Id)
    ensures UserLikeSum(likes, submissionId, userId) <= LikeCount(likes, submissionId)
    decreases |likes|
  {
    if likes != [] {
      UserLikeSumAtMostCount(likes[1..], submissionId, userId);
    }
  }

  /** The `submissionTagRefs` rows joining the submission to the tag. */
  function TagRefCount(refs: seq<TagRef>, submissionId: Id, tagId: Id): nat
    decreases |refs|
  {
    if refs == [] then 0
    else (if refs[0].submissionId == submissionId && refs[0].tagId == tagId then 1 else 0) + TagRefCount(refs[1..], submissionId, tagId)
  }

  predicate Approved(s: Submission) {
    s.approvedAt.Some?
  }

  /** `WHERE submissions."approvedAt" IS NOT NULL`, in store order. */
  function Candidates(db: SqlStore): (r: seq<Submission>)
    ensures forall s :: s in r <==> s in db.submissions && Approved(s)
  {
    var r := Filter(db.submissions, Approved);
    forall s | s in db.submissions && Approved(s) ensures s in r {
      FilterKeeps(db.submissions, Approved, s);
    }
    r
  }

  /** The `sqlTagLike` filter: approved and joined to the tag by at least one ref. */
  function TagCandidates(db: SqlStore, tagId: Id): (r: seq<Submission>)
    ensures forall s :: s in r <==> s in db.submissions && Approved(s) && TagRefCount(db.tagRefs, s.id, tagId) > 0
  {
    var p := (s: Submission) => Approved(s) && TagRefCount(db.tagRefs, s.id, tagId) > 0;
    var r := Filter(db.submissions, p);
    forall s | s in db.submissions && p(s) ensures s in r {
      FilterKeeps(db.submissions, p, s);
    }
    r
  }

  /** The grouped row of `sqlLike` for one submission. */
  function Rank(db: SqlStore, userId: Id, s: Submission): Ranked {
    Ranked(s, LikeCount(db.likes, s.id), UserLikeSum(db.likes, s.id, userId) > 0)
  }

  /**
   * The grouped row of `sqlTagLike`: the `LEFT JOIN` on tag refs repeats
   * each like row once per matching ref before `GROUP BY` counts them.
   */
  function TagRank(db: SqlStore, tagId: Id, userId: Id, s: Submission): Ranked {
    var m := TagRefCount(db.tagRefs, s.id, tagId);
    Ranked(s, LikeCount(db.likes, s.id) * m, UserLikeSum(db.likes, s.id, userId) * m > 0)
  }

  /** A tagged submission's row counts its likes once for each tag ref, and says the same about the user as the untagged row. */
  lemma TagRankCounts(db: SqlStore, tagId: Id, userId: Id, s: Submission)
    requires TagRefCount(db.tagRefs, s.id, tagId) > 0
    ensures TagRank(db, tagId, userId, s).isUpvoted == Rank(db, userId, s).isUpvoted
    ensures TagRank(db, tagId, userId, s).upvotesCount == Rank(db, userId, s).upvotesCount * TagRefCount(db.tagRefs, s.id, tagId)
    ensures TagRefCount(db.tagRefs, s.id, tagId) == 1 ==> TagRank(db, tagId, userId, s) == Rank(db, userId, s)
  {
  }

  function RankAll(db: SqlStore, userId: Id, subs: seq<Submission>): (r: seq<Ranked>)
    ensures |r| == |subs| && forall k :: 0 <= k < |r| ==> r[k] == Rank(db, userId, subs[k])
  {
    seq(|subs|, k requires 0 <= k < |subs| => Rank(db, userId, subs[k]))
  }

  function TagRankAll(db: SqlStore, tagId: Id, userId: Id, subs: seq<Submission>): (r: seq<Ranked>)
    ensures |r| == |subs| && forall k :: 0 <= k < |r| ==> r[k] == TagRank(db, tagId, userId, subs[k])
  {
    seq(|subs|, k requires 0 <= k < |subs| => TagRank(db, tagId, userId, subs[k]))
  }

  /** The two sort columns of the listings. */
  datatype Column = CreatedAt | UpvotesCount

  function KeyOf(c: Column): Ranked -> Score {
    match c
    case CreatedAt => (r: Ranked) => Whole(r.submission.createdAt)
    case UpvotesCount => (r: Ranked) => Whole(r.upvotesCount)
  }

  function ColumnValue(c: Column, r: Ranked): int {
    match c
    case CreatedAt => r.submission.createdAt
    case UpvotesCount => r.upvotesCount
  }

  /**
   * `ORDER BY <column> DESC LIMIT limit OFFSET offset` over grouped rows:
   * at most `limit` rows, drawn from `rows`, descending in the column.
   */
  function OrderedPage(rows: seq<Ranked>, c: Column, limit: nat, offset: nat): (page: seq<Ranked>)
    ensures |page| <= limit
    ensures forall r :: r in page ==> r in rows
    ensures forall i, j :: 0 <= i < j < |page| ==> ColumnValue(c, page[i]) >= ColumnValue(c, page[j])
    ensures page == SqlPage(SortDesc(rows, KeyOf(c)), limit, offset)
  {
    var sorted := SortDesc(rows, KeyOf(c));
    var page := SqlPage(sorted, limit, offset);
    forall r | r in page ensures r in rows {
      assert r in multiset(sorted);
    }
    forall i, j | 0 <= i < j < |page| ensures ColumnValue(c, page[i]) >= ColumnValue(c, page[j]) {
      assert page[i] == sorted[offset + i] && page[j] == sorted[offset + j];
      AtLeastWhole(ColumnValue(c, page[i]), ColumnValue(c, page[j]));
    }
    page
  }

  /** `getLatest` (`c == CreatedAt`) and `getPopular` (`c == UpvotesCount`). */
  function Listing(db: SqlStore, c: Column, offset: nat, limit: nat, userId: Id): (page: seq<Ranked>)
    ensures forall r :: r in page ==> r.submission in db.submissions && Approved(r.submission) && r == Rank(db, userId, r.submission)
    ensures page == OrderedPage(RankAll(db, userId, Candidates(db)), c, limit, offset)
  {
    var rows := RankAll(db, userId, Candidates(db));
    var page := OrderedPage(rows, c, limit, offset);
    forall r | r in page ensures r.submission in db.submissions && Approved(r.submission) && r == Rank(db, userId, r.submission) {
      var k :| 0 <= k < |rows| && rows[k] == r;
      assert Candidates(db)[k] in Candidates(db);
    }
    page
  }

  /** `tagService.getByName`: the first tag with this name. */
  function TagByName(tags: seq<Tag>, name: string): (t: Option<nat>)
    ensures t.Some? ==> t.value < |tags| && tags[t.value].name == name
    ensures t.None? ==> forall k :: 0 <= k < |tags| ==> tags[k].name != name
    decreases |tags|
  {
    if tags == [] then None
    else if tags[0].name == name then Some(0)
    else match TagByName(tags[1..], name)
      case None => None
      case Some(k) => Some(k + 1)
  }

  /** `getLatestByTag` and `getPopularByTag`. */
  function TagListing(db: SqlStore, tagName: string, c: Column, offset: nat, limit: nat, userId: Id): (r: Result<seq<Ranked>>)
    ensures TagByName(db.tags, tagName).None? <==> r == Failure(CategoryNotFound)
    ensures r.Success? ==> var tagId := db.tags[TagByName(db.tags, tagName).value].id;
      forall x :: x in r.value ==> (x.submission in db.submissions && Approved(x.submission) &&
        TagRefCount(db.tagRefs, x.submission.id, tagId) > 0 && x == TagRank(db, tagId, userId, x.submission))
    ensures r.Success? ==> var tagId := db.tags[TagByName(db.tags, tagName).value].id;
      r.value == OrderedPage(TagRankAll(db, tagId, userId, TagCandidates(db, tagId)), c, limit, offset)
  {
    match TagByName(db.tags, tagName)
    case None => Failure(CategoryNotFound)
    case Some(k) =>
      var tagId := db.tags[k].id;
      var rows := TagRankAll(db, tagId, userId, TagCandidates(db, tagId));
      var page := OrderedPage(rows, c, limit, offset);
      assert forall x :: x in page ==> (x.submission in db.submissions && Approved(x.submission) &&
        TagRefCount(db.tagRefs, x.submission.id, tagId) > 0 && x == TagRank(db, tagId, userId, x.submission)) by {
        forall x | x in page ensures x.submission in db.submissions && Approved(x.submission) &&
          TagRefCount(db.tagRefs, x.submission.id, tagId) > 0 && x == TagRank(db, tagId, userId, x.submission) {
          var j :| 0 <= j < |rows| && rows[j] == x;
          assert TagCandidates(db, tagId)[j] in TagCandidates(db, tagId);
        }
      }
      Success(page)
  }

  /**
   * Some candidate was created on `today`, so its day difference
   * `CURRENT_DATE::DATE - "createdAt"::DATE` is zero. `dateOf` stands for
   * the `::DATE` cast, which depends on the session's time zone.
   */
  predicate CreatedOn(cands: seq<Submission>, today: int, dateOf: int -> int) {
    exists s :: s in cands && dateOf(s.createdAt) == today
  }

  /**
   * `getTrending`, the grouped candidate rows before ordering. The trending
   * column divides the like count by the day difference, an integer
   * division that Postgres refuses with "division by zero" for any
   * candidate created today; the whole query then fails. The order itself
   * is not part of this model.
   */
  function TrendingRows(db: SqlStore, userId: Id, today: int, dateOf: int -> int): (r: Result<seq<Ranked>>)
    ensures r.Failure? <==> exists s :: s in db.submissions && Approved(s) && dateOf(s.createdAt) == today
    ensures r.Failure? ==> r.error == DivisionByZero
    ensures r.Success? ==> forall x :: x in r.value <==> exists s :: s in db.submissions && Approved(s) && x == Rank(db, userId, s)
  {
    if CreatedOn(Candidates(db), today, dateOf) then Failure(DivisionByZero)
    else
      var rows := RankAll(db, userId, Candidates(db));
      forall x | x in rows ensures exists s :: s in db.submissions && Approved(s) && x == Rank(db, userId, s) {
        var k :| 0 <= k < |rows| && rows[k] == x;
        assert Candidates(db)[k] in Candidates(db);
      }
      forall s | s in db.submissions && Approved(s) ensures Rank(db, userId, s) in rows {
        var k :| 0 <= k < |Candidates(db)| && Candidates(db)[k] == s;
        assert rows[k] == Rank(db, userId, s);
      }
      Success(rows)
  }

  /** `getTrendingByTag`: the tag lookup, then the grouped tagged candidate rows, with the same division. */
  function TagTrendingRows(db: SqlStore, tagName: string, userId: Id, today: int, dateOf: int -> int): (r: Result<seq<Ranked>>)
    ensures TagByName(db.tags, tagName).None? <==> r == Failure(CategoryNotFound)
    ensures TagByName(db.tags, tagName).Some? ==> var tagId := db.tags[TagByName(db.tags, tagName).value].id;
      (r == Failure(DivisionByZero) <==>
        exists s :: s in db.submissions && Approved(s) && TagRefCount(db.tagRefs, s.id, tagId) > 0 && dateOf(s.createdAt) == today)
    ensures r.Success? ==> |r.value| == |TagCandidates(db, db.tags[TagByName(db.tags, tagName).value].id)|
  {
    match TagByName(db.tags, tagName)
    case None => Failure(CategoryNotFound)
    case Some(k) =>
      var cands := TagCandidates(db, db.tags[k].id);
      if CreatedOn(cands, today, dateOf) then Failure(DivisionByZero)
      else Success(TagRankAll(db, db.tags[k].id, userId, cands))
  }

  /** Successive pages of a listing run down the same ordering: no row on a later page ranks above a row on an earlier one. */
  lemma ListingPagesOrdered(db: SqlStore, c: Column, userId: Id, limit: nat, offset: nat, laterLimit: nat, laterOffset: nat)
    requires offset + limit <= laterOffset
    ensures forall a, b :: a in Listing(db, c, offset, limit, userId) && b in Listing(db, c, laterOffset, laterLimit, userId) ==>
      ColumnValue(c, a) >= ColumnValue(c, b)
  {
    var rows := RankAll(db, userId, Candidates(db));
    var sorted := SortDesc(rows, KeyOf(c));
    LaterPagesRankLower(sorted, KeyOf(c), limit, offset, laterLimit, laterOffset);
    forall a, b | a in Listing(db, c, offset, limit, userId) && b in Listing(db, c, laterOffset, laterLimit, userId)
      ensures ColumnValue(c, a) >= ColumnValue(c, b) {
      AtLeastWhole(ColumnValue(c, a), ColumnValue(c, b));
    }
  }

  /** Every approved submission appears on exactly one of the pages that cover the whole listing. */
  lemma ListingPagesCoverCandidates(db: SqlStore, c: Column, userId: Id, limit: nat, n: nat)
    requires n * limit >= |Candidates(db)|
    ensures multiset(FirstPages(SortDesc(RankAll(db, userId, Candidates(db)), KeyOf(c)), limit, n)) == multiset(RankAll(db, userId, Candidates(db)))
  {
    var sorted := SortDesc(RankAll(db, userId, Candidates(db)), KeyOf(c));
    FirstPagesArePrefix(sorted, limit, n);
    assert sorted[..Min(n * limit, |sorted|)] == sorted;
  }

  // ---------------------------------------------------------------------------
  // upvote
  // ---------------------------------------------------------------------------

  /** `xs.indexOf(x)`: the first position of `x`, or -1. */
  function IndexOf(xs: seq<Id>, x: Id): (i: int)
    ensures -1 <= i < |xs|
    ensures i >= 0 ==> xs[i] == x && x !in xs[..i]
    ensures i == -1 ==> x !in xs
    decreases |xs|
  {
    if xs == [] then -1
    else if xs[0] == x then 0
    else
      var j := IndexOf(xs[1..], x);
      if j == -1 then -1
      else
        assert xs[..j + 1] == [xs[0]] + xs[1..][..j];
        j + 1
  }

  /** The `upvote` edit: splice out the first occurrence of the user, or push the user. */
  function Toggle(likes: seq<Id>, userId: Id): seq<Id> {
    var i := IndexOf(likes, userId);
    if i >= 0 then likes[..i] + likes[i + 1..] else likes + [userId]
  }

  /** The body of `upvote`: splice the user's first vote out of `likes`, or push one. */
  method SpliceOrPush(likes0: seq<Id>, userId: Id) returns (likes: seq<Id>)
    ensures likes == Toggle(likes0, userId)
  {
    likes := likes0;
    var index := IndexOf(likes, userId);
    if index >= 0 {
      likes := likes[..index] + likes[index + 1..];
    } else {
      likes := likes + [userId];
    }
  }

  /**
   * Toggling adds or removes one vote of the user and leaves every other
   * user's votes alone; on a list with at most one vote per user the user's
   * membership flips.
   */
  lemma ToggleFlips(likes: seq<Id>, userId: Id)
    ensures multiset(Toggle(likes, userId))[userId] == if userId in likes then multiset(likes)[userId] - 1 else 1
    ensures forall v :: v != userId ==> multiset(Toggle(likes, userId))[v] == multiset(likes)[v]
    ensures multiset(likes)[userId] <= 1 ==> (userId in Toggle(likes, userId) <==> userId !in likes)
  {
    ToggleMultiset(likes, userId);
    assert userId in Toggle(likes, userId) <==> userId in multiset(Toggle(likes, userId));
  }

  /** Toggling takes one copy of the id out of the votes, or adds one. */
  lemma ToggleMultiset(likes: seq<Id>, userId: Id)
    ensures multiset(Toggle(likes, userId)) ==
      if userId in likes then multiset(likes) - multiset{userId} else multiset(likes) + multiset{userId}
  {
    var i := IndexOf(likes, userId);
    if i >= 0 {
      assert likes == likes[..i] + [likes[i]] + likes[i + 1..];
      assert multiset(likes) == multiset(likes[..i]) + multiset{userId} + multiset(likes[i + 1..]);
    }
  }

  /** From "not voted", two toggles restore the exact list. */
  lemma ToggleTwiceFromAbsent(likes: seq<Id>, userId: Id)
    requires userId !in likes
    ensures Toggle(Toggle(likes, userId), userId) == likes
  {
    var once := likes + [userId];
    assert once[..|likes|] == likes;
  }

  /** From "voted once", two toggles restore the same votes, with the user's moved to the end. */
  lemma ToggleTwiceFromPresent(likes: seq<Id>, userId: Id)
    requires userId in likes && multiset(likes)[userId] == 1
    ensures var twice := Toggle(Toggle(likes, userId), userId);
            multiset(twice) == multiset(likes) && (forall v :: v in twice <==> v in likes) && twice[|twice| - 1] == userId
  {
    var once := Toggle(likes, userId);
    ToggleFlips(likes, userId);
    assert userId !in once;
    var twice := once + [userId];
    assert multiset(twice) == multiset(once) + multiset{userId};
    forall v ensures multiset(twice)[v] == multiset(likes)[v] {
    }
    assert multiset(twice) == multiset(likes);
    forall v ensures v in twice <==> v in likes {
      assert v in twice <==> v in multiset(twice);
      assert v in likes <==> v in multiset(likes);
    }
  }

  // ---------------------------------------------------------------------------
  // Tags
  // ---------------------------------------------------------------------------

  /** The tag names `submit` reads from the `tags` field: comma-split, trimmed, lower-cased, blanks dropped. */
  function TagNames(pieces: seq<string>): (names: seq<string>)
    ensures |names| <= |pieces|
    ensures forall k :: 0 <= k < |names| ==> names[k] != [] && Text.Normalize(names[k]) == names[k]
    decreases |pieces|
  {
    if pieces == [] then []
    else
      var init := TagNames(pieces[..|pieces| - 1]);
      var t := Text.Normalize(pieces[|pieces| - 1]);
      if t == [] then init
      else
        Text.NormalizeIdempotent(pieces[|pieces| - 1]);
        var r := init + [t];
        assert forall k :: 0 <= k < |init| ==> r[k] == init[k];
        r
  }

  /** Every non-blank piece contributes its normal form, in order. */
  lemma {:induction false} TagNamesFromPieces(pieces: seq<string>, pre: seq<string>, piece: string)
    requires Text.Normalize(piece) != []
    ensures TagNames(pre + [piece]) == TagNames(pre) + [Text.Normalize(piece)]
  {
    assert (pre + [piece])[..|pre|] == pre;
  }

  /** `tagService.createOrFetch`: the position of the tag with this name, created at the end if missing. */
  function CreateOrFetchTag(tags: seq<Tag>, name: string): (r: (seq<Tag>, nat))
    ensures r.1 < |r.0| && r.0[r.1].name == name
    ensures tags <= r.0 && |r.0| <= |tags| + 1
  {
    match TagByName(tags, name)
    case Some(k) => (tags, k)
    case None => (tags + [Tag(NextTagId(tags), name, [])], |tags|)
  }

  function NextTagId(tags: seq<Tag>): (n: Id)
    ensures forall k :: 0 <= k < |tags| ==> tags[k].id < n
    decreases |tags|
  {
    if tags == [] then 1
    else var m := NextTagId(tags[1..]); if tags[0].id < m then m else tags[0].id + 1
  }

  /**
   * The tag loop of `submit` over `pieces` from `tags`: every non-blank
   * normalised piece names a tag that is fetched or created and gets the
   * submission pushed onto its list; the result also lists the tag ids in order.
   */
  function TagPass(tags: seq<Tag>, pieces: seq<string>, submissionId: Id): (r: (seq<Tag>, seq<Id>))
    ensures |r.0| >= |tags|
    decreases |pieces|
  {
    if pieces == [] then (tags, [])
    else
      var prev := TagPass(tags, pieces[..|pieces| - 1], submissionId);
      var t := Text.Normalize(pieces[|pieces| - 1]);
      if t == [] then prev else TagStep(prev, t, submissionId)
  }

  /** One turn of the tag loop for the non-blank tag name `t`. */
  function TagStep(prev: (seq<Tag>, seq<Id>), t: string, submissionId: Id): (r: (seq<Tag>, seq<Id>))
    ensures |r.0| >= |prev.0| && |r.1| == |prev.1| + 1 && r.1[..|prev.1|] == prev.1
    ensures forall j :: 0 <= j < |prev.0| ==> r.0[j].id == prev.0[j].id && r.0[j].name == prev.0[j].name
    ensures IdNamed(r.0, r.1[|prev.1|], t)
  {
    var (tags1, k) := CreateOrFetchTag(prev.0, t);
    var tag := tags1[k];
    var r := (tags1[k := tag.(submissions := tag.submissions + [submissionId])], prev.1 + [tag.id]);
    assert r.0[k].id == tag.id && r.0[k].name == t;
    r
  }

  /** One piece of the tag loop: a blank piece leaves the pass as it was. */
  function NextPass(prev: (seq<Tag>, seq<Id>), piece: string, submissionId: Id): (seq<Tag>, seq<Id>) {
    var t := Text.Normalize(piece);
    if t == [] then prev else TagStep(prev, t, submissionId)
  }

  /** The pass over one more piece is the pass over the prefix followed by that piece. */
  lemma TagPassPrefixStep(tags: seq<Tag>, pieces: seq<string>, i: nat, submissionId: Id)
    requires i < |pieces|
    ensures TagPass(tags, pieces[..i + 1], submissionId) == NextPass(TagPass(tags, pieces[..i], submissionId), pieces[i], submissionId)
  {
    assert pieces[..i + 1][..i] == pieces[..i];
  }

  /** The tag loop itself, over the pieces of the `tags` field in order. */
  method TagLoop(tags0: seq<Tag>, pieces: seq<string>, submissionId: Id) returns (tags: seq<Tag>, ids: seq<Id>)
    ensures (tags, ids) == TagPass(tags0, pieces, submissionId)
  {
    tags, ids := tags0, [];
    var i := 0;
    while i < |pieces|
      invariant 0 <= i <= |pieces|
      invariant (tags, ids) == TagPass(tags0, pieces[..i], submissionId)
    {
      TagPassPrefixStep(tags0, pieces, i, submissionId);
      tags, ids := TagTurn(tags, ids, pieces[i], submissionId);
      i := i + 1;
    }
    assert pieces[..i] == pieces;
  }

  /** The body of the tag loop: a blank piece is skipped, any other one is filed as `TagStep` says. */
  method TagTurn(tags0: seq<Tag>, ids0: seq<Id>, piece: string, submissionId: Id) returns (tags: seq<Tag>, ids: seq<Id>)
    ensures (tags, ids) == NextPass((tags0, ids0), piece, submissionId)
  {
    tags, ids := tags0, ids0;
    var tag := Text.Normalize(piece);
    if tag != [] {
      var fetched := CreateOrFetchTag(tags, tag);
      tags := fetched.0;
      var k := fetched.1;
      tags := tags[k := tags[k].(submissions := tags[k].submissions + [submissionId])];
      ids := ids + [tags[k].id];
    }
  }

  /** Some tag of `tags` has this id and this name. */
  ghost predicate IdNamed(tags: seq<Tag>, id: Id, name: string) {
    exists j :: 0 <= j < |tags| && tags[j].id == id && tags[j].name == name
  }

  /** A tag's name survives every later step of the loop. */
  lemma {:induction false} TagPassKeepsNames(tags: seq<Tag>, pieces: seq<string>, submissionId: Id, k: nat)
    requires k < |tags|
    ensures TagPass(tags, pieces, submissionId).0[k].name == tags[k].name
    ensures TagPass(tags, pieces, submissionId).0[k].id == tags[k].id
    decreases |pieces|
  {
    if pieces != [] {
      TagPassKeepsNames(tags, pieces[..|pieces| - 1], submissionId, k);
    }
  }

  /**
   * The loop collects one tag id per tag name, and the `k`-th id belongs to
   * a tag named by the `k`-th name that lists the submission.
   */
  lemma {:induction false} TagPassIds(tags: seq<Tag>, pieces: seq<string>, submissionId: Id, k: nat)
    requires k < |TagPass(tags, pieces, submissionId).1|
    ensures |TagPass(tags, pieces, submissionId).1| == |TagNames(pieces)|
    ensures IdNamed(TagPass(tags, pieces, submissionId).0, TagPass(tags, pieces, submissionId).1[k], TagNames(pieces)[k])
    decreases |pieces|
  {
    var init := pieces[..|pieces| - 1];
    var prev := TagPass(tags, init, submissionId);
    var t := Text.Normalize(pieces[|pieces| - 1]);
    TagPassLength(tags, pieces, submissionId);
    TagPassLength(tags, init, submissionId);
    if t == [] {
      TagPassIds(tags, init, submissionId, k);
    } else {
      var r := TagStep(prev, t, submissionId);
      assert TagNames(pieces) == TagNames(init) + [t];
      if k < |prev.1| {
        TagPassIds(tags, init, submissionId, k);
        IdNamedKept(prev.0, r.0, prev.1[k], TagNames(init)[k]);
        assert r.1[k] == prev.1[k];
      }
    }
  }

  lemma IdNamedKept(before: seq<Tag>, after: seq<Tag>, id: Id, name: string)
    requires IdNamed(before, id, name) && |after| >= |before|
    requires forall j :: 0 <= j < |before| ==> after[j].id == before[j].id && after[j].name == before[j].name
    ensures IdNamed(after, id, name)
  {
    var j :| 0 <= j < |before| && before[j].id == id && before[j].name == name;
    assert after[j].id == id && after[j].name == name;
  }

  lemma {:induction false} TagPassLength(tags: seq<Tag>, pieces: seq<string>, submissionId: Id)
    ensures |TagPass(tags, pieces, submissionId).1| == |TagNames(pieces)|
    decreases |pieces|
  {
    if pieces != [] {
      TagPassLength(tags, pieces[..|pieces| - 1], submissionId);
    }
  }

  /** The pieces of the `tags` field, `[]` when it is missing or empty. */
  function TagPieces(field: Option<string>): seq<string> {
    if Text.Falsy(field) then [] else Text.Split(field.value, ',')
  }

  /** `submissionTagRefService.getByFks`: the ref joining the submission to the tag. */
  function FindTagRef(refs: seq<TagRef>, submissionId: Id, tagId: Id): (k: Option<nat>)
    ensures k.Some? ==> k.value < |refs| && refs[k.value].submissionId == submissionId && refs[k.value].tagId == tagId
    ensures k.None? ==> TagRefCount(refs, submissionId, tagId) == 0
    decreases |refs|
  {
    if refs == [] then None
    else if refs[0].submissionId == submissionId && refs[0].tagId == tagId then Some(0)
    else match FindTagRef(refs[1..], submissionId, tagId)
      case None => None
      case Some(k) => Some(k + 1)
  }

  function NextTagRefId(refs: seq<TagRef>): Id
    decreases |refs|
  {
    if refs == [] then 1
    else var m := NextTagRefId(refs[1..]); if refs[0].id < m then m else refs[0].id + 1
  }

  /** `submissionTagRefService.createOrFetch`. */
  function CreateOrFetchTagRef(refs: seq<TagRef>, submissionId: Id, tagId: Id): (r: seq<TagRef>)
    ensures FindTagRef(r, submissionId, tagId).Some?
  {
    if FindTagRef(refs, submissionId, tagId).Some? then refs
    else
      var r := refs + [TagRef(NextTagRefId(refs), submissionId, tagId)];
      FindTagRefAppended(refs, TagRef(NextTagRefId(refs), submissionId, tagId));
      r
  }

  lemma {:induction false} FindTagRefAppended(refs: seq<TagRef>, ref: TagRef)
    ensures FindTagRef(refs + [ref], ref.submissionId, ref.tagId).Some?
    decreases |refs|
  {
    if refs != [] {
      assert (refs + [ref])[1..] == refs[1..] + [ref];
      FindTagRefAppended(refs[1..], ref);
    }
  }

  /** Removing one ref leaves one fewer joining the pair. */
  lemma {:induction false} TagRefCountRemove(refs: seq<TagRef>, k: nat)
    requires k < |refs|
    ensures TagRefCount(refs[..k] + refs[k + 1..], refs[k].submissionId, refs[k].tagId) == TagRefCount(refs, refs[k].submissionId, refs[k].tagId) - 1
    decreases |refs|
  {
    var sid, tid := refs[k].submissionId, refs[k].tagId;
    if k == 0 {
      assert refs[..0] + refs[1..] == refs[1..];
    } else {
      assert (refs[..k] + refs[k + 1..])[0] == refs[0];
      assert (refs[..k] + refs[k + 1..])[1..] == refs[1..][..k - 1] + refs[1..][k..];
      TagRefCountRemove(refs[1..], k - 1);
    }
  }

  /** Adding a tag that was not on the submission and then removing it leaves no ref between them. */
  lemma AddThenRemoveTag(refs: seq<TagRef>, submissionId: Id, tagId: Id)
    requires TagRefCount(refs, submissionId, tagId) == 0
    ensures var added := CreateOrFetchTagRef(refs, submissionId, tagId);
            var k := FindTagRef(added, submissionId, tagId).value;
            TagRefCount(added[..k] + added[k + 1..], submissionId, tagId) == 0
  {
    var ref := TagRef(NextTagRefId(refs), submissionId, tagId);
    var added := CreateOrFetchTagRef(refs, submissionId, tagId);
    FindNoneWhenCountZero(refs, submissionId, tagId);
    assert added == refs + [ref];
    TagRefCountAppend(refs, ref, submissionId, tagId);
    var k := FindTagRef(added, submissionId, tagId).value;
    TagRefCountRemove(added, k);
  }

  lemma {:induction false} FindNoneWhenCountZero(refs: seq<TagRef>, submissionId: Id, tagId: Id)
    requires TagRefCount(refs, submissionId, tagId) == 0
    ensures FindTagRef(refs, submissionId, tagId).None?
    decreases |refs|
  {
    if refs != [] {
      FindNoneWhenCountZero(refs[1..], submissionId, tagId);
    }
  }

  lemma {:induction false} TagRefCountAppend(refs: seq<TagRef>, ref: TagRef, submissionId: Id, tagId: Id)
    ensures TagRefCount(refs + [ref], submissionId, tagId) ==
      TagRefCount(refs, submissionId, tagId) + (if ref.submissionId == submissionId && ref.tagId == tagId then 1 else 0)
    decreases |refs|
  {
    if refs == [] {
      assert refs + [ref] == [ref];
    } else {
      assert (refs + [ref])[1..] == refs[1..] + [ref];
      TagRefCountAppend(refs[1..], ref, submissionId, tagId);
    }
  }

  // ---------------------------------------------------------------------------
  // The service
  // ---------------------------------------------------------------------------

  class SubmissionService {
    var db: SqlStore

    constructor (db0: SqlStore)
      ensures db == db0
    {
      db := db0;
    }

    /** `upvote`: after both lookups succeed, toggle the user's vote on the submission's `likes` list. */
    method Upvote(submissionId: Id, userId: Id) returns (r: Result<Submission>)
      modifies this
      ensures FindSubmission(old(db.submissions), submissionId).None? ==> r == Failure(SubmissionNotFound) && db == old(db)
      ensures FindSubmission(old(db.submissions), submissionId).Some? && userId !in old(db.users) ==> r == Failure(UserNotFound) && db == old(db)
      ensures FindSubmission(old(db.submissions), submissionId).Some? && userId in old(db.users) ==>
        var k := FindSubmission(old(db.submissions), submissionId).value;
        var s := old(db.submissions)[k].(likes := Toggle(old(db.submissions)[k].likes, userId));
        r == Success(s) && db == old(db).(submissions := old(db.submissions)[k := s])
    {
      var found := FindSubmission(db.submissions, submissionId);
      if found.None? {
        return Failure(SubmissionNotFound);
      }
      if userId !in db.users {
        return Failure(UserNotFound);
      }
      var k := found.value;
      var submission := db.submissions[k];
      var likes := SpliceOrPush(submission.likes, userId);
      submission := submission.(likes := likes);
      var submissions := db.submissions[k := submission];
      db := db.(submissions := submissions);
      r := Success(submission);
    }

    /** The tag loop of `submit` for the new submission `submissionId`; returns the collected tag ids. */
    method CollectTags(tagsField: Option<string>, submissionId: Id) returns (ids: seq<Id>)
      modifies this
      ensures (db.tags, ids) == TagPass(old(db.tags), TagPieces(tagsField), submissionId)
      ensures db == old(db).(tags := db.tags)
    {
      var tags;
      tags, ids := TagLoop(db.tags, TagPieces(tagsField), submissionId);
      db := db.(tags := tags);
    }

    /**
     * `addOrRemoveTag`: add fetches or creates the tag and the ref; remove
     * needs the tag to exist, then deletes the ref, which fails when there is none.
     */
    method AddOrRemoveTag(isAdd: bool, submissionId: Id, tagName: string) returns (r: Result<Submission>)
      modifies this
      ensures FindSubmission(old(db.submissions), submissionId).None? ==> r == Failure(SubmissionNotFound) && db == old(db)
      ensures FindSubmission(old(db.submissions), submissionId).Some? ==>
        var s := old(db.submissions)[FindSubmission(old(db.submissions), submissionId).value];
        if isAdd then
          var (tags, k) := CreateOrFetchTag(old(db.tags), tagName);
          r == Success(s) && db == old(db).(tags := tags, tagRefs := CreateOrFetchTagRef(old(db.tagRefs), s.id, tags[k].id))
        else match TagByName(old(db.tags), tagName)
          case None => r == Failure(TagNotFound) && db == old(db)
          case Some(t) =>
            match FindTagRef(old(db.tagRefs), s.id, old(db.tags)[t].id)
            case None => r == Failure(NullRefCrash) && db == old(db)
            case Some(k) => r == Success(s) && db == old(db).(tagRefs := old(db.tagRefs)[..k] + old(db.tagRefs)[k + 1..])
    {
      var found := FindSubmission(db.submissions, submissionId);
      if found.None? {
        return Failure(SubmissionNotFound);
      }
      var submission := db.submissions[found.value];
      if isAdd {
        var fetched := CreateOrFetchTag(db.tags, tagName);
        var tag := fetched.0[fetched.1];
        db := db.(tags := fetched.0);
        db := db.(tagRefs := CreateOrFetchTagRef(db.tagRefs, submission.id, tag.id));
      } else {
        var t := TagByName(db.tags, tagName);
        if t.None? {
          return Failure(TagNotFound);
        }
        var ref := FindTagRef(db.tagRefs, submission.id, db.tags[t.value].id);
        if ref.None? {
          return Failure(NullRefCrash);
        }
        db := db.(tagRefs := db.tagRefs[..ref.value] + db.tagRefs[ref.value + 1..]);
      }
      return Success(submission);
    }
  }
}
