/**
 * The Mongo `SubmissionService` (service/submissionService.js): lookup by
 * id or normalised name, `get`, `validateSubmission`, the idempotent
 * `upvote`, the `deleteIfOwner` soft delete, and the aggregation pipelines
 * behind the latest / popular / trending listings (all of them, and their
 * tag variants, `$match` then `$sort` descending then `.skip().limit()`).
 */
module MongoSubmissions {
  import opened Wrappers
  import opened Seqs
  import Text
  import opened Ranking

  /** Document ids, compared as the strings a request carries. */
  type Key = string

  /** A submission document; `upvotes` and `tags` hold user and tag ids. */
  datatype Submission = Submission(
    id: Key,
    user: Key,
    submissionNameNormal: string,
    submittedDate: int,
    approvedDate: Option<int>,
    deletedDate: Option<int>,
    upvotes: seq<Key>,
    tags: seq<Key>)

  datatype Tag = Tag(id: Key, tagName: string)

  datatype MongoStore = MongoStore(submissions: seq<Submission>, users: set<Key>, tags: seq<Tag>)

  const NotFound := "Submission not found"
  const NotFoundDot := "Submission not found."
  const UserNotFound := "User not found."
  const NameBlank := "Submission name cannot be blank."
  const NameInUse := "Submission name already in use."
  const CategoryNotFound := "Category not found"
  /** The error the `$divide` stage raises on a zero divisor. */
  const DivideByZero := "can't $divide by zero"

  /** One hour in the milliseconds that dates are measured in. */
  const MillisPerHour := 1000 * 60 * 60

  /** A submission counts as deleted once it carries a deletion date. */
  predicate IsDeleted(s: Submission) {
    s.deletedDate.Some?
  }

  // ---------------------------------------------------------------------------
  // Lookups
  // ---------------------------------------------------------------------------

  /** `getBySubmissionId`: every document with this id, in store order. */
  function ById(subs: seq<Submission>, key: Key): (r: seq<Submission>)
    ensures forall s :: s in r <==> s in subs && s.id == key
  {
    var p := (s: Submission) => s.id == key;
    var r := Filter(subs, p);
    forall s | s in subs && p(s) ensures s in r {
      FilterKeeps(subs, p, s);
    }
    r
  }

  /** `getBySubmissionName`: every document whose normal name is the trimmed, lower-cased `name`. */
  function ByName(subs: seq<Submission>, name: string): (r: seq<Submission>)
    ensures forall s :: s in r <==> s in subs && s.submissionNameNormal == Text.Normalize(name)
  {
    var p := (s: Submission) => s.submissionNameNormal == Text.Normalize(name);
    var r := Filter(subs, p);
    forall s | s in subs && p(s) ensures s in r {
      FilterKeeps(subs, p, s);
    }
    r
  }

  /** `getBySubmissionNameOrId`: the id matches, and the name matches only when no id matches. */
  function ByNameOrId(subs: seq<Submission>, key: string): (r: seq<Submission>)
    ensures ById(subs, key) != [] ==> r == ById(subs, key)
    ensures ById(subs, key) == [] ==> r == ByName(subs, key)
  {
    var byId := ById(subs, key);
    if byId == [] then ByName(subs, key) else byId
  }

  /** A document stored under the key is what the combined lookup returns, whatever documents share its name. */
  lemma IdLookupWins(subs: seq<Submission>, s: Submission, key: string)
    requires s in subs && s.id == key
    ensures ByNameOrId(subs, key) == ById(subs, key) && s in ByNameOrId(subs, key)
  {
  }

  /** When no id matches, the key is read as a name, in any case and padding. */
  lemma NameFallback(subs: seq<Submission>, s: Submission, key: string)
    requires s in subs && s.submissionNameNormal == Text.Normalize(key)
    requires ById(subs, key) == []
    ensures s in ByNameOrId(subs, key)
  {
  }

  /**
   * `get`: the first document of the combined lookup; no match is
   * 'Submission not found', a soft-deleted match 'Submission not found.'.
   */
  function Get(db: MongoStore, key: string): (r: Result<Submission>)
    ensures ByNameOrId(db.submissions, key) == [] <==> r == Failure(NotFound)
    ensures r.Success? ==> (r.value in db.submissions && !IsDeleted(r.value) &&
      (r.value.id == key || r.value.submissionNameNormal == Text.Normalize(key)))
    ensures r.Failure? ==> r.error == NotFound || r.error == NotFoundDot
  {
    var found := ByNameOrId(db.submissions, key);
    if found == [] then Failure(NotFound)
    else
      var s := found[0];
      assert s in found;
      if IsDeleted(s) then Failure(NotFoundDot) else Success(s)
  }

  /** A soft-deleted submission that is the first match is never returned, and the error says so with a period. */
  lemma GetHidesDeleted(db: MongoStore, key: string)
    requires ByNameOrId(db.submissions, key) != [] && IsDeleted(ByNameOrId(db.submissions, key)[0])
    ensures Get(db, key) == Failure(NotFoundDot)
  {
  }

  // ---------------------------------------------------------------------------
  // validateSubmission
  // ---------------------------------------------------------------------------

  /** `validateSubmission`: a name is required, must not normalise to empty, and must be unused. */
  function ValidateSubmission(db: MongoStore, submissionName: Option<string>): Result<()> {
    if Text.Falsy(submissionName) then Failure(NameBlank)
    else if Text.Normalize(submissionName.value) == [] then Failure(NameBlank)
    else if ByName(db.submissions, Text.Normalize(submissionName.value)) != [] then Failure(NameInUse)
    else Success(())
  }

  /** Validation succeeds exactly when the name is present, not blank once normalised, and no document holds its normal form. */
  lemma ValidateSubmissionSucceeds(db: MongoStore, submissionName: Option<string>)
    ensures ValidateSubmission(db, submissionName).Success? <==>
      && submissionName.Some?
      && Text.Normalize(submissionName.value) != []
      && forall s :: s in db.submissions ==> s.submissionNameNormal != Text.Normalize(submissionName.value)
  {
    if submissionName.Some? {
      var name := submissionName.value;
      var n := Text.Normalize(name);
      Text.NormalizeIdempotent(name);
      assert Text.Normalize("") == [];
      var found := ByName(db.submissions, n);
      if n != [] && found != [] {
        var t := found[0];
        assert t in found;
      }
    }
  }

  /** A blank name is refused as blank, never as in use. */
  lemma ValidateSubmissionBlankFirst(db: MongoStore, name: string)
    requires Text.AllSpace(name)
    ensures ValidateSubmission(db, Some(name)) == Failure(NameBlank)
  {
    Text.TrimIsInfix(name);
    var i, j :| 0 <= i <= j <= |name| && Text.Trim(name) == name[i..j] && Text.AllSpace(name[..i]) && Text.AllSpace(name[j..]);
  }

  // ---------------------------------------------------------------------------
  // upvote
  // ---------------------------------------------------------------------------

  /** `upvote` on the voter list: the user is pushed only when absent. */
  function AddVoter(upvotes: seq<Key>, userId: Key): (r: seq<Key>)
    ensures userId in r
    ensures forall u :: u in r <==> u in upvotes || u == userId
    ensures upvotes <= r && |r| <= |upvotes| + 1
    ensures userId in upvotes ==> r == upvotes
  {
    if userId in upvotes then upvotes else upvotes + [userId]
  }

  /** Upvoting twice leaves the list as upvoting once. */
  lemma AddVoterIdempotent(upvotes: seq<Key>, userId: Key)
    ensures AddVoter(AddVoter(upvotes, userId), userId) == AddVoter(upvotes, userId)
  {
  }

  /** A voter list without repeats keeps none after an upvote. */
  lemma AddVoterKeepsDistinct(upvotes: seq<Key>, userId: Key)
    requires forall i, j :: 0 <= i < j < |upvotes| ==> upvotes[i] != upvotes[j]
    ensures var r := AddVoter(upvotes, userId); forall i, j :: 0 <= i < j < |r| ==> r[i] != r[j]
  {
  }

  /** The position of the first document with this id. */
  function FirstById(subs: seq<Submission>, key: Key): (k: Option<nat>)
    ensures k.Some? ==> k.value < |subs| && subs[k.value].id == key
    ensures k.None? <==> ById(subs, key) == []
    decreases |subs|
  {
    if subs == [] then None
    else if subs[0].id == key then
      var s := subs[0];
      assert s in ById(subs, key);
      Some(0)
    else match FirstById(subs[1..], key)
      case None =>
        assert forall s :: s in subs ==> s == subs[0] || s in subs[1..];
        None
      case Some(j) =>
        var s := subs[j + 1];
        assert s in ById(subs, key);
        Some(j + 1)
  }

  // ---------------------------------------------------------------------------
  // Ranked listings
  // ---------------------------------------------------------------------------

  /** `$match: { deletedDate: null, approvedDate: { $ne: null } }`. */
  predicate Listable(s: Submission) {
    !IsDeleted(s) && s.approvedDate.Some?
  }

  /** The candidates of every listing, in store order. */
  function Candidates(subs: seq<Submission>): (r: seq<Submission>)
    ensures forall s :: s in r <==> s in subs && Listable(s)
  {
    var r := Filter(subs, Listable);
    forall s | s in subs && Listable(s) ensures s in r {
      FilterKeeps(subs, Listable, s);
    }
    r
  }

  /** The tag variants add `$expr: { $in: [tagId, '$tags'] }`. */
  function TagCandidates(subs: seq<Submission>, tagId: Key): (r: seq<Submission>)
    ensures forall s :: s in r <==> s in subs && Listable(s) && tagId in s.tags
  {
    var p := (s: Submission) => Listable(s) && tagId in s.tags;
    var r := Filter(subs, p);
    forall s | s in subs && p(s) ensures s in r {
      FilterKeeps(subs, p, s);
    }
    r
  }

  /** A tag listing draws from the untagged candidates. */
  lemma TagCandidatesAreCandidates(subs: seq<Submission>, tagId: Key)
    ensures forall s :: s in TagCandidates(subs, tagId) ==> s in Candidates(subs)
  {
  }

  /** `$sort: { key: -1 }` then `.skip(skip).limit(limit)`; a zero limit is refused. */
  function SortedPage(xs: seq<Submission>, key: Submission -> Score, skip: nat, limit: nat): (r: Result<seq<Submission>>)
    ensures r.Failure? <==> limit == 0
    ensures r.Failure? ==> r.error == LimitNotPositive
    ensures r.Success? ==> |r.value| <= limit
    ensures r.Success? ==> forall s :: s in r.value ==> s in xs
    ensures r.Success? ==> forall i, j :: 0 <= i < j < |r.value| ==> AtLeast(key(r.value[i]), key(r.value[j]))
    ensures r == MongoPage(SortDesc(xs, key), skip, limit)
  {
    var sorted := SortDesc(xs, key);
    var r := MongoPage(sorted, skip, limit);
    assert r.Success? ==> forall s :: s in r.value ==> s in xs by {
      if r.Success? {
        forall s | s in r.value ensures s in xs {
          assert s in multiset(sorted);
        }
      }
    }
    r
  }

  function SubmittedDate(s: Submission): Score {
    Whole(s.submittedDate)
  }

  function UpvotesCount(s: Submission): Score {
    Whole(|s.upvotes|)
  }

  /** `getLatest`: candidates, newest `submittedDate` first. */
  function Latest(db: MongoStore, skip: nat, limit: nat): (r: Result<seq<Submission>>)
    ensures r.Failure? <==> limit == 0
    ensures r.Failure? ==> r.error == LimitNotPositive
    ensures r.Success? ==> forall s :: s in r.value ==> s in db.submissions && Listable(s)
    ensures r.Success? ==> forall i, j :: 0 <= i < j < |r.value| ==> r.value[i].submittedDate >= r.value[j].submittedDate
  {
    var r := SortedPage(Candidates(db.submissions), SubmittedDate, skip, limit);
    assert r.Success? ==> forall i, j :: 0 <= i < j < |r.value| ==> r.value[i].submittedDate >= r.value[j].submittedDate by {
      if r.Success? {
        forall i, j | 0 <= i < j < |r.value| ensures r.value[i].submittedDate >= r.value[j].submittedDate {
          AtLeastWhole(r.value[i].submittedDate, r.value[j].submittedDate);
        }
      }
    }
    r
  }

  /** `getPopular`: candidates, most upvotes first. */
  function Popular(db: MongoStore, skip: nat, limit: nat): (r: Result<seq<Submission>>)
    ensures r.Failure? <==> limit == 0
    ensures r.Failure? ==> r.error == LimitNotPositive
    ensures r.Success? ==> forall s :: s in r.value ==> s in db.submissions && Listable(s)
    ensures r.Success? ==> forall i, j :: 0 <= i < j < |r.value| ==> |r.value[i].upvotes| >= |r.value[j].upvotes|
  {
    var r := SortedPage(Candidates(db.submissions), UpvotesCount, skip, limit);
    assert r.Success? ==> forall i, j :: 0 <= i < j < |r.value| ==> |r.value[i].upvotes| >= |r.value[j].upvotes| by {
      if r.Success? {
        forall i, j | 0 <= i < j < |r.value| ensures |r.value[i].upvotes| >= |r.value[j].upvotes| {
          AtLeastWhole(|r.value[i].upvotes|, |r.value[j].upvotes|);
        }
      }
    }
    r
  }

  /** `getByUserId`: the user's undeleted submissions, approved or not, newest first. */
  function ByUser(db: MongoStore, userId: Key, skip: nat, limit: nat): (r: Result<seq<Submission>>)
    ensures r.Failure? <==> limit == 0
    ensures r.Failure? ==> r.error == LimitNotPositive
    ensures r.Success? ==> forall s :: s in r.value ==> s in db.submissions && s.user == userId && !IsDeleted(s)
    ensures r.Success? ==> forall i, j :: 0 <= i < j < |r.value| ==> r.value[i].submittedDate >= r.value[j].submittedDate
  {
    var p := (s: Submission) => s.user == userId && !IsDeleted(s);
    var r := SortedPage(Filter(db.submissions, p), SubmittedDate, skip, limit);
    assert r.Success? ==> forall i, j :: 0 <= i < j < |r.value| ==> r.value[i].submittedDate >= r.value[j].submittedDate by {
      if r.Success? {
        forall i, j | 0 <= i < j < |r.value| ensures r.value[i].submittedDate >= r.value[j].submittedDate {
          AtLeastWhole(r.value[i].submittedDate, r.value[j].submittedDate);
        }
      }
    }
    r
  }

  /**
   * The `upvotesPerHour` field: `|upvotes| * MillisPerHour / (now - approvedDate)`,
   * kept as an exact fraction with a positive denominator. A zero elapsed
   * time has no score (the pipeline fails); it is given 0 here.
   */
  function TrendScore(s: Submission, now: int): (r: Score)
    requires s.approvedDate.Some?
    ensures now != s.approvedDate.value ==> r.num * (now - s.approvedDate.value) == |s.upvotes| * MillisPerHour * r.den
  {
    var elapsed := now - s.approvedDate.value;
    if elapsed > 0 then Fraction(|s.upvotes| * MillisPerHour, elapsed)
    else if elapsed < 0 then Fraction(-(|s.upvotes| * MillisPerHour), -elapsed)
    else Fraction(0, 1)
  }

  /** The trending key of a candidate; every candidate is approved. */
  function TrendKey(now: int): Submission -> Score {
    (s: Submission) => if s.approvedDate.Some? then TrendScore(s, now) else Fraction(0, 1)
  }

  /** Some candidate was approved at the very instant `now`, so `$divide` meets a zero. */
  predicate DividesByZero(xs: seq<Submission>, now: int) {
    exists s :: s in xs && s.approvedDate == Some(now)
  }

  /**
   * `getTrending` with the clock read once as `now`: candidates by upvotes
   * per hour since approval. A zero limit is refused when the pipeline is
   * parsed, before any document is read.
   */
  function Trending(db: MongoStore, now: int, skip: nat, limit: nat): (r: Result<seq<Submission>>)
    ensures r.Failure? <==> limit == 0 || DividesByZero(Candidates(db.submissions), now)
    ensures r.Failure? ==> r.error == (if limit == 0 then LimitNotPositive else DivideByZero)
    ensures r.Success? ==> forall s :: s in r.value ==> s in db.submissions && Listable(s)
    ensures r.Success? ==> r == SortedPage(Candidates(db.submissions), TrendKey(now), skip, limit)
  {
    var xs := Candidates(db.submissions);
    if limit == 0 then Failure(LimitNotPositive)
    else if DividesByZero(xs, now) then Failure(DivideByZero)
    else SortedPage(xs, TrendKey(now), skip, limit)
  }

  /** With equal upvotes (at least one), the submission approved later, and both before `now`, trends strictly higher. */
  lemma RecentTrendsHigher(a: Submission, b: Submission, now: int)
    requires a.approvedDate.Some? && b.approvedDate.Some?
    requires |a.upvotes| == |b.upvotes| > 0
    requires b.approvedDate.value < a.approvedDate.value < now
    ensures AtLeast(TrendScore(a, now), TrendScore(b, now)) && !AtLeast(TrendScore(b, now), TrendScore(a, now))
  {
    var n := |a.upvotes| * MillisPerHour;
    var ea, eb := now - a.approvedDate.value, now - b.approvedDate.value;
    assert n > 0 && 0 < ea < eb;
    MulMono(eb, ea + 1, n);
    assert n * eb > n * ea;
  }

  /** Approved at the same time, more upvotes trend at least as high. */
  lemma MoreUpvotesTrendHigher(a: Submission, b: Submission, now: int)
    requires a.approvedDate.Some? && a.approvedDate == b.approvedDate && a.approvedDate.value < now
    requires |a.upvotes| >= |b.upvotes|
    ensures AtLeast(TrendScore(a, now), TrendScore(b, now))
  {
    var e := now - a.approvedDate.value;
    MulMono(|a.upvotes| * MillisPerHour, |b.upvotes| * MillisPerHour, e);
  }

  /** `tagService.getByTagName`: the first tag with this name. */
  function TagByName(tags: seq<Tag>, name: string): (t: Option<Key>)
    ensures t.Some? ==> exists k :: 0 <= k < |tags| && tags[k].tagName == name && tags[k].id == t.value
    ensures t.None? ==> forall k :: 0 <= k < |tags| ==> tags[k].tagName != name
    decreases |tags|
  {
    if tags == [] then None
    else if tags[0].tagName == name then Some(tags[0].id)
    else
      var rest := TagByName(tags[1..], name);
      assert rest.Some? ==> exists k :: 0 <= k < |tags| && tags[k].tagName == name && tags[k].id == rest.value by {
        if rest.Some? {
          var k :| 0 <= k < |tags[1..]| && tags[1..][k].tagName == name && tags[1..][k].id == rest.value;
          assert tags[k + 1] == tags[1..][k];
        }
      }
      rest
  }

  /** The three orders of the tag variants. */
  datatype Order = ByLatest | ByPopular | ByTrending

  function OrderKey(o: Order, now: int): Submission -> Score {
    match o
    case ByLatest => SubmittedDate
    case ByPopular => UpvotesCount
    case ByTrending => TrendKey(now)
  }

  /** `getLatestByTag`, `getPopularByTag` and `getTrendingByTag`: the tag lookup, then the pipeline. */
  function TagListing(db: MongoStore, tagName: string, o: Order, now: int, skip: nat, limit: nat): (r: Result<seq<Submission>>)
    ensures TagByName(db.tags, tagName).None? ==> r == Failure(CategoryNotFound)
    ensures r == Failure(CategoryNotFound) ==> TagByName(db.tags, tagName).None?
    ensures TagByName(db.tags, tagName).Some? && limit == 0 ==> r == Failure(LimitNotPositive)
    ensures r.Success? ==> forall s :: s in r.value ==> s in db.submissions && Listable(s) && TagByName(db.tags, tagName).value in s.tags
    ensures TagByName(db.tags, tagName).Some? && limit > 0 ==>
      (r == Failure(DivideByZero) <==> o == ByTrending && DividesByZero(TagCandidates(db.submissions, TagByName(db.tags, tagName).value), now))
    ensures r.Success? ==> r == SortedPage(TagCandidates(db.submissions, TagByName(db.tags, tagName).value), OrderKey(o, now), skip, limit)
  {
    match TagByName(db.tags, tagName)
    case None => Failure(CategoryNotFound)
    case Some(tagId) =>
      var xs := TagCandidates(db.submissions, tagId);
      if limit == 0 then Failure(LimitNotPositive)
      else if o == ByTrending && DividesByZero(xs, now) then Failure(DivideByZero)
      else SortedPage(xs, OrderKey(o, now), skip, limit)
  }

  /** Consecutive pages of a listing never rank a row of a later page above a row of an earlier one. */
  lemma LatestPagesOrdered(db: MongoStore, size: nat, offset: nat, laterSize: nat, laterOffset: nat)
    requires size > 0 && laterSize > 0 && offset + size <= laterOffset
    ensures forall a, b :: a in Latest(db, offset, size).value && b in Latest(db, laterOffset, laterSize).value ==> a.submittedDate >= b.submittedDate
  {
    var xs := Candidates(db.submissions);
    LaterPagesRankLower(SortDesc(xs, SubmittedDate), SubmittedDate, size, offset, laterSize, laterOffset);
    forall a, b | a in Latest(db, offset, size).value && b in Latest(db, laterOffset, laterSize).value ensures a.submittedDate >= b.submittedDate {
      AtLeastWhole(a.submittedDate, b.submittedDate);
    }
  }

  // ---------------------------------------------------------------------------
  // The service over a store snapshot
  // ---------------------------------------------------------------------------

  class MongoSubmissionService {
    var db: MongoStore

    constructor (db0: MongoStore)
      ensures db == db0
    {
      db := db0;
    }

    /**
     * `upvote`: the first document with the id gains the user as a voter,
     * unless already there; a missing submission or user is refused first.
     */
    method Upvote(submissionId: Key, userId: Key) returns (r: Result<Submission>)
      modifies this
      ensures FirstById(old(db.submissions), submissionId).None? ==> r == Failure(NotFoundDot) && db == old(db)
      ensures FirstById(old(db.submissions), submissionId).Some? && userId !in old(db.users) ==> r == Failure(UserNotFound) && db == old(db)
      ensures FirstById(old(db.submissions), submissionId).Some? && userId in old(db.users) ==>
        var k := FirstById(old(db.submissions), submissionId).value;
        var s := old(db.submissions)[k].(upvotes := AddVoter(old(db.submissions)[k].upvotes, userId));
        r == Success(s) && db == old(db).(submissions := old(db.submissions)[k := s])
    {
      var found := FirstById(db.submissions, submissionId);
      if found.None? {
        return Failure(NotFoundDot);
      }
      var k := found.value;
      if userId !in db.users {
        return Failure(UserNotFound);
      }
      var submission := db.submissions[k];
      if userId !in submission.upvotes {
        submission := submission.(upvotes := submission.upvotes + [userId]);
        db := db.(submissions := db.submissions[k := submission]);
      }
      return Success(submission);
    }

    /**
     * `deleteIfOwner`: a missing or already deleted submission is refused
     * with 'Submission not found.'; otherwise it is marked deleted at `now`.
     * The ownership comparison compares two equal strings and never refuses.
     */
    method DeleteIfOwner(userId: Key, submissionId: Key, now: int) returns (r: Result<Submission>)
      modifies this
      ensures FirstById(old(db.submissions), submissionId).None? ==> r == Failure(NotFoundDot) && db == old(db)
      ensures FirstById(old(db.submissions), submissionId).Some? ==>
        var k := FirstById(old(db.submissions), submissionId).value;
        if IsDeleted(old(db.submissions)[k]) then r == Failure(NotFoundDot) && db == old(db)
        else
          var s := old(db.submissions)[k].(deletedDate := Some(now));
          r == Success(s) && db == old(db).(submissions := old(db.submissions)[k := s])
    {
      var found := FirstById(db.submissions, submissionId);
      if found.None? {
        return Failure(NotFoundDot);
      }
      var k := found.value;
      var submission := db.submissions[k];
      if IsDeleted(submission) {
        return Failure(NotFoundDot);
      }
      submission := submission.(deletedDate := Some(now));
      db := db.(submissions := db.submissions[k := submission]);
      return Success(submission);
    }
  }

  /** After an upvote succeeds the user is a voter, and voting again changes nothing. */
  lemma UpvoteTwiceIsOnce(s: Submission, userId: Key)
    ensures var once := s.(upvotes := AddVoter(s.upvotes, userId));
      userId in once.upvotes && once.(upvotes := AddVoter(once.upvotes, userId)) == once
  {
    AddVoterIdempotent(s.upvotes, userId);
  }

  /** A soft-deleted submission is no longer a candidate of any listing, and `get` by its id is refused. */
  lemma DeletedLeavesListings(subs: seq<Submission>, k: nat, now: int)
    requires k < |subs|
    ensures var s := subs[k].(deletedDate := Some(now));
      s !in Candidates(subs[k := s]) && FirstById(subs[k := s], s.id).Some?
  {
    var s := subs[k].(deletedDate := Some(now));
    var after := subs[k := s];
    assert after[k] == s;
    assert s in ById(after, s.id);
  }

  /** A second `deleteIfOwner` on the same submission is refused. */
  lemma SecondDeleteRefused(subs: seq<Submission>, key: Key, now: int)
    requires FirstById(subs, key).Some?
    ensures var k := FirstById(subs, key).value;
      var after := subs[k := subs[k].(deletedDate := Some(now))];
      FirstById(after, key) == Some(k) && IsDeleted(after[k])
  {
    var k := FirstById(subs, key).value;
    FirstByIdUpdate(subs, key, k, subs[k].(deletedDate := Some(now)));
  }

  /** Replacing the first match by a document with the same id keeps it the first match. */
  lemma {:induction false} FirstByIdUpdate(subs: seq<Submission>, key: Key, k: nat, s: Submission)
    requires FirstById(subs, key) == Some(k) && s.id == key
    ensures FirstById(subs[k := s], key) == Some(k)
    decreases |subs|
  {
    if k > 0 {
      assert subs[k := s][1..] == subs[1..][k - 1 := s];
      FirstByIdUpdate(subs[1..], key, k - 1, s);
    }
  }
}
