/**
 * Categories (platforms and data sets) and the counts rolled up through
 * their tree, as `PlatformService` computes them in
 * metriq-api/service/platformService.js.
 *
 * The database is an in-memory snapshot (`Store`). The recursive CTE
 * `WITH RECURSIVE c AS (SELECT <id> UNION ALL SELECT platforms.id FROM
 * platforms JOIN c ON c.id = platforms."platformId")` becomes `Closure`, and
 * each `SELECT COUNT(*) ... RIGHT JOIN c` becomes a row count over that set.
 */
module Categories {
  import opened Wrappers
  import opened Seqs
  import Text

  type Id = int

  /** A `platforms` row; `parent` is its `platformId` column. */
  datatype Platform = Platform(
    name: string,
    fullName: string,
    description: string,
    parent: Option<Id>,
    architectureId: Option<Id>,
    providerId: Option<Id>,
    isDataSet: bool,
    url: Option<string>,
    userId: Id)

  /** A `submissionPlatformRefs` row: submission `submissionId` is filed under platform `platformId`. */
  datatype SubmissionRef = SubmissionRef(id: Id, submissionId: Id, platformId: Id, userId: Id, deletedAt: Option<int>)

  /** A `results` row, attributed to a category through its `submissionPlatformRefId`. */
  datatype ResultRow = ResultRow(id: Id, submissionPlatformRefId: Option<Id>, deletedAt: Option<int>)

  /** A `likes` row. */
  datatype Like = Like(submissionId: Id, userId: Id)

  /** A platform subscription, the pair `platformSubscriptionService.getByFks` looks up. */
  datatype Subscription = Subscription(userId: Id, platformId: Id)

  /** The tables the service reads and writes. */
  datatype Store = Store(
    platforms: map<Id, Platform>,
    refs: seq<SubmissionRef>,
    results: seq<ResultRow>,
    likes: seq<Like>,
    submissions: seq<Id>,
    users: set<Id>,
    subscriptions: set<Subscription>)

  // ---------------------------------------------------------------------------
  // The category tree
  // ---------------------------------------------------------------------------

  /** One step of the recursive CTE: the platforms whose parent is among the rows `w`. */
  function Children(platforms: map<Id, Platform>, w: set<Id>): (r: set<Id>)
    ensures r <= platforms.Keys
  {
    set p | p in platforms && platforms[p].parent.Some? && platforms[p].parent.value in w
  }

  /** The rows the CTE produces from the rows `w` in `fuel` more recursive steps, `w` included. */
  function Cte(platforms: map<Id, Platform>, w: set<Id>, fuel: nat): (r: set<Id>)
    ensures w <= r
    decreases fuel
  {
    if fuel == 0 then w else w + Cte(platforms, Children(platforms, w), fuel - 1)
  }

  /**
   * The descendant closure of `id`: the anchor row `id` itself and every
   * platform the recursive step reaches. On an acyclic tree every level below
   * `id` is empty after `|platforms|` steps, so that many steps give the whole
   * closure (`ClosureIsDescendants`).
   */
  function Closure(s: Store, id: Id): (r: set<Id>)
    ensures id in r
    ensures r <= s.platforms.Keys + {id}
  {
    CteWithin(s.platforms, {id}, |s.platforms|);
    Cte(s.platforms, {id}, |s.platforms|)
  }

  lemma {:induction false} CteWithin(platforms: map<Id, Platform>, w: set<Id>, fuel: nat)
    ensures Cte(platforms, w, fuel) <= platforms.Keys + w
    decreases fuel
  {
    if fuel > 0 {
      CteWithin(platforms, Children(platforms, w), fuel - 1);
    }
  }

  /** The `k`-th ancestor of `x`: `Some(x)` for `k == 0`, `None` once the parent chain has ended. */
  function Ancestor(platforms: map<Id, Platform>, x: Id, k: nat): Option<Id>
    decreases k
  {
    if k == 0 then Some(x)
    else if x in platforms && platforms[x].parent.Some? then Ancestor(platforms, platforms[x].parent.value, k - 1)
    else None
  }

  /** A platform is a descendant of `id` when `id` lies on its parent chain (zero steps included). */
  ghost predicate IsDescendant(platforms: map<Id, Platform>, x: Id, id: Id) {
    exists k: nat :: Ancestor(platforms, x, k) == Some(id)
  }

  /** No parent chain loops: every chain ends within `|platforms|` steps. */
  ghost predicate Acyclic(platforms: map<Id, Platform>) {
    forall x :: x in platforms ==> Ancestor(platforms, x, |platforms| + 1).None?
  }

  /** The rows the CTE adds at depth `k` below the rows `w`. */
  function Level(platforms: map<Id, Platform>, w: set<Id>, k: nat): set<Id>
    decreases k
  {
    if k == 0 then w else Children(platforms, Level(platforms, w, k - 1))
  }

  lemma {:induction false} LevelShift(platforms: map<Id, Platform>, w: set<Id>, k: nat)
    ensures Level(platforms, Children(platforms, w), k) == Level(platforms, w, k + 1)
    decreases k
  {
    if k > 0 {
      LevelShift(platforms, w, k - 1);
    }
  }

  /** The CTE is the union of its levels. */
  lemma {:induction false} CteLevels(platforms: map<Id, Platform>, w: set<Id>, fuel: nat, x: Id)
    ensures x in Cte(platforms, w, fuel) <==> exists k :: 0 <= k <= fuel && x in Level(platforms, w, k)
    decreases fuel
  {
    assert Level(platforms, w, 0) == w;
    if x in w {
      assert x in Level(platforms, w, 0);
    } else if fuel == 0 {
      assert Cte(platforms, w, fuel) == w;
    } else {
      var ch := Children(platforms, w);
      assert Cte(platforms, w, fuel) == w + Cte(platforms, ch, fuel - 1);
      CteLevels(platforms, ch, fuel - 1, x);
      if x in Cte(platforms, w, fuel) {
        var k :| 0 <= k <= fuel - 1 && x in Level(platforms, ch, k);
        LevelShift(platforms, w, k);
        assert x in Level(platforms, w, k + 1);
      }
      if exists k :: 0 <= k <= fuel && x in Level(platforms, w, k) {
        var k :| 0 <= k <= fuel && x in Level(platforms, w, k);
        assert k > 0;
        LevelShift(platforms, w, k - 1);
        assert x in Level(platforms, ch, k - 1);
      }
    }
  }

  /** Depth `k` below `id` holds exactly the platforms whose `k`-th ancestor is `id`. */
  lemma {:induction false} LevelAncestor(platforms: map<Id, Platform>, id: Id, k: nat, x: Id)
    ensures x in Level(platforms, {id}, k) <==> Ancestor(platforms, x, k) == Some(id)
    decreases k
  {
    if k > 0 {
      if x in platforms && platforms[x].parent.Some? {
        LevelAncestor(platforms, id, k - 1, platforms[x].parent.value);
      }
    }
  }

  lemma {:induction false} AncestorEnded(platforms: map<Id, Platform>, x: Id, j: nat, k: nat)
    requires j <= k && Ancestor(platforms, x, j).None?
    ensures Ancestor(platforms, x, k).None?
    decreases j
  {
    if j > 0 && x in platforms && platforms[x].parent.Some? {
      AncestorEnded(platforms, platforms[x].parent.value, j - 1, k - 1);
    }
  }

  /** One more step up the chain is one step up from the `k`-th ancestor. */
  lemma {:induction false} AncestorStep(platforms: map<Id, Platform>, x: Id, k: nat, y: Id)
    requires Ancestor(platforms, x, k) == Some(y)
    ensures Ancestor(platforms, x, k + 1) == Ancestor(platforms, y, 1)
    decreases k
  {
    if k > 0 {
      AncestorStep(platforms, platforms[x].parent.value, k - 1, y);
    }
  }

  /**
   * On an acyclic tree the CTE computes exactly the descendants of `id`:
   * `id` itself and every platform whose parent chain passes through `id`.
   */
  lemma ClosureIsDescendants(s: Store, id: Id, x: Id)
    requires Acyclic(s.platforms)
    ensures x in Closure(s, id) <==> IsDescendant(s.platforms, x, id)
  {
    var n := |s.platforms|;
    CteLevels(s.platforms, {id}, n, x);
    if x in Closure(s, id) {
      var k :| 0 <= k <= n && x in Level(s.platforms, {id}, k);
      LevelAncestor(s.platforms, id, k, x);
    }
    if IsDescendant(s.platforms, x, id) {
      var k: nat :| Ancestor(s.platforms, x, k) == Some(id);
      if k > n {
        assert x in s.platforms;
        AncestorEnded(s.platforms, x, n + 1, k);
      }
      LevelAncestor(s.platforms, id, k, x);
    }
  }

  /** The closure of a child lies within the closure of its parent. */
  lemma ChildClosureWithinParent(s: Store, child: Id, parent: Id)
    requires Acyclic(s.platforms)
    requires child in s.platforms && s.platforms[child].parent == Some(parent)
    ensures Closure(s, child) <= Closure(s, parent)
  {
    forall x | x in Closure(s, child) ensures x in Closure(s, parent) {
      ClosureIsDescendants(s, child, x);
      var k: nat :| Ancestor(s.platforms, x, k) == Some(child);
      AncestorStep(s.platforms, x, k, child);
      assert Ancestor(s.platforms, x, k + 1) == Some(parent);
      ClosureIsDescendants(s, parent, x);
    }
  }

  // ---------------------------------------------------------------------------
  // Joins and counts
  // ---------------------------------------------------------------------------

  /** A row of `L RIGHT JOIN R`: the right row, and the left row it matched (`None`: all NULL). */
  datatype Joined<L, R> = Joined(left: Option<L>, right: R)

  /** The rows of `left` that match `r`, each paired with `r`. */
  function Matches<L, R>(left: seq<L>, r: R, on: (L, R) -> bool): (m: seq<Joined<L, R>>)
    ensures forall k :: 0 <= k < |m| ==> m[k].right == r && m[k].left.Some?
    decreases |left|
  {
    if left == [] then []
    else (if on(left[0], r) then [Joined(Some(left[0]), r)] else []) + Matches(left[1..], r, on)
  }

  /** The rows `r` contributes to a right join: its matches, or one row NULL on the left. */
  function JoinRow<L, R>(left: seq<L>, r: R, on: (L, R) -> bool): (m: seq<Joined<L, R>>)
    ensures |m| >= 1
    ensures forall k :: 0 <= k < |m| ==> m[k].right == r
  {
    var matched := Matches(left, r, on);
    if matched == [] then [Joined(None, r)] else matched
  }

  /** `left RIGHT JOIN right ON on`, right rows in order. */
  function RightJoin<L, R>(left: seq<L>, right: seq<R>, on: (L, R) -> bool): seq<Joined<L, R>>
    decreases |right|
  {
    if right == [] then [] else JoinRow(left, right[0], on) + RightJoin(left, right[1..], on)
  }

  lemma {:induction false} RightJoinAppend<L, R>(left: seq<L>, right: seq<R>, r: R, on: (L, R) -> bool)
    ensures RightJoin(left, right + [r], on) == RightJoin(left, right, on) + JoinRow(left, r, on)
    decreases |right|
  {
    var rr := right + [r];
    if right == [] {
      assert rr == [r];
    } else {
      assert rr[0] == right[0] && rr[1..] == right[1..] + [r];
      RightJoinAppend(left, right[1..], r, on);
      AppendAssoc(JoinRow(left, right[0], on), RightJoin(left, right[1..], on), JoinRow(left, r, on));
    }
  }

  lemma {:induction false} MatchesAppend<L, R>(left: seq<L>, l: L, r: R, on: (L, R) -> bool)
    ensures Matches(left + [l], r, on) == Matches(left, r, on) + (if on(l, r) then [Joined(Some(l), r)] else [])
    decreases |left|
  {
    var ll := left + [l];
    if left == [] {
      assert ll == [l];
    } else {
      assert ll[0] == left[0] && ll[1..] == left[1..] + [l];
      MatchesAppend(left[1..], l, r, on);
      AppendAssoc(if on(left[0], r) then [Joined(Some(left[0]), r)] else [], Matches(left[1..], r, on),
                  if on(l, r) then [Joined(Some(l), r)] else []);
    }
  }

  /** The platform ids of the rows that pass `keep`, one per row. */
  function Keys<L>(rows: seq<Joined<L, SubmissionRef>>, keep: Joined<L, SubmissionRef> -> bool): seq<Id>
    decreases |rows|
  {
    if rows == [] then []
    else (if keep(rows[0]) then [rows[0].right.platformId] else []) + Keys(rows[1..], keep)
  }

  lemma {:induction false} KeysConcat<L>(a: seq<Joined<L, SubmissionRef>>, b: seq<Joined<L, SubmissionRef>>, keep: Joined<L, SubmissionRef> -> bool)
    ensures Keys(a + b, keep) == Keys(a, keep) + Keys(b, keep)
    decreases |a|
  {
    var ab := a + b;
    if a == [] {
      assert ab == b;
    } else {
      assert ab[0] == a[0] && ab[1..] == a[1..] + b;
      KeysConcat(a[1..], b, keep);
      AppendAssoc(if keep(a[0]) then [a[0].right.platformId] else [], Keys(a[1..], keep), Keys(b, keep));
    }
  }

  lemma {:induction false} KeysNone<L>(rows: seq<Joined<L, SubmissionRef>>, keep: Joined<L, SubmissionRef> -> bool)
    requires forall k :: 0 <= k < |rows| ==> !keep(rows[k])
    ensures Keys(rows, keep) == []
    decreases |rows|
  {
    if rows != [] {
      KeysNone(rows[1..], keep);
    }
  }

  /** How many of `keys` fall in the closure `c`: the rows of the join that matched a closure node. */
  function CountIn(keys: seq<Id>, c: set<Id>): (n: nat)
    ensures n <= |keys|
    decreases |keys|
  {
    if keys == [] then 0 else (if keys[0] in c then 1 else 0) + CountIn(keys[1..], c)
  }

  function Elems(keys: seq<Id>): set<Id> {
    set k | k in keys
  }

  /**
   * `COUNT(*)` of `<left> RIGHT JOIN c ON c.id = <left>."platformId" AND ...`,
   * where `keys` holds, once per left row that passes the rest of the ON
   * condition, that row's platform id: every matched row, plus the one
   * all-NULL row a right join emits for each closure node nothing matched.
   */
  function JoinRowCount(keys: seq<Id>, c: set<Id>): nat {
    CountIn(keys, c) + |c - Elems(keys)|
  }

  lemma {:induction false} CountInMonotone(keys: seq<Id>, c: set<Id>, d: set<Id>)
    requires c <= d
    ensures CountIn(keys, c) <= CountIn(keys, d)
    decreases |keys|
  {
    if keys != [] {
      CountInMonotone(keys[1..], c, d);
    }
  }

  lemma {:induction false} CountInPositive(keys: seq<Id>, c: set<Id>, x: Id)
    requires x in keys && x in c
    ensures CountIn(keys, c) >= 1
    decreases |keys|
  {
    if keys[0] != x {
      CountInPositive(keys[1..], c, x);
    }
  }

  lemma {:induction false} CountInZero(keys: seq<Id>, c: set<Id>)
    requires CountIn(keys, c) == 0
    ensures forall k :: 0 <= k < |keys| ==> keys[k] !in c
    decreases |keys|
  {
    if keys != [] {
      CountInZero(keys[1..], c);
    }
  }

  /** The join row count grows with the closure: both the matched rows and the unmatched nodes do. */
  lemma JoinRowCountMonotone(keys: seq<Id>, c: set<Id>, d: set<Id>)
    requires c <= d
    ensures JoinRowCount(keys, c) <= JoinRowCount(keys, d)
  {
    CountInMonotone(keys, c, d);
    var e := Elems(keys);
    assert d - e == (c - e) + ((d - e) - (c - e));
  }

  /** As written, a right join onto a non-empty closure always has at least one row. */
  lemma JoinRowCountPositive(keys: seq<Id>, c: set<Id>, x: Id)
    requires x in c
    ensures JoinRowCount(keys, c) >= 1
  {
    if x in keys {
      CountInPositive(keys, c, x);
    } else {
      assert x in c - Elems(keys);
    }
  }

  predicate IsLive(r: SubmissionRef) {
    r.deletedAt.None?
  }

  /** The platform ids of the live refs, one per ref. */
  function LiveRefPlatforms(refs: seq<SubmissionRef>): seq<Id>
    decreases |refs|
  {
    if refs == [] then [] else (if IsLive(refs[0]) then [refs[0].platformId] else []) + LiveRefPlatforms(refs[1..])
  }

  lemma LiveRefPlatformsAppendDeleted(refs: seq<SubmissionRef>, r: SubmissionRef)
    requires !IsLive(r)
    ensures LiveRefPlatforms(refs + [r]) == LiveRefPlatforms(refs)
    decreases |refs|
  {
    if refs == [] {
      assert refs + [r] == [r];
    } else {
      assert (refs + [r])[1..] == refs[1..] + [r];
      LiveRefPlatformsAppendDeleted(refs[1..], r);
    }
  }

  /** `likes RIGHT JOIN submissions ON likes."submissionId" = submissions.id`. */
  function LikesBySubmission(s: Store): seq<Joined<Like, Id>> {
    RightJoin(s.likes, s.submissions, (l: Like, sid: Id) => l.submissionId == sid)
  }

  /** `... RIGHT JOIN "submissionPlatformRefs" spr ON submissions.id = spr."submissionId"`. */
  function LikeRows(s: Store): seq<Joined<Joined<Like, Id>, SubmissionRef>> {
    RightJoin(LikesBySubmission(s), s.refs, (t: Joined<Like, Id>, r: SubmissionRef) => t.right == r.submissionId)
  }

  /** The results ON condition's key match: `results."submissionPlatformRefId" = spr.id`. */
  predicate ResultOfRef(res: ResultRow, r: SubmissionRef) {
    res.submissionPlatformRefId == Some(r.id)
  }

  /** `results RIGHT JOIN "submissionPlatformRefs" spr ON results."submissionPlatformRefId" = spr.id`. */
  function ResultRows(s: Store): seq<Joined<ResultRow, SubmissionRef>> {
    RightJoin(s.results, s.refs, ResultOfRef)
  }

  /** The rest of the likes ON condition: `spr."deletedAt" IS NULL AND spr.id IS NOT NULL`. */
  predicate OnLiveRef(row: Joined<Joined<Like, Id>, SubmissionRef>) {
    IsLive(row.right)
  }

  /** The rest of the results ON condition: `spr.id IS NOT NULL AND results."deletedAt" IS NULL`; a NULL result passes. */
  predicate NoDeletedResult(row: Joined<ResultRow, SubmissionRef>) {
    row.left.None? || row.left.value.deletedAt.None?
  }

  /** A joined row that carries an actual like, on a live ref. */
  predicate IsLikeOnLiveRef(row: Joined<Joined<Like, Id>, SubmissionRef>) {
    IsLive(row.right) && row.left.Some? && row.left.value.left.Some?
  }

  /** A joined row that carries an actual, live result. */
  predicate IsLiveResult(row: Joined<ResultRow, SubmissionRef>) {
    row.left.Some? && row.left.value.deletedAt.None?
  }

  /** `getParentSubmissionCount`, as written: `COUNT(*)` counts the NULL row of every closure node without a live ref. */
  function SubmissionRowCount(s: Store, id: Id): nat {
    JoinRowCount(LiveRefPlatforms(s.refs), Closure(s, id))
  }

  /** `getParentLikeCount`, as written. */
  function LikeRowCount(s: Store, id: Id): nat {
    JoinRowCount(Keys(LikeRows(s), OnLiveRef), Closure(s, id))
  }

  /** `getParentResultCount`, as written (the refs' own `deletedAt` is not consulted). */
  function ResultRowCount(s: Store, id: Id): nat {
    JoinRowCount(Keys(ResultRows(s), NoDeletedResult), Closure(s, id))
  }

  /** The submission count the listing filter needs: live refs filed anywhere in the closure (`COUNT(spr.id)`). */
  function LiveSubmissionCount(s: Store, id: Id): nat {
    CountIn(LiveRefPlatforms(s.refs), Closure(s, id))
  }

  /** Likes on submissions filed, by a live ref, anywhere in the closure (`COUNT(likes."submissionId")`). */
  function LiveLikeCount(s: Store, id: Id): nat {
    CountIn(Keys(LikeRows(s), IsLikeOnLiveRef), Closure(s, id))
  }

  /** Live results attributed to refs anywhere in the closure (`COUNT(results.id)`). */
  function LiveResultCount(s: Store, id: Id): nat {
    CountIn(Keys(ResultRows(s), IsLiveResult), Closure(s, id))
  }

  /** The live submission count is zero exactly when no live ref is filed under any category of the closure. */
  lemma LiveSubmissionCountZero(s: Store, id: Id)
    ensures LiveSubmissionCount(s, id) == 0 <==> forall p :: p in LiveRefPlatforms(s.refs) ==> p !in Closure(s, id)
  {
    var keys := LiveRefPlatforms(s.refs);
    var c := Closure(s, id);
    if CountIn(keys, c) == 0 {
      CountInZero(keys, c);
    } else {
      if forall p :: p in keys ==> p !in c {
        CountInNoneIn(keys, c);
      }
    }
  }

  lemma {:induction false} CountInNoneIn(keys: seq<Id>, c: set<Id>)
    requires forall p :: p in keys ==> p !in c
    ensures CountIn(keys, c) == 0
    decreases |keys|
  {
    if keys != [] {
      var x := keys[0];
      assert x in keys;
      assert forall p :: p in keys[1..] ==> p in keys;
      CountInNoneIn(keys[1..], c);
    }
  }

  /**
   * Counts never decrease from a category to its parent: the parent's
   * closure contains the child's, so it has at least the child's rows, both
   * as the queries are written and in the live-row counts.
   */
  lemma ParentCountsAtLeastChild(s: Store, child: Id, parent: Id)
    requires Acyclic(s.platforms)
    requires child in s.platforms && s.platforms[child].parent == Some(parent)
    ensures SubmissionRowCount(s, child) <= SubmissionRowCount(s, parent)
    ensures LikeRowCount(s, child) <= LikeRowCount(s, parent)
    ensures ResultRowCount(s, child) <= ResultRowCount(s, parent)
    ensures LiveSubmissionCount(s, child) <= LiveSubmissionCount(s, parent)
    ensures LiveLikeCount(s, child) <= LiveLikeCount(s, parent)
    ensures LiveResultCount(s, child) <= LiveResultCount(s, parent)
  {
    var c, d := Closure(s, child), Closure(s, parent);
    ChildClosureWithinParent(s, child, parent);
    JoinRowCountMonotone(LiveRefPlatforms(s.refs), c, d);
    JoinRowCountMonotone(Keys(LikeRows(s), OnLiveRef), c, d);
    JoinRowCountMonotone(Keys(ResultRows(s), NoDeletedResult), c, d);
    CountInMonotone(LiveRefPlatforms(s.refs), c, d);
    CountInMonotone(Keys(LikeRows(s), IsLikeOnLiveRef), c, d);
    CountInMonotone(Keys(ResultRows(s), IsLiveResult), c, d);
  }

  /** The like rows a soft-deleted ref adds all fail the live-ref condition. */
  lemma LikeKeysAppendDeleted(s: Store, r: SubmissionRef, keep: Joined<Joined<Like, Id>, SubmissionRef> -> bool)
    requires !IsLive(r)
    requires forall row: Joined<Joined<Like, Id>, SubmissionRef> :: keep(row) ==> IsLive(row.right)
    ensures Keys(LikeRows(s.(refs := s.refs + [r])), keep) == Keys(LikeRows(s), keep)
  {
    var on := (x: Joined<Like, Id>, y: SubmissionRef) => x.right == y.submissionId;
    var lbs := LikesBySubmission(s);
    assert LikesBySubmission(s.(refs := s.refs + [r])) == lbs;
    RightJoinAppend(lbs, s.refs, r, on);
    var extra := JoinRow(lbs, r, on);
    KeysConcat(LikeRows(s), extra, keep);
    KeysNone(extra, keep);
    assert LikeRows(s) + [] == LikeRows(s);
  }

  /**
   * A soft-deleted ref contributes no row to the submission and like counts:
   * adding one to the store leaves all four counts as they were.
   */
  lemma DeletedRefNotCounted(s: Store, r: SubmissionRef, id: Id)
    requires !IsLive(r)
    ensures SubmissionRowCount(s.(refs := s.refs + [r]), id) == SubmissionRowCount(s, id)
    ensures LiveSubmissionCount(s.(refs := s.refs + [r]), id) == LiveSubmissionCount(s, id)
    ensures LikeRowCount(s.(refs := s.refs + [r]), id) == LikeRowCount(s, id)
    ensures LiveLikeCount(s.(refs := s.refs + [r]), id) == LiveLikeCount(s, id)
  {
    var t := s.(refs := s.refs + [r]);
    assert Closure(t, id) == Closure(s, id);
    LiveRefPlatformsAppendDeleted(s.refs, r);
    LikeKeysAppendDeleted(s, r, OnLiveRef);
    LikeKeysAppendDeleted(s, r, IsLikeOnLiveRef);
  }

  lemma KeysLiveResultAppendDeleted(results: seq<ResultRow>, refs: seq<SubmissionRef>, d: ResultRow, on: (ResultRow, SubmissionRef) -> bool)
    requires d.deletedAt.Some?
    ensures Keys(RightJoin(results + [d], refs, on), IsLiveResult) == Keys(RightJoin(results, refs, on), IsLiveResult)
    decreases |refs|
  {
    if refs != [] {
      var r := refs[0];
      KeysLiveResultAppendDeleted(results, refs[1..], d, on);
      MatchesAppend(results, d, r, on);
      var before, after := JoinRow(results, r, on), JoinRow(results + [d], r, on);
      var m := Matches(results, r, on);
      if on(d, r) {
        KeysConcat(m, [Joined(Some(d), r)], IsLiveResult);
      } else {
        assert m + [] == m;
      }
      KeysNone([Joined(None, r)], IsLiveResult);
      KeysNone([Joined(Some(d), r)], IsLiveResult);
      assert Keys(after, IsLiveResult) == Keys(before, IsLiveResult);
      KeysConcat(before, RightJoin(results, refs[1..], on), IsLiveResult);
      KeysConcat(after, RightJoin(results + [d], refs[1..], on), IsLiveResult);
    }
  }

  /** A soft-deleted result never contributes: adding one leaves the live result count unchanged. */
  lemma DeletedResultNotCounted(s: Store, d: ResultRow, id: Id)
    requires d.deletedAt.Some?
    ensures LiveResultCount(s.(results := s.results + [d]), id) == LiveResultCount(s, id)
  {
    var t := s.(results := s.results + [d]);
    assert Closure(t, id) == Closure(s, id);
    KeysLiveResultAppendDeleted(s.results, s.refs, d, ResultOfRef);
  }

  lemma {:induction false} CountInConcat(a: seq<Id>, b: seq<Id>, c: set<Id>)
    ensures CountIn(a + b, c) == CountIn(a, c) + CountIn(b, c)
    decreases |a|
  {
    var ab := a + b;
    if a == [] {
      assert ab == b;
    } else {
      assert ab[0] == a[0] && ab[1..] == a[1..] + b;
      CountInConcat(a[1..], b, c);
    }
  }

  lemma ElemsInsert(a: seq<Id>, x: Id, b: seq<Id>)
    ensures Elems(a + [x] + b) == Elems(a + b) + {x}
  {
    var axb, ab := a + [x] + b, a + b;
    forall k | k in Elems(axb) ensures k in Elems(ab) + {x} {
      var i :| 0 <= i < |axb| && axb[i] == k;
      if i < |a| {
        assert ab[i] == k;
      } else if i > |a| {
        assert ab[i - 1] == k;
      }
    }
    forall k | k in Elems(ab) ensures k in Elems(axb) {
      var i :| 0 <= i < |ab| && ab[i] == k;
      if i < |a| {
        assert axb[i] == k;
      } else {
        assert axb[i + 1] == k;
      }
    }
    assert axb[|a|] == x;
  }

  /** Dropping one key never raises the join row count: its matched row goes, and at most one NULL row comes back. */
  lemma JoinRowCountDrop(a: seq<Id>, x: Id, b: seq<Id>, c: set<Id>)
    ensures JoinRowCount(a + b, c) <= JoinRowCount(a + [x] + b, c)
  {
    CountInConcat(a, b, c);
    CountInConcat(a + [x], b, c);
    CountInConcat(a, [x], c);
    assert [x][1..] == [];
    var e, f := Elems(a + b), Elems(a + [x] + b);
    ElemsInsert(a, x, b);
    assert c - f == (c - e) - {x};
    if x in c - e {
      assert c - e == (c - f) + {x};
    }
  }

  /**
   * What appending a soft-deleted result does to one ref's keys in the results
   * join: nothing, or, when it is the ref's first match, it replaces the kept
   * all-NULL row by a row the ON condition drops.
   */
  lemma ResultKeysRowAppendDeleted(results: seq<ResultRow>, r: SubmissionRef, d: ResultRow, on: (ResultRow, SubmissionRef) -> bool)
    requires d.deletedAt.Some?
    ensures var before, after := Keys(JoinRow(results, r, on), NoDeletedResult), Keys(JoinRow(results + [d], r, on), NoDeletedResult);
            after == before || (before == [r.platformId] && after == [])
  {
    MatchesAppend(results, d, r, on);
    var m := Matches(results, r, on);
    var dRow := Joined(Some(d), r);
    KeysNone([dRow], NoDeletedResult);
    if on(d, r) {
      KeysConcat(m, [dRow], NoDeletedResult);
      assert m + [] == m;
      if m == [] {
        assert JoinRow(results + [d], r, on) == [dRow];
        var nullRow: Joined<ResultRow, SubmissionRef> := Joined(None, r);
        assert [nullRow][1..] == [];
      }
    } else {
      assert m + [] == m;
    }
  }

  lemma {:induction false} ResultKeysAppendDeleted(results: seq<ResultRow>, refs: seq<SubmissionRef>, d: ResultRow, on: (ResultRow, SubmissionRef) -> bool, pre: seq<Id>, c: set<Id>)
    requires d.deletedAt.Some?
    ensures JoinRowCount(pre + Keys(RightJoin(results + [d], refs, on), NoDeletedResult), c)
            <= JoinRowCount(pre + Keys(RightJoin(results, refs, on), NoDeletedResult), c)
    decreases |refs|
  {
    if refs == [] {
    } else {
      var r := refs[0];
      var beforeRow, afterRow := JoinRow(results, r, on), JoinRow(results + [d], r, on);
      var restBefore, restAfter := RightJoin(results, refs[1..], on), RightJoin(results + [d], refs[1..], on);
      KeysConcat(beforeRow, restBefore, NoDeletedResult);
      KeysConcat(afterRow, restAfter, NoDeletedResult);
      var b, a := Keys(beforeRow, NoDeletedResult), Keys(afterRow, NoDeletedResult);
      var kb, ka := Keys(restBefore, NoDeletedResult), Keys(restAfter, NoDeletedResult);
      ResultKeysRowAppendDeleted(results, r, d, on);
      ResultKeysAppendDeleted(results, refs[1..], d, on, pre + a, c);
      AppendAssoc(pre, a, ka);
      AppendAssoc(pre, a, kb);
      if a != b {
        assert pre + a == pre;
        JoinRowCountDrop(pre, r.platformId, kb, c);
        AppendAssoc(pre, [r.platformId], kb);
      }
    }
  }

  /**
   * As written, a soft-deleted result never raises the result count, but it
   * can lower it: its ref's all-NULL row, which the count kept, becomes a row
   * the ON condition drops (`DeletedResultLowersRowCount`).
   */
  lemma DeletedResultNeverRaisesRowCount(s: Store, d: ResultRow, id: Id)
    requires d.deletedAt.Some?
    ensures ResultRowCount(s.(results := s.results + [d]), id) <= ResultRowCount(s, id)
  {
    var t := s.(results := s.results + [d]);
    assert Closure(t, id) == Closure(s, id);
    var on := ResultOfRef;
    ResultKeysAppendDeleted(s.results, s.refs, d, on, [], Closure(s, id));
    assert [] + Keys(RightJoin(s.results, s.refs, on), NoDeletedResult) == Keys(ResultRows(s), NoDeletedResult);
    assert [] + Keys(RightJoin(s.results + [d], s.refs, on), NoDeletedResult) == Keys(ResultRows(t), NoDeletedResult);
  }

  /** One platform, one submission filed under it by two live refs, and no results. */
  function TwoLiveRefs(): Store {
    Store(map[1 := Platform("p", "", "", None, None, None, false, None, 1)],
          [SubmissionRef(10, 5, 1, 1, None), SubmissionRef(11, 5, 1, 1, None)], [], [], [5], {}, {})
  }

  lemma RightJoinPair<L, R>(left: seq<L>, r1: R, r2: R, on: (L, R) -> bool)
    ensures RightJoin(left, [r1, r2], on) == JoinRow(left, r1, on) + JoinRow(left, r2, on)
  {
    assert [r1, r2][1..] == [r2] && [r2][1..] == [];
    assert RightJoin(left, [r2], on) == JoinRow(left, r2, on) + [];
  }

  lemma NoResultsKeys(r1: SubmissionRef, r2: SubmissionRef, on: (ResultRow, SubmissionRef) -> bool)
    ensures Keys(RightJoin([], [r1, r2], on), NoDeletedResult) == [r1.platformId, r2.platformId]
  {
    var n1: Joined<ResultRow, SubmissionRef>, n2: Joined<ResultRow, SubmissionRef> := Joined(None, r1), Joined(None, r2);
    RightJoinPair([], r1, r2, on);
    KeysConcat([n1], [n2], NoDeletedResult);
    assert [n1][1..] == [] && [n2][1..] == [];
  }

  lemma DeletedResultKeys(d: ResultRow, r1: SubmissionRef, r2: SubmissionRef, on: (ResultRow, SubmissionRef) -> bool)
    requires on(d, r1) && !on(d, r2) && d.deletedAt.Some?
    ensures Keys(RightJoin([d], [r1, r2], on), NoDeletedResult) == [r2.platformId]
  {
    var m1: Joined<ResultRow, SubmissionRef>, n2: Joined<ResultRow, SubmissionRef> := Joined(Some(d), r1), Joined(None, r2);
    assert [d][1..] == [];
    assert Matches([d], r1, on) == [m1] + [];
    assert Matches([d], r2, on) == [] + [];
    RightJoinPair([d], r1, r2, on);
    KeysConcat([m1], [n2], NoDeletedResult);
    assert [m1][1..] == [] && [n2][1..] == [];
  }

  lemma TwoLiveRefsCountTwo()
    ensures ResultRowCount(TwoLiveRefs(), 1) == 2
  {
    var s := TwoLiveRefs();
    assert s.platforms.Keys == {1};
    assert Closure(s, 1) == {1};
    NoResultsKeys(s.refs[0], s.refs[1], ResultOfRef);
    assert s.refs == [s.refs[0], s.refs[1]];
    assert Elems([1, 1]) == {1};
  }

  lemma TwoLiveRefsDeletedResultCountOne()
    ensures ResultRowCount(TwoLiveRefs().(results := [ResultRow(20, Some(10), Some(0))]), 1) == 1
  {
    var t := TwoLiveRefs().(results := [ResultRow(20, Some(10), Some(0))]);
    assert t.platforms.Keys == {1};
    assert Closure(t, 1) == {1};
    DeletedResultKeys(t.results[0], t.refs[0], t.refs[1], ResultOfRef);
    assert t.refs == [t.refs[0], t.refs[1]];
    assert Elems([1]) == {1};
  }

  /** Two live refs and no results count 2 as written; one soft-deleted result on the first ref lowers that to 1. */
  lemma DeletedResultLowersRowCount()
    ensures var s := TwoLiveRefs();
            ResultRowCount(s, 1) == 2 && ResultRowCount(s.(results := s.results + [ResultRow(20, Some(10), Some(0))]), 1) == 1
  {
    var s := TwoLiveRefs();
    TwoLiveRefsCountTwo();
    TwoLiveRefsDeletedResultCountOne();
    assert s.results + [ResultRow(20, Some(10), Some(0))] == [ResultRow(20, Some(10), Some(0))];
  }

  /** The as-written counts are the live-row counts plus the NULL rows of the closure nodes nothing matched. */
  lemma RowCountsExceedLiveCounts(s: Store, id: Id)
    ensures SubmissionRowCount(s, id) >= LiveSubmissionCount(s, id)
    ensures SubmissionRowCount(s, id) == LiveSubmissionCount(s, id) + |Closure(s, id) - Elems(LiveRefPlatforms(s.refs))|
  {
  }

  /** As written, every category has a submission count of at least one, empty or not. */
  lemma SubmissionRowCountPositive(s: Store, id: Id)
    ensures SubmissionRowCount(s, id) >= 1
  {
    JoinRowCountPositive(LiveRefPlatforms(s.refs), Closure(s, id), id);
  }

  /** A single category with nothing filed under it: counted once as written, zero times live. */
  lemma EmptyCategoryCountedOnce()
    ensures var s := Store(map[1 := Platform("p", "", "", None, None, None, false, None, 1)], [], [], [], [], {}, {});
            SubmissionRowCount(s, 1) == 1 && LiveSubmissionCount(s, 1) == 0
  {
    var s := Store(map[1 := Platform("p", "", "", None, None, None, false, None, 1)], [], [], [], [], {}, {});
    var c := Closure(s, 1);
    assert c == {1};
    assert Elems([]) == {};
  }
}
