# metriq-api catalogue core, modelled in Dafny

This project models the part of the metriq-api services that aggregates and
ranks the catalogue. The store is an in-memory snapshot: maps and sequences
stand for tables and collections.

- **Category tree and rolled-up counts.** This is `PlatformService` in
  metriq-api/service/platformService.js, split across two files.
  - `categories.dfy` holds the recursive CTE as a set closure over the parent
    map, plus the three `RIGHT JOIN … COUNT(*)` queries on that closure.
  - `platform_service.dfy` holds the operations:
    - `populate`, which annotates listings with counts, filters them and
      flags subscriptions;
    - `submit`, which runs the name and parent checks, then the
      submission-list loop;
    - `update` and its re-parenting rule;
    - the `subscribe` toggle;
    - the guard in `addOrRemovePlatformSubmission`.
- **Postgres submissions** (metriq-api/service/submissionService.js, in
  `sql_submissions.dfy`):
  - name normalisation and `validateSubmission`;
  - `sqlLike` / `sqlTagLike` with their candidate filter, ordering and
    `LIMIT … OFFSET`;
  - the `upvote` toggle;
  - the tag loop of `submit`;
  - `addOrRemoveTag`.
- **Mongo submissions** (service/submissionService.js, in
  `mongo_submissions.dfy`):
  - id-or-name lookup and `get`;
  - `validateSubmission`;
  - the idempotent `upvote`;
  - the `deleteIfOwner` soft delete;
  - the latest, popular, trending and by-user pipelines and their tag
    variants.
- **Results** (metriq-api/service/resultService.js, in `results.dfy`):
  - the check order of `submit`;
  - the `while` loop that splices deleted results out of the list;
  - the `delete` soft delete.
- **Registration** (service/userService.js, in `users.dfy`): the check chain
  of `validateRegistration`.

Shared pieces:
- `text.dfy`: JavaScript `trim`, ASCII `toLowerCase`, `split` and `parseInt`.
- `seqs.dfy`: order-preserving filtering, used for every `WHERE` and `$match`.
- `ranking.dfy`: exact rational sort keys, a descending sort with a
  permutation proof, and the two paging conventions (`LIMIT/OFFSET` and
  `.skip().limit()`).
- `wrappers.dfy`: the `Option` and `Result` datatypes.

Where a service changes state, the model follows the same shape in every
file. A `class` holds the store. Its methods are proved to leave exactly the
state a function of the old state describes. Lemmas then prove the
properties of those functions.

Three decisions follow the SQL as written where a reader might expect a filter:

1. The Postgres ranking queries do not filter on `submissions."deletedAt"`.
2. The result count does not consult the ref's own `deletedAt`.
3. `COUNT(*)` over a `RIGHT JOIN` counts the all-NULL row. See "Findings".

## Model

| member | source | states |
|---|---|---|
| Categories.Closure | metriq-api/service/platformService.js:134-138 | the anchor id is always in its closure, and every other member is a stored platform |
| Categories.Cte | metriq-api/service/platformService.js:134-138 | the CTE run for a number of recursive steps: the anchor rows plus every platform each step reaches; it always contains its anchor rows |
| Categories.RightJoin | metriq-api/service/platformService.js:169-170 | `left RIGHT JOIN right`: every right row, in order, with each left row it matches, or with one all-NULL left row when it matches none |
| Categories.JoinRowCount | metriq-api/service/platformService.js:140-141 | `COUNT(*)` of a right join onto the closure: one row per kept left row inside the closure, plus one all-NULL row per closure node nothing matched |
| Categories.SubmissionRowCount | metriq-api/service/platformService.js:132-142 | `getParentSubmissionCount` as written: `COUNT(*)` over live refs right-joined onto the closure |
| Categories.LikeRowCount | metriq-api/service/platformService.js:145-157 | `getParentLikeCount` as written: `COUNT(*)` over likes, submissions and live refs right-joined onto the closure |
| Categories.ResultRowCount | metriq-api/service/platformService.js:160-171 | `getParentResultCount` as written: `COUNT(*)` over undeleted results and refs right-joined onto the closure, the ref's own `deletedAt` unchecked |
| Categories.LiveSubmissionCount | metriq-api/service/platformService.js:140-141 | the corrected submission count, `COUNT(spr.id)`: live refs filed anywhere in the closure |
| Categories.LiveLikeCount | metriq-api/service/platformService.js:153-156 | the corrected like count, `COUNT(likes."submissionId")`: actual likes on submissions filed by a live ref in the closure |
| Categories.LiveResultCount | metriq-api/service/platformService.js:168-170 | the corrected result count, `COUNT(results.id)`: live results on refs filed in the closure |
| Categories.ClosureIsDescendants | metriq-api/service/platformService.js:134-138 | on an acyclic tree, x is in closure(id) exactly when id lies on x's parent chain |
| Categories.ChildClosureWithinParent | metriq-api/service/platformService.js:136-138 | a child's closure lies within its parent's |
| Categories.ParentCountsAtLeastChild | metriq-api/service/platformService.js:132-172 | every count, as written and over live rows, is at least as large for the parent as for the child |
| Categories.DeletedRefNotCounted | metriq-api/service/platformService.js:140-157 | adding a soft-deleted ref changes neither the submission count nor the like count (as written and live) |
| Categories.DeletedResultNotCounted | metriq-api/service/platformService.js:168-170 | adding a soft-deleted result leaves the live result count unchanged |
| Categories.DeletedResultNeverRaisesRowCount | metriq-api/service/platformService.js:168-170 | as written, adding a soft-deleted result never raises the result count |
| Categories.DeletedResultLowersRowCount | metriq-api/service/platformService.js:168-170 | two live refs and no results count 2 as written; one soft-deleted result on the first ref lowers the count to 1 |
| Categories.JoinRowCountDrop | metriq-api/service/platformService.js:140-141 | dropping one kept row never raises a right-join count: its matched row goes and at most one NULL row comes back |
| Categories.RowCountsExceedLiveCounts | metriq-api/service/platformService.js:140-141 | the as-written submission count equals the live-ref count plus one NULL row per unmatched closure node |
| Categories.LiveSubmissionCountZero | metriq-api/service/platformService.js:140-141 | the live submission count is zero exactly when no live ref is filed anywhere in the closure |
| Categories.SubmissionRowCountPositive | metriq-api/service/platformService.js:140-141 | as written, every category's submission count is at least 1 |
| Categories.EmptyCategoryCountedOnce | metriq-api/service/platformService.js:140-141 | a lone empty category has an as-written count of 1 and a live count of 0 |
| PlatformServices.CountsOfBounds | metriq-api/service/platformService.js:81-83 | as written the submission count is at least 1; a live count is zero exactly when nothing live is filed in the closure |
| PlatformServices.MarkSubscribed | metriq-api/service/platformService.js:91-95 | with a truthy user id each row is flagged with that user's subscription; otherwise the rows are returned untouched |
| PlatformServices.Listed | metriq-api/service/platformService.js:80-90 | the first two loops of `populate`: the rows with the tally's counts attached, keeping those whose submission count is positive |
| PlatformServices.ListedIsAnnotated | metriq-api/service/platformService.js:80-90 | every listed row is an input row with its counts attached and a positive submission count |
| PlatformServices.AnnotatedIsListed | metriq-api/service/platformService.js:80-90 | every input row with a positive submission count is listed with its counts attached |
| PlatformServices.ListedExactly | metriq-api/service/platformService.js:80-90 | a row is listed exactly when it is an input row with its three counts attached and a positive submission count |
| PlatformServices.ListedConcat | metriq-api/service/platformService.js:85-90 | the listing keeps input order, distributing over concatenation |
| PlatformServices.AsWrittenListsEveryRow | metriq-api/service/platformService.js:86-90 | with the counts as written, the filter drops nothing |
| PlatformServices.EmptyCategoryNotListed | metriq-api/service/platformService.js:86-90 | with live counts, a category with nothing filed below it is dropped |
| PlatformServices.PlatformService.Populate | metriq-api/service/platformService.js:79-97 | for the chosen tally (as-written totals or live counts), the returned rows are the counted, filtered, subscription-flagged input rows |
| PlatformServices.AttachCounts | metriq-api/service/platformService.js:80-84 | the first loop gives each row, in place, the totals the count queries return for its id, and changes nothing else; `populate` passes the totals of the chosen tally |
| PlatformServices.PlatformService.KeepWithSubmissions | metriq-api/service/platformService.js:85-90 | the second loop keeps, in order, the rows with a positive submission count |
| PlatformServices.PlatformService.FlagSubscriptions | metriq-api/service/platformService.js:91-95 | the third loop flags every kept row with the user's subscription |
| PlatformServices.FindRef | metriq-api/service/platformService.js:351-352 | returns the first live ref of the submission under the platform, or None when no ref matches |
| PlatformServices.CreateOrFetch | metriq-api/service/platformService.js:349 | `createOrFetch`: the refs unchanged when a ref of the pair exists, else a new live ref of the pair appended |
| PlatformServices.HasResults | metriq-api/service/platformService.js:353-354 | `getByPlatformIdSubmissionId` returns something: a live result sits on a ref joining the submission to the platform |
| PlatformServices.CreateOrFetchFiles | metriq-api/service/platformService.js:349 | after createOrFetch the pair is filed, and the old refs are a prefix of the new ones |
| PlatformServices.CreateOrFetchIdempotent | metriq-api/service/platformService.js:349 | a second createOrFetch of the same pair changes nothing |
| PlatformServices.FiledMeansCounted | metriq-api/service/platformService.js:140-141 | a live filing under a category makes its live submission count, and every ancestor's, positive |
| PlatformServices.SoftDeleteRef | metriq-api/service/platformService.js:357 | the deleted ref is no longer live and every other ref is unchanged |
| PlatformServices.UpdateNeverSelfParent | metriq-api/service/platformService.js:319-321 | an update never makes a platform its own parent (unless it already was and the key is not sent) |
| PlatformServices.UpdateKeepsUnsent | metriq-api/service/platformService.js:310-330 | every field whose key is not sent keeps its value; the owner and data-set flag never change |
| PlatformServices.UpdateTrims | metriq-api/service/platformService.js:310-312 | a sent name is stored trimmed |
| PlatformServices.UpdateCanCloseLoop | metriq-api/service/platformService.js:319-321 | a concrete acyclic tree that an update turns cyclic, by parenting a platform under its own child |
| PlatformServices.UpdateText | metriq-api/service/platformService.js:310-318 | the name, full name and description are each replaced by the trimmed sent value only when sent |
| PlatformServices.UpdateParentProvider | metriq-api/service/platformService.js:319-324 | a sent parent is kept only when truthy and not the platform itself, else cleared; a sent provider is kept when truthy, else cleared |
| PlatformServices.UpdateArchitectureUrl | metriq-api/service/platformService.js:325-330 | a sent architecture is kept when truthy, else cleared; a sent url replaces the old one |
| PlatformServices.Updated | metriq-api/service/platformService.js:310-330 | the platform after `update`'s field assignments: each sent key replaces its field, trimmed or parsed as the source does |
| PlatformServices.PlatformService.Update | metriq-api/service/platformService.js:304-335 | a missing platform is refused; otherwise exactly that platform is replaced by its updated fields |
| PlatformServices.LinkedStaysFailed | metriq-api/service/platformService.js:223-234 | once the loop has hit a missing submission, later pieces change nothing |
| PlatformServices.LinkedFilesEveryPiece | metriq-api/service/platformService.js:223-234 | when the loop succeeds, every non-blank piece parses to an existing submission that is now filed under the platform |
| PlatformServices.LinkedExtends | metriq-api/service/platformService.js:223-234 | the loop only ever adds refs |
| PlatformServices.Linked | metriq-api/service/platformService.js:223-234 | the submission-list loop: blank pieces skipped, the first piece naming no submission stops it, every other piece filed |
| PlatformServices.LinkPieces | metriq-api/service/platformService.js:223-234 | the loop of `submit` ends with exactly the outcome and the refs of the submission-list pass `Linked` |
| PlatformServices.NewPlatform | metriq-api/service/platformService.js:200-209 | the row `submit` creates: a falsy parent becomes NULL, a `null` url becomes empty |
| PlatformServices.PlatformService.Submit | metriq-api/service/platformService.js:194-237 | refuses a taken name, then a missing parent, leaving the store alone; otherwise creates the platform and files the listed submissions, stopping at the first missing one |
| PlatformServices.Toggled | metriq-api/service/platformService.js:293-298 | the subscription's membership flips, and every other subscription is unchanged |
| PlatformServices.ToggledTwice | metriq-api/service/platformService.js:293-298 | subscribing twice restores the subscriptions |
| PlatformServices.PlatformService.Subscribe | metriq-api/service/platformService.js:282-302 | a missing platform, then a missing user, is refused; otherwise the subscription is toggled |
| PlatformServices.PlatformService.AddOrRemovePlatformSubmission | metriq-api/service/platformService.js:337-365 | add files the pair; remove soft-deletes the found ref, but refuses and keeps it while live results use it |
| PlatformServices.RefusedRemovalKeepsRef | metriq-api/service/platformService.js:351-356 | a refused removal leaves the ref live and filing the pair |
| PlatformServices.RemovalDeletesFoundRef | metriq-api/service/platformService.js:357 | a removal deletes exactly the ref it found |
| Text.Trim | metriq-api/service/submissionService.js:95 | the result has no white space at either end and is no longer than the input |
| Text.TrimIsInfix | metriq-api/service/submissionService.js:95 | the trimmed string is an infix of the input, with only white space cut from either end |
| Text.NormalizeIdempotent | metriq-api/service/submissionService.js:95 | normalising twice is normalising once |
| Text.NormalizeIgnoresPadding | metriq-api/service/submissionService.js:95 | leading and trailing white space does not change the normal form |
| Text.NormalizeIgnoresCase | metriq-api/service/submissionService.js:95 | strings that differ only in letter case have the same normal form |
| Text.VariantNormalizes | metriq-api/service/submissionService.js:95 | an upper-cased, padded name has the normal form of the name |
| Text.Split | metriq-api/service/submissionService.js:181 | split yields at least one piece, and no piece contains the separator |
| Text.JoinSplit | metriq-api/service/submissionService.js:181 | joining the pieces with the separator gives back the string |
| Text.ParseInt | metriq-api/service/platformService.js:227 | `parseInt` without a radix yields a number only when the text contains a digit; it reads hexadecimal after `0x` or `0X` and decimal otherwise |
| Text.ParseIntDecimal | metriq-api/service/platformService.js:227 | parseInt reads back every decimal numeral |
| Text.ParseIntNegativeDecimal | metriq-api/service/platformService.js:227 | parseInt reads back every negative decimal numeral |
| Text.ParseIntNumeral | metriq-api/service/platformService.js:227 | a run of decimal digits reads back as its value |
| Text.ParseIntNegativeNumeral | metriq-api/service/platformService.js:227 | a minus sign before a run of decimal digits negates its value |
| Text.ParseIntHex | metriq-api/service/platformService.js:227 | after a `0x` prefix the hexadecimal digits are read in base 16, and a bare prefix is `NaN` |
| Text.ParseIntHexExample | metriq-api/service/platformService.js:227 | `"0x10"` reads as 16 and `"0x"` as `NaN` |
| Ranking.SortDesc | metriq-api/service/submissionService.js:38 | the ordering is a permutation of its input and is sorted descending |
| Ranking.SqlPage | metriq-api/service/submissionService.js:39 | `LIMIT/OFFSET` returns min(limit, rows after offset) rows, the k-th being row offset+k |
| Ranking.MongoPage | service/submissionService.js:261 | `.skip().limit()` fails exactly for a limit of 0, which the `$limit` stage refuses; otherwise it is the SQL page |
| Ranking.FirstPagesArePrefix | metriq-api/service/submissionService.js:38-39 | reading successive pages returns the ordering's prefix, each row exactly once |
| Ranking.LaterPagesRankLower | metriq-api/service/submissionService.js:38-39 | on a descending ordering, no row of a later page ranks above a row of an earlier page |
| SqlSubmissions.GetByName | metriq-api/service/submissionService.js:94-97 | finds a stored submission whose normal name is the normalised query, or None when there is none |
| SqlSubmissions.GetByNameCollides | metriq-api/service/submissionService.js:94-97 | names differing only in case or outer white space find the same submission |
| SqlSubmissions.GetByNameNormalised | metriq-api/service/submissionService.js:260 | looking up the already-normalised name finds what the raw name finds |
| SqlSubmissions.ValidateSubmission | metriq-api/service/submissionService.js:246-266 | `validateSubmission`: a missing name, a blank URL, a blank normalised name and a used name are refused in that order |
| SqlSubmissions.ValidateSubmissionOrder | metriq-api/service/submissionService.js:246-258 | a missing name is reported first, a blank URL next, a blank normalised name after that |
| SqlSubmissions.ValidateSubmissionSucceeds | metriq-api/service/submissionService.js:246-266 | validation succeeds exactly when both fields are present and not blank and the normalised name is unused |
| SqlSubmissions.ValidateSubmissionRefusesTaken | metriq-api/service/submissionService.js:260-263 | a name whose normal form is stored is refused as in use |
| SqlSubmissions.ValidateSubmissionRefusesVariant | metriq-api/service/submissionService.js:255-263 | a case or padding variant of a stored name is refused as in use |
| SqlSubmissions.UserLikeSumPositive | metriq-api/service/submissionService.js:32-33 | `isUpvoted` holds exactly when the user has a like row for the submission |
| SqlSubmissions.UserLikeSumAtMostCount | metriq-api/service/submissionService.js:33 | the user's likes never exceed the submission's like count |
| SqlSubmissions.LikeCount | metriq-api/service/submissionService.js:33-34 | `COUNT(likes.*)` for one submission: its like rows |
| SqlSubmissions.Rank | metriq-api/service/submissionService.js:32-37 | a row of `sqlLike`: the submission, its like count and whether the user liked it |
| SqlSubmissions.TagRank | metriq-api/service/submissionService.js:43-48 | a row of `sqlTagLike`: the `LEFT JOIN` on tag refs repeats each like once per ref of the tag |
| SqlSubmissions.Candidates | metriq-api/service/submissionService.js:35 | the candidates are exactly the stored submissions with `approvedAt` set |
| SqlSubmissions.TagCandidates | metriq-api/service/submissionService.js:46-47 | the tag candidates are exactly the approved submissions with a ref to the tag |
| SqlSubmissions.TagRankCounts | metriq-api/service/submissionService.js:44-47 | a tagged row counts the likes once per tag ref and agrees with the untagged row on `isUpvoted` |
| SqlSubmissions.OrderedPage | metriq-api/service/submissionService.js:38-39 | a page has at most `limit` of the given rows, descending in the column, taken from the sorted rows at `offset` |
| SqlSubmissions.Listing | metriq-api/service/submissionService.js:301-309 | every listed row is an approved stored submission with its like count and the user's flag; the page is the requested slice of all ranked candidates in the column's order |
| SqlSubmissions.TagByName | metriq-api/service/submissionService.js:312 | finds a tag with the name, or None when no tag has it |
| SqlSubmissions.TagListing | metriq-api/service/submissionService.js:322-342 | fails with 'Category not found' exactly when the tag is missing; otherwise lists approved submissions tagged with it, and the page is the requested slice of all tagged ranked candidates in the column's order |
| SqlSubmissions.TrendingRows | metriq-api/service/submissionService.js:54-62 | fails with a division by zero exactly when an approved submission was created today; otherwise the rows are exactly the ranked rows of the approved submissions |
| SqlSubmissions.TagTrendingRows | metriq-api/service/submissionService.js:311-320 | 'Category not found' exactly when the tag is missing; then a division by zero exactly when a tagged candidate was created today; otherwise one row per tagged candidate |
| SqlSubmissions.ListingPagesOrdered | metriq-api/service/submissionService.js:38-39 | no row on a later page of a listing ranks above a row on an earlier page |
| SqlSubmissions.ListingPagesCoverCandidates | metriq-api/service/submissionService.js:38-39 | enough pages list every candidate row exactly once |
| SqlSubmissions.IndexOf | metriq-api/service/submissionService.js:280 | returns the first position of the user, or -1 when absent |
| SqlSubmissions.Toggle | metriq-api/service/submissionService.js:280-285 | the likes after `upvote`: the user's first like spliced out when present, else the user pushed |
| SqlSubmissions.ToggleMultiset | metriq-api/service/submissionService.js:280-285 | a toggle takes one copy of the user's vote out of the likes when present, else adds one |
| SqlSubmissions.ToggleFlips | metriq-api/service/submissionService.js:280-285 | a toggle removes one vote of the user or adds one; other users' votes are untouched; with at most one vote, membership flips |
| SqlSubmissions.ToggleTwiceFromAbsent | metriq-api/service/submissionService.js:280-285 | from "not voted", two toggles restore the exact list |
| SqlSubmissions.ToggleTwiceFromPresent | metriq-api/service/submissionService.js:280-285 | from "voted once", two toggles restore the same votes, the user's moved to the end |
| SqlSubmissions.SpliceOrPush | metriq-api/service/submissionService.js:280-285 | splicing the user's like out when present, else pushing it, leaves exactly the toggled like list |
| SqlSubmissions.SubmissionService.Upvote | metriq-api/service/submissionService.js:268-289 | a missing submission, then a missing user, is refused; otherwise the submission's likes are toggled |
| SqlSubmissions.TagNames | metriq-api/service/submissionService.js:180-190 | every collected tag name is non-empty and already in normal form |
| SqlSubmissions.TagNamesFromPieces | metriq-api/service/submissionService.js:182-189 | every non-blank piece contributes its normal form, in order |
| SqlSubmissions.CreateOrFetchTag | metriq-api/service/submissionService.js:185 | returns a tag with the name, adding at most one tag and keeping those before it |
| SqlSubmissions.TagStep | metriq-api/service/submissionService.js:185-188 | one loop turn adds one id, naming a tag with the piece's name, and keeps every tag's id and name |
| SqlSubmissions.TagPass | metriq-api/service/submissionService.js:182-190 | the tag loop over the pieces: the tags afterwards and the collected tag ids; it never loses a tag |
| SqlSubmissions.TagPassKeepsNames | metriq-api/service/submissionService.js:182-190 | the loop never changes a tag's id or name |
| SqlSubmissions.TagPassIds | metriq-api/service/submissionService.js:182-190 | the loop collects one id per tag name, the k-th belonging to a tag named by the k-th name |
| SqlSubmissions.TagLoop | metriq-api/service/submissionService.js:181-190 | the loop over the comma-separated pieces yields the tags and ids of the tag pass over all pieces in order |
| SqlSubmissions.TagTurn | metriq-api/service/submissionService.js:182-189 | a blank piece is skipped; any other one is fetched or created, takes the submission id and contributes its tag id |
| SqlSubmissions.SubmissionService.CollectTags | metriq-api/service/submissionService.js:179-192 | the tag loop leaves the tags and ids of the tag pass and changes nothing else |
| SqlSubmissions.FindTagRef | metriq-api/service/submissionService.js:358 | finds a ref joining the pair, or None only when no ref joins them |
| SqlSubmissions.CreateOrFetchTagRef | metriq-api/service/submissionService.js:352 | afterwards a ref joining the pair exists |
| SqlSubmissions.TagRefCountRemove | metriq-api/service/submissionService.js:359 | removing a ref leaves one fewer joining its pair |
| SqlSubmissions.AddThenRemoveTag | metriq-api/service/submissionService.js:350-359 | adding a new tag and then removing it leaves no ref between them |
| SqlSubmissions.SubmissionService.AddOrRemoveTag | metriq-api/service/submissionService.js:344-363 | a missing submission is refused; add fetches the tag and ref; remove needs the tag, then deletes the ref or crashes on a null one |
| MongoSubmissions.ById | service/submissionService.js:34-36 | returns exactly the documents with the id |
| MongoSubmissions.ByName | service/submissionService.js:38-40 | returns exactly the documents whose normal name is the normalised query |
| MongoSubmissions.ByNameOrId | service/submissionService.js:42-48 | the id matches win, and the name is consulted only when no id matches |
| MongoSubmissions.IdLookupWins | service/submissionService.js:42-48 | a document stored under the key is returned, whatever shares its name |
| MongoSubmissions.NameFallback | service/submissionService.js:42-48 | with no id match, a document with the key's normal name is returned |
| MongoSubmissions.Get | service/submissionService.js:50-68 | 'Submission not found' exactly when nothing matches; success only with an undeleted match by id or name |
| MongoSubmissions.ValidateSubmission | service/submissionService.js:190-206 | `validateSubmission`: a falsy or blank normalised name, then a used one, is refused |
| MongoSubmissions.GetHidesDeleted | service/submissionService.js:63-65 | a deleted first match is refused with 'Submission not found.' |
| MongoSubmissions.ValidateSubmissionSucceeds | service/submissionService.js:190-206 | validation succeeds exactly when the name is present, not blank once normalised, and unused |
| MongoSubmissions.ValidateSubmissionBlankFirst | service/submissionService.js:195-198 | an all-white-space name is refused as blank, not as in use |
| MongoSubmissions.AddVoter | service/submissionService.js:221-224 | the user is a voter afterwards, the old list is a prefix, and a present user leaves the list unchanged |
| MongoSubmissions.AddVoterIdempotent | service/submissionService.js:221-224 | upvoting twice equals upvoting once |
| MongoSubmissions.AddVoterKeepsDistinct | service/submissionService.js:221-224 | a voter list without repeats stays without repeats |
| MongoSubmissions.UpvoteTwiceIsOnce | service/submissionService.js:221-224 | after an upvote the user is a voter, and repeating it changes nothing |
| MongoSubmissions.FirstById | service/submissionService.js:209-213 | the first document with the id, or None exactly when none has it |
| MongoSubmissions.Candidates | service/submissionService.js:259 | the candidates are exactly the undeleted, approved documents |
| MongoSubmissions.TagCandidates | service/submissionService.js:331 | the tag candidates are exactly the candidates whose tags hold the tag id |
| MongoSubmissions.TagCandidatesAreCandidates | service/submissionService.js:288 | a tag listing draws only from the untagged candidates |
| MongoSubmissions.SortedPage | service/submissionService.js:260-261 | a limit of 0 fails; otherwise a page is drawn from its input, descending by the key, and is the sorted input skipped and limited |
| MongoSubmissions.Latest | service/submissionService.js:257-263 | a limit of 0 fails; otherwise lists undeleted approved documents, newest `submittedDate` first |
| MongoSubmissions.Popular | service/submissionService.js:265-276 | a limit of 0 fails; otherwise lists undeleted approved documents, most upvotes first |
| MongoSubmissions.ByUser | service/submissionService.js:229-236 | a limit of 0 fails; otherwise lists the user's undeleted documents, newest first |
| MongoSubmissions.TrendScore | service/submissionService.js:243-249 | the score denotes the upvote count times one hour divided by the time since approval |
| MongoSubmissions.Trending | service/submissionService.js:238-255 | fails exactly when the limit is 0 or a candidate was approved at `now`, with the matching error; otherwise lists only candidates, and the page is the requested slice of the candidates in trending order |
| MongoSubmissions.RecentTrendsHigher | service/submissionService.js:243-252 | with equal, non-zero upvotes, the submission approved later scores strictly higher |
| MongoSubmissions.MoreUpvotesTrendHigher | service/submissionService.js:243-252 | approved at the same time, more upvotes score at least as high |
| MongoSubmissions.TagByName | service/submissionService.js:281-284 | returns the id of a tag with the name, or None when no tag has it |
| MongoSubmissions.TagListing | service/submissionService.js:278-335 | 'Category not found' exactly for a missing tag; a found tag with a limit of 0 fails; a found tag with a positive limit fails with a division by zero exactly for trending order with a candidate approved at `now`; otherwise only tagged candidates, as the requested slice in the chosen order |
| MongoSubmissions.LatestPagesOrdered | service/submissionService.js:260-261 | no row on a later page of the latest listing is newer than a row on an earlier page |
| MongoSubmissions.MongoSubmissionService.Upvote | service/submissionService.js:208-227 | a missing submission, then a missing user, is refused; otherwise the user is added as a voter if absent |
| MongoSubmissions.MongoSubmissionService.DeleteIfOwner | service/submissionService.js:92-117 | a missing or already deleted submission is refused; otherwise it is marked deleted at `now` |
| MongoSubmissions.DeletedLeavesListings | service/submissionService.js:113 | a soft-deleted submission is no candidate of any listing but is still found by id |
| MongoSubmissions.SecondDeleteRefused | service/submissionService.js:105-107 | after a delete the same id finds the same, now deleted, document, so a second delete is refused |
| Results.FindSubmission | metriq-api/service/resultService.js:43-46 | the position of a submission with the id, or None when none has it |
| Results.FindResult | metriq-api/service/resultService.js:102-104 | the position of a result with the id, or None when none has it |
| Results.Populate | metriq-api/service/resultService.js:87 | populated results are stored documents of listed ids |
| Results.PopulateAppend | metriq-api/service/resultService.js:85-87 | populating after a push appends the pushed result's document |
| Results.SubmitChecks | metriq-api/service/resultService.js:43-78 | 'Submission not found' exactly for a missing submission; success exactly when the submission, task and method are all present |
| Results.SubmitCheckOrder | metriq-api/service/resultService.js:61-78 | a missing task is reported before a missing method |
| Results.RemoveDeleted | metriq-api/service/resultService.js:88-96 | the splice loop leaves exactly the live results, in their order |
| Results.DropStep | metriq-api/service/resultService.js:90-91 | splicing out a deleted result keeps the live-prefix invariant of the loop without moving the index |
| Results.KeepStep | metriq-api/service/resultService.js:92-95 | stepping past a live result extends the live prefix by that result |
| Results.RemoveDeletedKeepsLive | metriq-api/service/resultService.js:88-96 | a result survives the loop exactly when it was in the list and is live |
| Results.ResultService.Submit | metriq-api/service/resultService.js:42-99 | a failing check or creation changes nothing; otherwise the result is stored, its id pushed onto the submission, and the live populated results returned |
| Results.ResultService.Delete | metriq-api/service/resultService.js:101-116 | a missing or deleted result is refused; otherwise it is marked deleted at `now` |
| Results.SubmittedResultReturned | metriq-api/service/resultService.js:85-96 | the new result is among the results `submit` returns |
| Results.SecondDeleteRefused | metriq-api/service/resultService.js:108-110 | after a delete the same id finds the result deleted, so a second delete is refused |
| Users.ValidateRegistrationFirstFailure | service/userService.js:56-96 | each message is returned exactly when its check is the first to fail |
| Users.ValidateRegistration | service/userService.js:56-98 | `validateRegistration`: the password, confirmation, username and email checks, then the in-use checks, in the source's order |
| Users.ValidateRegistrationSucceeds | service/userService.js:56-98 | registration is accepted exactly when every check passes |
| Users.UsernameVariantTaken | service/userService.js:69-90 | a case or padding variant of a stored username counts as taken |
| Users.InUseOnlyAfterFormat | service/userService.js:88-96 | the in-use checks are reached only after every format check has passed |

## Left out

- I/O, concurrency and transactions are not modelled. This covers `async`/`await` sequencing, interleaved requests, email sending, bcrypt hashing, and `console.log`.
- Clocks, fresh ids and fallible creation become parameters:
  - `now` is passed in.
  - The id the database assigns in `submit` is passed in, with a requirement that it is unused.
  - The database's refusal to create a result is `createOk` and `createError`.
- Display assembly is not modelled: `getSanitized`, `getPropertiesByPk`, the populated response bodies and the SQL string building.
- These reads and operations are not modelled because they involve no rule beyond a query:
  - the per-id counts `getResultCount`, `getSubmissionCount` and `getLikeCount` (metriq-api/service/platformService.js:34-66);
  - `getTopLevelNames*`, `getChildren` and `getAllNames`;
  - the Postgres `get`, `getByNameOrId`, `getByUserId`, `approve`, `update` and `deleteIfOwner`;
  - the creation half of Postgres `submit`.
- The Mongo `submit` (service/submissionService.js:119-188) is not modelled. It is validation followed by document creation, a tag counter service and an email.
- The Mongo `approve` (service/submissionService.js:80-90) is not modelled. It does not await `get`, so it tests `success` on a pending promise and returns that promise without approving anything.
- `addOrRemoveDataSetSubmission` is not modelled; it repeats `addOrRemovePlatformSubmission` over data-set refs.
- These services are not part of this model: the tag, ref and subscription services, whose calls are modelled by their evident effect. A Postgres tag-ref removal deletes the row.
- Other lookups into code outside this model are taken at their evident meaning:
  - the Mongo upvote's `userService.get` (service/submissionService.js:215) is membership of the user id in the store's users; the user service shown defines no `get`;
  - `resultService.getByPlatformIdSubmissionId` (metriq-api/service/platformService.js:353) is `PlatformServices.HasResults`, a live result on a ref of the pair;
  - `submissionService.getBySubmissionId` (metriq-api/service/resultService.js:43) is a lookup of the submission by id; the module that line 9 requires defines no such method.
- The Mongo submission model file is not part of this model. `isDeleted()` is taken to mean a set `deletedDate`, as in the pipelines' `$match`.
- `toLowerCase` is modelled on ASCII letters only, and string lengths count code points rather than UTF-16 units.
- HTTP fields are modelled already parsed:
  - Numeric request fields of `update` and `submit` are integers.
  - JavaScript truthiness is taken as "present and not 0".
  - For string ids, `parseInt` is modelled; `submit` uses it on the submission list.
  - `trim()` on a `null` field, which throws, is not modelled.
  - Mongoose's cast of a non-ObjectId string in an id lookup, which throws, is not modelled; ids are compared as strings.
- The email regular expression is the parameter `validEmail` of `Users.ValidateRegistration`. Its failure envelope names the message `err`, not `error`; the model uses the same `Result` for both.
- The category tree on cyclic data is not fully modelled. There the SQL recursion never terminates, while `Categories.Closure` stops after `|platforms|` levels. The tree properties are proved for acyclic parent maps.
- The CTE's `UNION ALL` bag is modelled as a set. On an acyclic tree every node has one parent, so each descendant appears once.
- Categories.ResultRowCount: follows the SQL in not checking the ref's own `deletedAt`, so a result on a soft-deleted ref still counts.
- SqlSubmissions.Candidates: follows the SQL in not filtering on `deletedAt`.
- SqlSubmissions.TrendingRows: states the rows of `getTrending` and its division-by-zero failure, not their order. `CURRENT_DATE` is the parameter `today`, and the `::DATE` cast is the parameter `dateOf`.
- SqlSubmissions.TagTrendingRows: states the number of rows and the division-by-zero failure, not the rows' order.
- SqlSubmissions.TrendingRows, SqlSubmissions.TagTrendingRows: the failure is the model's `DivisionByZero`; the database's error text is not modelled.
- Text.ParseInt: JavaScript `parseInt` returns a double, so a numeral above 2^53 is rounded; the model returns the exact integer.
- Ranking.SortDesc: the order of ties (equal keys) is unspecified in both databases. The model keeps store order, which is one order they may return; no property relies on it.
- MongoSubmissions.MongoSubmissionService.DeleteIfOwner: `toString(a) !== toString(b)` calls the global `toString` and compares two equal strings, so the 'Insufficient privileges' reply cannot happen and is not modelled. No ownership property is claimed.
- PlatformServices.Linked: the ref is filed under the parsed id. The source passes the raw trimmed piece to `createOrFetch` (line 232), so the two agree only on canonical numerals.
- PlatformServices.NewPlatform: an absent `isDataSet` is stored as false. The source tests only for `null` (line 208), so it assigns `undefined` and leaves the column to its schema default, which is not part of this model.
- Results.SubmitChecks: the task and method existence lookups are not awaited, so they never refuse and are not modelled.
- Results.Populate: each populated result's own `task` and `method` population is not modelled.
- Results.ResultService.Submit: the un-awaited `submission.save()` is modelled as completed. The spliced list is returned but never saved back.
- SqlSubmissions.SubmissionService.AddOrRemoveTag: the `TypeError` that `ref.delete()` raises on a missing ref is modelled as the failure `NullRefCrash`.
- MongoSubmissions.Trending: the `$divide` error on a zero elapsed time is modelled as `Failure(DivideByZero)`. Floating point is replaced by exact fractions.
- Ranking.MongoPage: a limit of 0 is the failure `LimitNotPositive`; the server's error text is not modelled. Negative skips and limits are not modelled.
- `register` (service/userService.js:35-49) is not modelled. It reads `tlUsername` and `tlEmail` out of scope, so apart from validation it cannot run as written.

## Findings

| source | as written | input that shows it | evidently intended | confidence | as-written member | corrected member |
|---|---|---|---|---|---|---|
| metriq-api/service/platformService.js:140-141 | `COUNT(*)` over `"submissionPlatformRefs" RIGHT JOIN c` counts the all-NULL row produced for every closure node that no live ref matches, so every category's submission count is at least 1 and the `submissionCount > 0` filter of `populate` (line 87) keeps every category | a store with one platform and no refs: the count is 1, and the empty category is listed | count only live refs (`COUNT(spr.id)`), so that categories with nothing filed anywhere below them are dropped | not executed | Categories.SubmissionRowCountPositive | Categories.LiveSubmissionCountZero |

- `Categories.EmptyCategoryCountedOnce` exhibits the concrete input: an as-written count of 1 against a live count of 0.
- `PlatformServices.AsWrittenListsEveryRow` proves that with the as-written counts `populate` drops nothing.
- The corrected counts are `Categories.LiveSubmissionCount`, `LiveLikeCount` and `LiveResultCount`. `PlatformServices.PlatformService.Populate` takes the tally as a parameter: `AsWritten` gives the as-written totals and `LiveRows` the corrected ones.
- `PlatformServices.EmptyCategoryNotListed` proves that the corrected filter drops empty categories.
- The result query (line 170) counts NULL rows too, and there a soft-deleted result can even lower the count. `Categories.DeletedResultNeverRaisesRowCount` proves that adding one never raises it. `Categories.DeletedResultLowersRowCount` shows it lowering the count from 2 to 1: the deleted result replaces its ref's counted NULL row by a row the `ON` condition drops.
- The like query (line 156) is analogous: a live ref whose submission has no likes still contributes one row.
- The corrected like and result counts count only actual rows.
