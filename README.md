# Microblog social core in Dafny

This project models the data layer and request logic of a Flask microblog. Users follow one
another, post short texts, read a timeline, exchange private messages and poll
notifications. Their posts are mirrored into a full-text search index, and a background
job exports a user's posts while reporting its progress. The model states what each of
these operations promises and proves it.

The database is a `Models.App` object. Its tables are sequences of rows in insertion order:
`users`, `posts`, `messages`, `notifications` and `tasks`. The `followers` association table
is a set of (follower id, followed id) pairs. The job queue's metadata is a map from job id
to its reported progress. `clock` is the latest instant anything has been stamped with.
Time is an integer number of seconds since 1970, so `datetime(1900, 1, 1)` is -2208988800.

Operations that stamp rows with the current time take it as a parameter `now`.
Those that write a stamped row (`AddNotification`, `SetTaskProgress`, `ExportPosts`,
`SendMessage`, `ViewMessage`) require `clock <= now`, so the clock never runs backwards.
`GetToken` and `RevokeToken` use `now` only for the token's expiry and make no such
demand. `Follow`, `Unfollow` and `LaunchTask` take no time at all.
Other outside inputs are also parameters:

- the fresh random token;
- the job id the queue hands out;
- the current job of a worker;
- whether a submitted form validated;
- the search engine's answer to a request;
- where an exception interrupts the export job.

Read-only queries (`following_posts`, the counts, `check_token`, `search`, the notification
poll) are functions over table values. Operations that change rows are methods with
field-level `modifies` clauses.

Files:
- `util.dfy`: filtering, first match, and a stable sort by an integer key.
- `search.dfy`: `app/search.py`. The engine client is the class `Search.Engine`, holding a
  map from (index, id) to document.
- `models.dfy`: `app/models.py`, that is the rows, the queries, and the `App` methods.
- `searchable.dfy`: `SearchableMixin`'s commit hooks (class `Session`) and `search`.
- `tasks.dfy`: `app/tasks.py`.
- `routes.dfy`: the handlers of `app/main/routes.py` that act on the above.

## Model

| member | source | states |
|---|---|---|
| Models.FindByUsername | app/main/routes.py:114 | the row found has the requested username; none is found exactly when no user has it (the same lookup serves routes.py lines 133 and 164) |
| Models.FollowEdges | app/models.py:191-202 | after follow the edge is present (is_following holds) and no other edge changed; following an already followed user leaves the set equal |
| Models.UnfollowEdges | app/models.py:195-202 | after unfollow the edge is absent (is_following fails) and no other edge changed; unfollowing a user not followed leaves the set equal |
| Models.App.Follow | app/models.py:191-193 | the follower table becomes FollowEdges of the old one, and the table invariants are kept |
| Models.App.Unfollow | app/models.py:195-197 | the follower table becomes UnfollowEdges of the old one, and the table invariants are kept |
| Models.FollowersCount | app/models.py:204-206 | the count is 0 exactly when no edge points at the user |
| Models.FollowingCount | app/models.py:208-210 | the count is 0 exactly when no edge leaves the user |
| Models.FollowIdempotent | app/models.py:191-197 | following twice equals following once; unfollowing twice equals unfollowing once |
| Models.FollowCounts | app/models.py:204-210 | a follow that is not a no-op raises the followed user's followers count and the follower's following count by one and leaves every other count unchanged |
| Models.UnfollowCounts | app/models.py:204-210 | an unfollow that is not a no-op lowers the same two counts by one and leaves every other count unchanged |
| Models.FollowingPosts | app/models.py:235-248 | exactly the posts written by the user or by someone the user follows, newest first, each once when post ids are unique |
| Models.UnreadMessageCount | app/models.py:268-271 | the unread count never exceeds the number of messages addressed to the user |
| Models.UnreadWithoutReadTime | app/models.py:268-271 | with no read time (the 1900 default) every message addressed to the user counts as unread |
| Models.NothingUnreadAfterReading | app/models.py:268-271 | once the read time is at or after every message's timestamp the unread count is 0 |
| Models.UnreadAfterNewMessage | app/models.py:268-271 | one more message raises the unread count by one exactly when it is addressed to the user and later than the read time |
| Models.Coalesce | app/models.py:273-277 | the table is never empty after adding and the new notification is last |
| Models.CoalesceSpec | app/models.py:273-277 | every notification of that user and name is the new one; notifications of other users or names are kept; nothing else is added; at most one per (user, name) is preserved |
| Models.CoalesceTwice | app/models.py:273-277 | adding two notifications with one name leaves the table exactly as adding the second alone does, so only its payload is left |
| Models.App.AddNotification | app/models.py:273-277 | replaces the notification table by its coalesced form, stamped `now`, and keeps the table invariants |
| Models.App.LaunchTask | app/models.py:281-285 | appends an incomplete task whose id is the job id, registers the job, and its progress reads 0 |
| Models.GetProgress | app/models.py:416-418 | 100 when the queue no longer knows the job; otherwise the progress the job reported, or 0 when it reported none |
| Models.TasksInProgress | app/models.py:288-290 | exactly the user's incomplete tasks |
| Models.TaskInProgress | app/models.py:293-295 | an incomplete task of the user with that name, and None exactly when there is none |
| Models.MarkComplete | app/tasks.py:38-39 | the task rows with that id become complete and every other field and row is unchanged |
| Models.MarkCompleteTwice | app/tasks.py:38-39 | marking a task complete again changes nothing |
| Models.IssueToken | app/models.py:333-340 | the account keeps its token when the token is set and expires more than 60 seconds after `now`; otherwise it gets the new token expiring `expires_in` seconds after `now`; nothing else changes |
| Models.App.constructor | app/models.py:109-122 | an empty database (no users, follower edges, posts, messages, notifications, tasks or jobs) satisfies every table invariant, so the first request can run |
| Models.App.GetToken | app/models.py:333-340 | updates the user row as IssueToken says, returns the token now stored, and check_token accepts it at `now` when `expires_in` is not negative or the old token is kept |
| Models.RevokeAccount | app/models.py:342-343 | the expiry becomes one second before `now` and nothing else changes |
| Models.App.RevokeToken | app/models.py:342-343 | updates the user row as RevokeAccount says and keeps the table invariants |
| Models.CheckToken | app/models.py:345-350 | a user is returned only if it holds the token and its expiry is not before `now`; None means every holder's token has expired |
| Models.CheckTokenAccepts | app/models.py:345-350 | a token only its holder has is accepted at every time up to its expiry |
| Models.IssuedTokenAccepted | app/models.py:333-350 | the token get_token hands out is accepted by check_token from `now` until its expiry |
| Models.RevokedTokenRejected | app/models.py:342-350 | after revoke_token at `now` the user's token is refused at every time from `now` on |
| Search.BuildPayload | app/search.py:12-14 | the payload has exactly the `__searchable__` fields as keys, each holding the object's value |
| Search.Engine.AddToIndex | app/search.py:9-16 | without a client the index is unchanged; with one the document under (index, id) is set to the payload, replacing any earlier one |
| Search.Engine.RemoveFromIndex | app/search.py:19-22 | without a client the index is unchanged; with one exactly the key (index, id) is removed |
| Search.PageRequest | app/search.py:36-37 | for every page the window starts at `(page - 1) * per_page` and has size `per_page`; the start is not negative from page 1 on |
| Search.PagesAreAdjacent | app/search.py:36-37 | the window of page p + 1 starts `per_page` after the window of page p |
| Search.QueryIndex | app/search.py:25-40 | `([], 0)` without a client; otherwise the ids of the engine's hits in the engine's order, and the engine's total |
| SearchableMixin.PostModel | app/models.py:356-363 | a post is searchable on the single field `body`, and its searchable fields are among its columns |
| SearchableMixin.PostDocument | app/models.py:363 | a post's document is exactly its body under the key "body" |
| SearchableMixin.Session.BeforeCommit | app/models.py:37-43 | the snapshot holds the new, dirty and deleted objects |
| SearchableMixin.Session.AfterCommit | app/models.py:46-58 | the index becomes the replay of the snapshot (additions, then updates, then deletions, searchable objects only) and the snapshot is dropped |
| SearchableMixin.ReplaySpec | app/models.py:46-58 | a replay without a client changes nothing; with one, deleted objects have no document, added or updated objects that were not deleted have one, and untouched keys keep their entry |
| SearchableMixin.UpsertAllPresent | app/models.py:49-54 | every searchable object passed to add_to_index has a document afterwards |
| SearchableMixin.UpsertAllLast | app/models.py:49-54 | after add_to_index over a list, a key holds the payload of the last searchable object with that key |
| SearchableMixin.UpsertAllAppend | app/models.py:49-54 | indexing the additions and then the updates is indexing the two lists one after the other |
| SearchableMixin.ReplayContent | app/models.py:46-58 | with a client, a key added or updated and not deleted holds the payload of the last searchable object with that key among the additions followed by the updates |
| SearchableMixin.CommittedPostIndexed | app/models.py:46-58 | a committed post with no later change or deletion of its row is indexed under ("post", id) with exactly its body |
| SearchableMixin.RemoveAllAbsent | app/models.py:55-57 | every searchable object passed to remove_from_index has no document afterwards |
| SearchableMixin.Rehydrate | app/models.py:28-34 | exactly the rows whose id the engine returned, ordered by their position in the engine's list |
| SearchableMixin.RehydrateKeepsEngineOrder | app/models.py:28-34 | with unique post ids the loaded rows follow the engine's order strictly, each at the position of its own id |
| SearchableMixin.SearchPosts | app/models.py:22-34 | `([], 0)` without a client; no rows when the total is 0; otherwise the rows re-hydrated from the engine's ids, with the engine's total |
| Tasks.SetTaskProgress | app/tasks.py:30-40 | no job: nothing changes. Otherwise the job records the progress, the owner's single task_progress notification carries (job id, progress), and the task becomes complete when progress is at least 100 and is left as it was otherwise; no other job, notification or task changes; get_progress of the job's task then reads back the reported value |
| Tasks.ReportAgain | app/tasks.py:30-40 | two reports in a row, the second no lower, leave the job metadata, notifications and tasks exactly as the second report alone does |
| Tasks.ReportCompletes | app/tasks.py:38-39 | after a report of 100 the task is complete and get_progress reads back the reported value |
| Tasks.PostsOldestFirst | app/tasks.py:51 | exactly the user's posts, in ascending timestamp order |
| Tasks.Percent | app/tasks.py:55 | `100 * posts_count // total_posts` lies in 0..100 and is 100 after the last post |
| Tasks.PercentMonotone | app/tasks.py:55 | the reported percentage never decreases as more posts are done |
| Tasks.ExportProgressShape | app/tasks.py:47-72 | every value export_posts reports lies in 0..100, the values never decrease, the last is 100, and the value after the last post is 100 |
| Tasks.ReportFollowing | app/tasks.py:30-40 | a report no lower than the previous one leaves the job metadata, notifications and tasks exactly as this report alone would leave the tables as they were before both; without a job nothing changes |
| Tasks.ReportExported | app/tasks.py:53-55 | the report after the k-th post leaves the tables as that percentage alone would |
| Tasks.ExportLoop | app/tasks.py:48-55 | starting after the report of 0, after the stopping point the data holds one entry per exported post in order, the reports are the percentages, and the tables are as the last report alone leaves them; without a job nothing changes |
| Tasks.FinishExport | app/tasks.py:66-72 | the except block (after a raise) and the finally block each report 100; from tables left by any earlier report no higher than 100, they end exactly as one report of 100 leaves them; without a job nothing changes |
| Tasks.ExportPosts | app/tasks.py:42-72 | raised or not, the reports are 0, one percentage per exported post, then 100; the attachment, when sent, holds every post of the user oldest first; with a job, the job metadata, notifications and tasks end exactly as after one report of 100 (only this job's progress, the owner's task_progress notification and this task's flag change) and get_progress reads 100; without a job nothing changes |
| Routes.Decide | app/main/routes.py:113-120 | an invalid form, an unknown username and the user's own name are told apart in that order |
| Routes.RedirectOf | app/main/routes.py:116-126 | an invalid form or an unknown user lead to the index page, the other outcomes to the target's profile page |
| Routes.FollowRoute | app/main/routes.py:109-126 | only a successful request changes the edge set, by the follow of the target; no request makes anybody follow themselves |
| Routes.UnfollowRoute | app/main/routes.py:128-145 | only a successful request changes the edge set, and afterwards the user no longer follows the target |
| Routes.NextPageIffMoreHits | app/main/routes.py:156 | the next link exists exactly when the next page's window starts before the total |
| Routes.PrevPageAdjacent | app/main/routes.py:157 | the previous link goes to a page of at least 1 whose window ends where the current one starts |
| Routes.SearchRoute | app/main/routes.py:147-158 | an invalid form redirects to explore; otherwise the page's posts, a next link to `page + 1` iff `total > page * 25` and a previous link to `page - 1` iff `page > 1` |
| Routes.SendMessage | app/main/routes.py:161-173 | an unknown recipient (404) or an invalid form changes nothing; otherwise one message is appended and the recipient's unread_message_count notification carries the new count, which is the old one plus one when the message is unread |
| Routes.ViewMessage | app/main/routes.py:176-181 | the read time becomes `now`, the user's only unread_message_count notification carries 0, and the unread count is 0 |
| Routes.NotificationsSince | app/main/routes.py:190-196 | exactly the user's notifications stamped after `since`, in ascending timestamp order |
| Routes.SinceMonotone | app/main/routes.py:193-194 | a later `since` returns a subset of what an earlier one returns |
| Routes.NothingSinceLatest | app/main/routes.py:193-194 | polling with a `since` at or after every timestamp returns nothing |
| Routes.PollSeesLatest | app/main/routes.py:193-196 | after a notification at `now`, a poll with an earlier `since` sees it and no older one of the same name |

## Left out

- Password hashing, the JWT password-reset tokens, `avatar`, `to_dict`, `from_dict` and the API collection pagination: cryptography and presentation glue.
- `render_template`, `flash` and `url_for`: a handler's result is the page it redirects to or the data it shows.
- The pagination of the index, explore, user and view_message pages: only the search page's next and previous links are modelled.
- Search relevance and `multi_match`: the engine is an oracle from requests to responses. A hit id is an integer from the start, where the source parses it with `int(...)`.
- `Search.Engine.RemoveFromIndex`: the engine's error when deleting a missing document is not modelled; the key is simply absent afterwards.
- Fetching jobs from the queue (`get_rq_job`), `enqueue`, and the queue's connection errors: the job metadata is the `jobProgress` map, and a job the queue has forgotten is a missing key.
- `SearchableMixin.SearchPosts`: when the engine reports a total above 0 but returns no ids (a page past the last hit), the source builds a `case` with no `when` clause, which SQLAlchemy rejects; the model returns no rows with the engine's total instead.
- `Search.QueryIndex`: a page below 1 asks the engine for a negative `from_`, which the engine rejects; the model passes the request on unchanged. Errors the engine raises in `add_to_index`, `remove_from_index`, `query_index` and so in the `after_commit` hook propagate in the source and are not modelled.
- `Tasks.SetTaskProgress`: requires the job's task row to exist. The source fails with an attribute error when it does not.
- `Tasks.ExportPosts`: requires the job's task row to exist, as `Tasks.SetTaskProgress` does. Without it the source's first report raises, the reports of 100 in the `except` and `finally` blocks raise again, and the exception escapes the task.
- `Tasks.ExportPosts`: the exception is an oracle that strikes when k posts have been exported, or in the mail step when k is at least the number of posts. It does not model a failure half-way through a progress report. The `try` block's first report of 0 is made before the exception, and a failure to load the user is not modelled.
- `Tasks.ExportPosts`: every report is stamped with the same `now`, and `time.sleep` is not modelled. The mail, its JSON encoding and the ISO timestamp format of the exported entries are out of scope. `app/email.py` runs a thread and mail transport; the attachment is the exported data itself.
- Float timestamps (`time()`) and timezone-aware datetimes become integer seconds. The `since` parameter of the notification poll is an integer.
- Sessions, transactions and the autoflush that makes send_message count the new message. They are modelled as sequential updates in the source's order. Races between the worker and request handlers are not modelled.
- The forms of `app/main/forms.py` and `app/auth/forms.py` are reduced to a `formValid` flag. `app/cli.py` and the environment lookup of `config.py` are not part of this model; only `POSTS_PER_PAGE = 25` is used.
- The `example` task in `app/tasks.py` is a demonstration job that is never launched by the core; it is not modelled.
- `Models.App.GetToken`: the fresh token is a parameter that no other account holds, standing for `secrets.token_hex(16)`.
- `Models.FollowingPosts`: posts with equal timestamps keep their table order, where the database leaves their order unspecified.
