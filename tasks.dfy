/** The background job side of app/tasks.py: progress reporting into the
    job metadata, the task row and a coalesced notification, and the
    export_posts job with its exception and finalisation handling.
    The current job is a parameter (None outside a worker); an exception
    raised by the job body is an oracle `raiseAt` saying where it happens. */
module Tasks {
  import opened Util
  import opened Models

  /** The notification name of progress reports. */
  const ProgressName: string := "task_progress"

  /** The same task rows, except possibly for their `complete` flags. */
  ghost predicate SameRowsUpToFlags(a: seq<Task>, b: seq<Task>) {
    |a| == |b| && forall i | 0 <= i < |a| :: a[i].(complete := false) == b[i].(complete := false)
  }

  /** Rows equal up to flags have the same owner for every job. */
  lemma TaskOwnerIgnoresFlags(a: seq<Task>, b: seq<Task>, id: string)
    requires SameRowsUpToFlags(a, b) && TaskIndex(a, id).Some?
    ensures TaskIndex(b, id).Some? && TaskOwner(a, id) == TaskOwner(b, id)
  {
  }

  /** The owner of the task row of job `id`. */
  function TaskOwner(tasks: seq<Task>, id: string): int
    requires TaskIndex(tasks, id).Some?
  {
    tasks[TaskIndex(tasks, id).value].userId
  }

  /** The tables after one progress report of `progress` for job `id` owned
      by `owner`, from the tables before it: the job metadata records the
      progress, the owner's task_progress notification is replaced by one
      carrying (id, progress), and the task row is marked complete once the
      progress reaches 100. Nothing else changes. */
  ghost predicate Reported(jobProgress0: map<string, Option<int>>, tasks0: seq<Task>,
                           notifications0: seq<Notification>,
                           jobProgress: map<string, Option<int>>, tasks: seq<Task>,
                           notifications: seq<Notification>,
                           id: string, owner: int, progress: int, now: int)
  {
    && jobProgress == jobProgress0[id := Some(progress)]
    && notifications == Coalesce(notifications0, owner, ProgressName, TaskProgress(id, progress), now)
    && tasks == (if progress >= 100 then MarkComplete(tasks0, id) else tasks0)
  }

  /** Two reports in a row, the second no lower than the first, leave the
      tables as the second report alone would have. */
  lemma ReportAgain(jp0: map<string, Option<int>>, t0: seq<Task>, n0: seq<Notification>,
                    jp1: map<string, Option<int>>, t1: seq<Task>, n1: seq<Notification>,
                    jp2: map<string, Option<int>>, t2: seq<Task>, n2: seq<Notification>,
                    id: string, owner: int, p1: int, p2: int, now: int)
    requires p1 <= p2
    requires Reported(jp0, t0, n0, jp1, t1, n1, id, owner, p1, now)
    requires Reported(jp1, t1, n1, jp2, t2, n2, id, owner, p2, now)
    ensures Reported(jp0, t0, n0, jp2, t2, n2, id, owner, p2, now)
  {
    CoalesceTwice(n0, owner, ProgressName, TaskProgress(id, p1), TaskProgress(id, p2), now, now);
    MarkCompleteTwice(t0, id);
    UpdateTwice(jp0, id, Some(p1), Some(p2));
  }

  /** _set_task_progress: without a current job nothing happens; otherwise the
      job metadata records `progress`, the task owner's single "task_progress"
      notification is replaced by one carrying (job id, progress), and the
      task is marked complete once progress reaches 100. */
  method SetTaskProgress(app: App, job: Option<string>, progress: int, now: int)
    requires app.Valid() && app.clock <= now
    requires job.Some? ==> TaskIndex(app.tasks, job.value).Some?
    modifies app`jobProgress, app`notifications, app`tasks, app`clock
    ensures app.Valid() && app.clock <= now
    ensures SameRowsUpToFlags(old(app.tasks), app.tasks)
    ensures job.None? ==>
              && app.jobProgress == old(app.jobProgress)
              && app.notifications == old(app.notifications)
              && app.tasks == old(app.tasks)
              && app.clock == old(app.clock)
    ensures job.Some? ==>
              && Reported(old(app.jobProgress), old(app.tasks), old(app.notifications),
                          app.jobProgress, app.tasks, app.notifications,
                          job.value, TaskOwner(old(app.tasks), job.value), progress, now)
              && app.clock == now
    ensures job.Some? ==>
              forall t | t in app.tasks && t.id == job.value :: GetProgress(t, app.jobProgress) == progress
  {
    if job.None? {
      return;
    }
    var id := job.value;
    app.jobProgress := app.jobProgress[id := Some(progress)];
    var task := app.tasks[TaskIndex(app.tasks, id).value];
    var _ := app.AddNotification(task.userId, ProgressName, TaskProgress(id, progress), now);
    if progress >= 100 {
      app.tasks := MarkComplete(app.tasks, id);
    }
  }

  /** A progress report of 100 or more leaves the job's task complete and
      makes Task.get_progress read back the reported value. */
  lemma ReportCompletes(tasks: seq<Task>, jobProgress: map<string, Option<int>>, id: string,
                        progress: int)
    requires progress >= 100
    ensures forall t | t in MarkComplete(tasks, id) && t.id == id ::
              t.complete && GetProgress(t, jobProgress[id := Some(progress)]) == progress
  {
  }

  // ---------------------------------------------------------------------
  // export_posts

  /** One exported post: its body and its timestamp. */
  datatype Entry = Entry(body: string, timestamp: int)

  /** The user's posts, oldest first (`order_by(Post.timestamp.asc())`). */
  function PostsOldestFirst(posts: seq<Post>, uid: int): (r: seq<Post>)
    ensures forall p | p in r :: p in posts && p.userId == uid
    ensures forall p | p in posts && p.userId == uid :: p in r
    ensures forall i, j | 0 <= i < j < |r| :: r[i].timestamp <= r[j].timestamp
    ensures UniquePostIds(posts) ==> Distinct(r)
  {
    SortByKey(Filter(posts, (p: Post) => p.userId == uid), (p: Post) => p.timestamp)
  }

  function Entries(ps: seq<Post>): (r: seq<Entry>)
    ensures |r| == |ps|
    ensures forall i | 0 <= i < |r| :: r[i] == Entry(ps[i].body, ps[i].timestamp)
  {
    seq(|ps|, i requires 0 <= i < |ps| => Entry(ps[i].body, ps[i].timestamp))
  }

  /** One more exported post adds its entry to the export data. */
  lemma EntriesNext(posts: seq<Post>, k: nat)
    requires k < |posts|
    ensures Entries(posts[..k + 1]) == Entries(posts[..k]) + [Entry(posts[k].body, posts[k].timestamp)]
  {
    assert posts[..k + 1] == posts[..k] + [posts[k]];
  }

  lemma MulLe(a: int, b: int, n: nat)
    requires a <= b
    ensures a * n <= b * n
  {
  }

  /** Floor division by a positive `n` stays below any `k` with x <= k * n. */
  lemma DivAtMost(x: int, n: int, k: int)
    requires n > 0 && x <= k * n
    ensures x / n <= k
  {
  }

  /** Floor division by a positive `n` reaches any `k` with k * n <= x. */
  lemma DivAtLeast(x: int, n: int, k: int)
    requires n > 0 && k * n <= x
    ensures k <= x / n
  {
    var q := x / n;
    if q < k {
      MulLe(q + 1, k, n);
      assert false;
    }
  }

  /** `100 * posts_count // total_posts`. */
  function Percent(done: nat, total: nat): (p: int)
    requires 0 < total && done <= total
    ensures 0 <= p <= 100
    ensures done == total ==> p == 100
  {
    DivAtMost(100 * done, total, 100);
    DivAtLeast(100 * done, total, 0);
    DivAtLeast(100 * done, total, if done == total then 100 else 0);
    100 * done / total
  }

  lemma PercentMonotone(a: nat, b: nat, total: nat)
    requires 0 < total && a <= b <= total
    ensures Percent(a, total) <= Percent(b, total)
  {
    var qa := 100 * a / total;
    assert qa * total <= 100 * a;
    DivAtLeast(100 * b, total, qa);
  }

  /** The values reported inside the loop after each of the first `done` posts. */
  function LoopProgress(done: nat, total: nat): (r: seq<int>)
    requires done <= total
    ensures |r| == done
    ensures forall i | 0 <= i < done :: r[i] == Percent(i + 1, total)
  {
    seq(done, i requires 0 <= i < done => Percent(i + 1, total))
  }

  /** One more exported post adds its percentage to the loop's reports. */
  lemma LoopProgressNext(done: nat, total: nat)
    requires done < total
    ensures LoopProgress(done + 1, total) == LoopProgress(done, total) + [Percent(done + 1, total)]
  {
  }

  /** The whole sequence of values export_posts reports: 0, one value per
      exported post, then 100 from the `except` block if the body raised,
      and 100 from the `finally` block. */
  function ExportProgress(done: nat, total: nat, raised: bool): seq<int>
    requires done <= total
  {
    [0] + LoopProgress(done, total) + (if raised then [100, 100] else [100])
  }

  /** Every reported value lies in 0..100, the values never decrease, the last
      one is 100, and a run that got through every post reports 100 right
      after the last one. */
  lemma ExportProgressShape(done: nat, total: nat, raised: bool)
    requires done <= total
    ensures var r := ExportProgress(done, total, raised);
      && (forall i | 0 <= i < |r| :: 0 <= r[i] <= 100)
      && (forall i, j | 0 <= i < j < |r| :: r[i] <= r[j])
      && r[|r| - 1] == 100
      && (0 < done == total ==> r[total] == 100)
  {
    var r := ExportProgress(done, total, raised);
    var loop := LoopProgress(done, total);
    assert forall i | 1 <= i <= done :: r[i] == loop[i - 1];
    assert forall i | done < i < |r| :: r[i] == 100;
    forall i, j | 0 <= i < j < |r| ensures r[i] <= r[j] {
      if 1 <= i && j <= done {
        PercentMonotone(i, j, total);
      }
    }
  }

  /** A report of `progress` made after an earlier report of `last`, no
      higher, from the tables (jobProgress0, tasks0, notifications0): the
      tables end as the new report alone would leave them. */
  method ReportFollowing(app: App, job: Option<string>, progress: int, now: int,
                         ghost jobProgress0: map<string, Option<int>>, ghost tasks0: seq<Task>,
                         ghost notifications0: seq<Notification>, ghost owner: int, ghost last: int)
    requires app.Valid() && app.clock <= now && last <= progress
    requires job.Some? ==>
               && TaskIndex(app.tasks, job.value).Some? && TaskOwner(app.tasks, job.value) == owner
               && Reported(jobProgress0, tasks0, notifications0,
                           app.jobProgress, app.tasks, app.notifications, job.value, owner, last, now)
    modifies app`jobProgress, app`notifications, app`tasks, app`clock
    ensures app.Valid() && app.clock <= now
    ensures job.Some? ==>
              && TaskIndex(app.tasks, job.value).Some? && TaskOwner(app.tasks, job.value) == owner
              && Reported(jobProgress0, tasks0, notifications0,
                          app.jobProgress, app.tasks, app.notifications, job.value, owner, progress, now)
              && app.clock == now
    ensures job.None? ==>
              && app.jobProgress == old(app.jobProgress) && app.notifications == old(app.notifications)
              && app.tasks == old(app.tasks) && app.clock == old(app.clock)
  {
    SetTaskProgress(app, job, progress, now);
    if job.Some? {
      TaskOwnerIgnoresFlags(old(app.tasks), app.tasks, job.value);
      ReportAgain(jobProgress0, tasks0, notifications0,
                  old(app.jobProgress), old(app.tasks), old(app.notifications),
                  app.jobProgress, app.tasks, app.notifications, job.value, owner, last, progress, now);
    }
  }

  /** The progress the export has reported after `done` of `total` posts. */
  function LastReport(done: nat, total: nat): (p: int)
    requires done <= total
    ensures 0 <= p <= 100
  {
    if done > 0 then Percent(done, total) else 0
  }

  /** The report after the `done`-th of `total` posts, following the reports
      after the earlier ones. */
  method ReportExported(app: App, job: Option<string>, done: nat, total: nat, now: int,
                        ghost jobProgress0: map<string, Option<int>>, ghost tasks0: seq<Task>,
                        ghost notifications0: seq<Notification>, ghost owner: int)
    requires 0 < done <= total
    requires app.Valid() && app.clock <= now
    requires job.Some? ==>
               && TaskIndex(app.tasks, job.value).Some? && TaskOwner(app.tasks, job.value) == owner
               && Reported(jobProgress0, tasks0, notifications0, app.jobProgress, app.tasks,
                           app.notifications, job.value, owner, LastReport(done - 1, total), now)
    modifies app`jobProgress, app`notifications, app`tasks, app`clock
    ensures app.Valid() && app.clock <= now
    ensures job.Some? ==>
              && TaskIndex(app.tasks, job.value).Some? && TaskOwner(app.tasks, job.value) == owner
              && Reported(jobProgress0, tasks0, notifications0, app.jobProgress, app.tasks,
                          app.notifications, job.value, owner, LastReport(done, total), now)
    ensures job.None? ==>
              && app.jobProgress == old(app.jobProgress) && app.notifications == old(app.notifications)
              && app.tasks == old(app.tasks) && app.clock == old(app.clock)
  {
    if done > 1 {
      PercentMonotone(done - 1, done, total);
    }
    ReportFollowing(app, job, Percent(done, total), now,
                    jobProgress0, tasks0, notifications0, owner, LastReport(done - 1, total));
  }

  /** The loop of export_posts over the first `stop` of `posts`, after the
      report of 0 made from the tables (jobProgress0, tasks0, notifications0):
      each post is appended to the export data and the percentage done is
      reported. The tables end as the last report alone leaves them. */
  method ExportLoop(app: App, job: Option<string>, posts: seq<Post>, stop: nat, now: int,
                    ghost jobProgress0: map<string, Option<int>>, ghost tasks0: seq<Task>,
                    ghost notifications0: seq<Notification>, ghost owner: int)
    returns (data: seq<Entry>, percents: seq<int>)
    requires stop <= |posts|
    requires app.Valid() && app.clock <= now
    requires job.Some? ==>
               && TaskIndex(app.tasks, job.value).Some? && TaskOwner(app.tasks, job.value) == owner
               && Reported(jobProgress0, tasks0, notifications0,
                           app.jobProgress, app.tasks, app.notifications, job.value, owner, 0, now)
    modifies app`jobProgress, app`notifications, app`tasks, app`clock
    ensures app.Valid() && app.clock <= now
    ensures data == Entries(posts[..stop])
    ensures percents == LoopProgress(stop, |posts|)
    ensures job.Some? ==>
              && TaskIndex(app.tasks, job.value).Some? && TaskOwner(app.tasks, job.value) == owner
              && Reported(jobProgress0, tasks0, notifications0, app.jobProgress, app.tasks,
                          app.notifications, job.value, owner, LastReport(stop, |posts|), now)
    ensures job.None? ==>
              && app.jobProgress == old(app.jobProgress) && app.notifications == old(app.notifications)
              && app.tasks == old(app.tasks) && app.clock == old(app.clock)
  {
    data, percents := [], [];
    var count := 0;
    while count < stop
      invariant 0 <= count <= stop
      invariant app.Valid() && app.clock <= now
      invariant data == Entries(posts[..count])
      invariant percents == LoopProgress(count, |posts|)
      invariant job.Some? ==>
                  && TaskIndex(app.tasks, job.value).Some? && TaskOwner(app.tasks, job.value) == owner
                  && Reported(jobProgress0, tasks0, notifications0, app.jobProgress, app.tasks,
                              app.notifications, job.value, owner, LastReport(count, |posts|), now)
      invariant job.None? ==>
                  && app.jobProgress == old(app.jobProgress) && app.notifications == old(app.notifications)
                  && app.tasks == old(app.tasks) && app.clock == old(app.clock)
    {
      EntriesNext(posts, count);
      data := data + [Entry(posts[count].body, posts[count].timestamp)];
      count := count + 1;
      ReportExported(app, job, count, |posts|, now, jobProgress0, tasks0, notifications0, owner);
      LoopProgressNext(count - 1, |posts|);
      percents := percents + [Percent(count, |posts|)];
    }
  }

  /** The end of export_posts: the `except` block's report of 100 when the
      body raised, then the `finally` block's report of 100, following
      reports up to `last` made from the tables (jobProgress0, tasks0,
      notifications0). The tables end as a single report of 100 leaves them. */
  method FinishExport(app: App, job: Option<string>, raised: bool, now: int,
                      ghost jobProgress0: map<string, Option<int>>, ghost tasks0: seq<Task>,
                      ghost notifications0: seq<Notification>, ghost owner: int, ghost last: int)
    returns (reported: seq<int>)
    requires app.Valid() && app.clock <= now && last <= 100
    requires job.Some? ==>
               && TaskIndex(app.tasks, job.value).Some? && TaskOwner(app.tasks, job.value) == owner
               && Reported(jobProgress0, tasks0, notifications0,
                           app.jobProgress, app.tasks, app.notifications, job.value, owner, last, now)
    modifies app`jobProgress, app`notifications, app`tasks, app`clock
    ensures app.Valid()
    ensures reported == if raised then [100, 100] else [100]
    ensures job.Some? ==>
              && Reported(jobProgress0, tasks0, notifications0,
                          app.jobProgress, app.tasks, app.notifications, job.value, owner, 100, now)
              && app.clock == now
    ensures job.None? ==>
              && app.jobProgress == old(app.jobProgress) && app.notifications == old(app.notifications)
              && app.tasks == old(app.tasks) && app.clock == old(app.clock)
  {
    reported := [];
    if raised {
      ReportFollowing(app, job, 100, now, jobProgress0, tasks0, notifications0, owner, last);
      reported := [100];
    }
    ReportFollowing(app, job, 100, now, jobProgress0, tasks0, notifications0, owner,
                    if raised then 100 else last);
    reported := reported + [100];
  }

  /** export_posts(user_id) run by job `job` at time `now`. It reports 0,
      exports the user's posts oldest first reporting the percentage done
      after each, attaches them to the mail, and always finishes by reporting
      100. `raiseAt == Some(k)` makes the body raise once `k` posts are done
      (in the mail step when `k` is at least the number of posts); the `except`
      block then reports 100 as well and no mail is sent. With a job, the
      tables end as one report of 100 leaves them; without one, nothing changes. */
  method ExportPosts(app: App, job: Option<string>, userId: int, now: int, raiseAt: Option<nat>)
    returns (attachment: Option<seq<Entry>>, reported: seq<int>)
    requires app.Valid() && app.clock <= now
    requires job.Some? ==> TaskIndex(app.tasks, job.value).Some?
    modifies app`jobProgress, app`notifications, app`tasks, app`clock
    ensures app.Valid()
    ensures var total := |PostsOldestFirst(old(app.posts), userId)|;
      var done := if raiseAt.Some? && raiseAt.value < total then raiseAt.value else total;
      reported == ExportProgress(done, total, raiseAt.Some?)
    ensures raiseAt.None? ==> attachment == Some(Entries(PostsOldestFirst(old(app.posts), userId)))
    ensures raiseAt.Some? ==> attachment.None?
    ensures job.Some? ==>
              && app.jobProgress == old(app.jobProgress)[job.value := Some(100)]
              && app.notifications == Coalesce(old(app.notifications), TaskOwner(old(app.tasks), job.value),
                                               ProgressName, TaskProgress(job.value, 100), now)
              && app.tasks == MarkComplete(old(app.tasks), job.value)
              && app.clock == now
    ensures job.Some? ==>
              forall t | t in app.tasks && t.id == job.value ::
                t.complete && GetProgress(t, app.jobProgress) == 100
    ensures job.None? ==>
              && app.jobProgress == old(app.jobProgress) && app.notifications == old(app.notifications)
              && app.tasks == old(app.tasks) && app.clock == old(app.clock)
  {
    SetTaskProgress(app, job, 0, now);
    if job.Some? {
      TaskOwnerIgnoresFlags(old(app.tasks), app.tasks, job.value);
    }
    var posts := PostsOldestFirst(app.posts, userId);
    var done := if raiseAt.Some? && raiseAt.value < |posts| then raiseAt.value else |posts|;
    var data, percents := ExportLoop(app, job, posts, done, now,
                                     old(app.jobProgress), old(app.tasks), old(app.notifications),
                                     if job.Some? then TaskOwner(old(app.tasks), job.value) else 0);
    if raiseAt.Some? {
      attachment := None;
    } else {
      assert posts[..done] == posts;
      attachment := Some(data);
    }
    var finalReported := FinishExport(app, job, raiseAt.Some?, now,
                                      old(app.jobProgress), old(app.tasks), old(app.notifications),
                                      if job.Some? then TaskOwner(old(app.tasks), job.value) else 0,
                                      LastReport(done, |posts|));
    if job.Some? {
      ReportCompletes(old(app.tasks), old(app.jobProgress), job.value, 100);
    }
    reported := [0] + percents + finalReported;
  }
}
