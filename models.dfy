/** The relational data layer of app/models.py: users, the follower
    association table, posts, private messages, notifications and tasks.
    The database is the class `App`, whose fields are the tables; each table
    is a sequence of rows in insertion order, except the follower table,
    whose compound primary key makes it a set of (follower_id, followed_id)
    pairs. A `User` instance is its row in `users`. Wall-clock time is an
    integer number of seconds since 1970, passed in as `now`. */
module Models {
  import opened Util

  datatype Account = Account(id: int, username: string, email: string,
                             lastMessageReadTime: Option<int>,
                             token: Option<string>, tokenExpiration: Option<int>)

  datatype Post = Post(id: int, body: string, timestamp: int, userId: int)

  datatype Message = Message(senderId: int, recipientId: int, body: string, timestamp: int)

  /** The two JSON payloads the application stores in notifications. */
  datatype Payload = UnreadCount(count: int) | TaskProgress(taskId: string, progress: int)

  datatype Notification = Notification(userId: int, name: string, timestamp: int, payload: Payload)

  /** A background job record; `id` is the job id the queue assigned. */
  datatype Task = Task(id: string, name: string, description: Option<string>,
                       userId: int, complete: bool)

  /** A row of the `followers` table: (follower_id, followed_id). */
  type Edge = (int, int)

  /** datetime(1900, 1, 1) in seconds since 1970: the read time assumed for a
      user who never opened the messages page. */
  const DefaultReadTime: int := -2208988800

  /** Seconds of remaining validity below which get_token issues a new token. */
  const TokenRenewMargin: int := 60

  // ---------------------------------------------------------------------
  // Table invariants (primary keys and unique columns)

  ghost predicate UniqueAccounts(users: seq<Account>) {
    forall i, j | 0 <= i < j < |users| ::
      users[i].id != users[j].id && users[i].username != users[j].username
  }

  ghost predicate UniqueTokens(users: seq<Account>) {
    forall i, j | 0 <= i < |users| && 0 <= j < |users| && i != j && users[i].token.Some? ::
      users[i].token != users[j].token
  }

  /** An account holding a token also has an expiry time. */
  ghost predicate TokensHaveExpiry(users: seq<Account>) {
    forall a | a in users :: a.token.Some? ==> a.tokenExpiration.Some?
  }

  ghost predicate UniquePostIds(posts: seq<Post>) {
    forall i, j | 0 <= i < j < |posts| :: posts[i].id != posts[j].id
  }

  ghost predicate UniqueTaskIds(tasks: seq<Task>) {
    forall i, j | 0 <= i < j < |tasks| :: tasks[i].id != tasks[j].id
  }

  predicate SameSlot(n: Notification, uid: int, name: string) {
    n.userId == uid && n.name == name
  }

  /** At most one notification per (user, name). */
  ghost predicate Coalesced(notes: seq<Notification>) {
    && Distinct(notes)
    && forall m, n | m in notes && n in notes && SameSlot(m, n.userId, n.name) :: m == n
  }

  // ---------------------------------------------------------------------
  // Users

  /** The user row with the given username, as `select User where username == ...`. */
  function FindByUsername(users: seq<Account>, username: string): (r: Option<nat>)
    ensures r.Some? ==> r.value < |users| && users[r.value].username == username
    ensures r.None? <==> forall a | a in users :: a.username != username
  {
    FirstIndex(users, (a: Account) => a.username == username)
  }

  // ---------------------------------------------------------------------
  // Follower graph

  predicate IsFollowing(follows: set<Edge>, a: int, b: int) {
    (a, b) in follows
  }

  /** User.follow: inserts the edge unless it is already there. */
  function FollowEdges(follows: set<Edge>, a: int, b: int): (r: set<Edge>)
    ensures IsFollowing(r, a, b)
    ensures forall e | e != (a, b) :: e in r <==> e in follows
    ensures IsFollowing(follows, a, b) ==> r == follows
  {
    if IsFollowing(follows, a, b) then follows else follows + {(a, b)}
  }

  /** User.unfollow: deletes the edge if it is there. */
  function UnfollowEdges(follows: set<Edge>, a: int, b: int): (r: set<Edge>)
    ensures !IsFollowing(r, a, b)
    ensures forall e | e != (a, b) :: e in r <==> e in follows
    ensures !IsFollowing(follows, a, b) ==> r == follows
  {
    if IsFollowing(follows, a, b) then follows - {(a, b)} else follows
  }

  /** Following twice is following once; unfollowing twice is unfollowing once. */
  lemma FollowIdempotent(follows: set<Edge>, a: int, b: int)
    ensures FollowEdges(FollowEdges(follows, a, b), a, b) == FollowEdges(follows, a, b)
    ensures UnfollowEdges(UnfollowEdges(follows, a, b), a, b) == UnfollowEdges(follows, a, b)
  {
  }

  function EdgesInto(follows: set<Edge>, u: int): set<Edge> {
    set e | e in follows && e.1 == u
  }

  function EdgesOutOf(follows: set<Edge>, u: int): set<Edge> {
    set e | e in follows && e.0 == u
  }

  /** User.followers_count: the number of users following `u`; 0 exactly
      when nobody follows `u`. */
  function FollowersCount(follows: set<Edge>, u: int): (r: nat)
    ensures r == 0 <==> forall e | e in follows :: e.1 != u
  {
    var into := EdgesInto(follows, u);
    assert forall e | e in follows && e.1 == u :: e in into;
    |into|
  }

  /** User.following_count: the number of users `u` follows; 0 exactly when
      `u` follows nobody. */
  function FollowingCount(follows: set<Edge>, u: int): (r: nat)
    ensures r == 0 <==> forall e | e in follows :: e.0 != u
  {
    var outOf := EdgesOutOf(follows, u);
    assert forall e | e in follows && e.0 == u :: e in outOf;
    |outOf|
  }

  lemma EdgesInsert(follows: set<Edge>, e: Edge, u: int)
    ensures EdgesInto(follows + {e}, u) == EdgesInto(follows, u) + (if e.1 == u then {e} else {})
    ensures EdgesOutOf(follows + {e}, u) == EdgesOutOf(follows, u) + (if e.0 == u then {e} else {})
  {
  }

  lemma EdgesDelete(follows: set<Edge>, e: Edge, u: int)
    ensures EdgesInto(follows - {e}, u) == EdgesInto(follows, u) - {e}
    ensures EdgesOutOf(follows - {e}, u) == EdgesOutOf(follows, u) - {e}
  {
  }

  /** A follow that is not a no-op adds one follower to `b`, one followed
      user to `a`, and leaves every other count as it was. */
  lemma FollowCounts(follows: set<Edge>, a: int, b: int, c: int)
    requires !IsFollowing(follows, a, b)
    ensures FollowersCount(FollowEdges(follows, a, b), c)
         == FollowersCount(follows, c) + (if c == b then 1 else 0)
    ensures FollowingCount(FollowEdges(follows, a, b), c)
         == FollowingCount(follows, c) + (if c == a then 1 else 0)
  {
    assert FollowEdges(follows, a, b) == follows + {(a, b)};
    EdgesInsert(follows, (a, b), c);
  }

  /** An unfollow that is not a no-op removes one follower from `b`, one
      followed user from `a`, and leaves every other count as it was. */
  lemma UnfollowCounts(follows: set<Edge>, a: int, b: int, c: int)
    requires IsFollowing(follows, a, b)
    ensures FollowersCount(UnfollowEdges(follows, a, b), c)
         == FollowersCount(follows, c) - (if c == b then 1 else 0)
    ensures FollowingCount(UnfollowEdges(follows, a, b), c)
         == FollowingCount(follows, c) - (if c == a then 1 else 0)
  {
    assert UnfollowEdges(follows, a, b) == follows - {(a, b)};
    EdgesDelete(follows, (a, b), c);
  }

  // ---------------------------------------------------------------------
  // Timeline

  /** The WHERE clause of following_posts: `uid` wrote the post or follows its author. */
  predicate OnTimeline(follows: set<Edge>, uid: int, p: Post) {
    p.userId == uid || IsFollowing(follows, uid, p.userId)
  }

  /** User.following_posts: each visible post once, newest first (ties keep
      table order). */
  function FollowingPosts(posts: seq<Post>, follows: set<Edge>, uid: int): (r: seq<Post>)
    ensures forall p | p in r :: p in posts && OnTimeline(follows, uid, p)
    ensures forall p | p in posts && OnTimeline(follows, uid, p) :: p in r
    ensures forall i, j | 0 <= i < j < |r| :: r[i].timestamp >= r[j].timestamp
    ensures UniquePostIds(posts) ==> Distinct(r)
  {
    var visible := Filter(posts, (p: Post) => OnTimeline(follows, uid, p));
    var r := SortByKey(visible, (p: Post) => -p.timestamp);
    assert forall i, j | 0 <= i < j < |r| :: -r[i].timestamp <= -r[j].timestamp;
    r
  }

  // ---------------------------------------------------------------------
  // Messages

  /** A message to `acc` stamped after the time `acc` last opened the messages page. */
  predicate Unread(acc: Account, m: Message) {
    m.recipientId == acc.id && m.timestamp > acc.lastMessageReadTime.GetOr(DefaultReadTime)
  }

  /** User.unread_message_count: never more than the messages addressed to the user. */
  function UnreadMessageCount(messages: seq<Message>, acc: Account): (r: nat)
    ensures r <= |MessagesTo(messages, acc.id)|
  {
    FilterImplies(messages, (m: Message) => Unread(acc, m), (m: Message) => m.recipientId == acc.id);
    |Filter(messages, (m: Message) => Unread(acc, m))|
  }

  function MessagesTo(messages: seq<Message>, uid: int): seq<Message> {
    Filter(messages, (m: Message) => m.recipientId == uid)
  }

  /** A user who never read their messages has every message addressed to
      them unread (all timestamps are later than 1900). */
  lemma UnreadWithoutReadTime(messages: seq<Message>, acc: Account)
    requires acc.lastMessageReadTime.None?
    requires forall m | m in messages :: m.timestamp > DefaultReadTime
    ensures UnreadMessageCount(messages, acc) == |MessagesTo(messages, acc.id)|
  {
    FilterCongruent(messages, (m: Message) => Unread(acc, m), (m: Message) => m.recipientId == acc.id);
  }

  /** Once the read time is at or after every message, nothing is unread. */
  lemma NothingUnreadAfterReading(messages: seq<Message>, acc: Account, t: int)
    requires acc.lastMessageReadTime == Some(t)
    requires forall m | m in messages :: m.timestamp <= t
    ensures UnreadMessageCount(messages, acc) == 0
  {
    FilterNone(messages, (m: Message) => Unread(acc, m));
  }

  /** Appending a message raises the count by one exactly when it is unread. */
  lemma UnreadAfterNewMessage(messages: seq<Message>, acc: Account, m: Message)
    ensures UnreadMessageCount(messages + [m], acc)
         == UnreadMessageCount(messages, acc) + (if Unread(acc, m) then 1 else 0)
  {
    FilterAppend(messages, m, (m': Message) => Unread(acc, m'));
  }

  // ---------------------------------------------------------------------
  // Notifications

  /** User.add_notification: delete the user's rows with that name, then add
      one, which comes last. */
  function Coalesce(notes: seq<Notification>, uid: int, name: string, data: Payload, now: int)
    : (r: seq<Notification>)
    ensures |r| >= 1 && r[|r| - 1] == Notification(uid, name, now, data)
  {
    Filter(notes, (n: Notification) => !SameSlot(n, uid, name)) + [Notification(uid, name, now, data)]
  }

  /** After add_notification, the user's only notification under that name
      is the new one, every notification of another user or name is kept,
      nothing else is added, and at most one per (user, name) stays so. */
  lemma CoalesceSpec(notes: seq<Notification>, uid: int, name: string, data: Payload, now: int)
    ensures var r := Coalesce(notes, uid, name, data, now);
      && (forall n | n in r && SameSlot(n, uid, name) :: n == Notification(uid, name, now, data))
      && (forall n | n in notes && !SameSlot(n, uid, name) :: n in r)
      && (forall n | n in r :: n in notes || n == Notification(uid, name, now, data))
      && (Coalesced(notes) ==> Coalesced(r))
  {
    var kept := Filter(notes, (n: Notification) => !SameSlot(n, uid, name));
    var latest := Notification(uid, name, now, data);
    assert latest !in kept;
    assert forall n | n in kept + [latest] :: n in kept || n == latest;
  }

  /** Two notifications with one name leave only the second: adding both is
      the same as adding the second alone. */
  lemma CoalesceTwice(notes: seq<Notification>, uid: int, name: string, d1: Payload, d2: Payload,
                      t1: int, t2: int)
    ensures Coalesce(Coalesce(notes, uid, name, d1, t1), uid, name, d2, t2)
         == Coalesce(notes, uid, name, d2, t2)
    ensures var r := Coalesce(Coalesce(notes, uid, name, d1, t1), uid, name, d2, t2);
      forall n | n in r && SameSlot(n, uid, name) :: n.payload == d2
  {
    var p := (n: Notification) => !SameSlot(n, uid, name);
    var kept := Filter(notes, p);
    FilterAppend(kept, Notification(uid, name, t1, d1), p);
    FilterAll(kept, p);
    CoalesceSpec(notes, uid, name, d2, t2);
  }

  // ---------------------------------------------------------------------
  // Tasks

  function TasksInProgress(tasks: seq<Task>, uid: int): (r: seq<Task>)
    ensures forall t | t in r :: t in tasks && t.userId == uid && !t.complete
    ensures forall t | t in tasks && t.userId == uid && !t.complete :: t in r
  {
    Filter(tasks, (t: Task) => t.userId == uid && !t.complete)
  }

  /** User.get_task_in_progress: the first incomplete task of that name, if any. */
  function TaskInProgress(tasks: seq<Task>, uid: int, name: string): (r: Option<Task>)
    ensures r.Some? ==> r.value in tasks && r.value.userId == uid && r.value.name == name
                        && !r.value.complete
    ensures r.None? <==> forall t | t in tasks :: !(t.userId == uid && t.name == name && !t.complete)
  {
    match FirstIndex(tasks, (t: Task) => t.userId == uid && t.name == name && !t.complete)
    case None => None
    case Some(i) => Some(tasks[i])
  }

  function TaskIndex(tasks: seq<Task>, id: string): (r: Option<nat>)
    ensures r.Some? ==> r.value < |tasks| && tasks[r.value].id == id
    ensures r.None? <==> forall t | t in tasks :: t.id != id
  {
    FirstIndex(tasks, (t: Task) => t.id == id)
  }

  /** Sets `complete` on the task row with that id. */
  function MarkComplete(tasks: seq<Task>, id: string): (r: seq<Task>)
    ensures |r| == |tasks|
    ensures forall i | 0 <= i < |r| :: r[i] == tasks[i].(complete := r[i].complete)
    ensures forall i | 0 <= i < |r| && tasks[i].id == id :: r[i].complete
    ensures forall i | 0 <= i < |r| && tasks[i].id != id :: r[i] == tasks[i]
  {
    seq(|tasks|, i requires 0 <= i < |tasks| =>
      if tasks[i].id == id then tasks[i].(complete := true) else tasks[i])
  }

  /** Marking a task complete a second time changes nothing. */
  lemma MarkCompleteTwice(tasks: seq<Task>, id: string)
    ensures MarkComplete(MarkComplete(tasks, id), id) == MarkComplete(tasks, id)
  {
  }

  /** Task.get_progress: the job's reported progress, 0 before any report,
      and 100 once the queue no longer knows the job. */
  function GetProgress(task: Task, jobProgress: map<string, Option<int>>): (r: int)
    ensures task.id !in jobProgress ==> r == 100
    ensures task.id in jobProgress ==>
              r == (if jobProgress[task.id].Some? then jobProgress[task.id].value else 0)
  {
    if task.id in jobProgress then jobProgress[task.id].GetOr(0) else 100
  }

  // ---------------------------------------------------------------------
  // API tokens

  /** Python truthiness of an optional string: present and non-empty. */
  predicate Truthy(s: Option<string>) {
    s.Some? && s.value != ""
  }

  /** get_token keeps the current token while it has more than a minute left. */
  predicate TokenReusable(acc: Account, now: int) {
    Truthy(acc.token) && acc.tokenExpiration.Some?
    && acc.tokenExpiration.value > now + TokenRenewMargin
  }

  /** The account after get_token at `now`, with `newToken` as the random token. */
  function IssueToken(acc: Account, now: int, expiresIn: int, newToken: string): (r: Account)
    ensures r.token.Some? && r.tokenExpiration.Some?
    ensures r == acc.(token := r.token, tokenExpiration := r.tokenExpiration)
    ensures TokenReusable(acc, now) ==> r == acc && r.tokenExpiration.value > now + TokenRenewMargin
    ensures !TokenReusable(acc, now) ==>
              r.token == Some(newToken) && r.tokenExpiration == Some(now + expiresIn)
  {
    if TokenReusable(acc, now) then acc
    else acc.(token := Some(newToken), tokenExpiration := Some(now + expiresIn))
  }

  /** The account after revoke_token at `now`: expired one second ago. */
  function RevokeAccount(acc: Account, now: int): (r: Account)
    ensures r.tokenExpiration == Some(now - 1) && r.tokenExpiration.value < now
    ensures r == acc.(tokenExpiration := r.tokenExpiration)
  {
    acc.(tokenExpiration := Some(now - 1))
  }

  /** User.check_token: the holder of `token`, unless it expired before `now`. */
  function CheckToken(users: seq<Account>, token: string, now: int): (r: Option<nat>)
    requires TokensHaveExpiry(users)
    ensures r.Some? ==> r.value < |users| && users[r.value].token == Some(token)
                        && users[r.value].tokenExpiration.value >= now
    ensures r.None? && UniqueTokens(users) ==>
              forall i | 0 <= i < |users| && users[i].token == Some(token) ::
                users[i].tokenExpiration.value < now
  {
    match FirstIndex(users, (a: Account) => a.token == Some(token))
    case None => None
    case Some(i) =>
      assert users[i] in users;
      if users[i].tokenExpiration.value < now then None else Some(i)
  }

  /** No account other than `u` holds `newToken` (the random source never repeats). */
  ghost predicate FreshFor(users: seq<Account>, u: nat, newToken: string) {
    forall i | 0 <= i < |users| && i != u :: users[i].token != Some(newToken)
  }

  /** check_token accepts a token while only its holder has it and its expiry is not past. */
  lemma CheckTokenAccepts(users: seq<Account>, u: nat, t: int)
    requires u < |users| && TokensHaveExpiry(users) && users[u].token.Some?
    requires FreshFor(users, u, users[u].token.value)
    requires t <= users[u].tokenExpiration.value
    ensures CheckToken(users, users[u].token.value, t) == Some(u)
  {
  }

  /** The token get_token hands out is accepted by check_token from `now`
      until its expiry: at least one more minute for a reused token, and
      `expiresIn` seconds for a fresh one. */
  lemma IssuedTokenAccepted(users: seq<Account>, u: nat, now: int, expiresIn: int, newToken: string,
                            t: int)
    requires u < |users| && UniqueTokens(users) && TokensHaveExpiry(users)
    requires FreshFor(users, u, newToken)
    requires now <= t <= IssueToken(users[u], now, expiresIn, newToken).tokenExpiration.value
    ensures var acc := IssueToken(users[u], now, expiresIn, newToken);
      CheckToken(users[u := acc], acc.token.value, t) == Some(u)
  {
    var acc := IssueToken(users[u], now, expiresIn, newToken);
    var users' := users[u := acc];
    assert TokensHaveExpiry(users') by {
      forall a | a in users' ensures a.token.Some? ==> a.tokenExpiration.Some? {
        var k :| 0 <= k < |users'| && users'[k] == a;
        if k != u { assert users[k] in users; }
      }
    }
    assert FreshFor(users', u, acc.token.value);
    CheckTokenAccepts(users', u, t);
  }

  /** After revoke_token at `now`, check_token refuses the user's token at
      every later time. */
  lemma RevokedTokenRejected(users: seq<Account>, u: nat, now: int, t: int)
    requires u < |users| && UniqueTokens(users) && TokensHaveExpiry(users)
    requires users[u].token.Some? && now <= t
    ensures CheckToken(users[u := RevokeAccount(users[u], now)], users[u].token.value, t) == None
  {
  }

  // ---------------------------------------------------------------------
  // The database

  class App {
    var users: seq<Account>
    var follows: set<Edge>
    var posts: seq<Post>
    var messages: seq<Message>
    var notifications: seq<Notification>
    var tasks: seq<Task>
    /** The queue's job metadata: job id to its 'progress' entry, if set. */
    var jobProgress: map<string, Option<int>>
    /** The latest instant the application has stamped a row with. */
    var clock: int

    ghost predicate Valid()
      reads this
    {
      && UniqueAccounts(users) && UniqueTokens(users) && TokensHaveExpiry(users)
      && UniquePostIds(posts)
      && (forall m | m in messages :: m.timestamp <= clock)
      && (forall n | n in notifications :: n.timestamp <= clock)
      && Coalesced(notifications)
      && UniqueTaskIds(tasks)
    }

    /** An empty database whose clock starts at `now`. */
    constructor(now: int)
      ensures Valid() && clock == now
      ensures users == [] && follows == {} && posts == [] && messages == []
      ensures notifications == [] && tasks == [] && jobProgress == map[]
    {
      users, follows, posts, messages := [], {}, [], [];
      notifications, tasks, jobProgress, clock := [], [], map[], now;
    }

    /** User.follow */
    method Follow(a: int, b: int)
      requires Valid()
      modifies this`follows
      ensures Valid()
      ensures follows == FollowEdges(old(follows), a, b)
    {
      if !IsFollowing(follows, a, b) {
        follows := follows + {(a, b)};
      }
    }

    /** User.unfollow */
    method Unfollow(a: int, b: int)
      requires Valid()
      modifies this`follows
      ensures Valid()
      ensures follows == UnfollowEdges(old(follows), a, b)
    {
      if IsFollowing(follows, a, b) {
        follows := follows - {(a, b)};
      }
    }

    /** User.add_notification */
    method AddNotification(uid: int, name: string, data: Payload, now: int) returns (n: Notification)
      requires Valid() && clock <= now
      modifies this`notifications, this`clock
      ensures Valid()
      ensures n == Notification(uid, name, now, data)
      ensures notifications == Coalesce(old(notifications), uid, name, data, now)
      ensures clock == now
    {
      CoalesceSpec(notifications, uid, name, data, now);
      notifications := Coalesce(notifications, uid, name, data, now);
      clock := now;
      n := Notification(uid, name, now, data);
    }

    /** User.launch_task: the queue hands out `jobId`; the task starts incomplete. */
    method LaunchTask(uid: int, name: string, description: Option<string>, jobId: string)
      returns (task: Task)
      requires Valid()
      requires forall t | t in tasks :: t.id != jobId
      requires jobId !in jobProgress
      modifies this`tasks, this`jobProgress
      ensures Valid()
      ensures task == Task(jobId, name, description, uid, false)
      ensures tasks == old(tasks) + [task]
      ensures jobProgress == old(jobProgress)[jobId := None]
      ensures !task.complete && GetProgress(task, jobProgress) == 0
    {
      task := Task(jobId, name, description, uid, false);
      assert forall i | 0 <= i < |tasks| :: tasks[i] in tasks;
      tasks := tasks + [task];
      jobProgress := jobProgress[jobId := None];
    }

    /** User.get_token, with `newToken` standing for secrets.token_hex(16). */
    method GetToken(u: nat, now: int, expiresIn: int, newToken: string) returns (token: string)
      requires Valid() && u < |users|
      requires FreshFor(users, u, newToken)
      modifies this`users
      ensures Valid()
      ensures users == old(users)[u := IssueToken(old(users[u]), now, expiresIn, newToken)]
      ensures Some(token) == users[u].token
      ensures expiresIn >= 0 || TokenReusable(old(users[u]), now) ==>
                CheckToken(users, token, now) == Some(u)
    {
      var acc := users[u];
      assert acc in users;
      if Truthy(acc.token) && acc.tokenExpiration.value > now + TokenRenewMargin {
        token := acc.token.value;
        IssuedTokenAccepted(users, u, now, expiresIn, newToken, now);
        return;
      }
      var old_users := users;
      users := users[u := acc.(token := Some(newToken), tokenExpiration := Some(now + expiresIn))];
      token := newToken;
      if expiresIn >= 0 {
        IssuedTokenAccepted(old_users, u, now, expiresIn, newToken, now);
      }
      assert forall a | a in users :: a in old_users || a == users[u];
    }

    /** User.revoke_token */
    method RevokeToken(u: nat, now: int)
      requires Valid() && u < |users|
      modifies this`users
      ensures Valid()
      ensures users == old(users)[u := RevokeAccount(old(users[u]), now)]
    {
      var old_users := users;
      users := users[u := RevokeAccount(users[u], now)];
      assert forall a | a in users :: a in old_users || a == users[u];
    }
  }
}
