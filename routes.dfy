/** The decision logic of the route handlers in app/main/routes.py that act
    on the core: follow and unfollow, search result paging, sending and
    reading private messages, and the notification poll. The signed-in user
    is the account at position `me`; whether a submitted form validated
    (CSRF token, required fields) is a parameter. Rendering and flashed
    messages are reduced to the page the handler sends the browser to. */
module Routes {
  import opened Util
  import opened Models
  import Search
  import SearchableMixin

  /** POSTS_PER_PAGE of the configuration. */
  const PostsPerPage: int := 25

  /** The notification name of the unread-message badge. */
  const UnreadName: string := "unread_message_count"

  // ---------------------------------------------------------------------
  // follow / unfollow

  /** How a follow or unfollow request ends, and where it redirects:
      the index page for an invalid form or an unknown user, the target's
      profile page when the target is the signed-in user or on success. */
  datatype FollowOutcome = FormInvalid | NoSuchUser | Self | Done

  datatype Page = IndexPage | UserPage(username: string)

  function RedirectOf(o: FollowOutcome, username: string): (p: Page)
    ensures p == IndexPage <==> o == FormInvalid || o == NoSuchUser
    ensures p != IndexPage ==> p == UserPage(username)
  {
    match o
    case FormInvalid => IndexPage
    case NoSuchUser => IndexPage
    case Self => UserPage(username)
    case Done => UserPage(username)
  }

  /** The checks shared by both handlers, in the order they are made. */
  function Decide(users: seq<Account>, me: nat, username: string, formValid: bool)
    : (o: FollowOutcome)
    requires me < |users|
    ensures o == FormInvalid <==> !formValid
    ensures o == NoSuchUser <==> formValid && forall a | a in users :: a.username != username
    ensures o == Self <==> formValid && FindByUsername(users, username) == Some(me)
    ensures o == Done ==> exists a | a in users :: a.username == username
  {
    if !formValid then FormInvalid
    else match FindByUsername(users, username)
      case None => NoSuchUser
      case Some(i) => if i == me then Self else Done
  }

  /** Nobody follows themselves. */
  ghost predicate NoSelfFollows(follows: set<Edge>) {
    forall e | e in follows :: e.0 != e.1
  }

  /** The account a successful decision acts on. */
  function Target(users: seq<Account>, username: string): (a: Account)
    requires FindByUsername(users, username).Some?
    ensures a in users && a.username == username
  {
    users[FindByUsername(users, username).value]
  }

  /** The follow route: on success the signed-in user follows the target;
      every other outcome leaves the follower graph alone. Since the handler
      refuses self-follows, nobody ever comes to follow themselves. */
  method FollowRoute(app: App, me: nat, username: string, formValid: bool)
    returns (outcome: FollowOutcome)
    requires app.Valid() && me < |app.users|
    modifies app`follows
    ensures app.Valid()
    ensures outcome == Decide(app.users, me, username, formValid)
    ensures outcome == Done ==>
              app.follows == FollowEdges(old(app.follows), app.users[me].id, Target(app.users, username).id)
    ensures outcome != Done ==> app.follows == old(app.follows)
    ensures NoSelfFollows(old(app.follows)) ==> NoSelfFollows(app.follows)
  {
    outcome := Decide(app.users, me, username, formValid);
    if outcome == Done {
      var i := FindByUsername(app.users, username).value;
      assert app.users[me].id != app.users[i].id;
      app.Follow(app.users[me].id, app.users[i].id);
    }
  }

  /** The unfollow route: on success the signed-in user no longer follows the
      target; every other outcome leaves the follower graph alone. */
  method UnfollowRoute(app: App, me: nat, username: string, formValid: bool)
    returns (outcome: FollowOutcome)
    requires app.Valid() && me < |app.users|
    modifies app`follows
    ensures app.Valid()
    ensures outcome == Decide(app.users, me, username, formValid)
    ensures outcome == Done ==>
              app.follows == UnfollowEdges(old(app.follows), app.users[me].id, Target(app.users, username).id)
    ensures outcome == Done ==> !IsFollowing(app.follows, app.users[me].id, Target(app.users, username).id)
    ensures outcome != Done ==> app.follows == old(app.follows)
  {
    outcome := Decide(app.users, me, username, formValid);
    if outcome == Done {
      var i := FindByUsername(app.users, username).value;
      app.Unfollow(app.users[me].id, app.users[i].id);
    }
  }

  // ---------------------------------------------------------------------
  // search

  /** The "next" link's page: only when more hits exist than the pages so far show. */
  function NextPage(total: int, page: int, perPage: int): Option<int> {
    if total > page * perPage then Some(page + 1) else None
  }

  /** The "previous" link's page: only past the first page. */
  function PrevPage(page: int): Option<int> {
    if page > 1 then Some(page - 1) else None
  }

  /** A next link is offered exactly when the window the next page asks the
      engine for starts before the last hit. */
  lemma NextPageIffMoreHits(total: int, query: string, page: int, perPage: int)
    ensures NextPage(total, page, perPage).Some?
        <==> Search.PageRequest(SearchableMixin.PostTable, query, page + 1, perPage).from < total
    ensures NextPage(total, page, perPage).Some? ==> NextPage(total, page, perPage).value == page + 1
  {
  }

  /** The previous link leads to a valid page whose window ends exactly where
      the current one starts. */
  lemma PrevPageAdjacent(query: string, page: int, perPage: int)
    requires PrevPage(page).Some?
    ensures PrevPage(page).value >= 1
    ensures Search.PageRequest(SearchableMixin.PostTable, query, PrevPage(page).value, perPage).from + perPage
         == Search.PageRequest(SearchableMixin.PostTable, query, page, perPage).from
  {
  }

  datatype SearchPage =
    | RedirectExplore
    | Results(posts: seq<Post>, next: Option<int>, prev: Option<int>)

  /** The search route: an invalid search form sends the user to explore;
      otherwise one page of posts matching `q` with its paging links. */
  function SearchRoute(formValid: bool, configured: bool, engine: Search.Request -> Search.Response,
                       posts: seq<Post>, q: string, page: int): (r: SearchPage)
    ensures !formValid <==> r == RedirectExplore
    ensures formValid ==>
      var (found, total) := SearchableMixin.SearchPosts(configured, engine, posts, q, page, PostsPerPage);
      && r.posts == found
      && r.next == NextPage(total, page, PostsPerPage) && r.prev == PrevPage(page)
      && (r.next.Some? <==> total > page * PostsPerPage)
      && (r.next.Some? ==> r.next.value == page + 1)
      && (r.prev.Some? <==> page > 1)
      && (r.prev.Some? ==> r.prev.value == page - 1)
    ensures formValid && !configured && page >= 1 ==> r.posts == [] && r.next.None?
  {
    if !formValid then RedirectExplore
    else
      var (found, total) := SearchableMixin.SearchPosts(configured, engine, posts, q, page, PostsPerPage);
      Results(found, NextPage(total, page, PostsPerPage), PrevPage(page))
  }

  // ---------------------------------------------------------------------
  // private messages

  datatype SendOutcome = NotFound | ShowForm | Sent

  /** The send_message route: an unknown recipient is a 404 and an invalid
      form is shown again, both without any change; otherwise the message is
      stored and the recipient's badge notification is replaced by one
      carrying their unread count, which already includes the new message
      (the session autoflushes it before counting). */
  method SendMessage(app: App, me: nat, recipient: string, formValid: bool, body: string, now: int)
    returns (outcome: SendOutcome)
    requires app.Valid() && me < |app.users| && app.clock <= now
    modifies app`messages, app`notifications, app`clock
    ensures app.Valid()
    ensures outcome == NotFound <==> FindByUsername(app.users, recipient).None?
    ensures outcome == ShowForm <==> FindByUsername(app.users, recipient).Some? && !formValid
    ensures outcome != Sent ==>
              && app.messages == old(app.messages)
              && app.notifications == old(app.notifications)
              && app.clock == old(app.clock)
    ensures outcome == Sent ==>
              var to := Target(app.users, recipient);
              && app.messages == old(app.messages) + [Message(app.users[me].id, to.id, body, now)]
              && app.clock == now
              && app.notifications == Coalesce(old(app.notifications), to.id, UnreadName,
                                               UnreadCount(UnreadMessageCount(app.messages, to)), now)
              && UnreadMessageCount(app.messages, to)
                 == UnreadMessageCount(old(app.messages), to)
                    + (if to.lastMessageReadTime.GetOr(DefaultReadTime) < now then 1 else 0)
  {
    var found := FindByUsername(app.users, recipient);
    if found.None? {
      return NotFound;
    }
    if !formValid {
      return ShowForm;
    }
    var to := app.users[found.value];
    var msg := Message(app.users[me].id, to.id, body, now);
    UnreadAfterNewMessage(app.messages, to, msg);
    app.clock := now;
    app.messages := app.messages + [msg];
    var _ := app.AddNotification(to.id, UnreadName, UnreadCount(UnreadMessageCount(app.messages, to)), now);
    outcome := Sent;
  }

  /** The view_message route: the signed-in user's read time becomes `now`
      and their badge notification is reset to 0, after which they have no
      unread messages. */
  method ViewMessage(app: App, me: nat, now: int)
    requires app.Valid() && me < |app.users| && app.clock <= now
    modifies app`users, app`notifications, app`clock
    ensures app.Valid()
    ensures app.users == old(app.users)[me := old(app.users)[me].(lastMessageReadTime := Some(now))]
    ensures app.notifications == Coalesce(old(app.notifications), app.users[me].id, UnreadName,
                                          UnreadCount(0), now)
    ensures app.clock == now
    ensures forall n | n in app.notifications && SameSlot(n, app.users[me].id, UnreadName) ::
              n.payload == UnreadCount(0)
    ensures UnreadMessageCount(app.messages, app.users[me]) == 0
  {
    var old_users := app.users;
    app.users := app.users[me := app.users[me].(lastMessageReadTime := Some(now))];
    assert forall a | a in app.users :: a in old_users || a == app.users[me];
    assert forall i | 0 <= i < |app.users| :: app.users[i].id == old_users[i].id
                                             && app.users[i].username == old_users[i].username
                                             && app.users[i].token == old_users[i].token;
    var _ := app.AddNotification(app.users[me].id, UnreadName, UnreadCount(0), now);
    NothingUnreadAfterReading(app.messages, app.users[me], now);
  }

  // ---------------------------------------------------------------------
  // notifications poll

  /** The signed-in user's notifications stamped after `since`, oldest first. */
  function NotificationsSince(notes: seq<Notification>, uid: int, since: int): (r: seq<Notification>)
    ensures forall n | n in r :: n in notes && n.userId == uid && n.timestamp > since
    ensures forall n | n in notes && n.userId == uid && n.timestamp > since :: n in r
    ensures forall i, j | 0 <= i < j < |r| :: r[i].timestamp <= r[j].timestamp
    ensures Distinct(notes) ==> Distinct(r)
  {
    SortByKey(Filter(notes, (n: Notification) => n.userId == uid && n.timestamp > since),
              (n: Notification) => n.timestamp)
  }

  /** A later `since` returns a subset of an earlier one's answer. */
  lemma SinceMonotone(notes: seq<Notification>, uid: int, s1: int, s2: int)
    requires s1 <= s2
    ensures forall n | n in NotificationsSince(notes, uid, s2) :: n in NotificationsSince(notes, uid, s1)
  {
  }

  /** Polling with the latest timestamp the client has seen returns nothing
      until something newer is added. */
  lemma NothingSinceLatest(notes: seq<Notification>, uid: int, since: int)
    requires forall n | n in notes :: n.timestamp <= since
    ensures NotificationsSince(notes, uid, since) == []
  {
  }

  /** After a notification is added at `now`, any poll with an earlier
      `since` sees exactly its latest value, and nothing older under the
      same name. */
  lemma PollSeesLatest(notes: seq<Notification>, uid: int, name: string, data: Payload,
                       now: int, since: int)
    requires since < now
    ensures var r := NotificationsSince(Coalesce(notes, uid, name, data, now), uid, since);
      && Notification(uid, name, now, data) in r
      && forall n | n in r && n.name == name :: n == Notification(uid, name, now, data)
  {
    var c := Coalesce(notes, uid, name, data, now);
    assert c[|c| - 1] in c;
  }
}
