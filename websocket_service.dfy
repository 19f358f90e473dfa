/**
 * The persisted half of the notification service: storing a notification for a user,
 * listing a user's unread notifications newest first, and marking them read.
 * The real-time push over the message broker is not modelled.
 */
module WebSocketService {
  import opened Wrappers
  import opened Seqs
  import opened Entities
  import opened Repositories

  /** The client-facing form of a stored notification. */
  function ToDto(n: Notification): (d: NotificationDto)
    ensures d.kind == n.kind && d.message == n.message && d.jobName == n.jobName
    ensures d.companyName == n.companyName && d.resumeId == n.resumeId && d.timestamp == n.timestamp
    ensures d.userId == Some(n.user)
  {
    NotificationDto(n.kind, n.message, n.jobName, n.companyName, n.resumeId, Some(n.user), n.timestamp)
  }

  /**
   * The notification table after sending `dto` to `userId`. An unknown user makes the lookup
   * throw, and a null message violates the column's not-null constraint. Both failures reach
   * the method's `catch`; read without the surrounding transaction, nothing is stored and the
   * caller carries on.
   */
  function NotificationSent(users: seq<User>, ns: seq<Notification>, userId: int, dto: NotificationDto)
    : (r: seq<Notification>)
    ensures FindUserById(users, userId).None? || dto.message.None? ==> r == ns
    ensures FindUserById(users, userId).Some? && dto.message.Some? ==>
              |r| == |ns| + 1 && r[..|ns|] == ns
              && r[|ns|].user == userId && !r[|ns|].read
              && ToDto(r[|ns|]) == dto.(userId := Some(userId))
              && forall k :: 0 <= k < |ns| ==> ns[k].id < r[|ns|].id
  {
    if FindUserById(users, userId).None? || dto.message.None? then ns
    else
      ns + [Notification(NewNotificationId(ns), dto.kind, dto.message, dto.jobName,
                         dto.companyName, dto.resumeId, userId, dto.timestamp, false)]
  }

  method SendNotificationToUser(db: Database, userId: int, dto: NotificationDto)
    modifies db
    ensures db.Snapshot() == old(db.Snapshot()).(notifications :=
              NotificationSent(old(db.users), old(db.notifications), userId, dto))
  {
    var found := FindUserById(db.users, userId);
    if found.Some? && dto.message.Some? {
      var n := Notification(NewNotificationId(db.notifications), dto.kind, dto.message, dto.jobName,
                            dto.companyName, dto.resumeId, userId, dto.timestamp, false);
      db.notifications := db.notifications + [n];
    }
  }

  // ---- listing unread notifications ----

  ghost predicate NewestFirst(s: seq<Notification>) {
    forall i, j :: 0 <= i < j < |s| ==> s[i].timestamp >= s[j].timestamp
  }

  function InsertByTimestamp(n: Notification, s: seq<Notification>): (r: seq<Notification>)
    requires NewestFirst(s)
    ensures NewestFirst(r)
    ensures multiset(r) == multiset(s) + multiset{n}
  {
    if s == [] then [n]
    else if n.timestamp >= s[0].timestamp then [n] + s
    else
      var rest := InsertByTimestamp(n, s[1..]);
      assert s == [s[0]] + s[1..];
      forall x | x in rest ensures x.timestamp <= s[0].timestamp {
        assert x in multiset(rest);
        if x != n {
          assert x in s[1..];
        }
      }
      PrependNewest(s[0], rest);
      [s[0]] + rest
  }

  lemma PrependNewest(x: Notification, s: seq<Notification>)
    requires NewestFirst(s)
    requires forall y :: y in s ==> y.timestamp <= x.timestamp
    ensures NewestFirst([x] + s)
  {
    forall i, j | 0 <= i < j < |[x] + s| ensures ([x] + s)[i].timestamp >= ([x] + s)[j].timestamp {
      if i == 0 {
        assert ([x] + s)[j] == s[j - 1];
      }
    }
  }

  /** `OrderByTimestampDesc`: the same notifications, newest first. */
  function SortNewestFirst(s: seq<Notification>): (r: seq<Notification>)
    ensures NewestFirst(r)
    ensures multiset(r) == multiset(s)
  {
    if s == [] then []
    else
      assert s == [s[0]] + s[1..];
      InsertByTimestamp(s[0], SortNewestFirst(s[1..]))
  }

  predicate UnreadOwnedBy(n: Notification, userId: int) {
    n.user == userId && !n.read
  }

  /** `findByUserAndReadOrderByTimestampDesc(user, false)`. */
  function UnreadOf(ns: seq<Notification>, userId: int): (r: seq<Notification>)
    ensures NewestFirst(r)
    ensures forall n :: n in r <==> n in ns && UnreadOwnedBy(n, userId)
    ensures multiset(r) == multiset(Filter(ns, (n: Notification) => UnreadOwnedBy(n, userId)))
  {
    var f := Filter(ns, (n: Notification) => UnreadOwnedBy(n, userId));
    var r := SortNewestFirst(f);
    forall n ensures n in r <==> n in f {
      assert n in r <==> n in multiset(r);
      assert n in f <==> n in multiset(f);
    }
    r
  }

  /** The unread notifications of a user, newest first; an unknown user is an error. */
  function GetUnreadNotifications(users: seq<User>, ns: seq<Notification>, userId: int)
    : (r: Result<seq<NotificationDto>, Error>)
    ensures r.Err? <==> FindUserById(users, userId).None?
    ensures r.Err? ==> r.error == UserNotFound
    ensures r.Ok? ==> |r.value| == |UnreadOf(ns, userId)|
                      && forall i :: 0 <= i < |r.value| ==>
                           r.value[i].userId == Some(userId)
                           && r.value[i] == ToDto(UnreadOf(ns, userId)[i])
  {
    if FindUserById(users, userId).None? then Err(UserNotFound)
    else
      var unread := UnreadOf(ns, userId);
      forall i | 0 <= i < |unread| ensures unread[i].user == userId {
        assert unread[i] in unread;
      }
      Ok(seq(|unread|, i requires 0 <= i < |unread| => ToDto(unread[i])))
  }

  // ---- marking read ----

  /** The notification table after every unread notification of `userId` is set read. */
  function ReadMarked(ns: seq<Notification>, userId: int): (r: seq<Notification>)
    ensures |r| == |ns|
    ensures forall k :: 0 <= k < |ns| ==> r[k] == ns[k].(read := r[k].read)
    ensures forall k :: 0 <= k < |ns| && ns[k].user != userId ==> r[k] == ns[k]
    ensures forall k :: 0 <= k < |ns| && ns[k].user == userId ==> r[k].read
  {
    seq(|ns|, k requires 0 <= k < |ns| =>
      if UnreadOwnedBy(ns[k], userId) then ns[k].(read := true) else ns[k])
  }

  /** Afterwards the user has no unread notification. */
  lemma ReadMarkedLeavesNoUnread(ns: seq<Notification>, userId: int)
    ensures UnreadOf(ReadMarked(ns, userId), userId) == []
  {
    var r := ReadMarked(ns, userId);
    forall n | n in r ensures !UnreadOwnedBy(n, userId) {
      var k :| 0 <= k < |r| && r[k] == n;
    }
    FilterNone(r, (n: Notification) => UnreadOwnedBy(n, userId));
    assert |multiset(UnreadOf(r, userId))| == 0;
  }

  /** Marking twice is marking once. */
  lemma ReadMarkedIdempotent(ns: seq<Notification>, userId: int)
    ensures ReadMarked(ReadMarked(ns, userId), userId) == ReadMarked(ns, userId)
  {
  }

  method MarkNotificationsAsRead(db: Database, userId: int) returns (failure: Option<Error>)
    modifies db
    ensures FindUserById(old(db.users), userId).None? ==>
              failure == Some(UserNotFound) && db.Snapshot() == old(db.Snapshot())
    ensures FindUserById(old(db.users), userId).Some? ==>
              failure == None
              && db.Snapshot() == old(db.Snapshot()).(notifications :=
                                    ReadMarked(old(db.notifications), userId))
  {
    if FindUserById(db.users, userId).None? {
      return Some(UserNotFound);
    }
    ghost var target := ReadMarked(db.notifications, userId);
    var i := 0;
    while i < |db.notifications|
      modifies db`notifications
      invariant 0 <= i <= |db.notifications| == |target|
      invariant forall k :: 0 <= k < i ==> db.notifications[k] == target[k]
      invariant forall k :: i <= k < |db.notifications| ==> db.notifications[k] == old(db.notifications)[k]
    {
      var n := db.notifications[i];
      if UnreadOwnedBy(n, userId) {
        db.notifications := db.notifications[i := n.(read := true)];
      }
      i := i + 1;
    }
    assert db.notifications == target;
    return None;
  }
}
