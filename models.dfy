/**
 * The data layer of the study-session application: the three tables, the
 * `session_members` association table, the relationship views over them and
 * the two pure queries of a study session.
 *
 * Rows are values keyed by their primary key; the tables and the membership
 * relation are the fields of a `Database` object that inserts, joins and
 * leaves update in place. The UNIQUE and FOREIGN KEY constraints are the
 * invariant `Consistent`; NOT NULL columns are fields without `Option`, and
 * the composite primary key of `session_members` is the relation being a set.
 */
module Models {
  import opened Wrappers

  /** A second within a day. */
  type SecondOfDay = s: nat | s < 86400

  /** A UTC point in time: a whole calendar day number and the second within that day. */
  datatype DateTime = DateTime(day: int, secondOfDay: SecondOfDay)

  /** A row of the `user` table; its primary key is the key it is stored under. */
  datatype UserRow = UserRow(username: string, email: string, passwordHash: Option<string>)

  /**
   * A row of the `study_session` table. The recurrence columns are stored
   * only: nothing in the data layer reads or expands them.
   */
  datatype SessionRow = SessionRow(
    title: string,
    date: DateTime,
    time: string,
    location: string,
    topic: Option<string>,
    creatorId: nat,
    createdAt: DateTime,
    isRecurring: bool,
    recurrenceInterval: Option<string>,
    parentId: Option<nat>)

  /** A row of the `session_comment` table: one author and one session, both required. */
  datatype CommentRow = CommentRow(content: string, timestamp: DateTime, userId: nat, sessionId: nat)

  /** A row of `session_members`; the whole row is its primary key. */
  datatype Membership = Membership(userId: nat, sessionId: nat)

  /** Why the database refuses an insert. */
  datatype DbError =
    | UsernameTaken   // UNIQUE on user.username
    | EmailTaken      // UNIQUE on user.email
    | UnknownUser     // a foreign key naming a user that does not exist
    | UnknownSession  // a foreign key naming a session that does not exist

  // ---------------------------------------------------------------------
  // The membership relation and its two views
  // ---------------------------------------------------------------------

  /** `session.members`: the users paired with `sessionId`. */
  function MembersOf(rel: set<Membership>, sessionId: nat): (r: set<nat>)
    ensures forall u :: u in r <==> Membership(u, sessionId) in rel
  {
    set m | m in rel && m.sessionId == sessionId :: m.userId
  }

  /** `user.joined_sessions`: the sessions paired with `userId`. */
  function JoinedSessionsOf(rel: set<Membership>, userId: nat): (r: set<nat>)
    ensures forall s :: s in r <==> Membership(userId, s) in rel
  {
    set m | m in rel && m.userId == userId :: m.sessionId
  }

  /** The rows of `session_members` that name `sessionId`. */
  function PairsOf(rel: set<Membership>, sessionId: nat): set<Membership>
  {
    set m | m in rel && m.sessionId == sessionId
  }

  /**
   * `StudySession.get_participant_count`: the database counts the association
   * rows of the session, which is the number of distinct members.
   */
  function ParticipantCount(rel: set<Membership>, sessionId: nat): (n: nat)
    ensures n == |MembersOf(rel, sessionId)|
  {
    MembersCountIsPairCount(rel, sessionId);
    |PairsOf(rel, sessionId)|
  }

  /** Since a (user, session) pair is a row's whole key, its session's rows and members are in bijection. */
  lemma {:induction false} MembersCountIsPairCount(rel: set<Membership>, sessionId: nat)
    ensures |MembersOf(rel, sessionId)| == |PairsOf(rel, sessionId)|
    decreases |rel|
  {
    if rel != {} {
      var m :| m in rel;
      var rest := rel - {m};
      MembersCountIsPairCount(rest, sessionId);
      RemovePair(rel, m, sessionId);
    }
  }

  /** Taking one row out of the relation takes at most that row, and its user, out of a session's views. */
  lemma RemovePair(rel: set<Membership>, m: Membership, sessionId: nat)
    requires m in rel
    ensures m.sessionId == sessionId ==>
              && PairsOf(rel, sessionId) == PairsOf(rel - {m}, sessionId) + {m}
              && m !in PairsOf(rel - {m}, sessionId)
              && MembersOf(rel, sessionId) == MembersOf(rel - {m}, sessionId) + {m.userId}
              && m.userId !in MembersOf(rel - {m}, sessionId)
    ensures m.sessionId != sessionId ==>
              && PairsOf(rel, sessionId) == PairsOf(rel - {m}, sessionId)
              && MembersOf(rel, sessionId) == MembersOf(rel - {m}, sessionId)
  {
    var rest := rel - {m};
    if m.sessionId == sessionId {
      assert PairsOf(rel, sessionId) == PairsOf(rest, sessionId) + {m};
      assert MembersOf(rel, sessionId) == MembersOf(rest, sessionId) + {m.userId};
    } else {
      assert PairsOf(rel, sessionId) == PairsOf(rest, sessionId);
      assert MembersOf(rel, sessionId) == MembersOf(rest, sessionId);
    }
  }

  /** The two relationship views describe the same association rows. */
  lemma ViewsAgree(rel: set<Membership>, userId: nat, sessionId: nat)
    ensures userId in MembersOf(rel, sessionId) <==> sessionId in JoinedSessionsOf(rel, userId)
  {
  }

  /** Joining: the association row is inserted (a row already present stays a single row). */
  function WithMember(rel: set<Membership>, userId: nat, sessionId: nat): set<Membership>
  {
    rel + {Membership(userId, sessionId)}
  }

  /** Leaving: the association row is deleted. */
  function WithoutMember(rel: set<Membership>, userId: nat, sessionId: nat): set<Membership>
  {
    rel - {Membership(userId, sessionId)}
  }

  /** After a join the user is a member, the count rises by one unless they already were, and no other session changes. */
  lemma JoinEffect(rel: set<Membership>, userId: nat, sessionId: nat)
    ensures MembersOf(WithMember(rel, userId, sessionId), sessionId) == MembersOf(rel, sessionId) + {userId}
    ensures ParticipantCount(WithMember(rel, userId, sessionId), sessionId)
         == ParticipantCount(rel, sessionId) + (if userId in MembersOf(rel, sessionId) then 0 else 1)
    ensures forall t :: t != sessionId ==> MembersOf(WithMember(rel, userId, sessionId), t) == MembersOf(rel, t)
  {
    var after := WithMember(rel, userId, sessionId);
    assert MembersOf(after, sessionId) == MembersOf(rel, sessionId) + {userId};
    forall t | t != sessionId
      ensures MembersOf(after, t) == MembersOf(rel, t)
    {
    }
  }

  /** After a leave the user is not a member, the count drops by one if they were, and no other session changes. */
  lemma LeaveEffect(rel: set<Membership>, userId: nat, sessionId: nat)
    ensures MembersOf(WithoutMember(rel, userId, sessionId), sessionId) == MembersOf(rel, sessionId) - {userId}
    ensures ParticipantCount(WithoutMember(rel, userId, sessionId), sessionId)
         == ParticipantCount(rel, sessionId) - (if userId in MembersOf(rel, sessionId) then 1 else 0)
    ensures forall t :: t != sessionId ==> MembersOf(WithoutMember(rel, userId, sessionId), t) == MembersOf(rel, t)
  {
    var after := WithoutMember(rel, userId, sessionId);
    assert MembersOf(after, sessionId) == MembersOf(rel, sessionId) - {userId};
    forall t | t != sessionId
      ensures MembersOf(after, t) == MembersOf(rel, t)
    {
    }
  }

  /** The composite primary key: inserting a pair that is already present changes nothing. */
  lemma JoinIdempotent(rel: set<Membership>, userId: nat, sessionId: nat)
    requires userId in MembersOf(rel, sessionId)
    ensures WithMember(rel, userId, sessionId) == rel
  {
  }

  /** Leaving undoes joining exactly, for any user, the session's creator included. */
  lemma JoinThenLeave(rel: set<Membership>, userId: nat, sessionId: nat)
    requires userId !in MembersOf(rel, sessionId)
    ensures WithoutMember(WithMember(rel, userId, sessionId), userId, sessionId) == rel
  {
  }

  // ---------------------------------------------------------------------
  // Pure queries on a session
  // ---------------------------------------------------------------------

  /** `StudySession.is_past`: the session's calendar day is before the clock's calendar day. */
  predicate IsPast(session: SessionRow, now: DateTime)
  {
    session.date.day < now.day
  }

  /** Only the two calendar days matter, never the time of day. */
  lemma IsPastOnlyDays(a: SessionRow, b: SessionRow, now: DateTime, now': DateTime)
    requires a.date.day == b.date.day && now.day == now'.day
    ensures IsPast(a, now) == IsPast(b, now')
  {
  }

  /** A session dated today, at whatever time, is not past; one dated on an earlier day is. */
  lemma IsPastToday(session: SessionRow, now: DateTime)
    ensures session.date.day == now.day ==> !IsPast(session, now)
    ensures session.date.day < now.day ==> IsPast(session, now)
  {
  }

  /** Once past, a session stays past as the clock moves on. */
  lemma IsPastMonotone(session: SessionRow, now: DateTime, later: DateTime)
    requires IsPast(session, now) && now.day <= later.day
    ensures IsPast(session, later)
  {
  }

  // ---------------------------------------------------------------------
  // Views over the other foreign keys
  // ---------------------------------------------------------------------

  /** `user.created_sessions`: the sessions whose `creator_id` is `userId`. */
  function CreatedSessions(sessions: map<nat, SessionRow>, userId: nat): (r: set<nat>)
    ensures forall sid :: sid in r <==> sid in sessions && sessions[sid].creatorId == userId
  {
    set sid | sid in sessions && sessions[sid].creatorId == userId
  }

  /** `session.comments`: the comments attached to `sessionId`. */
  function CommentsOn(comments: map<nat, CommentRow>, sessionId: nat): (r: set<nat>)
    ensures forall cid :: cid in r <==> cid in comments && comments[cid].sessionId == sessionId
  {
    set cid | cid in comments && comments[cid].sessionId == sessionId
  }

  /** `user.comments`: the comments written by `userId`. */
  function CommentsBy(comments: map<nat, CommentRow>, userId: nat): (r: set<nat>)
    ensures forall cid :: cid in r <==> cid in comments && comments[cid].userId == userId
  {
    set cid | cid in comments && comments[cid].userId == userId
  }

  /** The usernames in use. */
  function Usernames(users: map<nat, UserRow>): (r: set<string>)
    ensures forall name :: name in r <==> exists id :: id in users && users[id].username == name
  {
    set id | id in users :: users[id].username
  }

  /** The emails in use. */
  function Emails(users: map<nat, UserRow>): (r: set<string>)
    ensures forall email :: email in r <==> exists id :: id in users && users[id].email == email
  {
    set id | id in users :: users[id].email
  }

  // ---------------------------------------------------------------------
  // The declared constraints
  // ---------------------------------------------------------------------

  predicate UniqueUsernames(users: map<nat, UserRow>)
  {
    forall a, b :: a in users && b in users && users[a].username == users[b].username ==> a == b
  }

  predicate UniqueEmails(users: map<nat, UserRow>)
  {
    forall a, b :: a in users && b in users && users[a].email == users[b].email ==> a == b
  }

  /** Every foreign key names an existing row and the UNIQUE columns hold no duplicates. */
  predicate Consistent(users: map<nat, UserRow>, sessions: map<nat, SessionRow>,
                       comments: map<nat, CommentRow>, members: set<Membership>)
  {
    && UniqueUsernames(users)
    && UniqueEmails(users)
    && (forall sid :: sid in sessions ==> sessions[sid].creatorId in users)
    && (forall sid :: sid in sessions && sessions[sid].parentId.Some? ==> sessions[sid].parentId.value in sessions)
    && (forall cid :: cid in comments ==> comments[cid].userId in users && comments[cid].sessionId in sessions)
    && (forall m :: m in members ==> m.userId in users && m.sessionId in sessions)
  }

  /** Inserting a pair whose user and session exist keeps every constraint. */
  lemma JoinKeepsConsistent(users: map<nat, UserRow>, sessions: map<nat, SessionRow>,
                            comments: map<nat, CommentRow>, members: set<Membership>, userId: nat, sessionId: nat)
    requires Consistent(users, sessions, comments, members)
    requires userId in users && sessionId in sessions
    ensures Consistent(users, sessions, comments, WithMember(members, userId, sessionId))
  {
  }

  /** The created sessions of different users are disjoint, and together they are all the stored sessions. */
  lemma CreatedSessionsPartition(users: map<nat, UserRow>, sessions: map<nat, SessionRow>,
                                 comments: map<nat, CommentRow>, members: set<Membership>)
    requires Consistent(users, sessions, comments, members)
    ensures forall u, v :: u != v ==> CreatedSessions(sessions, u) !! CreatedSessions(sessions, v)
    ensures (set u, sid | u in users && sid in CreatedSessions(sessions, u) :: sid) == sessions.Keys
  {
    var all := set u, sid | u in users && sid in CreatedSessions(sessions, u) :: sid;
    forall sid | sid in sessions
      ensures sid in all
    {
      assert sid in CreatedSessions(sessions, sessions[sid].creatorId);
    }
  }

  /** The comments of different sessions are disjoint, and together they are all the stored comments. */
  lemma CommentsOnPartition(users: map<nat, UserRow>, sessions: map<nat, SessionRow>,
                            comments: map<nat, CommentRow>, members: set<Membership>)
    requires Consistent(users, sessions, comments, members)
    ensures forall s, t :: s != t ==> CommentsOn(comments, s) !! CommentsOn(comments, t)
    ensures (set s, cid | s in sessions && cid in CommentsOn(comments, s) :: cid) == comments.Keys
  {
    var all := set s, cid | s in sessions && cid in CommentsOn(comments, s) :: cid;
    forall cid | cid in comments
      ensures cid in all
    {
      assert cid in CommentsOn(comments, comments[cid].sessionId);
    }
  }

  /** The comments of different authors are disjoint, and together they are all the stored comments. */
  lemma CommentsByPartition(users: map<nat, UserRow>, sessions: map<nat, SessionRow>,
                            comments: map<nat, CommentRow>, members: set<Membership>)
    requires Consistent(users, sessions, comments, members)
    ensures forall u, v :: u != v ==> CommentsBy(comments, u) !! CommentsBy(comments, v)
    ensures (set u, cid | u in users && cid in CommentsBy(comments, u) :: cid) == comments.Keys
  {
    var all := set u, cid | u in users && cid in CommentsBy(comments, u) :: cid;
    forall cid | cid in comments
      ensures cid in all
    {
      assert cid in CommentsBy(comments, comments[cid].userId);
    }
  }

  /** The two UNIQUE columns of `user`. */
  datatype UniqueColumn = UsernameColumn | EmailColumn

  function ColumnValue(row: UserRow, column: UniqueColumn): string
  {
    match column
    case UsernameColumn => row.username
    case EmailColumn => row.email
  }

  /** The values of `column` held by the users with a key in `keys`. */
  function ColumnValues(users: map<nat, UserRow>, keys: set<nat>, column: UniqueColumn): set<string>
    requires keys <= users.Keys
  {
    set id | id in keys :: ColumnValue(users[id], column)
  }

  /** A column that no two rows share holds as many distinct values as there are rows. */
  lemma {:induction false} UniqueColumnCount(users: map<nat, UserRow>, keys: set<nat>, column: UniqueColumn)
    requires keys <= users.Keys
    requires forall a, b :: a in keys && b in keys && ColumnValue(users[a], column) == ColumnValue(users[b], column) ==> a == b
    ensures |ColumnValues(users, keys, column)| == |keys|
    decreases |keys|
  {
    if keys != {} {
      var id :| id in keys;
      var rest := keys - {id};
      UniqueColumnCount(users, rest, column);
      var v := ColumnValue(users[id], column);
      assert ColumnValues(users, keys, column) == ColumnValues(users, rest, column) + {v};
      assert v !in ColumnValues(users, rest, column);
    }
  }

  /** With unique usernames there are as many usernames in use as users. */
  lemma UsernamesCount(users: map<nat, UserRow>)
    requires UniqueUsernames(users)
    ensures |Usernames(users)| == |users|
  {
    UniqueColumnCount(users, users.Keys, UsernameColumn);
    assert Usernames(users) == ColumnValues(users, users.Keys, UsernameColumn);
  }

  /** With unique emails there are as many emails in use as users. */
  lemma EmailsCount(users: map<nat, UserRow>)
    requires UniqueEmails(users)
    ensures |Emails(users)| == |users|
  {
    UniqueColumnCount(users, users.Keys, EmailColumn);
    assert Emails(users) == ColumnValues(users, users.Keys, EmailColumn);
  }

  /** Every session has exactly one creator: it is among that user's created sessions and no other's. */
  lemma EverySessionHasOneCreator(users: map<nat, UserRow>, sessions: map<nat, SessionRow>,
                                  comments: map<nat, CommentRow>, members: set<Membership>, sid: nat)
    requires Consistent(users, sessions, comments, members)
    requires sid in sessions
    ensures exists u :: u in users && sid in CreatedSessions(sessions, u)
    ensures forall u, v :: sid in CreatedSessions(sessions, u) && sid in CreatedSessions(sessions, v) ==> u == v
  {
  }

  /** Every comment has exactly one existing author and one existing session. */
  lemma EveryCommentHasOneAuthorAndSession(users: map<nat, UserRow>, sessions: map<nat, SessionRow>,
                                           comments: map<nat, CommentRow>, members: set<Membership>, cid: nat)
    requires Consistent(users, sessions, comments, members)
    requires cid in comments
    ensures exists u :: u in users && cid in CommentsBy(comments, u)
    ensures exists s :: s in sessions && cid in CommentsOn(comments, s)
    ensures forall u, v :: cid in CommentsBy(comments, u) && cid in CommentsBy(comments, v) ==> u == v
    ensures forall s, t :: cid in CommentsOn(comments, s) && cid in CommentsOn(comments, t) ==> s == t
  {
  }

  // ---------------------------------------------------------------------
  // The mutable objects
  // ---------------------------------------------------------------------

  /** A `User` object before it is saved; `set_password` assigns its hash field. */
  class User {
    var username: string
    var email: string
    var passwordHash: Option<string>

    constructor (username: string, email: string)
      ensures this.username == username && this.email == email && passwordHash == None
    {
      this.username := username;
      this.email := email;
      passwordHash := None;
    }

    /** `set_password`: stores the hash that `hash` (Werkzeug's hasher) gives for `password`. */
    method SetPassword(password: string, hash: string -> string)
      modifies this
      ensures passwordHash == Some(hash(password))
      ensures username == old(username) && email == old(email)
    {
      passwordHash := Some(hash(password));
    }

    /** `check_password`: `verify` (Werkzeug's checker) applied to the stored hash. */
    function CheckPassword(password: string, verify: (string, string) -> bool): bool
      reads this
      requires passwordHash.Some?
    {
      verify(passwordHash.value, password)
    }

    /** The row this object becomes when it is saved. */
    function Row(): UserRow
      reads this
    {
      UserRow(username, email, passwordHash)
    }
  }

  /** If the checker accepts whatever the hasher produced, a password just set is accepted. */
  lemma PasswordRoundTrip(u: User, password: string, hash: string -> string, verify: (string, string) -> bool)
    requires u.passwordHash == Some(hash(password))
    requires forall p :: verify(hash(p), p)
    ensures u.CheckPassword(password, verify)
  {
  }

  /** The tables and the membership relation, updated in place. */
  class Database {
    var users: map<nat, UserRow>
    var sessions: map<nat, SessionRow>
    var comments: map<nat, CommentRow>
    var members: set<Membership>

    ghost predicate Valid()
      reads this
    {
      Consistent(users, sessions, comments, members)
    }

    constructor ()
      ensures Valid()
      ensures users == map[] && sessions == map[] && comments == map[] && members == {}
    {
      users, sessions, comments, members := map[], map[], map[], {};
    }

    /** Saves a user under a fresh key, unless its username or email is already in use. */
    method AddUser(id: nat, u: User) returns (r: Outcome<DbError>)
      requires Valid()
      requires id !in users
      modifies this
      ensures Valid()
      ensures r == (if u.username in Usernames(old(users)) then Fail(UsernameTaken)
                    else if u.email in Emails(old(users)) then Fail(EmailTaken)
                    else Pass)
      ensures users == (if r.Pass? then old(users)[id := u.Row()] else old(users))
      ensures sessions == old(sessions) && comments == old(comments) && members == old(members)
    {
      if u.username in Usernames(users) {
        r := Fail(UsernameTaken);
      } else if u.email in Emails(users) {
        r := Fail(EmailTaken);
      } else {
        users := users[id := u.Row()];
        r := Pass;
      }
    }

    /**
     * Saves a session under a fresh key, unless its creator or its parent does
     * not exist. A row may name itself as parent: the key exists once it is saved.
     */
    method AddSession(id: nat, row: SessionRow) returns (r: Outcome<DbError>)
      requires Valid()
      requires id !in sessions
      modifies this
      ensures Valid()
      ensures r == (if row.creatorId !in old(users) then Fail(UnknownUser)
                    else if row.parentId.Some? && row.parentId.value !in old(sessions) && row.parentId.value != id
                    then Fail(UnknownSession)
                    else Pass)
      ensures sessions == (if r.Pass? then old(sessions)[id := row] else old(sessions))
      ensures users == old(users) && comments == old(comments) && members == old(members)
    {
      if row.creatorId !in users {
        r := Fail(UnknownUser);
      } else if row.parentId.Some? && row.parentId.value !in sessions && row.parentId.value != id {
        r := Fail(UnknownSession);
      } else {
        sessions := sessions[id := row];
        r := Pass;
      }
    }

    /** Saves a comment under a fresh key, unless its author or its session does not exist. */
    method AddComment(id: nat, row: CommentRow) returns (r: Outcome<DbError>)
      requires Valid()
      requires id !in comments
      modifies this
      ensures Valid()
      ensures r == (if row.userId !in old(users) then Fail(UnknownUser)
                    else if row.sessionId !in old(sessions) then Fail(UnknownSession)
                    else Pass)
      ensures comments == (if r.Pass? then old(comments)[id := row] else old(comments))
      ensures users == old(users) && sessions == old(sessions) && members == old(members)
    {
      if row.userId !in users {
        r := Fail(UnknownUser);
      } else if row.sessionId !in sessions {
        r := Fail(UnknownSession);
      } else {
        comments := comments[id := row];
        r := Pass;
      }
    }

    /** Joining a session: the pair is inserted, once, when both ends exist. */
    method Join(userId: nat, sessionId: nat) returns (r: Outcome<DbError>)
      requires Valid()
      modifies this
      ensures Valid()
      ensures r == (if userId !in users then Fail(UnknownUser)
                    else if sessionId !in sessions then Fail(UnknownSession)
                    else Pass)
      ensures members == (if r.Pass? then WithMember(old(members), userId, sessionId) else old(members))
      ensures users == old(users) && sessions == old(sessions) && comments == old(comments)
      ensures r.Pass? ==> MembersOf(members, sessionId) == old(MembersOf(members, sessionId)) + {userId}
      ensures r.Pass? ==>
        ParticipantCount(members, sessionId)
        == old(ParticipantCount(members, sessionId)) + (if userId in old(MembersOf(members, sessionId)) then 0 else 1)
      ensures forall t :: t != sessionId ==> MembersOf(members, t) == old(MembersOf(members, t))
    {
      if userId !in users {
        r := Fail(UnknownUser);
      } else if sessionId !in sessions {
        r := Fail(UnknownSession);
      } else {
        JoinEffect(members, userId, sessionId);
        JoinKeepsConsistent(users, sessions, comments, members, userId, sessionId);
        members := WithMember(members, userId, sessionId);
        r := Pass;
      }
    }

    /** Leaving a session: the pair is deleted; `wasMember` says whether there was one. */
    method Leave(userId: nat, sessionId: nat) returns (wasMember: bool)
      requires Valid()
      modifies this
      ensures Valid()
      ensures wasMember == (userId in old(MembersOf(members, sessionId)))
      ensures members == WithoutMember(old(members), userId, sessionId)
      ensures users == old(users) && sessions == old(sessions) && comments == old(comments)
      ensures MembersOf(members, sessionId) == old(MembersOf(members, sessionId)) - {userId}
      ensures ParticipantCount(members, sessionId)
           == old(ParticipantCount(members, sessionId)) - (if wasMember then 1 else 0)
      ensures forall t :: t != sessionId ==> MembersOf(members, t) == old(MembersOf(members, t))
    {
      LeaveEffect(members, userId, sessionId);
      wasMember := Membership(userId, sessionId) in members;
      members := WithoutMember(members, userId, sessionId);
    }
  }

  /**
   * The join-then-leave scenario of the route tests: the creator of a session
   * dated tomorrow joins it, is a member, leaves it, and no longer is.
   */
  method CreatorJoinsAndLeaves(now: DateTime, hash: string -> string)
    returns (memberAfterJoin: bool, memberAfterLeave: bool)
    ensures memberAfterJoin && !memberAfterLeave
  {
    var db := new Database();
    var alice := new User("testuser", "test@example.com");
    alice.SetPassword("password123", hash);
    var r := db.AddUser(1, alice);
    assert r == Pass;
    var tomorrow := DateTime(now.day + 1, now.secondOfDay);
    var session := SessionRow("Future Study Session", tomorrow, "3:00 PM", "Library 101",
                              Some("Chapters 1-3"), 1, now, false, None, None);
    r := db.AddSession(1, session);
    assert r == Pass;
    assert !IsPast(db.sessions[1], now);
    assert 1 in CreatedSessions(db.sessions, 1);
    assert MembersOf(db.members, 1) == {};

    r := db.Join(1, 1);
    assert r == Pass;
    assert MembersOf(db.members, 1) == {1};
    assert ParticipantCount(db.members, 1) == 1;
    memberAfterJoin := 1 in MembersOf(db.members, 1);

    var wasMember := db.Leave(1, 1);
    assert wasMember;
    assert 1 !in MembersOf(db.members, 1);
    assert ParticipantCount(db.members, 1) == 0;
    memberAfterLeave := 1 in MembersOf(db.members, 1);
  }
}
