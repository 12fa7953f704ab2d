/** The message store of database.py with the database engine abstracted away:
    three tables (users, messages, message recipients) held as sequences of
    records in insertion order, and every API function as a pure transition or
    query over them.

    Generated primary keys (uuid4) and clock readings (utcnow) are parameters
    supplied by the caller. A generated key that collides with an existing one
    violates the primary-key constraint, exactly as it would in the database, so
    the failure paths of the source are reachable in the model.
 */
module MessageStore {
  import opened Wrappers
  import opened Seqs

  type Id = string

  /** An opaque clock reading; only equality between readings matters here. */
  datatype Timestamp = Timestamp(ticks: nat)

  datatype User = User(id: Id, email: string, name: string, createdAt: Timestamp)

  datatype Message = Message(id: Id, senderId: Id, subject: string, content: string, timestamp: Timestamp)

  /** One delivery of a message to one recipient, with its read state. */
  datatype Recipient = Recipient(id: Id, messageId: Id, recipientId: Id, read: bool, readAt: Option<Timestamp>)

  datatype Store = Store(users: seq<User>, messages: seq<Message>, recipients: seq<Recipient>)

  /** IntegrityError: a unique or primary-key constraint rejected the commit.
      NoSuchRow: the code dereferenced a query result that was None. */
  datatype DbError = IntegrityError | NoSuchRow

  /** The store after an API call together with what the call returned or raised. */
  datatype Step<+T> = Step(store: Store, result: Result<T, DbError>)

  /** The dictionaries the API functions return. */
  datatype UserView = UserView(id: Id, email: string, name: string)
  datatype RowView = RowView(recipientId: Id, messageId: Id, read: bool, readAt: Option<Timestamp>)
  datatype InboxEntry = InboxEntry(row: RowView, message: Option<Message>)
  datatype RecipientStatus = RecipientStatus(recipientId: Id, read: bool, readAt: Option<Timestamp>)
  datatype MessageDetail = MessageDetail(message: Option<Message>, recipients: seq<RecipientStatus>)

  function ViewUser(u: User): UserView {
    UserView(u.id, u.email, u.name)
  }

  function ViewRow(r: Recipient): RowView {
    RowView(r.recipientId, r.messageId, r.read, r.readAt)
  }

  function StatusOf(r: Recipient): RecipientStatus {
    RecipientStatus(r.recipientId, r.read, r.readAt)
  }

  // ---------------------------------------------------------------------------
  // Store invariant
  // ---------------------------------------------------------------------------

  /** A delivery carries a read time exactly when it has been read. */
  predicate ReadStampConsistent(r: Recipient) {
    r.readAt.Some? <==> r.read
  }

  /** Primary keys and emails are unique, and every delivery's read flag agrees
      with its read time. */
  ghost predicate Valid(s: Store) {
    && (forall i, j :: 0 <= i < j < |s.users| ==>
          s.users[i].id != s.users[j].id && s.users[i].email != s.users[j].email)
    && (forall i, j :: 0 <= i < j < |s.messages| ==> s.messages[i].id != s.messages[j].id)
    && (forall i, j :: 0 <= i < j < |s.recipients| ==> s.recipients[i].id != s.recipients[j].id)
    && (forall i :: 0 <= i < |s.recipients| ==> ReadStampConsistent(s.recipients[i]))
  }

  /** The freshly created schema: three empty tables. */
  function EmptyStore(): (s: Store)
    ensures Valid(s)
    ensures s.users == [] && s.messages == [] && s.recipients == []
  {
    Store([], [], [])
  }

  // ---------------------------------------------------------------------------
  // Users
  // ---------------------------------------------------------------------------

  predicate EmailTaken(s: Store, email: string) {
    exists i :: 0 <= i < |s.users| && s.users[i].email == email
  }

  predicate UserIdTaken(s: Store, id: Id) {
    exists i :: 0 <= i < |s.users| && s.users[i].id == id
  }

  /** Inserts a user; the unique email column and the primary key make the
      commit fail, changing nothing, when either is already present. */
  function CreateUser(s: Store, email: string, name: string, freshId: Id, now: Timestamp): (step: Step<UserView>)
    ensures step.result.Success? <==> !EmailTaken(s, email) && !UserIdTaken(s, freshId)
    ensures step.result.Failure? ==> step.store == s && step.result.error == IntegrityError
    ensures step.result.Success? ==>
              && step.result.value.email == email
              && step.result.value.name == name
              && step.result.value.id == freshId
              && step.store.messages == s.messages
              && step.store.recipients == s.recipients
              && step.store.users == s.users + [User(freshId, email, name, now)]
    ensures Valid(s) ==> Valid(step.store)
  {
    if EmailTaken(s, email) || UserIdTaken(s, freshId) then
      Step(s, Failure(IntegrityError))
    else
      var u := User(freshId, email, name, now);
      Step(s.(users := s.users + [u]), Success(ViewUser(u)))
  }

  /** The user with the given email, or None when there is none. */
  function GetUserByEmail(s: Store, email: string): (r: Option<UserView>)
    ensures r.None? <==> !EmailTaken(s, email)
    ensures r.Some? ==> exists i :: 0 <= i < |s.users| && s.users[i].email == email
                                    && r.value == ViewUser(s.users[i])
  {
    match First(s.users, (u: User) => u.email == email)
    case None => None
    case Some(u) => Some(ViewUser(u))
  }

  /** Every user, in table order. */
  function GetAllUsers(s: Store): (r: seq<UserView>)
    ensures |r| == |s.users|
    ensures forall i :: 0 <= i < |s.users| ==> r[i] == ViewUser(s.users[i])
  {
    seq(|s.users|, i requires 0 <= i < |s.users| => ViewUser(s.users[i]))
  }

  /** After a successful create_user the new user is what a lookup by its
      email returns and is listed among all users. */
  lemma CreateUserThenLookup(s: Store, email: string, name: string, freshId: Id, now: Timestamp)
    requires CreateUser(s, email, name, freshId, now).result.Success?
    ensures var step := CreateUser(s, email, name, freshId, now);
            && GetUserByEmail(step.store, email) == Some(step.result.value)
            && step.result.value in GetAllUsers(step.store)
  {
    var step := CreateUser(s, email, name, freshId, now);
    var users := step.store.users;
    var k := |s.users|;
    assert users[k] == User(freshId, email, name, now);
    FirstOfUnique(users, (u: User) => u.email == email, k);
    assert GetAllUsers(step.store)[k] == step.result.value;
  }

  /** In a valid store a lookup by email returns the one user holding it. */
  lemma LookupFindsTheUser(s: Store, i: nat)
    requires Valid(s)
    requires i < |s.users|
    ensures GetUserByEmail(s, s.users[i].email) == Some(ViewUser(s.users[i]))
  {
    FirstOfUnique(s.users, (u: User) => u.email == s.users[i].email, i);
  }

  // ---------------------------------------------------------------------------
  // Messages
  // ---------------------------------------------------------------------------

  /** The generated keys of one send_message call collide with nothing. */
  predicate FreshKeys(s: Store, msgId: Id, rowIds: seq<Id>) {
    && (forall i :: 0 <= i < |s.messages| ==> s.messages[i].id != msgId)
    && Distinct(rowIds)
    && (forall i, j :: 0 <= i < |s.recipients| && 0 <= j < |rowIds| ==> s.recipients[i].id != rowIds[j])
  }

  /** The unread delivery rows a message gets, one per listed recipient. */
  function Deliveries(msgId: Id, recipients: seq<Id>, rowIds: seq<Id>): (rows: seq<Recipient>)
    requires |rowIds| == |recipients|
    ensures |rows| == |recipients|
    ensures forall i :: 0 <= i < |rows| ==>
              && rows[i].id == rowIds[i]
              && rows[i].messageId == msgId
              && rows[i].recipientId == recipients[i]
              && !rows[i].read
              && rows[i].readAt.None?
  {
    seq(|recipients|, i requires 0 <= i < |recipients| => Recipient(rowIds[i], msgId, recipients[i], false, None))
  }

  /** Inserts one message and one unread delivery per recipient in a single
      transaction: either all rows are committed or, on any failure, none. The
      sender and recipients are not checked against the users table. */
  function SendMessage(s: Store, senderId: Id, recipients: seq<Id>, subject: string, content: string,
                       msgId: Id, rowIds: seq<Id>, now: Timestamp): (step: Step<Message>)
    requires |rowIds| == |recipients|
    ensures step.result.Success? <==> FreshKeys(s, msgId, rowIds)
    ensures step.result.Failure? ==> step.store == s && step.result.error == IntegrityError
    ensures step.result.Success? ==>
              && step.result.value == Message(msgId, senderId, subject, content, now)
              && step.store.users == s.users
              && step.store.messages == s.messages + [step.result.value]
              && |step.store.recipients| == |s.recipients| + |recipients|
              && step.store.recipients[..|s.recipients|] == s.recipients
              && forall i :: 0 <= i < |recipients| ==>
                   var row := step.store.recipients[|s.recipients| + i];
                   row.id == rowIds[i] && row.messageId == msgId && row.recipientId == recipients[i]
                   && !row.read && row.readAt.None?
    ensures Valid(s) ==> Valid(step.store)
  {
    if !FreshKeys(s, msgId, rowIds) then
      Step(s, Failure(IntegrityError))
    else
      var m := Message(msgId, senderId, subject, content, now);
      var rows := Deliveries(msgId, recipients, rowIds);
      var s' := Store(s.users, s.messages + [m], s.recipients + rows);
      assert Valid(s) ==> Valid(s') by {
        if Valid(s) {
          forall i, j | 0 <= i < j < |s'.recipients|
            ensures s'.recipients[i].id != s'.recipients[j].id
          {
            if j >= |s.recipients| && i >= |s.recipients| {
              assert s'.recipients[i].id == rowIds[i - |s.recipients|];
              assert s'.recipients[j].id == rowIds[j - |s.recipients|];
            } else if j >= |s.recipients| {
              assert s'.recipients[j].id == rowIds[j - |s.recipients|];
            }
          }
        }
      }
      Step(s', Success(m))
  }

  predicate SentBy(m: Message, senderId: Id) {
    m.senderId == senderId
  }

  /** The messages whose sender is `senderId`, in table order. */
  function GetAllSentMessage(s: Store, senderId: Id): (r: seq<Message>)
    ensures forall m :: m in r <==> m in s.messages && m.senderId == senderId
    ensures forall m :: multiset(r)[m] == if m.senderId == senderId then multiset(s.messages)[m] else 0
  {
    FilterCount(s.messages, (m: Message) => SentBy(m, senderId));
    Filter(s.messages, (m: Message) => SentBy(m, senderId))
  }

  /** The message with the given id, or None when the table has none. */
  function FindMessage(s: Store, id: Id): (r: Option<Message>)
    ensures r.None? <==> forall i :: 0 <= i < |s.messages| ==> s.messages[i].id != id
    ensures r.Some? ==> r.value in s.messages && r.value.id == id
  {
    First(s.messages, (m: Message) => m.id == id)
  }

  predicate AddressedTo(r: Recipient, userId: Id) {
    r.recipientId == userId
  }

  /** The delivery rows addressed to `userId`, in table order. */
  function InboxRows(s: Store, userId: Id): (rows: seq<Recipient>)
    ensures forall r :: r in rows <==> r in s.recipients && r.recipientId == userId
    ensures forall r :: multiset(rows)[r] == if r.recipientId == userId then multiset(s.recipients)[r] else 0
  {
    FilterCount(s.recipients, (r: Recipient) => AddressedTo(r, userId));
    Filter(s.recipients, (r: Recipient) => AddressedTo(r, userId))
  }

  /** One entry per delivery addressed to `userId`, each paired with its
      message, or with None when no message has the delivery's message id. */
  function ViewInbox(s: Store, userId: Id): (r: seq<InboxEntry>)
    ensures |r| == |InboxRows(s, userId)|
    ensures forall i :: 0 <= i < |r| ==> r[i].row == ViewRow(InboxRows(s, userId)[i])
    ensures forall e :: e in r ==> e.row.recipientId == userId
    ensures forall e :: e in r && e.message.Some? ==>
              e.message.value in s.messages && e.message.value.id == e.row.messageId
    ensures forall e :: e in r && e.message.None? ==>
              forall j :: 0 <= j < |s.messages| ==> s.messages[j].id != e.row.messageId
  {
    Map(InboxRows(s, userId), (row: Recipient) => InboxEntry(ViewRow(row), FindMessage(s, row.messageId)))
  }

  predicate UnreadFor(r: Recipient, recipientId: Id) {
    r.recipientId == recipientId && !r.read
  }

  /** The unread delivery rows addressed to `recipientId`, in table order. */
  function UnreadRows(s: Store, recipientId: Id): (rows: seq<Recipient>)
    ensures forall r :: r in rows <==> r in s.recipients && UnreadFor(r, recipientId)
    ensures forall r :: multiset(rows)[r] == if UnreadFor(r, recipientId) then multiset(s.recipients)[r] else 0
  {
    FilterCount(s.recipients, (row: Recipient) => UnreadFor(row, recipientId));
    Filter(s.recipients, (row: Recipient) => UnreadFor(row, recipientId))
  }

  /** The deliveries addressed to `recipientId` that are still unread: one
      view per unread row, so a recipient listed twice sees the message twice. */
  function GetUnreadMessage(s: Store, recipientId: Id): (r: seq<RowView>)
    ensures forall v :: v in r <==>
              exists i :: 0 <= i < |s.recipients| && UnreadFor(s.recipients[i], recipientId)
                          && v == ViewRow(s.recipients[i])
    ensures |r| == |UnreadRows(s, recipientId)|
    ensures forall i :: 0 <= i < |r| ==> r[i] == ViewRow(UnreadRows(s, recipientId)[i])
  {
    var rows := UnreadRows(s, recipientId);
    var r := Map(rows, ViewRow);
    assert forall v :: v in r ==>
             exists i :: 0 <= i < |s.recipients| && UnreadFor(s.recipients[i], recipientId)
                         && v == ViewRow(s.recipients[i]) by {
      forall v | v in r
        ensures exists i :: 0 <= i < |s.recipients| && UnreadFor(s.recipients[i], recipientId)
                            && v == ViewRow(s.recipients[i])
      {
        var k :| 0 <= k < |r| && r[k] == v;
        assert rows[k] in s.recipients;
      }
    }
    assert forall i :: 0 <= i < |s.recipients| && UnreadFor(s.recipients[i], recipientId) ==>
             ViewRow(s.recipients[i]) in r by {
      forall i | 0 <= i < |s.recipients| && UnreadFor(s.recipients[i], recipientId)
        ensures ViewRow(s.recipients[i]) in r
      {
        assert s.recipients[i] in rows;
        var k :| 0 <= k < |rows| && rows[k] == s.recipients[i];
        assert r[k] == ViewRow(s.recipients[i]);
      }
    }
    r
  }

  /** An unread delivery view is the row part of some inbox entry. */
  lemma UnreadInInbox(s: Store, userId: Id, v: RowView)
    requires v in GetUnreadMessage(s, userId)
    ensures !v.read && exists e :: e in ViewInbox(s, userId) && e.row == v
  {
    var unread := GetUnreadMessage(s, userId);
    var n :| 0 <= n < |unread| && unread[n] == v;
    var row := UnreadRows(s, userId)[n];
    assert v == ViewRow(row) && row in s.recipients && UnreadFor(row, userId);
    var rows := InboxRows(s, userId);
    assert row in rows;
    var k :| 0 <= k < |rows| && rows[k] == row;
    var inbox := ViewInbox(s, userId);
    assert inbox[k].row == v;
    assert inbox[k] in inbox;
  }

  /** An inbox entry whose row is unread is in the unread list. */
  lemma InboxUnreadInUnread(s: Store, userId: Id, e: InboxEntry)
    requires e in ViewInbox(s, userId) && !e.row.read
    ensures e.row in GetUnreadMessage(s, userId)
  {
    var inbox := ViewInbox(s, userId);
    var rows := InboxRows(s, userId);
    var k :| 0 <= k < |inbox| && inbox[k] == e;
    assert e.row == ViewRow(rows[k]);
    assert rows[k] in s.recipients;
    var i :| 0 <= i < |s.recipients| && s.recipients[i] == rows[k];
    assert UnreadFor(s.recipients[i], userId);
  }

  /** Keeping the unread rows of the inbox keeps the rows that are both
      addressed to the user and unread. */
  lemma UnreadRowsOfInbox(s: Store, userId: Id)
    ensures UnreadRows(s, userId) == Filter(InboxRows(s, userId), (r: Recipient) => !r.read)
  {
    FilterFilter(s.recipients, (r: Recipient) => AddressedTo(r, userId), (r: Recipient) => !r.read,
                 (r: Recipient) => UnreadFor(r, userId));
  }

  /** The unread list is exactly the unread part of the inbox, so it is a
      subset of the inbox: as a set of views, and entry by entry in inbox
      order, so each unread delivery appears as often as in the inbox. */
  lemma UnreadIsUnreadPartOfInbox(s: Store, userId: Id)
    ensures forall v :: v in GetUnreadMessage(s, userId) <==>
              !v.read && exists e :: e in ViewInbox(s, userId) && e.row == v
    ensures var entries := Filter(ViewInbox(s, userId), (e: InboxEntry) => !e.row.read);
            && |GetUnreadMessage(s, userId)| == |entries|
            && forall i :: 0 <= i < |entries| ==> GetUnreadMessage(s, userId)[i] == entries[i].row
  {
    var rows := InboxRows(s, userId);
    var entryOf := (row: Recipient) => InboxEntry(ViewRow(row), FindMessage(s, row.messageId));
    assert ViewInbox(s, userId) == Map(rows, entryOf);
    FilterMap(rows, entryOf, (r: Recipient) => !r.read, (e: InboxEntry) => !e.row.read);
    UnreadRowsOfInbox(s, userId);

    forall v: RowView | v in GetUnreadMessage(s, userId)
      ensures !v.read && exists e :: e in ViewInbox(s, userId) && e.row == v
    {
      UnreadInInbox(s, userId, v);
    }
    forall e: InboxEntry | e in ViewInbox(s, userId) && !e.row.read
      ensures e.row in GetUnreadMessage(s, userId)
    {
      InboxUnreadInUnread(s, userId, e);
    }
  }

  predicate OfMessage(r: Recipient, messageId: Id) {
    r.messageId == messageId
  }

  /** The delivery rows of message `messageId`, in table order. */
  function MessageRows(s: Store, messageId: Id): (rows: seq<Recipient>)
    ensures forall r :: r in rows <==> r in s.recipients && r.messageId == messageId
    ensures forall r :: multiset(rows)[r] == if r.messageId == messageId then multiset(s.recipients)[r] else 0
  {
    FilterCount(s.recipients, (row: Recipient) => OfMessage(row, messageId));
    Filter(s.recipients, (row: Recipient) => OfMessage(row, messageId))
  }

  /** The statuses of a message's delivery rows are the statuses of exactly
      the rows that name the message. */
  lemma StatusesOfMessageRows(s: Store, messageId: Id)
    ensures forall st :: st in Map(MessageRows(s, messageId), StatusOf) <==>
              exists i :: 0 <= i < |s.recipients| && s.recipients[i].messageId == messageId
                          && st == StatusOf(s.recipients[i])
  {
    var rows := MessageRows(s, messageId);
    var statuses := Map(rows, StatusOf);
    forall st | st in statuses
      ensures exists i :: 0 <= i < |s.recipients| && s.recipients[i].messageId == messageId
                          && st == StatusOf(s.recipients[i])
    {
      var k :| 0 <= k < |statuses| && statuses[k] == st;
      assert rows[k] in s.recipients;
    }
    forall i | 0 <= i < |s.recipients| && s.recipients[i].messageId == messageId
      ensures StatusOf(s.recipients[i]) in statuses
    {
      assert s.recipients[i] in rows;
      var k :| 0 <= k < |rows| && rows[k] == s.recipients[i];
      assert statuses[k] == StatusOf(s.recipients[i]);
    }
  }

  /** A message together with the read state of each of its deliveries; the
      message part is None when no message has that id, while deliveries that
      name the id are still listed. */
  function GetMessageWithRecipients(s: Store, messageId: Id): (r: MessageDetail)
    ensures r.message.None? <==> forall i :: 0 <= i < |s.messages| ==> s.messages[i].id != messageId
    ensures r.message.Some? ==> r.message.value in s.messages && r.message.value.id == messageId
    ensures |r.recipients| == |Filter(s.recipients, (row: Recipient) => OfMessage(row, messageId))|
    ensures forall st :: st in r.recipients <==>
              exists i :: 0 <= i < |s.recipients| && s.recipients[i].messageId == messageId
                          && st == StatusOf(s.recipients[i])
    ensures |r.recipients| == |MessageRows(s, messageId)|
    ensures forall i :: 0 <= i < |r.recipients| ==> r.recipients[i] == StatusOf(MessageRows(s, messageId)[i])
  {
    StatusesOfMessageRows(s, messageId);
    MessageDetail(FindMessage(s, messageId), Map(MessageRows(s, messageId), StatusOf))
  }

  // ---------------------------------------------------------------------------
  // Read state
  // ---------------------------------------------------------------------------

  predicate Addressed(r: Recipient, messageId: Id, recipientId: Id) {
    r.messageId == messageId && r.recipientId == recipientId
  }

  /** One delivery after the bulk update: read at `now` when it is addressed
      by the pair, untouched otherwise. */
  function MarkRow(r: Recipient, messageId: Id, recipientId: Id, now: Timestamp): Recipient {
    if Addressed(r, messageId, recipientId) then r.(read := true, readAt := Some(now)) else r
  }

  /** Applying the update twice keeps the first update's read flag, and with
      the same clock reading the row itself. */
  lemma MarkRowTwice(r: Recipient, messageId: Id, recipientId: Id, t1: Timestamp, t2: Timestamp)
    ensures var r1 := MarkRow(r, messageId, recipientId, t1);
            var r2 := MarkRow(r1, messageId, recipientId, t2);
            && r2.read == r1.read
            && Addressed(r1, messageId, recipientId) == Addressed(r, messageId, recipientId)
            && (t1 == t2 ==> r2 == r1)
  {
  }

  /** Sets every delivery of `messageId` to `recipientId` read at `now`, then
      re-fetches the first such delivery; with no such delivery the re-fetch
      yields None and the call fails. */
  function MarkAsRead(s: Store, messageId: Id, recipientId: Id, now: Timestamp): (step: Step<RowView>)
    ensures step.store.users == s.users && step.store.messages == s.messages
    ensures |step.store.recipients| == |s.recipients|
    ensures forall i :: 0 <= i < |s.recipients| && Addressed(s.recipients[i], messageId, recipientId) ==>
              var after := step.store.recipients[i];
              after.read && after.readAt == Some(now)
              && after.id == s.recipients[i].id && Addressed(after, messageId, recipientId)
    ensures forall i :: 0 <= i < |s.recipients| && !Addressed(s.recipients[i], messageId, recipientId) ==>
              step.store.recipients[i] == s.recipients[i]
    ensures step.result.Success? <==>
              exists i :: 0 <= i < |s.recipients| && Addressed(s.recipients[i], messageId, recipientId)
    ensures step.result.Success? ==> step.result.value == RowView(recipientId, messageId, true, Some(now))
    ensures step.result.Failure? ==> step.store == s && step.result.error == NoSuchRow
    ensures Valid(s) ==> Valid(step.store)
  {
    var rows := seq(|s.recipients|, i requires 0 <= i < |s.recipients| =>
                      MarkRow(s.recipients[i], messageId, recipientId, now));
    var s' := s.(recipients := rows);
    match First(rows, (r: Recipient) => Addressed(r, messageId, recipientId))
    case None =>
      assert rows == s.recipients;
      Step(s', Failure(NoSuchRow))
    case Some(r) =>
      Step(s', Success(ViewRow(r)))
  }

  /** Marking twice leaves every read flag as the first marking set it, and
      with the same clock reading the second marking changes nothing at all. */
  lemma MarkAsReadTwice(s: Store, messageId: Id, recipientId: Id, t1: Timestamp, t2: Timestamp)
    ensures var first := MarkAsRead(s, messageId, recipientId, t1);
            var second := MarkAsRead(first.store, messageId, recipientId, t2);
            && second.result.Success? == first.result.Success?
            && (forall i :: 0 <= i < |s.recipients| ==>
                  second.store.recipients[i].read == first.store.recipients[i].read)
            && (t1 == t2 ==> second.store == first.store)
  {
    var first := MarkAsRead(s, messageId, recipientId, t1);
    var second := MarkAsRead(first.store, messageId, recipientId, t2);
    var r0, r1, r2 := s.recipients, first.store.recipients, second.store.recipients;
    assert forall i :: 0 <= i < |r0| ==> r1[i] == MarkRow(r0[i], messageId, recipientId, t1);
    assert forall i :: 0 <= i < |r0| ==> r2[i] == MarkRow(r1[i], messageId, recipientId, t2);
    forall i | 0 <= i < |r0|
      ensures r2[i].read == r1[i].read
      ensures t1 == t2 ==> r2[i] == r1[i]
      ensures Addressed(r1[i], messageId, recipientId) == Addressed(r0[i], messageId, recipientId)
    {
      MarkRowTwice(r0[i], messageId, recipientId, t1, t2);
    }
    if t1 == t2 {
      assert r2 == r1;
    }
  }

  // ---------------------------------------------------------------------------
  // Relations between operations
  // ---------------------------------------------------------------------------

  /** A successful send adds the message to its sender's sent list and leaves
      every other sender's list unchanged. */
  lemma SendThenSent(s: Store, senderId: Id, recipients: seq<Id>, subject: string, content: string,
                     msgId: Id, rowIds: seq<Id>, now: Timestamp, who: Id)
    requires |rowIds| == |recipients|
    requires SendMessage(s, senderId, recipients, subject, content, msgId, rowIds, now).result.Success?
    ensures var step := SendMessage(s, senderId, recipients, subject, content, msgId, rowIds, now);
            GetAllSentMessage(step.store, who) ==
              GetAllSentMessage(s, who) + (if who == senderId then [step.result.value] else [])
  {
    var step := SendMessage(s, senderId, recipients, subject, content, msgId, rowIds, now);
    var p := (m: Message) => SentBy(m, who);
    FilterAppend(s.messages, [step.result.value], p);
    assert Filter([step.result.value], p) == (if who == senderId then [step.result.value] else []) by {
      assert [step.result.value][1..] == [];
    }
  }

  /** A successful send appends to each user's inbox rows exactly the new
      deliveries addressed to that user, in recipient-list order. */
  lemma SendThenInbox(s: Store, senderId: Id, recipients: seq<Id>, subject: string, content: string,
                      msgId: Id, rowIds: seq<Id>, now: Timestamp, who: Id)
    requires |rowIds| == |recipients|
    requires SendMessage(s, senderId, recipients, subject, content, msgId, rowIds, now).result.Success?
    ensures var step := SendMessage(s, senderId, recipients, subject, content, msgId, rowIds, now);
            InboxRows(step.store, who) ==
              InboxRows(s, who) + Filter(Deliveries(msgId, recipients, rowIds), (r: Recipient) => AddressedTo(r, who))
  {
    var step := SendMessage(s, senderId, recipients, subject, content, msgId, rowIds, now);
    var rows := Deliveries(msgId, recipients, rowIds);
    assert step.store.recipients == s.recipients + rows;
    FilterAppend(s.recipients, rows, (r: Recipient) => AddressedTo(r, who));
  }

  /** After a successful send, the message's delivery rows are the rows already
      filed under its id followed by the new deliveries. */
  lemma SendThenMessageRows(s: Store, senderId: Id, recipients: seq<Id>, subject: string, content: string,
                            msgId: Id, rowIds: seq<Id>, now: Timestamp)
    requires |rowIds| == |recipients|
    requires SendMessage(s, senderId, recipients, subject, content, msgId, rowIds, now).result.Success?
    ensures var step := SendMessage(s, senderId, recipients, subject, content, msgId, rowIds, now);
            MessageRows(step.store, msgId) == MessageRows(s, msgId) + Deliveries(msgId, recipients, rowIds)
  {
    var step := SendMessage(s, senderId, recipients, subject, content, msgId, rowIds, now);
    var rows := Deliveries(msgId, recipients, rowIds);
    var p := (row: Recipient) => OfMessage(row, msgId);
    assert step.store.recipients == s.recipients + rows;
    FilterAppend(s.recipients, rows, p);
    FilterAll(rows, p);
  }

  /** After a successful send, the new id finds exactly the sent message. */
  lemma SendThenFind(s: Store, senderId: Id, recipients: seq<Id>, subject: string, content: string,
                     msgId: Id, rowIds: seq<Id>, now: Timestamp)
    requires |rowIds| == |recipients|
    requires SendMessage(s, senderId, recipients, subject, content, msgId, rowIds, now).result.Success?
    ensures var step := SendMessage(s, senderId, recipients, subject, content, msgId, rowIds, now);
            FindMessage(step.store, msgId) == Some(step.result.value)
  {
    var step := SendMessage(s, senderId, recipients, subject, content, msgId, rowIds, now);
    var m := step.result.value;
    assert step.store.messages == s.messages + [m];
    assert step.store.messages[|s.messages|].id == msgId;
    var found := FindMessage(step.store, msgId);
    assert found.value !in s.messages by {
      assert FreshKeys(s, msgId, rowIds);
    }
  }

  /** The statuses of filed rows followed by new deliveries are the filed
      statuses followed by one unread status per listed recipient. */
  lemma StatusesAfterDeliveries(before: seq<Recipient>, msgId: Id, recipients: seq<Id>, rowIds: seq<Id>)
    requires |rowIds| == |recipients|
    ensures Map(before + Deliveries(msgId, recipients, rowIds), StatusOf)
            == Map(before, StatusOf)
               + seq(|recipients|, i requires 0 <= i < |recipients| => RecipientStatus(recipients[i], false, None))
  {
    var rows := Deliveries(msgId, recipients, rowIds);
    var all := before + rows;
    var added := seq(|recipients|, i requires 0 <= i < |recipients| => RecipientStatus(recipients[i], false, None));
    forall i | 0 <= i < |all|
      ensures Map(all, StatusOf)[i] == (Map(before, StatusOf) + added)[i]
    {
      if i >= |before| {
        assert all[i] == rows[i - |before|];
      }
    }
  }

  /** After a successful send, the message reads back with its deliveries:
      the statuses already filed under its id, then one unread status per
      listed recipient, in list order. */
  lemma SendThenDetail(s: Store, senderId: Id, recipients: seq<Id>, subject: string, content: string,
                       msgId: Id, rowIds: seq<Id>, now: Timestamp)
    requires |rowIds| == |recipients|
    requires SendMessage(s, senderId, recipients, subject, content, msgId, rowIds, now).result.Success?
    ensures var step := SendMessage(s, senderId, recipients, subject, content, msgId, rowIds, now);
            var d := GetMessageWithRecipients(step.store, msgId);
            && d.message == Some(step.result.value)
            && d.recipients == GetMessageWithRecipients(s, msgId).recipients
                 + seq(|recipients|, i requires 0 <= i < |recipients| => RecipientStatus(recipients[i], false, None))
  {
    SendThenFind(s, senderId, recipients, subject, content, msgId, rowIds, now);
    SendThenMessageRows(s, senderId, recipients, subject, content, msgId, rowIds, now);
    StatusesAfterDeliveries(MessageRows(s, msgId), msgId, recipients, rowIds);
  }

  // ---------------------------------------------------------------------------
  // The invariant over any sequence of state-changing calls
  // ---------------------------------------------------------------------------

  /** A state-changing API call with the values the database would generate. */
  datatype Command =
    | NewUser(email: string, name: string, id: Id, at: Timestamp)
    | Send(senderId: Id, to: seq<Id>, subject: string, content: string, msgId: Id, rowIds: seq<Id>, at: Timestamp)
    | MarkRead(messageId: Id, recipientId: Id, at: Timestamp)

  /** One generated row key per listed recipient. */
  predicate WellFormed(c: Command) {
    c.Send? ==> |c.rowIds| == |c.to|
  }

  function Apply(s: Store, c: Command): Store
    requires WellFormed(c)
  {
    match c
    case NewUser(email, name, id, at) => CreateUser(s, email, name, id, at).store
    case Send(sender, to, subject, content, msgId, rowIds, at) =>
      SendMessage(s, sender, to, subject, content, msgId, rowIds, at).store
    case MarkRead(messageId, recipientId, at) => MarkAsRead(s, messageId, recipientId, at).store
  }

  function Replay(s: Store, cmds: seq<Command>): Store
    requires forall i :: 0 <= i < |cmds| ==> WellFormed(cmds[i])
    decreases |cmds|
  {
    if |cmds| == 0 then s else Replay(Apply(s, cmds[0]), cmds[1..])
  }

  /** Every store reachable from a valid one by API calls, in particular from
      the empty schema, is valid: unique keys and emails, and a read time
      exactly on the read deliveries. */
  lemma {:induction false} ReplayPreservesValid(s: Store, cmds: seq<Command>)
    requires Valid(s)
    requires forall i :: 0 <= i < |cmds| ==> WellFormed(cmds[i])
    ensures Valid(Replay(s, cmds))
    decreases |cmds|
  {
    if |cmds| > 0 {
      var s' := Apply(s, cmds[0]);
      assert Valid(s');
      ReplayPreservesValid(s', cmds[1..]);
    }
  }
}
