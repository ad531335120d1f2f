/** The relational backend of the inbox store (data/sqldb/sqldb.go), as an
    abstract database state and pure transitions over it.

    Each table is a map from its primary key to the row's other columns, so a
    row's key and its id column cannot disagree. The schema's constraints are
    enforced by the operations themselves: `inbox.id` is the primary key,
    `inbox.address` is unique, `message.message_id` is the primary key, and
    `message.inbox_id` references `inbox.id` with `on delete cascade`.
    A failed statement yields `Failure` and no new state: the caller's state
    is left as it was. */
module SqlDb {
  import opened Results
  import opened Models

  /** The inbox table's columns other than `id`. The table has no password column. */
  datatype InboxRow = InboxRow(
    address: string,
    createdAt: int,
    createdBy: string,
    epRouteId: string,
    ttl: int,
    failedToCreate: bool)

  /** The message table's columns other than `message_id`. The table has no from_name column. */
  datatype MessageRow = MessageRow(
    inboxId: string,
    receivedAt: int,
    epId: string,
    sender: string,
    fromAddress: string,
    subject: string,
    bodyHtml: string,
    bodyPlain: string,
    ttl: int)

  datatype Db = Db(inboxes: map<string, InboxRow>, messages: map<string, MessageRow>)

  /** `UniqueViolation` and `ForeignKeyViolation` stand for the engine's constraint
      errors, `NoRows` for `sql.ErrNoRows`, `MessageDoesntExist` for the store's own
      `ErrMessageDoesntExist`. */
  datatype DbError = UniqueViolation | ForeignKeyViolation | NoRows | MessageDoesntExist

  /** The result of one TTL sweep: the new state and the number of inboxes deleted. */
  datatype Swept = Swept(db: Db, count: nat)

  /** The freshly created tables. */
  const Empty: Db := Db(map[], map[])

  // ----- Mapping between entities and rows -----

  /** The columns SaveNewInbox writes: the password is not among them. */
  function InboxToRow(i: Inbox): InboxRow {
    InboxRow(i.address, i.createdAt, i.createdBy, i.emailProviderRouteId, i.ttl, i.failedToCreate)
  }

  /** The inbox the SELECT statements scan out of a row; Password keeps its zero value. */
  function RowToInbox(id: string, r: InboxRow): Inbox {
    Inbox(r.address, id, r.createdAt, r.createdBy, r.ttl, r.epRouteId, r.failedToCreate, "")
  }

  /** The columns SaveNewMessage writes: the sender's display name is not among them. */
  function MessageToRow(m: Message): MessageRow {
    MessageRow(m.inboxId, m.receivedAt, m.emailProviderId, m.sender, m.fromAddress,
               m.subject, m.bodyHtml, m.bodyPlain, m.ttl)
  }

  /** The message the SELECT statements scan out of a row; FromName keeps its zero value. */
  function RowToMessage(id: string, r: MessageRow): Message {
    Message(r.inboxId, id, r.receivedAt, r.epId, r.sender, "", r.fromAddress,
            r.subject, r.bodyHtml, r.bodyPlain, r.ttl)
  }

  /** Storing and reading back an inbox loses exactly its password; a row survives
      being read and written back unchanged. */
  lemma InboxRoundTrip(i: Inbox, id: string, r: InboxRow)
    ensures RowToInbox(i.id, InboxToRow(i)) == i.(password := "")
    ensures InboxToRow(RowToInbox(id, r)) == r
    ensures RowToInbox(id, r).id == id && RowToInbox(id, r).password == ""
  {
  }

  /** Storing and reading back a message loses exactly its FromName. */
  lemma MessageRoundTrip(m: Message, id: string, r: MessageRow)
    ensures RowToMessage(m.id, MessageToRow(m)) == m.(fromName := "")
    ensures MessageToRow(RowToMessage(id, r)) == r
    ensures RowToMessage(id, r).id == id && RowToMessage(id, r).fromName == ""
  {
  }

  // ----- Schema constraints -----

  predicate AddressInUse(db: Db, address: string) {
    exists id :: id in db.inboxes && db.inboxes[id].address == address
  }

  /** No two inboxes share an address (the `unique` constraint on `inbox.address`). */
  ghost predicate UniqueAddresses(db: Db) {
    forall a, b :: a in db.inboxes && b in db.inboxes && db.inboxes[a].address == db.inboxes[b].address ==> a == b
  }

  /** Every message references an existing inbox (the foreign key on `message.inbox_id`). */
  ghost predicate NoOrphans(db: Db) {
    forall k :: k in db.messages ==> db.messages[k].inboxId in db.inboxes
  }

  /** The constraints every committed state satisfies. */
  ghost predicate Valid(db: Db) {
    UniqueAddresses(db) && NoOrphans(db)
  }

  lemma EmptyIsValid()
    ensures Valid(Empty)
  {
  }

  // ----- Inboxes -----

  /** SaveNewInbox: inserts the inbox, failing when its id or its address is taken. */
  function SaveNewInbox(db: Db, i: Inbox): (r: Result<Db, DbError>)
    ensures r.Failure? <==> i.id in db.inboxes || AddressInUse(db, i.address)
    ensures r.Failure? ==> r.error == UniqueViolation
    ensures r.Success? ==> r.value.inboxes.Keys == db.inboxes.Keys + {i.id}
    ensures r.Success? ==> RowToInbox(i.id, r.value.inboxes[i.id]) == i.(password := "")
    ensures r.Success? ==> forall id :: id in db.inboxes ==> r.value.inboxes[id] == db.inboxes[id]
    ensures r.Success? ==> r.value.messages == db.messages
    ensures r.Success? && Valid(db) ==> Valid(r.value)
  {
    if i.id in db.inboxes || AddressInUse(db, i.address) then
      Failure(UniqueViolation)
    else
      Success(db.(inboxes := db.inboxes[i.id := InboxToRow(i)]))
  }

  /** GetInboxByID: the inbox with that id, or `NoRows`. */
  function GetInboxByID(db: Db, id: string): (r: Result<Inbox, DbError>)
    ensures r.Success? <==> id in db.inboxes
    ensures r.Failure? ==> r.error == NoRows
    ensures r.Success? ==> r.value.id == id && InboxToRow(r.value) == db.inboxes[id] && r.value.password == ""
  {
    if id in db.inboxes then Success(RowToInbox(id, db.inboxes[id])) else Failure(NoRows)
  }

  /** GetInboxByAddress: the inbox holding that address, or `NoRows`. Under the
      unique constraint there is at most one; the query takes whichever row the
      engine yields, which `:|` leaves open. */
  method GetInboxByAddress(db: Db, address: string) returns (r: Result<Inbox, DbError>)
    ensures r.Success? <==> AddressInUse(db, address)
    ensures r.Failure? ==> r.error == NoRows
    ensures r.Success? ==> r.value.id in db.inboxes && r.value.address == address
    ensures r.Success? ==> InboxToRow(r.value) == db.inboxes[r.value.id] && r.value.password == ""
    ensures r.Success? && Valid(db) ==>
      forall id :: id in db.inboxes && db.inboxes[id].address == address ==> id == r.value.id
  {
    if AddressInUse(db, address) {
      var id :| id in db.inboxes && db.inboxes[id].address == address;
      r := Success(RowToInbox(id, db.inboxes[id]));
    } else {
      r := Failure(NoRows);
    }
  }

  /** EmailAddressExists: whether `COUNT(*)` of inboxes with that address is positive. */
  function EmailAddressExists(db: Db, email: string): (b: bool)
    ensures b <==> AddressInUse(db, email)
  {
    AddressCount(db, email);
    |AddressMatches(db, email)| > 0
  }

  /** The ids of the inboxes holding `address`. */
  function AddressMatches(db: Db, address: string): set<string> {
    set id | id in db.inboxes && db.inboxes[id].address == address
  }

  lemma AddressCount(db: Db, address: string)
    ensures |AddressMatches(db, address)| > 0 <==> AddressInUse(db, address)
  {
    var matching := AddressMatches(db, address);
    if AddressInUse(db, address) {
      var id :| id in db.inboxes && db.inboxes[id].address == address;
      assert id in matching;
    }
  }

  /** SetInboxCreated: the route is registered, so the inbox with `i.id` gets
      `failed_to_create = false` and `i`'s route id. The UPDATE touches nothing
      else, and no row at all when the id is unknown. */
  function SetInboxCreated(db: Db, i: Inbox): (db': Db)
    ensures db'.inboxes.Keys == db.inboxes.Keys && db'.messages == db.messages
    ensures i.id in db.inboxes ==>
      db'.inboxes[i.id] == db.inboxes[i.id].(failedToCreate := false, epRouteId := i.emailProviderRouteId)
    ensures forall id :: id in db.inboxes && id != i.id ==> db'.inboxes[id] == db.inboxes[id]
    ensures Valid(db) ==> Valid(db')
  {
    if i.id in db.inboxes then
      db.(inboxes := db.inboxes[i.id := db.inboxes[i.id].(failedToCreate := false, epRouteId := i.emailProviderRouteId)])
    else
      db
  }

  /** SetInboxFailed: route registration failed, so the inbox with `i.id` gets
      `failed_to_create = true`. Nothing else changes. */
  function SetInboxFailed(db: Db, i: Inbox): (db': Db)
    ensures db'.inboxes.Keys == db.inboxes.Keys && db'.messages == db.messages
    ensures i.id in db.inboxes ==> db'.inboxes[i.id] == db.inboxes[i.id].(failedToCreate := true)
    ensures forall id :: id in db.inboxes && id != i.id ==> db'.inboxes[id] == db.inboxes[id]
    ensures Valid(db) ==> Valid(db')
  {
    if i.id in db.inboxes then
      db.(inboxes := db.inboxes[i.id := db.inboxes[i.id].(failedToCreate := true)])
    else
      db
  }

  // ----- Messages -----

  /** SaveNewMessage: inserts the message, failing on a taken message id (the
      primary key is checked as the row is inserted) and otherwise on an
      `inbox_id` that names no inbox (the foreign key). */
  function SaveNewMessage(db: Db, m: Message): (r: Result<Db, DbError>)
    ensures r.Failure? <==> m.id in db.messages || m.inboxId !in db.inboxes
    ensures r.Failure? ==> r.error == (if m.id in db.messages then UniqueViolation else ForeignKeyViolation)
    ensures r.Success? ==> r.value.inboxes == db.inboxes
    ensures r.Success? ==> r.value.messages.Keys == db.messages.Keys + {m.id}
    ensures r.Success? ==> |r.value.messages| == |db.messages| + 1
    ensures r.Success? ==> RowToMessage(m.id, r.value.messages[m.id]) == m.(fromName := "")
    ensures r.Success? ==> forall k :: k in db.messages ==> r.value.messages[k] == db.messages[k]
    ensures r.Success? && Valid(db) ==> Valid(r.value)
  {
    if m.id in db.messages then
      Failure(UniqueViolation)
    else if m.inboxId !in db.inboxes then
      Failure(ForeignKeyViolation)
    else
      Success(db.(messages := db.messages[m.id := MessageToRow(m)]))
  }

  /** The keys of the messages stored under inbox `id`. */
  function MessagesOf(db: Db, id: string): set<string> {
    set k | k in db.messages && db.messages[k].inboxId == id
  }

  /** GetMessagesByInboxID: every message of inbox `id`, each once. The query
      has no ORDER BY, so the order is whatever the engine yields; the loop's
      `:|` choice leaves it open. An unknown inbox gives an empty list, not an
      error. */
  method GetMessagesByInboxID(db: Db, id: string) returns (msgs: seq<Message>)
    ensures |msgs| == |MessagesOf(db, id)|
    ensures forall j :: 0 <= j < |msgs| ==>
      msgs[j].id in db.messages && msgs[j].inboxId == id && MessageToRow(msgs[j]) == db.messages[msgs[j].id]
    ensures forall k :: k in db.messages && db.messages[k].inboxId == id ==> RowToMessage(k, db.messages[k]) in msgs
    ensures forall j1, j2 :: 0 <= j1 < j2 < |msgs| ==> msgs[j1].id != msgs[j2].id
  {
    var keys := Enumerate(MessagesOf(db, id));
    assert forall j :: 0 <= j < |keys| ==> keys[j] in keys;
    msgs := seq(|keys|, j requires 0 <= j < |keys| => RowToMessage(keys[j], db.messages[keys[j]]));
    forall k | k in db.messages && db.messages[k].inboxId == id
      ensures RowToMessage(k, db.messages[k]) in msgs
    {
      assert k in MessagesOf(db, id);
      var j :| 0 <= j < |keys| && keys[j] == k;
      assert msgs[j] == RowToMessage(k, db.messages[k]);
    }
  }

  /** Lists the elements of `s`, each exactly once, in an order the `:|`
      choices leave open. */
  method Enumerate<T>(s: set<T>) returns (xs: seq<T>)
    ensures |xs| == |s|
    ensures forall x :: x in xs <==> x in s
    ensures forall j1, j2 :: 0 <= j1 < j2 < |xs| ==> xs[j1] != xs[j2]
  {
    var todo := s;
    xs := [];
    while todo != {}
      invariant todo <= s
      invariant |xs| + |todo| == |s|
      invariant forall x :: x in xs <==> x in s && x !in todo
      invariant forall j1, j2 :: 0 <= j1 < j2 < |xs| ==> xs[j1] != xs[j2]
      decreases todo
    {
      var x :| x in todo;
      xs := xs + [x];
      todo := todo - {x};
    }
  }

  /** GetMessageByID: the message with that id when it belongs to inbox `inboxId`;
      otherwise `MessageDoesntExist`, never the generic `NoRows`. */
  function GetMessageByID(db: Db, inboxId: string, messageId: string): (r: Result<Message, DbError>)
    ensures r.Success? <==> messageId in db.messages && db.messages[messageId].inboxId == inboxId
    ensures r.Failure? ==> r.error == MessageDoesntExist
    ensures r.Success? ==> r.value.id == messageId && r.value.inboxId == inboxId
    ensures r.Success? ==> MessageToRow(r.value) == db.messages[messageId] && r.value.fromName == ""
  {
    if messageId in db.messages && db.messages[messageId].inboxId == inboxId then
      Success(RowToMessage(messageId, db.messages[messageId]))
    else
      Failure(MessageDoesntExist)
  }

  // ----- TTL sweep -----

  /** The ids of the inboxes whose ttl has passed at time `now`. */
  function Expired(db: Db, now: int): set<string> {
    set id | id in db.inboxes && db.inboxes[id].ttl < now
  }

  /** RunTTLDelete at time `now`: deletes every inbox with `ttl < now`, cascades
      the delete to their messages, and reports how many inboxes went. */
  function RunTTLDelete(db: Db, now: int): (s: Swept)
    ensures forall id :: id in s.db.inboxes <==> id in db.inboxes && db.inboxes[id].ttl >= now
    ensures forall id :: id in s.db.inboxes ==> s.db.inboxes[id] == db.inboxes[id]
    ensures forall k :: k in s.db.messages <==> k in db.messages && db.messages[k].inboxId !in Expired(db, now)
    ensures forall k :: k in s.db.messages ==> s.db.messages[k] == db.messages[k]
    ensures s.count == |db.inboxes| - |s.db.inboxes|
    ensures Valid(db) ==> Valid(s.db)
  {
    var gone := Expired(db, now);
    var inboxes := db.inboxes - gone;
    var messages := map k | k in db.messages && db.messages[k].inboxId !in gone :: db.messages[k];
    assert inboxes.Keys == db.inboxes.Keys - gone;
    CardinalityOfRemoval(db.inboxes.Keys, gone);
    Swept(Db(inboxes, messages), |gone|)
  }

  lemma CardinalityOfRemoval<T>(all: set<T>, gone: set<T>)
    requires gone <= all
    ensures |all - gone| == |all| - |gone|
  {
    assert all == (all - gone) + gone;
  }

  /** A second sweep at the same time finds nothing left to delete. */
  lemma SweepIsIdempotent(db: Db, now: int)
    ensures RunTTLDelete(RunTTLDelete(db, now).db, now).count == 0
    ensures RunTTLDelete(RunTTLDelete(db, now).db, now).db == RunTTLDelete(db, now).db
  {
    var once := RunTTLDelete(db, now).db;
    assert Expired(once, now) == {};
  }

  /** An inbox already expired one second before the sweep is gone afterwards,
      with all its messages; one that expires after the sweep keeps everything. */
  lemma SweepScenario(db: Db, now: int, id: string)
    requires id in db.inboxes
    ensures db.inboxes[id].ttl < now ==>
      GetInboxByID(RunTTLDelete(db, now).db, id) == Failure(NoRows) &&
      MessagesOf(RunTTLDelete(db, now).db, id) == {}
    ensures db.inboxes[id].ttl >= now ==>
      GetInboxByID(RunTTLDelete(db, now).db, id) == GetInboxByID(db, id) &&
      MessagesOf(RunTTLDelete(db, now).db, id) == MessagesOf(db, id)
  {
  }

  // ----- No operation leaves an orphan -----

  /** The store's state-changing operations. */
  datatype Op =
    | SaveInbox(inbox: Inbox)
    | MarkCreated(inbox: Inbox)
    | MarkFailed(inbox: Inbox)
    | SaveMessage(message: Message)
    | Sweep(now: int)

  /** The state after one operation; a failed insert leaves it as it was. */
  function Apply(db: Db, op: Op): Db {
    match op
    case SaveInbox(i) => (var r := SaveNewInbox(db, i); if r.Success? then r.value else db)
    case MarkCreated(i) => SetInboxCreated(db, i)
    case MarkFailed(i) => SetInboxFailed(db, i)
    case SaveMessage(m) => (var r := SaveNewMessage(db, m); if r.Success? then r.value else db)
    case Sweep(now) => RunTTLDelete(db, now).db
  }

  function Run(db: Db, ops: seq<Op>): Db
    decreases |ops|
  {
    if |ops| == 0 then db else Run(Apply(db, ops[0]), ops[1..])
  }

  /** From valid tables, every sequence of operations keeps addresses unique and
      leaves no message whose inbox is missing. */
  lemma {:induction false} RunKeepsValid(db: Db, ops: seq<Op>)
    requires Valid(db)
    ensures Valid(Run(db, ops))
    decreases |ops|
  {
    if |ops| > 0 {
      RunKeepsValid(Apply(db, ops[0]), ops[1..]);
    }
  }

  // ----- Properties relating several operations -----

  /** After a successful SaveNewInbox the address exists, the inbox reads back
      without its password, and saving it again fails. */
  lemma SaveThenRead(db: Db, i: Inbox)
    requires SaveNewInbox(db, i).Success?
    ensures EmailAddressExists(SaveNewInbox(db, i).value, i.address)
    ensures GetInboxByID(SaveNewInbox(db, i).value, i.id) == Success(i.(password := ""))
    ensures SaveNewInbox(SaveNewInbox(db, i).value, i) == Failure(UniqueViolation)
    ensures forall j: Inbox :: j.address == i.address ==> SaveNewInbox(SaveNewInbox(db, i).value, j).Failure?
  {
    var db' := SaveNewInbox(db, i).value;
    assert db'.inboxes[i.id].address == i.address;
  }

  /** A non-empty password does not survive the round trip through the table. */
  lemma PasswordIsNotPersisted(db: Db, i: Inbox)
    requires SaveNewInbox(db, i).Success? && i.password != ""
    ensures GetInboxByID(SaveNewInbox(db, i).value, i.id).value != i
  {
  }

  /** Marking an inbox created twice with the same route id is the same as once,
      and it clears an earlier failure mark. */
  lemma SetInboxCreatedIsIdempotent(db: Db, i: Inbox)
    ensures SetInboxCreated(SetInboxCreated(db, i), i) == SetInboxCreated(db, i)
    ensures SetInboxCreated(SetInboxFailed(db, i), i) == SetInboxCreated(db, i)
  {
  }

  /** A message saved against an existing inbox reads back by id and joins its
      inbox's listing, which gains exactly that message (so an inbox that had
      none lists exactly it); against a missing inbox nothing is stored. */
  lemma SaveMessageThenRead(db: Db, m: Message)
    requires m.id !in db.messages
    ensures m.inboxId in db.inboxes ==>
      GetMessageByID(SaveNewMessage(db, m).value, m.inboxId, m.id) == Success(m.(fromName := "")) &&
      MessagesOf(SaveNewMessage(db, m).value, m.inboxId) == MessagesOf(db, m.inboxId) + {m.id}
    ensures m.inboxId !in db.inboxes ==> SaveNewMessage(db, m) == Failure(ForeignKeyViolation)
  {
  }
}
