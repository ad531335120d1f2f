/** The Mailgun webhook handler (server/mailgun.go) as a pure decision over the
    outcomes of its collaborators: request verification, the inbox lookup, id
    generation and the save. The reply records the status, the body, and which
    collaborators the handler called, in order. */
module Mailgun {
  import opened Results
  import opened Models
  import SqlDb

  const StatusOK: int := 200
  const StatusUnauthorized: int := 401
  const StatusInternalServerError: int := 500

  /** The form fields the handler reads; a field absent from the request reads as "". */
  datatype Form = Form(
    messageId: string,
    sender: string,
    from: string,
    subject: string,
    bodyHtml: string,
    bodyPlain: string)

  /** What each collaborator returned: the verifier's verdict and whether it also
      reported an error, the inbox found (None on a lookup error), the generated
      id (None on a generation error), and whether the save succeeded. */
  datatype Outcomes = Outcomes(
    verified: bool,
    verifyErred: bool,
    lookup: Option<Inbox>,
    uuid: Option<string>,
    saved: bool)

  /** A collaborator call made by the handler. */
  datatype Call = VerifyRequest | LookupInbox(id: string) | NewUuid | SaveMessage(message: Message)

  datatype Reply = Reply(status: int, body: string, calls: seq<Call>)

  /** The message handed to save, if the handler got that far. */
  function SavedMessage(r: Reply): Option<Message> {
    if |r.calls| > 0 && r.calls[|r.calls| - 1].SaveMessage? then Some(r.calls[|r.calls| - 1].message) else None
  }

  /** The message built for a delivery into `inbox`: it belongs to the inbox and
      expires with it as of receipt, carries the generated id and the receipt
      time, copies the six form fields verbatim, and never has a FromName. */
  function BuildMessage(inbox: Inbox, id: string, now: int, form: Form): (m: Message)
    ensures m.inboxId == inbox.id && m.ttl == inbox.ttl
    ensures m.id == id && m.receivedAt == now
    ensures m.emailProviderId == form.messageId && m.sender == form.sender && m.fromAddress == form.from
    ensures m.subject == form.subject && m.bodyHtml == form.bodyHtml && m.bodyPlain == form.bodyPlain
    ensures m.fromName == ""
  {
    Message(
      inboxId := inbox.id,
      id := id,
      receivedAt := now,
      emailProviderId := form.messageId,
      sender := form.sender,
      fromName := "",
      fromAddress := form.from,
      subject := form.subject,
      bodyHtml := form.bodyHtml,
      bodyPlain := form.bodyPlain,
      ttl := inbox.ttl)
  }

  /** MailgunIncoming as written, for a request addressed to inbox `pathId` and
      received at time `now`. Only a false verdict rejects; a failed lookup or
      id generation answers 500; once a message is handed to save the reply is
      200 with the path's inbox id as body, whether or not the save succeeded. */
  function MailgunIncoming(pathId: string, form: Form, now: int, o: Outcomes): (r: Reply)
    ensures r.status == StatusUnauthorized <==> !o.verified
    ensures !o.verified ==> r.calls == [VerifyRequest]
    ensures o.verified && o.lookup.None? ==> r.status == StatusInternalServerError && r.calls == [VerifyRequest, LookupInbox(pathId)]
    ensures o.verified && o.lookup.Some? && o.uuid.None? ==> r.status == StatusInternalServerError && SavedMessage(r).None?
    ensures r.status == StatusOK <==> SavedMessage(r).Some?
    ensures SavedMessage(r).Some? <==> o.verified && o.lookup.Some? && o.uuid.Some?
    ensures r.body == (if r.status == StatusOK then pathId else "")
    ensures SavedMessage(r).Some? ==>
      var m := SavedMessage(r).value;
      && m.inboxId == o.lookup.value.id && m.ttl == o.lookup.value.ttl
      && m.id == o.uuid.value && m.receivedAt == now
      && m.emailProviderId == form.messageId && m.sender == form.sender && m.fromAddress == form.from
      && m.subject == form.subject && m.bodyHtml == form.bodyHtml && m.bodyPlain == form.bodyPlain
      && m.fromName == ""
  {
    if !o.verified then
      Reply(StatusUnauthorized, "", [VerifyRequest])
    else if o.lookup.None? then
      Reply(StatusInternalServerError, "", [VerifyRequest, LookupInbox(pathId)])
    else if o.uuid.None? then
      Reply(StatusInternalServerError, "", [VerifyRequest, LookupInbox(pathId), NewUuid])
    else
      var m := BuildMessage(o.lookup.value, o.uuid.value, now, form);
      Reply(StatusOK, pathId, [VerifyRequest, LookupInbox(pathId), NewUuid, SaveMessage(m)])
  }

  /** The handler's doc comment promises a 500 on any failure so that Mailgun
      retries: this is that handler. It differs from MailgunIncoming only when
      the save fails. */
  function MailgunIncomingRetrying(pathId: string, form: Form, now: int, o: Outcomes): (r: Reply)
    ensures r.status == StatusOK <==> SavedMessage(r).Some? && o.saved
    ensures SavedMessage(r).Some? && !o.saved ==> r.status == StatusInternalServerError && r.body == ""
    ensures r.calls == MailgunIncoming(pathId, form, now, o).calls
    ensures o.saved || SavedMessage(r).None? ==> r == MailgunIncoming(pathId, form, now, o)
  {
    var r := MailgunIncoming(pathId, form, now, o);
    if r.status == StatusOK && !o.saved then r.(status := StatusInternalServerError, body := "") else r
  }

  /** An error reported by the verifier next to a true verdict changes nothing. */
  lemma VerifyErrorIsIgnored(pathId: string, form: Form, now: int, o: Outcomes)
    ensures MailgunIncoming(pathId, form, now, o.(verifyErred := true)) == MailgunIncoming(pathId, form, now, o.(verifyErred := false))
  {
  }

  /** The handler as written acknowledges a delivery whose save failed. */
  lemma SaveFailureStillAcknowledged(pathId: string, form: Form, now: int, o: Outcomes)
    requires o.verified && o.lookup.Some? && o.uuid.Some? && !o.saved
    ensures MailgunIncoming(pathId, form, now, o).status == StatusOK
    ensures MailgunIncoming(pathId, form, now, o).body == pathId
    ensures MailgunIncomingRetrying(pathId, form, now, o).status == StatusInternalServerError
  {
  }

  // ----- The handler over the relational store -----

  /** The store after a delivery, and the reply sent. */
  datatype Delivery = Delivery(db: SqlDb.Db, reply: Reply)

  /** One webhook delivery against the store: the inbox is looked up and the
      message saved in `db`, and the reply follows the retrying handler. */
  function Deliver(db: SqlDb.Db, pathId: string, form: Form, now: int,
                   verified: bool, verifyErred: bool, uuid: Option<string>): (d: Delivery)
    ensures SqlDb.Valid(db) ==> SqlDb.Valid(d.db)
    ensures SavedMessage(d.reply).None? ==> d.db == db
  {
    var lookup := SqlDb.GetInboxByID(db, pathId).ToOption();
    var attempt := MailgunIncoming(pathId, form, now, Outcomes(verified, verifyErred, lookup, uuid, true));
    match SavedMessage(attempt)
    case None => Delivery(db, attempt)
    case Some(m) =>
      var saved := SqlDb.SaveNewMessage(db, m);
      Delivery(if saved.Success? then saved.value else db,
               MailgunIncomingRetrying(pathId, form, now, Outcomes(verified, verifyErred, lookup, uuid, saved.Success?)))
  }

  /** The hourly sweep can delete the inbox between the handler's lookup and its
      save: with a generated id that is not taken, the insert then fails on the
      foreign key, yet the handler as written answers 200. */
  lemma SweepBetweenLookupAndSave(db: SqlDb.Db, pathId: string, form: Form, now: int, sweepAt: int, u: string)
    requires SqlDb.Valid(db) && pathId in db.inboxes && db.inboxes[pathId].ttl < sweepAt
    requires u !in db.messages
    ensures
      var lookup := SqlDb.GetInboxByID(db, pathId).ToOption();
      var m := BuildMessage(lookup.value, u, now, form);
      && SqlDb.SaveNewMessage(SqlDb.RunTTLDelete(db, sweepAt).db, m) == Failure(SqlDb.ForeignKeyViolation)
      && MailgunIncoming(pathId, form, now, Outcomes(true, false, lookup, Some(u), false)).status == StatusOK
      && MailgunIncomingRetrying(pathId, form, now, Outcomes(true, false, lookup, Some(u), false)).status == StatusInternalServerError
  {
  }

  /** With the retrying handler, a 200 means the message is in the store and
      reads back under the path's inbox with the id the handler generated. */
  lemma AcknowledgedMeansStored(db: SqlDb.Db, pathId: string, form: Form, now: int,
                                verified: bool, verifyErred: bool, uuid: Option<string>)
    requires Deliver(db, pathId, form, now, verified, verifyErred, uuid).reply.status == StatusOK
    ensures uuid.Some? && pathId in db.inboxes && uuid.value !in db.messages
    ensures
      var d := Deliver(db, pathId, form, now, verified, verifyErred, uuid);
      var inbox := SqlDb.GetInboxByID(db, pathId).value;
      && d.reply.body == pathId
      && SqlDb.GetMessageByID(d.db, pathId, uuid.value) == Success(BuildMessage(inbox, uuid.value, now, form))
  {
    var lookup := SqlDb.GetInboxByID(db, pathId).ToOption();
    var attempt := MailgunIncoming(pathId, form, now, Outcomes(verified, verifyErred, lookup, uuid, true));
    var m := SavedMessage(attempt).value;
    assert SqlDb.SaveNewMessage(db, m).Success?;
  }

  /** A verified delivery of a fresh id into a live inbox is acknowledged with
      the inbox id, and the stored message carries the form's subject and the
      inbox's ttl as of receipt. */
  lemma IngestScenario(db: SqlDb.Db, pathId: string, form: Form, now: int, u: string)
    requires SqlDb.Valid(db) && pathId in db.inboxes && u !in db.messages
    ensures
      var d := Deliver(db, pathId, form, now, true, false, Some(u));
      && d.reply.status == StatusOK && d.reply.body == pathId
      && u in SqlDb.MessagesOf(d.db, pathId)
      && SqlDb.GetMessageByID(d.db, pathId, u).value.subject == form.subject
      && SqlDb.GetMessageByID(d.db, pathId, u).value.ttl == db.inboxes[pathId].ttl
      && SqlDb.Valid(d.db)
  {
  }

  /** Nothing deduplicates by Mailgun's message-id: redelivering the same form
      under a new generated id stores a second row for it. */
  lemma RedeliveryDuplicates(db: SqlDb.Db, pathId: string, form: Form, now: int, u1: string, u2: string)
    requires SqlDb.Valid(db) && pathId in db.inboxes && u1 !in db.messages && u2 !in db.messages && u1 != u2
    ensures
      var d1 := Deliver(db, pathId, form, now, true, false, Some(u1));
      var d2 := Deliver(d1.db, pathId, form, now, true, false, Some(u2));
      && d2.reply.status == StatusOK
      && {u1, u2} <= SqlDb.MessagesOf(d2.db, pathId)
      && d2.db.messages[u1].epId == d2.db.messages[u2].epId == form.messageId
  {
  }

  /** The handler as written, run against the store, acknowledges a delivery
      whose generated id collides with a stored message: the save fails, the
      reply is 200, and the stored message under that id is still the old one. */
  lemma LostDeliveryWitness()
    ensures
      var inbox := Inbox("a@x", "inbox-1", 0, "", 3600, "route", false, "");
      var earlier := Message("inbox-1", "uuid-1", 5, "m0", "s", "", "f", "old", "", "", 3600);
      var db := SqlDb.Db(map["inbox-1" := SqlDb.InboxToRow(inbox)], map["uuid-1" := SqlDb.MessageToRow(earlier)]);
      var form := Form("m1", "sender", "from", "hi", "", "");
      var lookup := SqlDb.GetInboxByID(db, "inbox-1").ToOption();
      var m := BuildMessage(inbox, "uuid-1", 10, form);
      var saved := SqlDb.SaveNewMessage(db, m).Success?;
      && !saved
      && MailgunIncoming("inbox-1", form, 10, Outcomes(true, false, lookup, Some("uuid-1"), saved)).status == StatusOK
      && SqlDb.GetMessageByID(db, "inbox-1", "uuid-1").value.subject == "old"
      && Deliver(db, "inbox-1", form, 10, true, false, Some("uuid-1")).reply.status == StatusInternalServerError
  {
  }
}
