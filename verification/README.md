# burner.kiwi inbox core in Dafny

burner.kiwi hands out disposable email inboxes. Mailgun forwards each incoming
mail to a webhook. The service stores the mail against its inbox. An hourly
sweep deletes every inbox whose time-to-live has passed, and its messages go
with it. This project models four parts of that service:

- **Entities** (`models.dfy`, module `Models`): the `Inbox` and `Message`
  records; `NewInbox`, which fills in the initial values; and password
  generation. The password is built from a stream of random draws that the
  caller passes in.
- **Relational store** (`sqldb.dfy`, module `SqlDb`): the two SQL tables as
  maps from primary key to the row's other columns. Every statement is a pure
  transition that returns `Success` or `Failure`. A failed statement gives no
  new state, so the caller's state stays as it was. The schema's constraints
  are the invariant `Valid`: addresses are unique, and no message refers to an
  inbox that is missing. Every operation keeps `Valid`, and so does every
  sequence of operations (`RunKeepsValid`).
- **Webhook handler** (`mailgun.dfy`, module `Mailgun`): `MailgunIncoming` as
  a pure decision function. Its inputs are what the verifier, the inbox
  lookup, id generation and the save returned. It returns the HTTP status, the
  body and the list of collaborator calls it made. `Deliver` runs the handler
  against the relational store.
- **Template helpers** (`templates.dfy`, module `Templates`): the avatar
  letter and colour, the "received" label, and the per-message view.

`results.dfy` (module `Results`) holds the `Option` and `Result` types.

What the code does, as modelled, in places where one might expect otherwise:

- `GetMessagesByInboxID` has no `ORDER BY`, so the model leaves the order
  open. It does not sort by receipt time.
- A verifier error together with a `true` verdict does not reject the request.
  Only a `false` verdict does.
- A message saved against a missing inbox fails with the foreign-key error.
  There is no separate "not found" error for this case.
- A failed save is still acknowledged with 200. See Findings.
- The inbox table has no password column, and the message table has no
  `from_name` column (`data/sqldb/sqldb.go:45-68`). `SaveNewInbox` does not
  write the password (`:74`), and `SaveNewMessage` does not write `FromName`
  (`:124`). The `SELECT`s read neither back (`:92`, `:144`). A stored inbox
  comes back with an empty `Password`, and a stored message with an empty
  `FromName`. The handler never sets `FromName` either (`BuildMessage`). As a
  result, every message shown from this store gets the blank red avatar
  (`InboxPage`).
- `server/mailgun.go:54` sets the provider's message id as `MGID`, where
  `data/sqldb/sqldb.go:129` and `burner/models.go:47` say `EmailProviderID`.
  Both `server/mailgun.go:56` and `data/sqldb/sqldb.go:131` write the sender
  address as `From`, which `burner/models.go` calls `FromAddress`. The model
  uses the names from `burner/models.go`.

## Model

| member | source | states |
|---|---|---|
| `Models.CharsetIsAlphanumerics` | burner/models.go:22 | the password charset has 62 characters, and a character is in it exactly when it is an ASCII letter or digit |
| `Models.Intn` | burner/models.go:28 | the index drawn for each password character lies in [0, n), so with n = 62 it is always in bounds |
| `Models.Draws` | burner/models.go:26-29 | n draws give n characters; the i-th is the charset character picked by the i-th draw, so every one is in the charset |
| `Models.GeneratePassword` | burner/models.go:20-31 | the password is exactly 8 characters long, and each is an alphanumeric from the charset |
| `Models.PasswordDependsOnFirstDraws` | burner/models.go:26-29 | the password depends only on the first eight draws of the random source |
| `Models.NewInbox` | burner/models.go:33-40 | a new inbox is not failed and has route "-" and a valid fresh password; id, address, created-at, created-by and ttl keep their zero values |
| `SqlDb.InboxRoundTrip` | data/sqldb/sqldb.go:72-94 | writing an inbox and reading it back loses exactly its password; a row read and written back is unchanged |
| `SqlDb.MessageRoundTrip` | data/sqldb/sqldb.go:123-146 | writing a message and reading it back loses exactly its FromName |
| `SqlDb.EmptyIsValid` | data/sqldb/sqldb.go:44-69 | freshly created tables satisfy the schema's uniqueness and foreign-key constraints |
| `SqlDb.SaveNewInbox` | data/sqldb/sqldb.go:72-87 | fails with a uniqueness error exactly when the id or the address is already taken; otherwise adds that one inbox (without password), leaves other inboxes and all messages alone, and keeps the constraints |
| `SqlDb.GetInboxByID` | data/sqldb/sqldb.go:90-94 | succeeds exactly when the id is stored, returning that row with an empty password; otherwise no-rows |
| `SqlDb.GetInboxByAddress` | data/sqldb/sqldb.go:97-101 | succeeds exactly when some inbox holds the address and returns such an inbox; with unique addresses it is the only one; otherwise no-rows |
| `SqlDb.EmailAddressExists` | data/sqldb/sqldb.go:104-108 | the row count is positive exactly when some inbox holds the address |
| `SqlDb.AddressCount` | data/sqldb/sqldb.go:106-107 | the number of inboxes with an address is positive exactly when the address is in use |
| `SqlDb.SetInboxCreated` | data/sqldb/sqldb.go:111-114 | the row with the inbox's id gets failed = false and the inbox's route id; no other row or column and no message changes; constraints kept |
| `SqlDb.SetInboxFailed` | data/sqldb/sqldb.go:117-120 | the row with the inbox's id gets failed = true; nothing else changes; constraints kept |
| `SqlDb.SetInboxCreatedIsIdempotent` | data/sqldb/sqldb.go:111-120 | marking created twice is the same as once, and marking created after a failure clears the failure |
| `SqlDb.SaveNewMessage` | data/sqldb/sqldb.go:123-139 | fails exactly when the message id is taken (uniqueness error) or the inbox id names no inbox (foreign-key error); otherwise adds exactly one row and keeps the constraints |
| `SqlDb.GetMessagesByInboxID` | data/sqldb/sqldb.go:142-146 | lists every message of the inbox exactly once, each equal to its stored row, in an unspecified order; an unknown inbox gives an empty list |
| `SqlDb.GetMessageByID` | data/sqldb/sqldb.go:149-157 | succeeds exactly when the message id is stored under that inbox id; otherwise the distinct message-doesn't-exist error |
| `SqlDb.RunTTLDelete` | data/sqldb/sqldb.go:160-168 | removes exactly the inboxes with ttl < now and, by cascade, exactly their messages; every other row is kept unchanged; the count is the number of inboxes removed; constraints kept |
| `SqlDb.SweepIsIdempotent` | data/sqldb/sqldb.go:160-168 | a second sweep at the same time removes nothing and reports zero |
| `SqlDb.SweepScenario` | data/sqldb/sqldb.go:162 | an inbox already expired at the sweep is gone with all its messages; an unexpired one and its messages are untouched |
| `SqlDb.RunKeepsValid` | data/sqldb/sqldb.go:44-69 | from valid tables, any sequence of inserts, updates and sweeps keeps addresses unique and leaves no orphaned message |
| `SqlDb.SaveThenRead` | data/sqldb/sqldb.go:72-108 | after a successful SaveNewInbox the address exists, the inbox reads back without its password, and any inbox with the same address is refused |
| `SqlDb.PasswordIsNotPersisted` | data/sqldb/sqldb.go:73-84 | an inbox with a non-empty password never reads back equal to itself |
| `SqlDb.SaveMessageThenRead` | data/sqldb/sqldb.go:123-157 | a message saved against a live inbox reads back by id (FromName emptied), and the inbox's messages gain exactly that one; against a missing inbox the save is a foreign-key failure |
| `Mailgun.BuildMessage` | server/mailgun.go:38-59 | the built message belongs to the looked-up inbox and takes its ttl, carries the new id and the receipt time, copies message-id, sender, from, subject and both bodies from the form, and has an empty FromName |
| `Mailgun.MailgunIncoming` | server/mailgun.go:14-74 | 401 exactly when the verdict is false, with no lookup and no save; 500 on a lookup or id failure, with no save; 200 with the path id exactly when a message is handed to save; that message copies the inbox id and ttl, the new id, the receipt time and the six form fields, and has no FromName |
| `Mailgun.VerifyErrorIsIgnored` | server/mailgun.go:15-25 | a verifier error next to the verdict does not change the reply |
| `Mailgun.SaveFailureStillAcknowledged` | server/mailgun.go:61-67 | as written, a failed save still gets 200 with the inbox id |
| `Mailgun.MailgunIncomingRetrying` | server/mailgun.go:12-13 | the handler the doc comment describes: 200 exactly when the save succeeded, 500 with no body when it failed; when the save succeeded or no message reached the save, the reply and calls are those of the handler as written |
| `Mailgun.Deliver` | server/mailgun.go:30-65 | one delivery against the store keeps the constraints, and leaves the store alone when nothing was handed to save |
| `Mailgun.AcknowledgedMeansStored` | server/mailgun.go:61-67 | with the retrying handler, a 200 means the inbox existed, the new id was free, and the built message now reads back under the path's inbox |
| `Mailgun.IngestScenario` | server/mailgun.go:38-67 | a verified delivery with a fresh id into a live inbox is answered 200 with the inbox id; the stored message has the form's subject and the inbox's ttl at receipt |
| `Mailgun.RedeliveryDuplicates` | server/mailgun.go:43-61 | the same form redelivered under a new id is stored a second time; nothing deduplicates by Mailgun's message-id |
| `Mailgun.SweepBetweenLookupAndSave` | server/mailgun.go:30-67 | if the hourly sweep removes the inbox after the lookup and before the save, and the generated id is not taken, the save fails with the foreign-key error, yet the handler as written answers 200; the retrying handler answers 500 |
| `Mailgun.LostDeliveryWitness` | server/mailgun.go:61-67 | a generated id that collides with a stored message makes the save fail, yet the handler as written answers 200; the retrying handler answers 500 |
| `Templates.ToUpperAscii` | burner/templates.go:90 | lower-case ASCII letters map to their upper-case letters; every other character is unchanged |
| `Templates.StrLessOnLetters` | burner/templates.go:95 | on the empty string and on one-character strings, string order is character order |
| `Templates.GetAvatarDetails` | burner/templates.go:87-108 | "" gives ("", bg-red); otherwise the letter is the upper-cased first character, and the colour is red below E, yellow in [E,I), green in [I,M), indigo in [M,Q), purple in [Q,U) and pink otherwise, always one of the six colours |
| `Templates.AvatarIgnoresCase` | burner/templates.go:87-92 | senders whose first letters differ only in case get the same avatar |
| `Templates.CalculateReceivedAt` | burner/templates.go:67-74 | the label is "Less than 30s ago" exactly when under 30 seconds have elapsed |
| `Templates.Elapsed` | burner/templates.go:68 | the time since receipt, in nanoseconds from a receipt time in seconds: under 30 seconds exactly when now is before the receipt second plus 30, and non-negative exactly when now is not before the receipt |
| `Templates.TransformMessagesForTemplate` | burner/templates.go:48-65 | one view per message, same length and order; each view holds its message unchanged, "Less than 30s ago" exactly when now is under 30 seconds past its receipt, and the avatar of its FromName |
| `Templates.InboxPage` | burner/templates.go:48-65 | the views of an inbox's messages listed from the relational store: as many as the inbox has stored messages, every stored message of that inbox exactly once and no other, and every one has the avatar ("", bg-red), because the store never keeps FromName |
| `Templates.StoredMessagesGetBlankRedAvatar` | burner/templates.go:55 | a message read back by GetMessageByID gets the avatar ("", bg-red), because the store never keeps FromName |

## Findings

| source | as written | input that shows it | evidently intended | confidence | as-written member | corrected member |
|---|---|---|---|---|---|---|
| server/mailgun.go:61-67 | when the save fails, the handler only logs it. It still writes the inbox id and answers 200, so Mailgun does not redeliver and the mail is lost | the hourly sweep deletes the inbox between the handler's lookup and its save, and the generated id is free: the insert fails on the foreign key, and the reply is 200 (`SweepBetweenLookupAndSave`); likewise a generated id equal to an already stored message id (`LostDeliveryWitness`) | answer 500, as the doc comment at lines 12-13 says ("Any failures return a 500. Mailgun will then retry.") | medium; not executed | `Mailgun.MailgunIncoming` | `Mailgun.MailgunIncomingRetrying` |

`Deliver` uses the corrected handler. `AcknowledgedMeansStored` is the
property the correction restores: a 200 reply means the message was stored.

## Left out

- The reaper goroutine (`data/sqldb/sqldb.go:22-39`) is left out. It counts the active inboxes once, before its loop, and never uses the count (`:23-28`). Its loop (`:30-38`) runs `RunTTLDelete`, logs, and sleeps an hour, and it stops on the first error. Only one `RunTTLDelete` step is modelled, with `now` passed in.
- `Mailgun.Deliver`: the lookup and the save see the same store state. An interleaving with a concurrent `RunTTLDelete` is not modelled in `Deliver`; `SweepBetweenLookupAndSave` shows what it does to the handler as written.
- Driver and connectivity errors are left out, and so is the `-1` that `RunTTLDelete` returns with them. Such errors do not depend on the table contents. The model's failures are the constraint errors, no-rows and message-doesn't-exist.
- The SQL text, `sqlx` calls and DDL execution are left out. The schema appears only as the row types and the `Valid` invariant. The `uuid` column type is left out too, so ids are arbitrary strings.
- The foreign-key check assumes an engine that enforces foreign keys. An engine with foreign keys switched off would accept orphans.
- `SqlDb.SaveNewMessage` picks one error when both constraints fail (the primary-key error). The engine's own order of checks is not modelled.
- `time.Now`, `math/rand` seeding, `uuid.NewRandom` and Mailgun signature verification are left out. Their results are parameters.
- `Models.Intn`: only the range promise of Go's `rand.Intn` is modelled. Its algorithm and distribution are not.
- Routing (`mux.Vars`), response writing and logging are left out. This includes the 500 attempted after a failed `Write` at `server/mailgun.go:67-73`. The path's inbox id is a parameter.
- The server's `getInboxByID` and `saveNewMessage` wrappers are not part of this model. `Deliver` assumes they call the relational store directly.
- `Templates.TransformMessagesForTemplate`: one clock reading, `nowNanos` in Unix nanoseconds, serves every message. The source reads the clock again for each message (`burner/templates.go:54`, `:68`), so a label near the 30-second mark can differ from the model's.
- `Templates.CalculateReceivedAt`: the branch for 30 seconds or more returns `None`. Minute rounding and `stringduration.GetHoursAndMinutes` are not part of this model.
- `transformInboxForTemplate`, template parsing, `embed`/`os.DirFS` and the `sync.Once` singletons (`burner/templates.go:110-247`) are left out.
- `Templates.ToUpperAscii`: only ASCII letters are upper-cased. Unicode case mapping and invalid UTF-8 are not modelled. Go's `strings.ToUpper` maps 'ı' (U+0131) to 'I' and 'ſ' (U+017F) to 'S', which would give bg-green and bg-purple; the model leaves both unchanged, and they get bg-pink. `Templates.GetAvatarDetails` inherits this for senders that start with such a character.
- Timestamps are unbounded integers. Go's int64 limits and the saturation of `time.Duration` are left out.
- The DynamoDB backend is not part of this model.
