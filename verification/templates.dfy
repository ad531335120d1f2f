/** The pure helpers behind the inbox page (burner/templates.go): the avatar
    letter and colour of a sender, the "received" label of a message, and the
    per-message view the page is rendered from. Only ASCII is case-mapped. */
module Templates {
  import opened Results
  import opened Models
  import SqlDb

  /** The label shown for a message received less than 30 seconds ago. */
  const JustNow: string := "Less than 30s ago"

  const NanosPerSecond: int := 1_000_000_000

  /** The six avatar colours. */
  const Colours: set<string> := {"bg-red", "bg-yellow", "bg-green", "bg-indigo", "bg-purple", "bg-pink"}

  /** `strings.ToUpper` on one character, for ASCII: a-z map to A-Z, others stay. */
  function ToUpperAscii(c: char): (u: char)
    ensures 'a' <= c <= 'z' ==> 'A' <= u <= 'Z' && (u as int) - ('A' as int) == (c as int) - ('a' as int)
    ensures !('a' <= c <= 'z') ==> u == c
  {
    if 'a' <= c <= 'z' then ((c as int) - ('a' as int) + ('A' as int)) as char else c
  }

  /** Go's `<` on strings: lexicographic order. Go compares UTF-8 bytes, which
      orders strings as comparing code points does. */
  predicate StrLess(a: string, b: string)
    decreases |a|
  {
    if |b| == 0 then false
    else if |a| == 0 then true
    else if a[0] != b[0] then a[0] < b[0]
    else StrLess(a[1..], b[1..])
  }

  /** On the empty string and one-character strings, `<` is character order. */
  lemma StrLessOnLetters(letter: string, bound: char)
    requires |letter| <= 1
    ensures StrLess(letter, [bound]) <==> |letter| == 0 || letter[0] < bound
  {
    if |letter| == 1 && letter[0] == bound {
      assert letter[1..] == [];
    }
  }

  /** The colour of an avatar whose letter is the single character `c`, by the
      range `c` falls in. */
  function ColourOf(c: char): string {
    if c < 'E' then "bg-red"
    else if c < 'I' then "bg-yellow"
    else if c < 'M' then "bg-green"
    else if c < 'Q' then "bg-indigo"
    else if c < 'U' then "bg-purple"
    else "bg-pink"
  }

  /** getAvatarDetails: the sender's first character upper-cased, and a colour
      chosen by comparing that letter, as a string, against "E", "I", "M", "Q" and "U". */
  function GetAvatarDetails(sender: string): (r: (string, string))
    ensures sender == "" ==> r == ("", "bg-red")
    ensures sender != "" ==> r.0 == [ToUpperAscii(sender[0])]
    ensures sender != "" ==> r.1 == ColourOf(ToUpperAscii(sender[0]))
    ensures r.1 in Colours
  {
    var letter := if |sender| == 0 then "" else [ToUpperAscii(sender[0])];
    StrLessOnLetters(letter, 'E');
    StrLessOnLetters(letter, 'I');
    StrLessOnLetters(letter, 'M');
    StrLessOnLetters(letter, 'Q');
    StrLessOnLetters(letter, 'U');
    if StrLess(letter, "E") then (letter, "bg-red")
    else if !StrLess(letter, "E") && StrLess(letter, "I") then (letter, "bg-yellow")
    else if !StrLess(letter, "I") && StrLess(letter, "M") then (letter, "bg-green")
    else if !StrLess(letter, "M") && StrLess(letter, "Q") then (letter, "bg-indigo")
    else if !StrLess(letter, "Q") && StrLess(letter, "U") then (letter, "bg-purple")
    else (letter, "bg-pink")
  }

  /** Senders starting with the same letter in either case get the same avatar. */
  lemma AvatarIgnoresCase(s1: string, s2: string)
    requires s1 != "" && s2 != "" && ToUpperAscii(s1[0]) == ToUpperAscii(s2[0])
    ensures GetAvatarDetails(s1) == GetAvatarDetails(s2)
  {
  }

  /** calculateReceivedAt for a message received `elapsed` nanoseconds ago:
      the fixed label under 30 seconds, and otherwise None, standing for the
      hours-and-minutes text this model leaves out. */
  function CalculateReceivedAt(elapsed: int): (text: Option<string>)
    ensures text == Some(JustNow) <==> elapsed < 30 * NanosPerSecond
  {
    if elapsed < 30 * NanosPerSecond then Some(JustNow) else None
  }

  /** A message as the page shows it. */
  datatype TemplateMessage = TemplateMessage(
    message: Message,
    receivedAt: Option<string>,
    avatarLetter: string,
    avatarColor: string)

  /** The nanoseconds between a message's receipt (Unix seconds) and `nowNanos`
      (Unix nanoseconds): under 30 seconds exactly when `nowNanos` is before the
      receipt second plus 30. */
  function Elapsed(m: Message, nowNanos: int): (d: int)
    ensures d < 30 * NanosPerSecond <==> nowNanos < (m.receivedAt + 30) * NanosPerSecond
    ensures d >= 0 <==> nowNanos >= m.receivedAt * NanosPerSecond
  {
    nowNanos - m.receivedAt * NanosPerSecond
  }

  /** transformMessagesForTemplate at the clock reading `nowNanos`: one view
      per message, in order, each holding its message unchanged, its received
      label and the avatar of its sender's display name. */
  function TransformMessagesForTemplate(msgs: seq<Message>, nowNanos: int): (out: seq<TemplateMessage>)
    ensures |out| == |msgs|
    ensures forall i :: 0 <= i < |msgs| ==> out[i].message == msgs[i]
    ensures forall i :: 0 <= i < |msgs| ==>
      (out[i].receivedAt == Some(JustNow) <==> nowNanos < (msgs[i].receivedAt + 30) * NanosPerSecond)
    ensures forall i :: 0 <= i < |msgs| ==> out[i].receivedAt == CalculateReceivedAt(Elapsed(msgs[i], nowNanos))
    ensures forall i :: 0 <= i < |msgs| ==>
      (out[i].avatarLetter, out[i].avatarColor) == GetAvatarDetails(msgs[i].fromName)
  {
    seq(|msgs|, i requires 0 <= i < |msgs| =>
      var (letter, colour) := GetAvatarDetails(msgs[i].fromName);
      TemplateMessage(msgs[i], CalculateReceivedAt(Elapsed(msgs[i], nowNanos)), letter, colour))
  }

  /** The inbox page's message list over the relational store: one view per
      stored message of the inbox, each exactly once. The store never keeps a
      display name, so every listed message gets the blank red avatar. */
  method InboxPage(db: SqlDb.Db, id: string, nowNanos: int) returns (out: seq<TemplateMessage>)
    ensures |out| == |SqlDb.MessagesOf(db, id)|
    ensures forall j :: 0 <= j < |out| ==> out[j].message.inboxId == id && out[j].message.id in db.messages
    ensures forall j1, j2 :: 0 <= j1 < j2 < |out| ==> out[j1].message.id != out[j2].message.id
    ensures forall k :: k in SqlDb.MessagesOf(db, id) ==> exists j :: 0 <= j < |out| && out[j].message.id == k
    ensures forall j :: 0 <= j < |out| ==> out[j].avatarLetter == "" && out[j].avatarColor == "bg-red"
  {
    var msgs := SqlDb.GetMessagesByInboxID(db, id);
    out := TransformMessagesForTemplate(msgs, nowNanos);
    forall k | k in SqlDb.MessagesOf(db, id)
      ensures exists j :: 0 <= j < |out| && out[j].message.id == k
    {
      assert SqlDb.RowToMessage(k, db.messages[k]) in msgs;
      var j :| 0 <= j < |msgs| && msgs[j] == SqlDb.RowToMessage(k, db.messages[k]);
      assert out[j].message.id == k;
    }
  }

  /** A message read back by id from the relational store carries no display
      name, so it gets the blank red avatar. */
  lemma StoredMessagesGetBlankRedAvatar(db: SqlDb.Db, inboxId: string, messageId: string)
    requires SqlDb.GetMessageByID(db, inboxId, messageId).Success?
    ensures GetAvatarDetails(SqlDb.GetMessageByID(db, inboxId, messageId).value.fromName) == ("", "bg-red")
  {
  }
}
