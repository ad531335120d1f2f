/** The entities of the burner inbox service: a time-limited inbox, a message
    received into it, and the defaults a freshly made inbox starts from
    (burner/models.go). Go's int64 timestamps are unbounded integers here. */
module Models {

  /** A temporary inbox. `ttl` is an absolute expiry time in Unix seconds. */
  datatype Inbox = Inbox(
    address: string,
    id: string,
    createdAt: int,
    createdBy: string,
    ttl: int,
    emailProviderRouteId: string,
    failedToCreate: bool,
    password: string)

  /** One email received into an inbox; `ttl` is copied from the inbox at receipt. */
  datatype Message = Message(
    inboxId: string,
    id: string,
    receivedAt: int,
    emailProviderId: string,
    sender: string,
    fromName: string,
    fromAddress: string,
    subject: string,
    bodyHtml: string,
    bodyPlain: string,
    ttl: int)

  /** The alphabet passwords are drawn from. */
  const Charset: string := "abcdefghijklmnopqrstuvwxyzABCDEFGHIJKLMNOPQRSTUVWXYZ0123456789"

  const PasswordLength: nat := 8

  /** The route id of an inbox not yet registered with the mail provider. */
  const UnregisteredRoute: string := "-"

  predicate IsAlphanumeric(c: char) {
    ('a' <= c <= 'z') || ('A' <= c <= 'Z') || ('0' <= c <= '9')
  }

  /** The `n` consecutive characters starting at `lo`. */
  function Span(lo: char, n: nat): string
    requires (lo as int) + n <= 0xD800
  {
    seq(n, i requires 0 <= i < n => ((lo as int) + i) as char)
  }

  lemma SpanMembers(lo: char, n: nat)
    requires (lo as int) + n <= 0xD800
    ensures forall c :: c in Span(lo, n) <==> lo <= c && (c as int) < (lo as int) + n
  {
    forall c | lo <= c && (c as int) < (lo as int) + n
      ensures c in Span(lo, n)
    {
      assert Span(lo, n)[(c as int) - (lo as int)] == c;
    }
  }

  lemma CharsetIsSpans()
    ensures Charset == Span('a', 26) + Span('A', 26) + Span('0', 10)
  {
    assert Span('a', 26) == "abcdefghijklmnopqrstuvwxyz";
    assert Span('A', 26) == "ABCDEFGHIJKLMNOPQRSTUVWXYZ";
    assert Span('0', 10) == "0123456789";
  }

  /** The charset holds 62 characters, and they are exactly the ASCII letters and digits. */
  lemma CharsetIsAlphanumerics()
    ensures |Charset| == 62
    ensures forall c :: c in Charset <==> IsAlphanumeric(c)
  {
    CharsetIsSpans();
    SpanMembers('a', 26);
    SpanMembers('A', 26);
    SpanMembers('0', 10);
  }

  /** Go's `rand.Intn(n)` applied to one raw draw of the random source. Only its
      range promise matters to the model, not its distribution. */
  function Intn(draw: nat, n: nat): (r: nat)
    requires n > 0
    ensures r < n
  {
    draw % n
  }

  /** The first `n` characters of a password, the i-th picked by the i-th draw
      of the random source `rng`. */
  function Draws(rng: nat -> nat, n: nat): (p: string)
    ensures |p| == n
    ensures forall i :: 0 <= i < n ==> p[i] in Charset
    ensures forall i :: 0 <= i < n ==> p[i] == Charset[Intn(rng(i), |Charset|)]
  {
    if n == 0 then [] else Draws(rng, n - 1) + [Charset[Intn(rng(n - 1), |Charset|)]]
  }

  /** generatePassword, with the seeded random source passed in as the stream `rng`. */
  function GeneratePassword(rng: nat -> nat): (p: string)
    ensures |p| == PasswordLength
    ensures forall i :: 0 <= i < |p| ==> p[i] in Charset && IsAlphanumeric(p[i])
  {
    CharsetIsAlphanumerics();
    Draws(rng, PasswordLength)
  }

  /** Two random sources that agree on their first eight draws give the same password. */
  lemma PasswordDependsOnFirstDraws(rng1: nat -> nat, rng2: nat -> nat)
    requires forall i :: 0 <= i < PasswordLength ==> rng1(i) == rng2(i)
    ensures GeneratePassword(rng1) == GeneratePassword(rng2)
  {
  }

  /** A new inbox is unregistered with the provider (route "-", not failed) and
      has a fresh password; every other field keeps its zero value. */
  function NewInbox(rng: nat -> nat): (i: Inbox)
    ensures !i.failedToCreate
    ensures i.emailProviderRouteId == UnregisteredRoute
    ensures i.id == "" && i.address == "" && i.createdAt == 0 && i.createdBy == "" && i.ttl == 0
    ensures |i.password| == PasswordLength
    ensures forall k :: 0 <= k < |i.password| ==> i.password[k] in Charset
  {
    Inbox(
      address := "",
      id := "",
      createdAt := 0,
      createdBy := "",
      ttl := 0,
      emailProviderRouteId := UnregisteredRoute,
      failedToCreate := false,
      password := GeneratePassword(rng))
  }
}
