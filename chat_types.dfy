/** The client's value types (`src/services/types.ts`, `src/Sample.Wasm/Models/Session.cs`). */
module ChatTypes {
  import opened Wrappers
  import opened Text
  import opened JsonValue

  /** A message role. Roles read back from storage are only cast, never checked, so
      a stored name outside the three known ones survives as `Other`. */
  datatype Role = System | User | Assistant | Other(name: string)

  function RoleName(r: Role): string {
    match r
    case System => "system"
    case User => "user"
    case Assistant => "assistant"
    case Other(name) => name
  }

  function RoleOf(name: string): Role {
    if name == "system" then System
    else if name == "user" then User
    else if name == "assistant" then Assistant
    else Other(name)
  }

  /** A role as the client itself creates it: an `Other` never carries a known name. */
  predicate Canonical(r: Role) {
    r.Other? ==> r.name != "system" && r.name != "user" && r.name != "assistant"
  }

  datatype ChatMessage = ChatMessage(role: Role, text: string)

  /** A `Date`, as milliseconds since the epoch. */
  datatype Instant = Instant(ms: nat)

  datatype Session = Session(
    id: string,
    title: string,
    history: seq<ChatMessage>,
    lastUpdated: Instant,
    systemMessage: Option<string>)

  /** The storage form of a message and of a session. */
  datatype DtoMessage = DtoMessage(role: string, text: string)

  datatype SessionDto = SessionDto(
    id: string,
    title: string,
    history: seq<DtoMessage>,
    lastUpdated: string,
    systemMessage: Option<string>)

  datatype UsageInfo = UsageInfo(
    premiumRequestsLeft: Option<real>,
    totalPremiumRequests: Option<real>,
    premiumRequestsUsed: Option<real>)

  /** A `localStorage` value. Text written by `JSON.stringify(v)` is represented by
      the value it encodes, so that `JSON.parse` gives `v` back; any other text is
      kept as written. */
  datatype StoredText = Plain(text: string) | Serialized(value: Json)

  /** `if (item)` on a stored string: only the empty string is falsy
      (serialized JSON text is never empty). */
  predicate NonEmptyText(t: StoredText) {
    t.Plain? ==> t.text != ""
  }

  /** `JSON.parse(text)`: serialized text gives its value back; other text is
      treated as not being JSON. */
  function ParseStored(t: StoredText): Option<Json> {
    match t
    case Serialized(v) => Some(v)
    case Plain(_) => None
  }

  const DefaultSystemMessage: string := "You are a helpful assistant."

  /** `Date.prototype.toISOString()`. The text stands for the instant; the model
      writes the millisecond count in decimal. */
  function IsoText(t: Instant): string {
    Decimal(t.ms)
  }

  /** `new Date(text)`; text that names no instant is read as the epoch. */
  function DateOf(text: string): Instant {
    match ParseDecimal(text)
    case Some(n) => Instant(n)
    case None => Instant(0)
  }

  lemma {:induction false} DateRoundTrip(t: Instant)
    ensures DateOf(IsoText(t)) == t
  {
    DecimalRoundTrip(t.ms);
  }

  lemma RoleRoundTrip(r: Role)
    requires Canonical(r)
    ensures RoleOf(RoleName(r)) == r
  {
  }

  /** The WebAssembly client's session record (`Session.cs`). */
  datatype CsMessage = CsMessage(role: Role, text: Option<string>)

  datatype CsSession = CsSession(
    id: string,
    title: string,
    history: seq<CsMessage>,
    lastUpdated: Instant,
    systemMessage: string)

  /** A `new Session { Id = id }` with every other property at its initialiser. */
  function NewCsSession(id: string, now: Instant): (s: CsSession)
    ensures s.id == id && s.title == "" && s.history == []
    ensures s.systemMessage == DefaultSystemMessage
  {
    CsSession(id, "", [], now, DefaultSystemMessage)
  }
}
