/** The React client's two-tier persistence (`src/services/storageService.ts`): the
    IndexedDB-backed `ChatStorage`, the browser's `localStorage`, and the
    `StorageService` facade that falls back from the first to the second. */
module Persistence {
  import opened Wrappers
  import opened Text
  import opened JsonValue
  import opened ChatTypes
  import opened IndexedDb

  /** The `localStorage` key of the fallback session list. */
  const SessionsKey: string := "CHAT_SESSIONS"

  // ---------------------------------------------------------------------------
  // Session <-> DTO

  function MessageDto(m: ChatMessage): DtoMessage {
    DtoMessage(RoleName(m.role), m.text)
  }

  function FromMessageDto(m: DtoMessage): ChatMessage {
    ChatMessage(RoleOf(m.role), m.text)
  }

  /** The storage form of a session: messages reduced to role and text, the
      update time as ISO text, the system message kept. */
  function ToDto(s: Session): SessionDto {
    SessionDto(s.id, s.title, seq(|s.history|, i requires 0 <= i < |s.history| => MessageDto(s.history[i])),
               IsoText(s.lastUpdated), s.systemMessage)
  }

  /** A DTO read back: roles are cast, the time text is parsed by `new Date`. */
  function FromDto(d: SessionDto): Session {
    Session(d.id, d.title, seq(|d.history|, i requires 0 <= i < |d.history| => FromMessageDto(d.history[i])),
            DateOf(d.lastUpdated), d.systemMessage)
  }

  function ToDtos(ss: seq<Session>): (ds: seq<SessionDto>)
    ensures |ds| == |ss| && forall i :: 0 <= i < |ss| ==> ds[i] == ToDto(ss[i])
  {
    seq(|ss|, i requires 0 <= i < |ss| => ToDto(ss[i]))
  }

  function FromDtos(ds: seq<SessionDto>): (ss: seq<Session>)
    ensures |ss| == |ds| && forall i :: 0 <= i < |ds| ==> ss[i] == FromDto(ds[i])
  {
    seq(|ds|, i requires 0 <= i < |ds| => FromDto(ds[i]))
  }

  /** A session whose roles are the three the client writes. */
  predicate CanonicalSession(s: Session) {
    forall i :: 0 <= i < |s.history| ==> Canonical(s.history[i].role)
  }

  lemma DtoRoundTrip(s: Session)
    requires CanonicalSession(s)
    ensures FromDto(ToDto(s)) == s
  {
    var d := ToDto(s);
    forall i | 0 <= i < |s.history| ensures FromMessageDto(d.history[i]) == s.history[i] {
      RoleRoundTrip(s.history[i].role);
    }
    DateRoundTrip(s.lastUpdated);
  }

  // ---------------------------------------------------------------------------
  // The fallback tier's JSON text

  function MessageJson(m: DtoMessage): Json {
    JObj(map["role" := JStr(m.role), "text" := JStr(m.text)])
  }

  /** `JSON.stringify` of a DTO; an absent system message is omitted. */
  function DtoJson(d: SessionDto): Json {
    var fields := map[
      "id" := JStr(d.id),
      "title" := JStr(d.title),
      "history" := JArr(HistoryJson(d.history)),
      "lastUpdated" := JStr(d.lastUpdated)];
    JObj(if d.systemMessage.Some? then fields["systemMessage" := JStr(d.systemMessage.value)] else fields)
  }

  function DtosJson(ds: seq<SessionDto>): Json {
    JArr(seq(|ds|, i requires 0 <= i < |ds| => DtoJson(ds[i])))
  }

  function StrProp(v: Json, key: string): (r: Option<string>)
    ensures r.Some? <==> Prop(v, key).Some? && Prop(v, key).value.JStr?
    ensures r.Some? ==> Prop(v, key).value == JStr(r.value)
  {
    match Prop(v, key)
    case Some(JStr(s)) => Some(s)
    case _ => None
  }

  function DecodeMessage(v: Json): Option<DtoMessage> {
    match (StrProp(v, "role"), StrProp(v, "text"))
    case (Some(role), Some(text)) => Some(DtoMessage(role, text))
    case _ => None
  }

  /** Decodes every element, or fails if any element fails. */
  function DecodeAll<T>(items: seq<Json>, decode: Json -> Option<T>): (r: Option<seq<T>>)
    ensures r.Some? ==> |r.value| == |items| && forall i :: 0 <= i < |items| ==> decode(items[i]) == Some(r.value[i])
  {
    if items == [] then Some([])
    else
      match (decode(items[0]), DecodeAll(items[1..], decode))
      case (Some(x), Some(xs)) => Some([x] + xs)
      case _ => None
  }

  function DecodeDto(v: Json): Option<SessionDto> {
    match (StrProp(v, "id"), StrProp(v, "title"), Prop(v, "history"), StrProp(v, "lastUpdated"), Prop(v, "systemMessage"))
    case (Some(id), Some(title), Some(JArr(items)), Some(last), system) =>
      (match (DecodeAll(items, DecodeMessage), system)
       case (Some(history), None) => Some(SessionDto(id, title, history, last, None))
       case (Some(history), Some(JStr(sys))) => Some(SessionDto(id, title, history, last, Some(sys)))
       case _ => None)
    case _ => None
  }

  /** `JSON.parse(json)` read as a DTO list; anything of another shape is refused. */
  function DecodeDtos(v: Json): Option<seq<SessionDto>> {
    if v.JArr? then DecodeAll(v.items, DecodeDto) else None
  }

  /** Decoding succeeds element by element exactly when every element decodes. */
  lemma {:induction false} DecodeAllOfDecodable<T>(items: seq<Json>, xs: seq<T>, decode: Json -> Option<T>)
    requires |items| == |xs| && forall i :: 0 <= i < |xs| ==> decode(items[i]) == Some(xs[i])
    ensures DecodeAll(items, decode) == Some(xs)
    decreases |xs|
  {
    if xs != [] {
      DecodeAllOfDecodable(items[1..], xs[1..], decode);
      assert xs == [xs[0]] + xs[1..];
    }
  }

  lemma MessageJsonRoundTrip(m: DtoMessage)
    ensures DecodeMessage(MessageJson(m)) == Some(m)
  {
  }

  function HistoryJson(h: seq<DtoMessage>): seq<Json> {
    seq(|h|, i requires 0 <= i < |h| => MessageJson(h[i]))
  }

  lemma HistoryJsonRoundTrip(h: seq<DtoMessage>)
    ensures DecodeAll(HistoryJson(h), DecodeMessage) == Some(h)
  {
    forall i | 0 <= i < |h| ensures DecodeMessage(HistoryJson(h)[i]) == Some(h[i]) {
      MessageJsonRoundTrip(h[i]);
    }
    DecodeAllOfDecodable(HistoryJson(h), h, DecodeMessage);
  }

  /** The members `DtoJson` writes, read one by one. */
  lemma DtoJsonMembers(d: SessionDto)
    ensures StrProp(DtoJson(d), "id") == Some(d.id)
    ensures StrProp(DtoJson(d), "title") == Some(d.title)
    ensures Prop(DtoJson(d), "history") == Some(JArr(HistoryJson(d.history)))
    ensures StrProp(DtoJson(d), "lastUpdated") == Some(d.lastUpdated)
    ensures Prop(DtoJson(d), "systemMessage") == if d.systemMessage.Some? then Some(JStr(d.systemMessage.value)) else None
  {
  }

  lemma DtoJsonRoundTrip(d: SessionDto)
    ensures DecodeDto(DtoJson(d)) == Some(d)
  {
    DtoJsonMembers(d);
    HistoryJsonRoundTrip(d.history);
  }

  /** What `JSON.stringify` wrote, `JSON.parse` reads back as the same DTO list. */
  lemma DtosJsonRoundTrip(ds: seq<SessionDto>)
    ensures DecodeDtos(DtosJson(ds)) == Some(ds)
  {
    var items := DtosJson(ds).items;
    forall i | 0 <= i < |ds| ensures DecodeDto(items[i]) == Some(ds[i]) {
      DtoJsonRoundTrip(ds[i]);
    }
    DecodeAllOfDecodable(items, ds, DecodeDto);
  }

  /** The sessions of the fallback tier: the parsed `CHAT_SESSIONS` list, or none
      when the key is absent, empty, or does not hold a session list. */
  function FallbackSessions(item: Option<StoredText>): seq<Session> {
    if item.None? || !NonEmptyText(item.value) then []
    else
      match ParseStored(item.value)
      case None => []
      case Some(v) =>
        (match DecodeDtos(v)
         case Some(ds) => FromDtos(ds)
         case None => [])
  }

  /** With IndexedDB failing on both calls, what was saved is what is loaded,
      in the same order. */
  lemma FallbackRoundTrip(ss: seq<Session>)
    requires forall i :: 0 <= i < |ss| ==> CanonicalSession(ss[i])
    ensures FallbackSessions(Some(Serialized(DtosJson(ToDtos(ss))))) == ss
  {
    DtosJsonRoundTrip(ToDtos(ss));
    forall i | 0 <= i < |ss| ensures FromDto(ToDto(ss[i])) == ss[i] {
      DtoRoundTrip(ss[i]);
    }
  }

  /** `localStorage.getItem(key) ? JSON.parse(item) : null`; text that is not JSON
      makes `JSON.parse` throw. */
  function FallbackSetting(item: Option<StoredText>): (r: Result<Json>)
    ensures item.None? ==> r == Success(JNull)
    ensures item.Some? && item.value.Serialized? ==> r == Success(item.value.value)
    ensures item.Some? && item.value.Plain? ==> (r.Failure? <==> item.value.text != "")
  {
    if item.None? || !NonEmptyText(item.value) then Success(JNull)
    else
      match ParseStored(item.value)
      case Some(v) => Success(v)
      case None => Failure("SyntaxError: JSON.parse")
  }

  // ---------------------------------------------------------------------------
  // The sessions store's records

  /** What `saveSessions` adds for one DTO; `createdAt` is never read back. */
  datatype SessionRecord = SessionRecord(dto: SessionDto, createdAt: string)

  /** The transaction step for one DTO: an empty id throws before the `add`. */
  function SaveStep(d: SessionDto, now: Instant): (st: Step<SessionRecord>)
    ensures st.Reject? <==> d.id == ""
    ensures st.Reject? ==> st.error == MissingId
    ensures st.Put? ==> st.entry.key == StrKey(d.id) && st.entry.record.dto == d
  {
    if d.id == "" then Reject(MissingId) else Put(Entry(StrKey(d.id), SessionRecord(d, IsoText(now))))
  }

  /** The steps of the transaction, one per DTO. The glue in `IndexedDbJs` has a
      function of the same shape over its own step. */
  function SaveSteps(ds: seq<SessionDto>, now: Instant): (steps: seq<Step<SessionRecord>>)
    ensures |steps| == |ds| && forall i :: 0 <= i < |ds| ==> steps[i] == SaveStep(ds[i], now)
  {
    seq(|ds|, i requires 0 <= i < |ds| => SaveStep(ds[i], now))
  }

  /** A stored record as `loadSessions` maps it: an empty `lastUpdated` reads as now. */
  function LoadedDto(r: SessionRecord, now: Instant): (d: SessionDto)
    ensures d.lastUpdated != ""
    ensures r.dto.lastUpdated != "" ==> d == r.dto
  {
    if r.dto.lastUpdated != "" then r.dto else r.dto.(lastUpdated := IsoText(now))
  }

  function LoadedDtos(rs: seq<SessionRecord>, now: Instant): (ds: seq<SessionDto>)
    ensures |ds| == |rs| && forall i :: 0 <= i < |rs| ==> ds[i] == LoadedDto(rs[i], now)
  {
    seq(|rs|, i requires 0 <= i < |rs| => LoadedDto(rs[i], now))
  }

  // ---------------------------------------------------------------------------
  // The primary tier round trip: same sessions, in key (id) order

  predicate DistinctIds(ss: seq<Session>) {
    forall i, j :: 0 <= i < j < |ss| ==> ss[i].id != ss[j].id
  }

  predicate IdsAscending(ss: seq<Session>) {
    forall i, j :: 0 <= i < j < |ss| ==> StrBelow(ss[i].id, ss[j].id)
  }

  /** A save followed by a load, both through IndexedDB. */
  function PrimaryRoundTrip(before: seq<Entry<SessionRecord>>, ss: seq<Session>, now: Instant, later: Instant): seq<Session> {
    FromDtos(LoadedDtos(Records(Replaced(before, SaveSteps(ToDtos(ss), now)).state), later))
  }

  /** Saved sessions with distinct, non-empty ids all come back, each once, but
      sorted by id rather than in the order they were saved. */
  lemma PrimaryRoundTripSorts(before: seq<Entry<SessionRecord>>, ss: seq<Session>, now: Instant, later: Instant)
    requires forall i :: 0 <= i < |ss| ==> CanonicalSession(ss[i]) && ss[i].id != ""
    requires DistinctIds(ss)
    ensures Replaced(before, SaveSteps(ToDtos(ss), now)).status == Resolved
    ensures |PrimaryRoundTrip(before, ss, now, later)| == |ss|
    ensures forall s :: s in PrimaryRoundTrip(before, ss, now, later) <==> s in ss
    ensures IdsAscending(PrimaryRoundTrip(before, ss, now, later))
  {
    var steps := SaveSteps(ToDtos(ss), now);
    SavedStore(before, ss, now);
    var st := Fill(steps).state;
    var back := FromDtos(LoadedDtos(Records(st), later));
    assert back == PrimaryRoundTrip(before, ss, now, later);
    forall k | 0 <= k < |st| ensures back[k] in ss && st[k].key == StrKey(back[k].id) {
      StoredEntryReadsBack(ss, now, later, st[k]);
    }
    forall i | 0 <= i < |ss| ensures ss[i] in back {
      EntryReadsBack(ss, now, later, i);
      assert Puts(steps)[i] in st;
    }
    forall j, k | 0 <= j < k < |back| ensures StrBelow(back[j].id, back[k].id) {
      assert Below(st[j].key, st[k].key);
    }
  }

  /** What a save of sessions with distinct, non-empty ids leaves in the store:
      one entry per session, in key order. */
  lemma SavedStore(before: seq<Entry<SessionRecord>>, ss: seq<Session>, now: Instant)
    requires forall i :: 0 <= i < |ss| ==> ss[i].id != ""
    requires DistinctIds(ss)
    ensures AllPut(SaveSteps(ToDtos(ss), now))
    ensures Fill(SaveSteps(ToDtos(ss), now)).Open?
    ensures Replaced(before, SaveSteps(ToDtos(ss), now)) == Replacement(Fill(SaveSteps(ToDtos(ss), now)).state, Resolved)
    ensures Ascending(Fill(SaveSteps(ToDtos(ss), now)).state)
    ensures |Fill(SaveSteps(ToDtos(ss), now)).state| == |ss|
    ensures forall x :: x in Fill(SaveSteps(ToDtos(ss), now)).state <==> x in Puts(SaveSteps(ToDtos(ss), now))
  {
    var steps := SaveSteps(ToDtos(ss), now);
    SavedEntries(ss, now);
    FillAllPut(steps);
    FillAscending(steps);
    FillAllPutLength(steps);
  }

  lemma StoredEntryReadsBack(ss: seq<Session>, now: Instant, later: Instant, e: Entry<SessionRecord>)
    requires forall i :: 0 <= i < |ss| ==> CanonicalSession(ss[i]) && ss[i].id != ""
    requires AllPut(SaveSteps(ToDtos(ss), now)) && e in Puts(SaveSteps(ToDtos(ss), now))
    ensures FromDto(LoadedDto(e.record, later)) in ss
    ensures e.key == StrKey(FromDto(LoadedDto(e.record, later)).id)
  {
    var i :| 0 <= i < |ss| && Puts(SaveSteps(ToDtos(ss), now))[i] == e;
    EntryReadsBack(ss, now, later, i);
  }

  /** Saved in the order `b`, `a`, two sessions come back from IndexedDB as `a`, `b`:
      only the `CHAT_SESSIONS` tier keeps the caller's order. */
  lemma PrimaryTierReorders(before: seq<Entry<SessionRecord>>, x: Session, y: Session, now: Instant, later: Instant)
    requires CanonicalSession(x) && CanonicalSession(y) && x.id == "b" && y.id == "a"
    ensures PrimaryRoundTrip(before, [x, y], now, later) == [y, x]
  {
    PrimaryRoundTripSorts(before, [x, y], now, later);
    var back := PrimaryRoundTrip(before, [x, y], now, later);
    assert back[0] in [x, y] && back[1] in [x, y];
    assert StrBelow(back[0].id, back[1].id);
    assert !StrBelow("b", "a") && !StrBelow("a", "a") && !StrBelow("b", "b");
  }

  /** Sessions saved already sorted by id come back exactly as saved. */
  lemma PrimaryRoundTripKeepsSortedList(before: seq<Entry<SessionRecord>>, ss: seq<Session>, now: Instant, later: Instant)
    requires forall i :: 0 <= i < |ss| ==> CanonicalSession(ss[i]) && ss[i].id != ""
    requires IdsAscending(ss)
    ensures PrimaryRoundTrip(before, ss, now, later) == ss
  {
    var steps := SaveSteps(ToDtos(ss), now);
    forall i, j | 0 <= i < j < |ss| ensures ss[i].id != ss[j].id {
      StrBelowAsymmetric(ss[i].id, ss[j].id);
    }
    SavedEntries(ss, now);
    FillAllPut(steps);
    FillAscending(steps);
    AscendingUnique(Fill(steps).state, Puts(steps));
    forall i | 0 <= i < |ss| ensures PrimaryRoundTrip(before, ss, now, later)[i] == ss[i] {
      EntryReadsBack(ss, now, later, i);
    }
  }

  /** Two sessions whose second has an empty id: the `clear` and the first `add`
      commit before the error is thrown, so the store keeps one session; a later
      load finds it non-empty and returns it alone, ignoring the complete list
      the facade wrote to `localStorage`. */
  lemma SaveWithMissingIdCommitsPrefix(before: seq<Entry<SessionRecord>>, s1: Session, s2: Session, now: Instant, later: Instant)
    requires CanonicalSession(s1) && s1.id != "" && s2.id == ""
    ensures Replaced(before, SaveSteps(ToDtos([s1, s2]), now)) ==
            Replacement([Entry(StrKey(s1.id), SessionRecord(ToDto(s1), IsoText(now)))], Rejected(MissingId))
    ensures PrimaryRoundTrip(before, [s1, s2], now, later) == [s1]
  {
    var steps := SaveSteps(ToDtos([s1, s2]), now);
    var e1 := Entry(StrKey(s1.id), SessionRecord(ToDto(s1), IsoText(now)));
    assert steps[0] == Put(e1) && steps[1] == Reject(MissingId);
    assert Fill(steps[..1]) == Open([e1]) by {
      assert steps[..1][..0] == [];
      assert Insert([], e1) == [e1];
    }
    assert steps[..|steps| - 1] == steps[..1];
    assert Fill(steps) == Thrown([e1], MissingId);
    DtoRoundTrip(s1);
  }

  /** The replacement the facade's callers rely on: every DTO is checked before
      the store is touched, so a rejected list leaves the old sessions in place. */
  function ValidatedSave(before: seq<Entry<SessionRecord>>, dtos: seq<SessionDto>, now: Instant): Replacement<SessionRecord> {
    if exists i :: 0 <= i < |dtos| && dtos[i].id == "" then Replacement(before, Rejected(MissingId))
    else Replaced(before, SaveSteps(dtos, now))
  }

  /** `ValidatedSave` is all or nothing: readers see the old store or every new record. */
  lemma ValidatedSaveAllOrNothing(before: seq<Entry<SessionRecord>>, dtos: seq<SessionDto>, now: Instant)
    ensures var r := ValidatedSave(before, dtos, now);
            (r.status.Rejected? ==> r.state == before)
            && (r.status == Resolved ==> AllPut(SaveSteps(dtos, now)))
            && (r.status == Resolved ==> forall x :: x in r.state <==> x in Puts(SaveSteps(dtos, now)))
  {
    if forall i :: 0 <= i < |dtos| ==> dtos[i].id != "" {
      FillOfPuts(SaveSteps(dtos, now));
    }
  }

  /** The entries a save of sessions with distinct, non-empty ids adds. */
  lemma SavedEntries(ss: seq<Session>, now: Instant)
    requires forall i :: 0 <= i < |ss| ==> ss[i].id != ""
    ensures AllPut(SaveSteps(ToDtos(ss), now))
    ensures forall i :: 0 <= i < |ss| ==> Puts(SaveSteps(ToDtos(ss), now))[i].key == StrKey(ss[i].id)
    ensures DistinctIds(ss) ==> DistinctKeys(Puts(SaveSteps(ToDtos(ss), now)))
    ensures IdsAscending(ss) ==> Ascending(Puts(SaveSteps(ToDtos(ss), now)))
  {
  }

  lemma EntryReadsBack(ss: seq<Session>, now: Instant, later: Instant, i: nat)
    requires i < |ss| && CanonicalSession(ss[i]) && ss[i].id != ""
    ensures SaveSteps(ToDtos(ss), now)[i].Put?
    ensures FromDto(LoadedDto(SaveSteps(ToDtos(ss), now)[i].entry.record, later)) == ss[i]
  {
    DtoRoundTrip(ss[i]);
  }

  lemma {:induction false} FillAllPutLength<R(!new)>(steps: seq<Step<R>>)
    requires AllPut(steps) && DistinctKeys(Puts(steps))
    ensures Fill(steps).Open? && |Fill(steps).state| == |steps|
    decreases |steps|
  {
    FillAllPut(steps);
    if steps != [] {
      var n := |steps| - 1;
      assert Puts(steps[..n]) == Puts(steps)[..n];
      FillAllPutLength(steps[..n]);
    }
  }

  // ---------------------------------------------------------------------------
  // The browser's localStorage

  class LocalStorage {
    var items: map<string, StoredText>

    constructor (items: map<string, StoredText>)
      ensures this.items == items
    {
      this.items := items;
    }

    method SetItem(key: string, value: StoredText)
      modifies this
      ensures items == old(items)[key := value]
    {
      items := items[key := value];
    }

    method GetItem(key: string) returns (v: Option<StoredText>)
      ensures v.Some? <==> key in items
      ensures v.Some? ==> v.value == items[key]
    {
      v := if key in items then Some(items[key]) else None;
    }
  }

  function Lookup(items: map<string, StoredText>, key: string): Option<StoredText> {
    if key in items then Some(items[key]) else None
  }

  // ---------------------------------------------------------------------------
  // ChatStorage

  /** The IndexedDB-backed store. `backing` is the browser's `ChatAppDB`, which
      outlives the object; `db` is the handle `init` obtained, null until then.
      Whether a call to `indexedDB.open` made now would succeed is the `openOk`
      argument of every operation. */
  class ChatStorage {
    const backing: Database<SessionRecord>
    var db: Database?<SessionRecord>
    var isInitialized: bool
    /** How many times `indexedDB.open` was called. */
    ghost var opens: nat

    predicate Valid()
      reads this, backing
    {
      (db != null <==> isInitialized) && (db != null ==> db == backing) && backing.Valid()
    }

    constructor (backing: Database<SessionRecord>)
      requires backing.Valid()
      ensures Valid() && this.backing == backing && db == null && opens == 0
    {
      this.backing := backing;
      db := null;
      isInitialized := false;
      opens := 0;
    }

    /** `init`: once a handle is held, it is returned without opening again. */
    method Init(openOk: bool) returns (r: Status)
      requires Valid()
      modifies this`db, this`isInitialized, this`opens
      ensures Valid()
      ensures old(db) != null ==> r == Resolved && db == old(db) && opens == old(opens)
      ensures old(db) == null ==> opens == old(opens) + 1
      ensures old(db) == null && openOk ==> r == Resolved && db == backing
      ensures old(db) == null && !openOk ==> r == Rejected(OpenFailed) && db == null
    {
      if isInitialized && db != null {
        return Resolved;
      }
      opens := opens + 1;
      if openOk {
        db := backing;
        isInitialized := true;
        r := Resolved;
      } else {
        r := Rejected(OpenFailed);
      }
    }

    /** `saveSessions`: clear the store, then add every DTO in one transaction. */
    method SaveSessions(dtos: seq<SessionDto>, openOk: bool, now: Instant) returns (r: Status)
      requires Valid()
      modifies this`db, this`isInitialized, this`opens, backing`sessions
      ensures Valid() && backing.settings == old(backing.settings)
      ensures old(db) == null && !openOk ==> r == Rejected(OpenFailed) && backing.sessions == old(backing.sessions)
      ensures old(db) != null || openOk ==>
        Replacement(backing.sessions, r) == Replaced(old(backing.sessions), SaveSteps(dtos, now))
    {
      if db == null {
        r := Init(openOk);
        if r.Rejected? {
          return;
        }
      }
      r := ReplaceAll(dtos, now);
    }

    /** The read-write transaction of `saveSessions`, on an open handle. */
    method ReplaceAll(dtos: seq<SessionDto>, now: Instant) returns (r: Status)
      requires Valid() && db == backing
      modifies backing`sessions
      ensures Valid()
      ensures Replacement(backing.sessions, r) == Replaced(old(backing.sessions), SaveSteps(dtos, now))
    {
      var before := db.sessions;
      ghost var steps := SaveSteps(dtos, now);
      db.Clear();
      var i := 0;
      while i < |dtos|
        invariant 0 <= i <= |dtos|
        invariant Valid() && before == old(backing.sessions) && Ascending(before)
        invariant Fill(steps[..i]) == Open(backing.sessions)
      {
        FillNext(steps, i, backing.sessions);
        match SaveStep(dtos[i], now) {
          case Reject(err) =>
            FillAfterEnd(steps, i + 1);
            return Rejected(err);
          case Put(e) =>
            var added := db.Add(e);
            if !added {
              db.Rollback(before);
              FillAfterEnd(steps, i + 1);
              return Rejected(ConstraintError);
            }
        }
        i := i + 1;
      }
      assert steps[..i] == steps;
      r := Resolved;
    }

    /** `loadSessions`: every stored record, in key order. */
    method LoadSessions(openOk: bool, now: Instant) returns (r: Status, dtos: seq<SessionDto>)
      requires Valid()
      modifies this
      ensures Valid()
      ensures old(db) == null && !openOk ==> r == Rejected(OpenFailed) && dtos == []
      ensures old(db) != null || openOk ==> r == Resolved && dtos == LoadedDtos(Records(backing.sessions), now)
    {
      dtos := [];
      if db == null {
        r := Init(openOk);
        if r.Rejected? {
          return;
        }
      }
      var records := db.GetAll();
      dtos := LoadedDtos(records, now);
      r := Resolved;
    }

    /** `saveSetting`: `put` into the settings store. */
    method SaveSetting(key: string, value: Json, openOk: bool) returns (r: Status)
      requires Valid()
      modifies this, backing
      ensures Valid() && backing.sessions == old(backing.sessions)
      ensures old(db) == null && !openOk ==> r == Rejected(OpenFailed) && backing.settings == old(backing.settings)
      ensures old(db) != null || openOk ==> r == Resolved && backing.settings == old(backing.settings)[key := value]
    {
      if db == null {
        r := Init(openOk);
        if r.Rejected? {
          return;
        }
      }
      db.Put(key, value);
      r := Resolved;
    }

    /** `loadSetting`: the stored value, or null for a missing key. */
    method LoadSetting(key: string, openOk: bool) returns (r: Status, value: Json)
      requires Valid()
      modifies this
      ensures Valid()
      ensures old(db) == null && !openOk ==> r == Rejected(OpenFailed)
      ensures old(db) != null || openOk ==> r == Resolved && value == (if key in backing.settings then backing.settings[key] else JNull)
    {
      value := JNull;
      if db == null {
        r := Init(openOk);
        if r.Rejected? {
          return;
        }
      }
      var found := db.Get(key);
      if found.Some? {
        value := found.value;
      }
      r := Resolved;
    }

    /** `clear`: empties the sessions store only. */
    method Clear(openOk: bool) returns (r: Status)
      requires Valid()
      modifies this, backing
      ensures Valid() && backing.settings == old(backing.settings)
      ensures old(db) == null && !openOk ==> r == Rejected(OpenFailed) && backing.sessions == old(backing.sessions)
      ensures old(db) != null || openOk ==> r == Resolved && backing.sessions == []
    {
      if db == null {
        r := Init(openOk);
        if r.Rejected? {
          return;
        }
      }
      db.Clear();
      r := Resolved;
    }
  }

  // ---------------------------------------------------------------------------
  // StorageService: IndexedDB first, localStorage as the fallback

  class StorageService {
    const chatStorage: ChatStorage
    const localStorage: LocalStorage

    predicate Valid()
      reads this, chatStorage, chatStorage.backing
    {
      chatStorage.Valid()
    }

    constructor (chatStorage: ChatStorage, localStorage: LocalStorage)
      requires chatStorage.Valid()
      ensures Valid() && this.chatStorage == chatStorage && this.localStorage == localStorage
    {
      this.chatStorage := chatStorage;
      this.localStorage := localStorage;
    }

    /** `initializeStorage`: true exactly when IndexedDB could be opened. */
    method InitializeStorage(openOk: bool) returns (ok: bool)
      requires Valid()
      modifies chatStorage
      ensures Valid()
      ensures ok <==> old(chatStorage.db) != null || openOk
    {
      var r := chatStorage.Init(openOk);
      ok := r.Resolved?;
    }

    /** `saveSessions`: the DTO list goes to IndexedDB; if that throws, the whole
        list is written as JSON under `CHAT_SESSIONS` instead. */
    method SaveSessions(sessions: seq<Session>, openOk: bool, now: Instant)
      requires Valid()
      modifies chatStorage, chatStorage.backing, localStorage
      ensures Valid() && chatStorage.backing.settings == old(chatStorage.backing.settings)
      ensures var reachable := old(chatStorage.db) != null || openOk;
              var rep := Replaced(old(chatStorage.backing.sessions), SaveSteps(ToDtos(sessions), now));
              var failed := !reachable || rep.status.Rejected?;
              (reachable ==> chatStorage.backing.sessions == rep.state)
              && (!reachable ==> chatStorage.backing.sessions == old(chatStorage.backing.sessions))
              && (failed ==> localStorage.items == old(localStorage.items)[SessionsKey := Serialized(DtosJson(ToDtos(sessions)))])
              && (!failed ==> localStorage.items == old(localStorage.items))
    {
      var dtos := ToDtos(sessions);
      var r := chatStorage.SaveSessions(dtos, openOk, now);
      if r.Rejected? {
        localStorage.SetItem(SessionsKey, Serialized(DtosJson(dtos)));
      }
    }

    /** `loadSessions`: the IndexedDB list when it is non-empty; otherwise, whether
        it was empty or the load threw, the `CHAT_SESSIONS` list. */
    method LoadSessions(openOk: bool, now: Instant) returns (sessions: seq<Session>)
      requires Valid()
      modifies chatStorage
      ensures Valid()
      ensures var primary := (old(chatStorage.db) != null || openOk) && chatStorage.backing.sessions != [];
              (primary ==> sessions == FromDtos(LoadedDtos(Records(chatStorage.backing.sessions), now)))
              && (!primary ==> sessions == FallbackSessions(Lookup(localStorage.items, SessionsKey)))
    {
      var r, dtos := chatStorage.LoadSessions(openOk, now);
      if r.Resolved? && |dtos| > 0 {
        return FromDtos(dtos);
      }
      var item := localStorage.GetItem(SessionsKey);
      if item.Some? && NonEmptyText(item.value) {
        var parsed := ParseStored(item.value);
        if parsed.Some? {
          var list := DecodeDtos(parsed.value);
          if list.Some? {
            return FromDtos(list.value);
          }
        }
      }
      return [];
    }

    /** `saveSetting`: IndexedDB, or the value's JSON under its own key. */
    method SaveSetting(key: string, value: Json, openOk: bool)
      requires Valid()
      modifies chatStorage, chatStorage.backing, localStorage
      ensures Valid() && chatStorage.backing.sessions == old(chatStorage.backing.sessions)
      ensures var reachable := old(chatStorage.db) != null || openOk;
              (reachable ==>
                 chatStorage.backing.settings == old(chatStorage.backing.settings)[key := value] &&
                 localStorage.items == old(localStorage.items))
              && (!reachable ==>
                    chatStorage.backing.settings == old(chatStorage.backing.settings) &&
                    localStorage.items == old(localStorage.items)[key := Serialized(value)])
    {
      var r := chatStorage.SaveSetting(key, value, openOk);
      if r.Rejected? {
        localStorage.SetItem(key, Serialized(value));
      }
    }

    /** `loadSetting`: IndexedDB's value (null when absent), or the parsed
        `localStorage` item; unparsable text there makes the call throw. */
    method LoadSetting(key: string, openOk: bool) returns (r: Result<Json>)
      requires Valid()
      modifies chatStorage
      ensures Valid()
      ensures var reachable := old(chatStorage.db) != null || openOk;
              var settings := chatStorage.backing.settings;
              (reachable ==> r == Success(if key in settings then settings[key] else JNull))
              && (!reachable ==> r == FallbackSetting(Lookup(localStorage.items, key)))
    {
      var status, value := chatStorage.LoadSetting(key, openOk);
      if status.Resolved? {
        return Success(value);
      }
      var item := localStorage.GetItem(key);
      r := FallbackSetting(item);
    }

    /** `clearStorage`: empties the IndexedDB sessions store; true on success. */
    method ClearStorage(openOk: bool) returns (ok: bool)
      requires Valid()
      modifies chatStorage, chatStorage.backing
      ensures Valid() && chatStorage.backing.settings == old(chatStorage.backing.settings)
      ensures ok <==> old(chatStorage.db) != null || openOk
      ensures ok ==> chatStorage.backing.sessions == []
      ensures !ok ==> chatStorage.backing.sessions == old(chatStorage.backing.sessions)
    {
      var r := chatStorage.Clear(openOk);
      ok := r.Resolved?;
    }
  }
}
