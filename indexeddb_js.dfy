/** The WebAssembly client's IndexedDB glue (`src/Sample.Wasm/wwwroot/js/indexeddb.js`):
    a `ChatStorage` class that accepts sessions in either property casing, and the
    `window` functions .NET calls, each with its own error policy. */
module IndexedDbJs {
  import opened Wrappers
  import opened JsonValue
  import opened ChatTypes
  import opened IndexedDb

  /** The record `saveSessions` stores beside its key. No system message is kept. */
  datatype JsRecord = JsRecord(title: Option<Json>, history: Option<Json>, lastUpdated: Json, createdAt: string)

  /** A record as `loadSessions` returns it, renamed to .NET's property names. */
  datatype LoadedSession = LoadedSession(Id: Key, Title: Option<Json>, History: Option<Json>, LastUpdated: Instant)

  /** `a.Name || a.name`: the capitalised property when truthy, else the lowercase one. */
  function Either(session: Json, upper: string, lower: string): (r: Option<Json>)
    ensures Present(Prop(session, upper)) ==> r == Prop(session, upper)
    ensures !Present(Prop(session, upper)) ==> r == Prop(session, lower)
  {
    Or(Prop(session, upper), Prop(session, lower))
  }

  /** A resolved id as an IndexedDB key: numbers and strings are keys; `true` and
      objects are refused with a `DataError`. IndexedDB would also accept an array
      of keys; the model refuses every array. */
  function KeyOf(v: Json): (k: Option<Key>)
    ensures k.Some? <==> v.JNum? || v.JStr?
    ensures v.JStr? ==> k == Some(StrKey(v.s))
    ensures v.JNum? ==> k == Some(NumKey(v.n))
  {
    match v
    case JNum(n) => Some(NumKey(n))
    case JStr(s) => Some(StrKey(s))
    case _ => None
  }

  /** `LastUpdated || lastUpdated || new Date().toISOString()`. */
  function LastUpdatedOf(session: Json, now: Instant): (v: Json)
    ensures Truthy(v)
  {
    Or(Either(session, "LastUpdated", "lastUpdated"), Some(JStr(IsoText(now)))).value
  }

  /** The transaction step for one session object of `saveSessions`. */
  function SaveStep(session: Json, now: Instant): Step<JsRecord> {
    if session == JNull then Reject(TypeError)
    else
      var id := Either(session, "Id", "id");
      if !Present(id) then Reject(MissingId)
      else
        match KeyOf(id.value)
        case None => Reject(DataError)
        case Some(k) =>
          Put(Entry(k, JsRecord(Either(session, "Title", "title"), Either(session, "History", "history"),
                                LastUpdatedOf(session, now), IsoText(now))))
  }

  /** The steps of the transaction, one per session object. It differs from
      `Persistence.SaveSteps` only in the step it maps. */
  function SaveSteps(sessions: seq<Json>, now: Instant): (steps: seq<Step<JsRecord>>)
    ensures |steps| == |sessions| && forall i :: 0 <= i < |sessions| ==> steps[i] == SaveStep(sessions[i], now)
  {
    seq(|sessions|, i requires 0 <= i < |sessions| => SaveStep(sessions[i], now))
  }

  /** What one session object becomes: rejected when it is null or its id is falsy
      or not a key; otherwise stored under that id, with each field read from its
      capitalised name first. */
  lemma SaveStepSpec(session: Json, now: Instant)
    ensures SaveStep(session, now) == Reject(TypeError) <==> session == JNull
    ensures SaveStep(session, now) == Reject(MissingId) <==>
              session != JNull && !Present(Prop(session, "Id")) && !Present(Prop(session, "id"))
    ensures SaveStep(session, now).Put? ==>
              var e := SaveStep(session, now).entry;
              Some(e.key) == KeyOf(Either(session, "Id", "id").value)
              && e.record.title == Either(session, "Title", "title")
              && e.record.history == Either(session, "History", "history")
              && e.record.lastUpdated == LastUpdatedOf(session, now)
  {
  }

  /** A session without either time property is stamped with the save time. */
  lemma MissingTimeIsNow(session: Json, now: Instant)
    requires !Present(Prop(session, "LastUpdated")) && !Present(Prop(session, "lastUpdated"))
    ensures LastUpdatedOf(session, now) == JStr(IsoText(now))
  {
  }

  /** A system message on the session object never reaches the store. */
  lemma SystemMessageNotStored(members: map<string, Json>, v: Json, now: Instant)
    ensures SaveStep(JObj(members["systemMessage" := v]), now) == SaveStep(JObj(members), now)
    ensures SaveStep(JObj(members["SystemMessage" := v]), now) == SaveStep(JObj(members), now)
  {
    var lower := JObj(members["systemMessage" := v]);
    var upper := JObj(members["SystemMessage" := v]);
    SameRecordFields(JObj(members), lower, "systemMessage");
    SameRecordFields(JObj(members), upper, "SystemMessage");
  }

  /** Two objects that differ only in a member the record never reads give the same step. */
  lemma SameRecordFields(a: Json, b: Json, name: string)
    requires a.JObj? && b.JObj? && a.members - {name} == b.members - {name}
    requires name !in {"Id", "id", "Title", "title", "History", "history", "LastUpdated", "lastUpdated"}
    ensures forall now :: SaveStep(a, now) == SaveStep(b, now)
  {
    forall key | key in {"Id", "id", "Title", "title", "History", "history", "LastUpdated", "lastUpdated"}
      ensures Prop(a, key) == Prop(b, key)
    {
      assert (key in a.members) == (key in a.members - {name});
      assert (key in b.members) == (key in b.members - {name});
      if key in a.members {
        assert a.members[key] == (a.members - {name})[key];
        assert b.members[key] == (b.members - {name})[key];
      }
    }
  }

  /** The largest time value a `Date` holds: 8.64e15 ms (`TimeClip`). */
  const MaxTimeValue: real := 8640000000000000.0

  /** A number past the largest time value is an Invalid Date, read as the epoch. */
  lemma TimeBeyondRangeIsEpoch()
    ensures DateOfJson(JNum(MaxTimeValue + 1.0)) == Instant(0)
    ensures DateOfJson(JNum(MaxTimeValue)) == Instant(8640000000000000)
  {
    assert MaxTimeValue.Floor == 8640000000000000;
  }

  /** `new Date(v)` for a stored time: text is parsed, a non-negative number up to
      the largest time value a `Date` holds is a millisecond count (truncated),
      `true` is 1 ms; an instant the model cannot represent (before the epoch, or
      invalid, as is any number beyond that bound) reads as the epoch. */
  function DateOfJson(v: Json): Instant {
    match v
    case JStr(s) => DateOf(s)
    case JNum(n) => if 0.0 <= n <= MaxTimeValue then Instant(n.Floor) else Instant(0)
    case JBool(b) => Instant(if b then 1 else 0)
    case _ => Instant(0)
  }

  /** The renaming `loadSessions` applies to a stored record. */
  function Loaded(e: Entry<JsRecord>, now: Instant): LoadedSession {
    LoadedSession(e.key, e.record.title, e.record.history,
                  if Truthy(e.record.lastUpdated) then DateOfJson(e.record.lastUpdated) else now)
  }

  function LoadedAll(es: seq<Entry<JsRecord>>, now: Instant): (ls: seq<LoadedSession>)
    ensures |ls| == |es| && forall i :: 0 <= i < |es| ==> ls[i] == Loaded(es[i], now)
  {
    seq(|es|, i requires 0 <= i < |es| => Loaded(es[i], now))
  }

  /** A session the .NET side sends (capitalised names, ISO time) reads back with
      the same id, title, history and time. */
  lemma DotNetSessionRoundTrip(id: string, title: Json, history: Json, t: Instant, now: Instant, later: Instant)
    requires id != "" && Truthy(title) && Truthy(history)
    ensures var session := JObj(map["Id" := JStr(id), "Title" := title, "History" := history, "LastUpdated" := JStr(IsoText(t))]);
            SaveStep(session, now).Put?
            && Loaded(SaveStep(session, now).entry, later) == LoadedSession(StrKey(id), Some(title), Some(history), t)
  {
    DateRoundTrip(t);
    var session := JObj(map["Id" := JStr(id), "Title" := title, "History" := history, "LastUpdated" := JStr(IsoText(t))]);
    assert Prop(session, "Id") == Some(JStr(id));
    assert Prop(session, "LastUpdated") == Some(JStr(IsoText(t)));
  }

  // ---------------------------------------------------------------------------
  // ChatStorage

  /** The store object `window.chatStorage`. As in the React client, `backing` is
      the browser's database, `db` the handle `init` obtained, and `openOk` says
      whether `indexedDB.open` would succeed now. */
  class ChatStorage {
    const backing: Database<JsRecord>
    var db: Database?<JsRecord>
    var isInitialized: bool
    ghost var opens: nat

    predicate Valid()
      reads this, backing
    {
      (db != null <==> isInitialized) && (db != null ==> db == backing) && backing.Valid()
    }

    constructor (backing: Database<JsRecord>)
      requires backing.Valid()
      ensures Valid() && this.backing == backing && db == null && opens == 0
    {
      this.backing := backing;
      db := null;
      isInitialized := false;
      opens := 0;
    }

    /** `init`: once a handle is held, it is returned without opening again. */
    method Init(openOk: bool) returns (r: Status)
      requires Valid()
      modifies this`db, this`isInitialized, this`opens
      ensures Valid()
      ensures old(db) != null ==> r == Resolved && db == old(db) && opens == old(opens)
      ensures old(db) == null ==> opens == old(opens) + 1
      ensures old(db) == null && openOk ==> r == Resolved && db == backing
      ensures old(db) == null && !openOk ==> r == Rejected(OpenFailed) && db == null
    {
      if isInitialized && db != null {
        return Resolved;
      }
      opens := opens + 1;
      if openOk {
        db := backing;
        isInitialized := true;
        r := Resolved;
      } else {
        r := Rejected(OpenFailed);
      }
    }

    /** `saveSessions`: clear the store, then add one record per session object. */
    method SaveSessions(sessions: seq<Json>, openOk: bool, now: Instant) returns (r: Status)
      requires Valid()
      modifies this`db, this`isInitialized, this`opens, backing`sessions
      ensures Valid() && backing.settings == old(backing.settings)
      ensures old(db) == null && !openOk ==> r == Rejected(OpenFailed) && backing.sessions == old(backing.sessions)
      ensures old(db) != null || openOk ==>
        Replacement(backing.sessions, r) == Replaced(old(backing.sessions), SaveSteps(sessions, now))
    {
      if db == null {
        r := Init(openOk);
        if r.Rejected? {
          return;
        }
      }
      r := ReplaceAll(sessions, now);
    }

    /** The read-write transaction of `saveSessions`, on an open handle. */
    method ReplaceAll(sessions: seq<Json>, now: Instant) returns (r: Status)
      requires Valid() && db == backing
      modifies backing`sessions
      ensures Valid()
      ensures Replacement(backing.sessions, r) == Replaced(old(backing.sessions), SaveSteps(sessions, now))
    {
      var before := db.sessions;
      ghost var steps := SaveSteps(sessions, now);
      db.Clear();
      var i := 0;
      while i < |sessions|
        invariant 0 <= i <= |sessions|
        invariant Valid() && before == old(backing.sessions) && Ascending(before)
        invariant Fill(steps[..i]) == Open(backing.sessions)
      {
        FillNext(steps, i, backing.sessions);
        match SaveStep(sessions[i], now) {
          case Reject(err) =>
            FillAfterEnd(steps, i + 1);
            return Rejected(err);
          case Put(e) =>
            var added := db.Add(e);
            if !added {
              db.Rollback(before);
              FillAfterEnd(steps, i + 1);
              return Rejected(ConstraintError);
            }
        }
        i := i + 1;
      }
      assert steps[..i] == steps;
      r := Resolved;
    }

    /** `loadSessions`: every record, in key order, renamed for .NET. */
    method LoadSessions(openOk: bool, now: Instant) returns (r: Status, sessions: seq<LoadedSession>)
      requires Valid()
      modifies this
      ensures Valid()
      ensures old(db) == null && !openOk ==> r == Rejected(OpenFailed) && sessions == []
      ensures old(db) != null || openOk ==> r == Resolved && sessions == LoadedAll(backing.sessions, now)
    {
      sessions := [];
      if db == null {
        r := Init(openOk);
        if r.Rejected? {
          return;
        }
      }
      var all := db.sessions;
      sessions := LoadedAll(all, now);
      r := Resolved;
    }

    /** `saveSetting`: `put` into the settings store. */
    method SaveSetting(key: string, value: Json, openOk: bool) returns (r: Status)
      requires Valid()
      modifies this, backing
      ensures Valid() && backing.sessions == old(backing.sessions)
      ensures old(db) == null && !openOk ==> r == Rejected(OpenFailed) && backing.settings == old(backing.settings)
      ensures old(db) != null || openOk ==> r == Resolved && backing.settings == old(backing.settings)[key := value]
    {
      if db == null {
        r := Init(openOk);
        if r.Rejected? {
          return;
        }
      }
      db.Put(key, value);
      r := Resolved;
    }

    /** `loadSetting`: the stored value, or null for a missing key. */
    method LoadSetting(key: string, openOk: bool) returns (r: Status, value: Json)
      requires Valid()
      modifies this
      ensures Valid()
      ensures old(db) == null && !openOk ==> r == Rejected(OpenFailed)
      ensures old(db) != null || openOk ==> r == Resolved && value == (if key in backing.settings then backing.settings[key] else JNull)
    {
      value := JNull;
      if db == null {
        r := Init(openOk);
        if r.Rejected? {
          return;
        }
      }
      var found := db.Get(key);
      if found.Some? {
        value := found.value;
      }
      r := Resolved;
    }
  }

  // ---------------------------------------------------------------------------
  // The functions on `window` that .NET calls

  class Window {
    const chatStorage: ChatStorage

    predicate Valid()
      reads this, chatStorage, chatStorage.backing
    {
      chatStorage.Valid()
    }

    constructor (chatStorage: ChatStorage)
      requires chatStorage.Valid()
      ensures Valid() && this.chatStorage == chatStorage
    {
      this.chatStorage := chatStorage;
    }

    /** `initializeIndexedDB`: a failure to open becomes `false`. */
    method InitializeIndexedDB(openOk: bool) returns (ok: bool)
      requires Valid()
      modifies chatStorage
      ensures Valid()
      ensures ok <==> old(chatStorage.db) != null || openOk
    {
      var r := chatStorage.Init(openOk);
      ok := r.Resolved?;
    }

    /** `saveSessionsToIndexedDB`: resolves with `true`, or rethrows so that .NET
        can fall back. */
    method SaveSessionsToIndexedDB(sessions: seq<Json>, openOk: bool, now: Instant) returns (r: Status)
      requires Valid()
      modifies chatStorage, chatStorage.backing
      ensures Valid()
      ensures old(chatStorage.db) == null && !openOk ==> r == Rejected(OpenFailed)
      ensures old(chatStorage.db) != null || openOk ==>
        Replacement(chatStorage.backing.sessions, r) == Replaced(old(chatStorage.backing.sessions), SaveSteps(sessions, now))
    {
      r := chatStorage.SaveSessions(sessions, openOk, now);
    }

    /** `loadSessionsFromIndexedDB`: the loaded list, or the error rethrown. */
    method LoadSessionsFromIndexedDB(openOk: bool, now: Instant) returns (r: Status, sessions: seq<LoadedSession>)
      requires Valid()
      modifies chatStorage
      ensures Valid()
      ensures r.Rejected? <==> old(chatStorage.db) == null && !openOk
      ensures r.Resolved? ==> sessions == LoadedAll(chatStorage.backing.sessions, now)
    {
      r, sessions := chatStorage.LoadSessions(openOk, now);
    }

    /** `saveSettingToIndexedDB`: `true`, or `false` instead of an error. */
    method SaveSettingToIndexedDB(key: string, value: Json, openOk: bool) returns (ok: bool)
      requires Valid()
      modifies chatStorage, chatStorage.backing
      ensures Valid() && chatStorage.backing.sessions == old(chatStorage.backing.sessions)
      ensures ok <==> old(chatStorage.db) != null || openOk
      ensures ok ==> chatStorage.backing.settings == old(chatStorage.backing.settings)[key := value]
      ensures !ok ==> chatStorage.backing.settings == old(chatStorage.backing.settings)
    {
      var r := chatStorage.SaveSetting(key, value, openOk);
      ok := r.Resolved?;
    }

    /** `loadSettingFromIndexedDB`: the value, with null for a missing key and on error. */
    method LoadSettingFromIndexedDB(key: string, openOk: bool) returns (value: Json)
      requires Valid()
      modifies chatStorage
      ensures Valid()
      ensures old(chatStorage.db) == null && !openOk ==> value == JNull
      ensures old(chatStorage.db) != null || openOk ==>
        value == (if key in chatStorage.backing.settings then chatStorage.backing.settings[key] else JNull)
    {
      var r;
      r, value := chatStorage.LoadSetting(key, openOk);
      if r.Rejected? {
        value := JNull;
      }
    }

    /** `clearIndexedDB`: empties the sessions store only; `false` on error. */
    method ClearIndexedDB(openOk: bool) returns (ok: bool)
      requires Valid()
      modifies chatStorage, chatStorage.backing
      ensures Valid() && chatStorage.backing.settings == old(chatStorage.backing.settings)
      ensures ok <==> old(chatStorage.isInitialized) || openOk
      ensures ok ==> chatStorage.backing.sessions == []
      ensures !ok ==> chatStorage.backing.sessions == old(chatStorage.backing.sessions)
    {
      if !chatStorage.isInitialized {
        var r := chatStorage.Init(openOk);
        if r.Rejected? {
          return false;
        }
      }
      chatStorage.db.Clear();
      ok := true;
    }
  }
}
