/** The chat store (`src/stores/chatStore.ts`): one mutable state record shared by
    the UI, and the actions that update it. The completion stream, the clock, the
    id generator and the service replies are inputs; every call to
    `StorageService.saveSessions` is recorded in a ghost log. */
module Store {
  import opened Wrappers
  import opened Text
  import opened JsonValue
  import opened ChatTypes
  import ChatService
  import Persistence

  const NewChatTitle: string := "새 대화"
  const SelectModelMessage: string := "모델을 선택하거나 입력하세요."
  const FallbackModel: string := "gpt-4o"
  const LastModelKey: string := "LAST_MODEL"
  const SystemMessageKey: string := "SYSTEM_MESSAGE"
  const TitleLength: nat := 20
  const DefaultTemperature: real := 1.0

  function ModelSettingsKey(model: string): string {
    "MODEL_SETTINGS::" + model
  }

  // ---------------------------------------------------------------------------
  // Sessions and messages

  /** A new conversation whose history is the system prompt alone. */
  function NewSession(id: string, systemMessage: string, now: Instant): (s: Session)
    ensures s.id == id && s.title == NewChatTitle && s.lastUpdated == now
    ensures s.history == [ChatMessage(System, systemMessage)] && s.systemMessage == Some(systemMessage)
  {
    Session(id, NewChatTitle, [ChatMessage(System, systemMessage)], now, Some(systemMessage))
  }

  /** `text.length > 20 ? text.substring(0, 20) + '…' : text`. */
  function TitleFrom(text: string): string {
    if |text| > TitleLength then text[..TitleLength] + "…" else text
  }

  /** A short text is its own title; a long one keeps its first twenty characters
      and gains an ellipsis; shortening a title again changes nothing. */
  lemma TitleFromSpec(text: string)
    ensures |TitleFrom(text)| <= TitleLength + 1
    ensures |text| <= TitleLength ==> TitleFrom(text) == text
    ensures |text| > TitleLength ==>
      |TitleFrom(text)| == TitleLength + 1
      && TitleFrom(text)[..TitleLength] == text[..TitleLength]
      && TitleFrom(text)[TitleLength] == '…'
    ensures TitleFrom(TitleFrom(text)) == TitleFrom(text)
  {
    if |text| > TitleLength {
      var t := TitleFrom(text);
      assert t[..TitleLength] == text[..TitleLength];
      assert t[..TitleLength] + "…" == t;
    }
  }

  /** `findIndex(p)`: the first index whose element satisfies `p`, or -1. */
  function FirstWhere<T>(xs: seq<T>, p: T -> bool): (i: int)
    ensures -1 <= i < |xs|
    ensures i == -1 <==> forall j :: 0 <= j < |xs| ==> !p(xs[j])
    ensures 0 <= i ==> p(xs[i]) && forall j :: 0 <= j < i ==> !p(xs[j])
  {
    if xs == [] then -1
    else if p(xs[0]) then 0
    else
      var k := FirstWhere(xs[1..], p);
      if k == -1 then -1 else k + 1
  }

  /** `findIndex(m => m.role === role)`. */
  function FindRole(ms: seq<ChatMessage>, role: Role): int {
    FirstWhere(ms, (m: ChatMessage) => m.role == role)
  }

  /** `findIndex(s => s.id === id)`. */
  function FindSession(ss: seq<Session>, id: string): int {
    FirstWhere(ss, (s: Session) => s.id == id)
  }

  /** `sessions.map(s => s.id === id ? updated : s)`; a null id matches nothing. */
  function WithSession(ss: seq<Session>, id: Option<string>, updated: Session): seq<Session> {
    seq(|ss|, i requires 0 <= i < |ss| => if Some(ss[i].id) == id then updated else ss[i])
  }

  /** Writing a session back keeps every id in its place, puts the new session
      wherever its id was, and leaves the other sessions alone. */
  lemma WithSessionSpec(ss: seq<Session>, id: Option<string>, u: Session)
    requires id == Some(u.id)
    ensures |WithSession(ss, id, u)| == |ss|
    ensures forall i :: 0 <= i < |ss| ==> WithSession(ss, id, u)[i].id == ss[i].id
    ensures Persistence.DistinctIds(ss) ==> Persistence.DistinctIds(WithSession(ss, id, u))
    ensures (exists s :: s in ss && s.id == u.id) ==> u in WithSession(ss, id, u)
    ensures forall s :: s in WithSession(ss, id, u) ==> s == u || (s in ss && s.id != u.id)
  {
    var r := WithSession(ss, id, u);
    if exists s :: s in ss && s.id == u.id {
      var s :| s in ss && s.id == u.id;
      var i :| 0 <= i < |ss| && ss[i] == s;
      assert r[i] == u;
    }
  }

  /** `sessions.filter(s => s.id !== id)`. */
  function WithoutId(ss: seq<Session>, id: string): (r: seq<Session>)
    ensures forall s :: s in r <==> s in ss && s.id != id
    ensures |r| <= |ss|
  {
    if ss == [] then [] else (if ss[0].id == id then [] else [ss[0]]) + WithoutId(ss[1..], id)
  }

  /** Filtering out an id nobody has changes nothing. */
  lemma {:induction false} WithoutAbsentId(ss: seq<Session>, id: string)
    requires forall i :: 0 <= i < |ss| ==> ss[i].id != id
    ensures WithoutId(ss, id) == ss
  {
    if ss != [] {
      WithoutAbsentId(ss[1..], id);
      assert [ss[0]] + ss[1..] == ss;
    }
  }

  /** With distinct ids, filtering one id out removes at most one session and
      keeps the ids distinct. */
  lemma {:induction false} WithoutIdSpec(ss: seq<Session>, id: string)
    requires Persistence.DistinctIds(ss)
    ensures Persistence.DistinctIds(WithoutId(ss, id))
    ensures |WithoutId(ss, id)| >= |ss| - 1
  {
    if ss != [] {
      var rest := ss[1..];
      assert Persistence.DistinctIds(rest) by {
        forall i, j | 0 <= i < j < |rest| ensures rest[i].id != rest[j].id {
          assert rest[i] == ss[i + 1] && rest[j] == ss[j + 1];
        }
      }
      WithoutIdSpec(rest, id);
      var tail := WithoutId(rest, id);
      if ss[0].id != id {
        assert WithoutId(ss, id) == [ss[0]] + tail;
        forall k | 0 <= k < |tail| ensures ss[0].id != tail[k].id {
          assert tail[k] in rest;
          var m :| 0 <= m < |rest| && rest[m] == tail[k];
          assert ss[m + 1] == tail[k];
        }
      } else {
        forall i | 0 <= i < |rest| ensures rest[i].id != id {
          assert rest[i] == ss[i + 1];
        }
        WithoutAbsentId(rest, id);
      }
    }
  }

  /** `messages.filter((_, i) => i !== index)` for an index inside the list. */
  function RemoveAt(ms: seq<ChatMessage>, index: nat): seq<ChatMessage>
    requires index < |ms|
  {
    ms[..index] + ms[index + 1..]
  }

  /** Removing one message keeps the others, in order, and loses exactly that one. */
  lemma RemoveAtSpec(ms: seq<ChatMessage>, index: nat)
    requires index < |ms|
    ensures |RemoveAt(ms, index)| == |ms| - 1
    ensures forall j :: 0 <= j < index ==> RemoveAt(ms, index)[j] == ms[j]
    ensures forall j :: index <= j < |ms| - 1 ==> RemoveAt(ms, index)[j] == ms[j + 1]
    ensures multiset(RemoveAt(ms, index)) + multiset{ms[index]} == multiset(ms)
  {
    assert ms == ms[..index] + [ms[index]] + ms[index + 1..];
  }

  /** The edit mark after deleting message `index`: cleared when it was on that
      message, moved down one when it was after it. */
  function AdjustedEdit(editing: Option<int>, index: int): Option<int> {
    if editing == Some(index) then None
    else if editing.Some? && editing.value > index then Some(editing.value - 1)
    else editing
  }

  /** A mark on any other message still marks the same message afterwards. */
  lemma EditMarkFollowsMessage(ms: seq<ChatMessage>, index: nat, e: nat)
    requires index < |ms| && e < |ms| && e != index
    ensures AdjustedEdit(Some(e), index).Some?
    ensures var k := AdjustedEdit(Some(e), index).value;
      0 <= k < |RemoveAt(ms, index)| && RemoveAt(ms, index)[k] == ms[e]
  {
    RemoveAtSpec(ms, index);
  }

  /** The system prompt written into a history: the first system message gets the
      text, or one is put in front when there is none. */
  function SetSystemText(ms: seq<ChatMessage>, text: string): seq<ChatMessage> {
    var k := FindRole(ms, System);
    if k >= 0 then ms[k := ChatMessage(System, text)] else [ChatMessage(System, text)] + ms
  }

  /** Afterwards the first system message carries the text, nothing else moves,
      at most one message is added, and setting twice is setting once. */
  lemma SetSystemTextSpec(ms: seq<ChatMessage>, a: string, b: string)
    ensures var r := SetSystemText(ms, a);
      FindRole(r, System) >= 0 && r[FindRole(r, System)] == ChatMessage(System, a)
      && |r| == (if FindRole(ms, System) >= 0 then |ms| else |ms| + 1)
    ensures FindRole(ms, System) >= 0 ==>
      forall j :: 0 <= j < |ms| && j != FindRole(ms, System) ==> SetSystemText(ms, a)[j] == ms[j]
    ensures FindRole(ms, System) < 0 ==> SetSystemText(ms, a)[1..] == ms
    ensures SetSystemText(SetSystemText(ms, a), b) == SetSystemText(ms, b)
  {
    var k := FindRole(ms, System);
    var r := SetSystemText(ms, a);
    if k >= 0 {
      assert r == ms[k := ChatMessage(System, a)];
      assert r[k].role == System;
      assert forall j :: 0 <= j < k ==> r[j] == ms[j];
      assert FindRole(r, System) == k;
      assert SetSystemText(r, b) == ms[k := ChatMessage(System, b)];
    } else {
      assert r == [ChatMessage(System, a)] + ms;
      assert r[0].role == System;
      assert FindRole(r, System) == 0;
      assert r[0 := ChatMessage(System, b)] == [ChatMessage(System, b)] + ms;
    }
  }

  // ---------------------------------------------------------------------------
  // Models and their settings

  /** The model a send uses: the chosen one, else the first listed, else `gpt-4o`.
      It is empty only when nothing is chosen and the list starts with "". */
  function EffectiveModel(selected: string, available: seq<string>): (r: string)
    ensures selected != "" ==> r == selected
    ensures selected == "" && |available| > 0 ==> r == available[0]
    ensures selected == "" && available == [] ==> r == FallbackModel
    ensures selected == "" ==> (r in available || r == FallbackModel)
    ensures r == "" <==> selected == "" && |available| > 0 && available[0] == ""
  {
    if selected != "" then selected
    else if |available| > 0 then available[0]
    else FallbackModel
  }

  /** When the model list came from `getModels`, the effective model is never
      empty, so the 'select a model' error cannot be raised; it is the chosen
      model, the first listed one, or the fallback. */
  lemma ListedModelsNeverBlockSend(selected: string, reply: ChatService.Reply)
    requires ChatService.GetModels(reply).Success?
    ensures var m := EffectiveModel(selected, ChatService.GetModels(reply).value);
      m != ""
      && (m == selected || m in ChatService.GetModels(reply).value || m == FallbackModel)
      && (selected != "" ==> m == selected)
  {
    ChatService.GetModelsSpec(reply);
    var ms := ChatService.GetModels(reply).value;
    if |ms| > 0 {
      assert ms[0] in ms;
    }
  }

  datatype ModelSettings = ModelSettings(temperature: real, maxTokens: Option<real>)

  /** `JSON.stringify({temperature, maxTokens: maxTokens ?? undefined})`. */
  function SettingsJson(s: ModelSettings): Json {
    JObj(map["temperature" := JNum(s.temperature)]
         + (if s.maxTokens.Some? then map["maxTokens" := JNum(s.maxTokens.value)] else map[]))
  }

  /** What `loadModelSettings` makes of the stored item: the stored numbers, 1.0
      and no limit when either is absent, and both defaults when nothing is
      stored or the text does not parse. */
  function ReadModelSettings(stored: Option<StoredText>): (r: ModelSettings)
    ensures stored.None? || stored.value.Plain? ==> r == ModelSettings(DefaultTemperature, None)
  {
    match stored
    case Some(Serialized(v)) =>
      var t := NumberOf(Prop(v, "temperature"));
      ModelSettings(if t.Some? then t.value else DefaultTemperature, NumberOf(Prop(v, "maxTokens")))
    case _ => ModelSettings(DefaultTemperature, None)
  }

  /** Settings saved for a model are read back unchanged. */
  lemma SettingsRoundTrip(s: ModelSettings)
    ensures ReadModelSettings(Some(Serialized(SettingsJson(s)))) == s
  {
    var members := SettingsJson(s).members;
    assert "temperature" in members && members["temperature"] == JNum(s.temperature);
    if s.maxTokens.Some? {
      assert members["maxTokens"] == JNum(s.maxTokens.value);
    } else {
      assert "maxTokens" !in members;
    }
  }

  /** The model picked at start-up: the first listed model, or, when the list
      could not be fetched, the last model used. */
  function StartupModel(models: Result<seq<string>>, lastModel: Option<StoredText>): Option<string> {
    match models
    case Success(ms) => if |ms| > 0 then Some(ms[0]) else None
    case Failure(_) =>
      match lastModel
      case Some(Plain(t)) => if t != "" then Some(t) else None
      case _ => None
  }

  /** `localStorage.getItem('SYSTEM_MESSAGE') || 'You are a helpful assistant.'`. */
  function StoredSystemMessage(stored: Option<StoredText>): (r: string)
    ensures r != ""
  {
    match stored
    case Some(Plain(t)) => if t != "" then t else DefaultSystemMessage
    case _ => DefaultSystemMessage
  }

  // ---------------------------------------------------------------------------
  // The state record

  datatype StreamRequest = StreamRequest(
    history: seq<ChatMessage>,
    model: string,
    temperature: real,
    maxTokens: Option<real>)

  datatype StoreState = StoreState(
    sessions: seq<Session>,
    currentSessionId: Option<string>,
    currentSession: Option<Session>,
    messages: seq<ChatMessage>,
    userInput: string,
    isSending: bool,
    error: Option<string>,
    availableModels: seq<string>,
    selectedModel: string,
    temperature: real,
    maxTokens: Option<real>,
    editingMessageIndex: Option<int>,
    editingText: string,
    systemMessage: string,
    currentUsage: Option<UsageInfo>,
    loadingUsage: bool)

  /** The current session, when there is one, carries the current id and is one
      of the listed sessions. */
  predicate Consistent(s: StoreState) {
    (s.currentSessionId.Some? <==> s.currentSession.Some?)
    && (s.currentSession.Some? ==>
          s.currentSession.value.id == s.currentSessionId.value && s.currentSession.value in s.sessions)
  }

  /** The current session replaced by `updated`, in the list and as current. */
  function WriteBack(s: StoreState, updated: Session): StoreState {
    s.(sessions := WithSession(s.sessions, s.currentSessionId, updated), currentSession := Some(updated))
  }

  /** Writing back a session with the current id keeps the state consistent. */
  lemma WriteBackConsistent(s: StoreState, updated: Session)
    requires Consistent(s) && s.currentSession.Some? && updated.id == s.currentSession.value.id
    ensures Consistent(WriteBack(s, updated))
  {
    WithSessionSpec(s.sessions, s.currentSessionId, updated);
    assert s.currentSession.value in s.sessions;
  }

  // ----- Sending -----

  /** A send goes ahead when none is running, the input is not blank and a model
      is known. */
  predicate Starts(s: StoreState) {
    !s.isSending && TrimJs(s.userInput) != "" && EffectiveModel(s.selectedModel, s.availableModels) != ""
  }

  function Prompt(s: StoreState): ChatMessage {
    ChatMessage(User, TrimJs(s.userInput))
  }

  /** A completed send: the prompt and the whole reply are the visible messages
      and, written into the snapshot of the current session, its history; the
      usage is refreshed unless a load is running. */
  function Answered(s: StoreState, reply: string, usage: Option<UsageInfo>, now: Instant): StoreState {
    var shown := s.(messages := s.messages + [Prompt(s), ChatMessage(Assistant, reply)], userInput := "",
                    error := None, currentUsage := if s.loadingUsage then s.currentUsage else usage);
    if s.currentSession.Some? then
      WriteBack(shown, s.currentSession.value.(history := shown.messages, lastUpdated := now))
    else shown
  }

  /** A send whose stream threw: a cancellation keeps the partial reply and
      reports nothing; any other error is reported and an empty reply dropped. */
  function Interrupted(s: StoreState, reply: string, message: string): StoreState {
    if Contains(message, "cancelled") then
      s.(messages := s.messages + [Prompt(s), ChatMessage(Assistant, reply)], userInput := "", error := None)
    else
      s.(messages := s.messages + [Prompt(s)] + (if reply == "" then [] else [ChatMessage(Assistant, reply)]),
         userInput := "", error := Some(message))
  }

  /** The state after `sendMessage`, given the text increments the stream yielded,
      how it ended, and the usage `loadUsage` fetched. */
  function AfterSend(s: StoreState, increments: seq<string>, end: ChatService.StreamEnd,
                     usage: Option<UsageInfo>, now: Instant): StoreState
  {
    if s.isSending || TrimJs(s.userInput) == "" then s
    else if EffectiveModel(s.selectedModel, s.availableModels) == "" then s.(error := Some(SelectModelMessage))
    else match end
      case Completed => Answered(s, Concat(increments), usage, now)
      case Failed(message) => Interrupted(s, Concat(increments), message)
  }

  /** A send that cannot start changes nothing but, when no model is known, the
      error; one that starts ends with the outcome of its stream. */
  lemma SendOutcomes(s: StoreState, increments: seq<string>, end: ChatService.StreamEnd,
                     usage: Option<UsageInfo>, now: Instant)
    ensures !Starts(s) ==>
      var r := AfterSend(s, increments, end, usage, now);
      r == s || (r == s.(error := Some(SelectModelMessage)) && !s.isSending && TrimJs(s.userInput) != "")
    ensures Starts(s) && end.Completed? ==> AfterSend(s, increments, end, usage, now) == Answered(s, Concat(increments), usage, now)
    ensures Starts(s) && end.Failed? ==> AfterSend(s, increments, end, usage, now) == Interrupted(s, Concat(increments), end.message)
  {
  }

  /** A completed send appends the prompt and the whole reply, stores them as the
      current session's history, keeps the session's old title (the title
      computed on the way is overwritten), and keeps the state consistent. */
  lemma {:induction false} AnsweredRecordsExchange(s: StoreState, reply: string, usage: Option<UsageInfo>, now: Instant)
    requires Consistent(s)
    ensures var r := Answered(s, reply, usage, now);
      r.messages == s.messages + [Prompt(s), ChatMessage(Assistant, reply)]
      && r.userInput == "" && r.error.None? && r.isSending == s.isSending
      && Consistent(r)
      && (s.currentSession.Some? ==>
            r.currentSession.value.history == r.messages
            && r.currentSession.value.id == s.currentSession.value.id
            && r.currentSession.value.title == s.currentSession.value.title
            && r.currentSession.value.lastUpdated == now)
  {
    if s.currentSession.Some? {
      var shown := s.(messages := s.messages + [Prompt(s), ChatMessage(Assistant, reply)], userInput := "",
                      error := None, currentUsage := if s.loadingUsage then s.currentUsage else usage);
      WriteBackConsistent(shown, s.currentSession.value.(history := shown.messages, lastUpdated := now));
    }
  }

  /** A send that fails or is cancelled never writes the exchange back to the
      session list: the sessions and the current session are those before the
      send, while the visible messages start with the prompt. A cancellation sets
      no error and keeps the partial reply after the prompt, even an empty one;
      any other failure sets the error and keeps the reply only when non-empty. */
  lemma InterruptedSkipsWriteBack(s: StoreState, reply: string, message: string)
    ensures var r := Interrupted(s, reply, message);
      r.sessions == s.sessions && r.currentSession == s.currentSession
      && r.currentSessionId == s.currentSessionId && r.isSending == s.isSending
      && r.messages[..|s.messages| + 1] == s.messages + [Prompt(s)]
      && r.error == (if Contains(message, "cancelled") then None else Some(message))
      && |r.messages| == |s.messages| + (if !Contains(message, "cancelled") && reply == "" then 1 else 2)
      && (Contains(message, "cancelled") || reply != "" ==>
            r.messages[|s.messages| + 1] == ChatMessage(Assistant, reply))
  {
    var asked := s.messages + [Prompt(s)];
    var r := Interrupted(s, reply, message);
    if Contains(message, "cancelled") || reply != "" {
      assert r.messages == asked + [ChatMessage(Assistant, reply)];
    } else {
      assert r.messages == asked;
    }
    assert r.messages[..|asked|] == asked;
  }

  /** The updates a later write-back makes override those of an earlier one for
      the same session: this is why the title set during a send is lost. */
  lemma WriteBackOverrides(s: StoreState, first: Session, second: Session)
    requires s.currentSessionId == Some(first.id) && second.id == first.id
    ensures WriteBack(WriteBack(s, first), second) == WriteBack(s, second)
  {
    var a := WithSession(WithSession(s.sessions, s.currentSessionId, first), s.currentSessionId, second);
    var b := WithSession(s.sessions, s.currentSessionId, second);
    assert |a| == |b|;
    forall i | 0 <= i < |a| ensures a[i] == b[i] {
    }
  }

  // ----- Start-up -----

  /** The model list (or, when it could not be fetched, the last model used) and
      the settings of the model picked from it. */
  function ModelsLoaded(s: StoreState, models: Result<seq<string>>, items: map<string, StoredText>): StoreState {
    var chosen := StartupModel(models, Persistence.Lookup(items, LastModelKey));
    var listed := s.(availableModels := if models.Success? then models.value else s.availableModels);
    if chosen.Some? && chosen.value != "" then
      var settings := ReadModelSettings(Persistence.Lookup(items, ModelSettingsKey(chosen.value)));
      listed.(selectedModel := chosen.value, temperature := settings.temperature, maxTokens := settings.maxTokens)
    else if chosen.Some? then listed.(selectedModel := chosen.value)
    else listed
  }

  /** The loaded sessions with the first one current, or a single new session
      with the stored system prompt when none were loaded. */
  function SessionsLoaded(s: StoreState, loaded: seq<Session>, storedPrompt: Option<StoredText>,
                          freshId: string, now: Instant): StoreState
  {
    if loaded == [] then
      var prompt := StoredSystemMessage(storedPrompt);
      var first := NewSession(freshId, prompt, now);
      s.(sessions := [first], currentSessionId := Some(freshId), currentSession := Some(first),
         messages := first.history, systemMessage := prompt)
    else
      var first := loaded[0];
      s.(sessions := loaded, currentSessionId := Some(first.id), currentSession := Some(first),
         messages := first.history,
         systemMessage := if first.systemMessage.Some? && first.systemMessage.value != ""
                          then first.systemMessage.value else s.systemMessage)
  }

  /** Loading the sessions reads nothing of the state but the system prompt. */
  lemma SessionsLoadedFrame(s: StoreState, t: StoreState, loaded: seq<Session>, storedPrompt: Option<StoredText>,
                            freshId: string, now: Instant)
    requires s.systemMessage == t.systemMessage
    ensures var a := SessionsLoaded(s, loaded, storedPrompt, freshId, now);
      var b := SessionsLoaded(t, loaded, storedPrompt, freshId, now);
      a.sessions == b.sessions && a.currentSessionId == b.currentSessionId && a.currentSession == b.currentSession
      && a.messages == b.messages && a.systemMessage == b.systemMessage
  {
  }

  /** After start-up there is always a current session: the first listed one,
      whose history is on screen. */
  lemma SessionsLoadedSpec(s: StoreState, loaded: seq<Session>, storedPrompt: Option<StoredText>,
                           freshId: string, now: Instant)
    ensures var r := SessionsLoaded(s, loaded, storedPrompt, freshId, now);
      Consistent(r) && r.sessions != [] && r.currentSession == Some(r.sessions[0])
      && r.messages == r.sessions[0].history
      && (loaded == [] ==> r.systemMessage != "" && r.sessions[0].history == [ChatMessage(System, r.systemMessage)])
      && (loaded != [] ==> r.sessions == loaded)
  {
    var r := SessionsLoaded(s, loaded, storedPrompt, freshId, now);
    assert r.sessions[0] in r.sessions;
  }

  /** The model picked at start-up is never empty when the list was fetched. */
  lemma StartupModelNonEmpty(reply: ChatService.Reply, lastModel: Option<StoredText>)
    ensures var chosen := StartupModel(ChatService.GetModels(reply), lastModel);
      chosen.Some? ==> chosen.value != ""
  {
    ChatService.GetModelsSpec(reply);
    var models := ChatService.GetModels(reply);
    if models.Success? && |models.value| > 0 {
      assert models.value[0] in models.value;
    }
  }

  /** The state `resendMessage` sends from: the user message at `index` and
      everything after it taken off, its text back in the input, no edit. */
  function Retry(s: StoreState, index: nat): StoreState
    requires index < |s.messages|
  {
    s.(editingMessageIndex := None, editingText := "", messages := s.messages[..index],
       userInput := s.messages[index].text)
  }

  // ---------------------------------------------------------------------------
  // The store

  class ChatStore {
    var sessions: seq<Session>
    var currentSessionId: Option<string>
    var currentSession: Option<Session>
    var messages: seq<ChatMessage>
    var userInput: string
    var isSending: bool
    var error: Option<string>
    var availableModels: seq<string>
    var selectedModel: string
    var temperature: real
    var maxTokens: Option<real>
    var editingMessageIndex: Option<int>
    var editingText: string
    var systemMessage: string
    var currentUsage: Option<UsageInfo>
    var loadingUsage: bool
    /** The browser's `localStorage`. */
    const localStorage: Persistence.LocalStorage
    /** Every session list handed to `StorageService.saveSessions`, oldest first. */
    ghost var saved: seq<seq<Session>>

    function State(): StoreState
      reads this
    {
      StoreState(sessions, currentSessionId, currentSession, messages, userInput, isSending, error,
                 availableModels, selectedModel, temperature, maxTokens, editingMessageIndex,
                 editingText, systemMessage, currentUsage, loadingUsage)
    }

    predicate Valid()
      reads this
    {
      Consistent(State())
    }

    /** The initial state: no sessions, no model, temperature 1.0 and the default
        system prompt. */
    constructor (localStorage: Persistence.LocalStorage)
      ensures Valid()
      ensures State() == StoreState([], None, None, [], "", false, None, [], "", DefaultTemperature, None,
                                    None, "", DefaultSystemMessage, None, false)
      ensures this.localStorage == localStorage && saved == []
    {
      sessions := [];
      currentSessionId := None;
      currentSession := None;
      messages := [];
      userInput := "";
      isSending := false;
      error := None;
      availableModels := [];
      selectedModel := "";
      temperature := DefaultTemperature;
      maxTokens := None;
      editingMessageIndex := None;
      editingText := "";
      systemMessage := DefaultSystemMessage;
      currentUsage := None;
      loadingUsage := false;
      this.localStorage := localStorage;
      saved := [];
    }

    /** `saveSessions`: hands the current list to the storage service. */
    method SaveSessions()
      modifies this`saved
      ensures saved == old(saved) + [sessions]
    {
      saved := saved + [sessions];
    }

    // ----- Start-up -----

    /** `initializeApp` after storage start-up and the theme: the model list (or
        the last model used), that model's settings, the loaded sessions or a
        new one, and the usage. */
    method InitializeApp(models: Result<seq<string>>, loaded: seq<Session>, freshId: string,
                         now: Instant, usage: Option<UsageInfo>)
      modifies this`availableModels, this`selectedModel, this`temperature, this`maxTokens
      modifies this`sessions, this`currentSessionId, this`currentSession, this`messages, this`systemMessage
      modifies this`currentUsage, this`loadingUsage
      ensures Valid()
      ensures var r := ModelsLoaded(old(State()), models, localStorage.items);
        availableModels == r.availableModels && selectedModel == r.selectedModel
        && temperature == r.temperature && maxTokens == r.maxTokens
      ensures var r := SessionsLoaded(old(State()), loaded, Persistence.Lookup(localStorage.items, SystemMessageKey), freshId, now);
        sessions == r.sessions && currentSessionId == r.currentSessionId && currentSession == r.currentSession
        && messages == r.messages && systemMessage == r.systemMessage
      ensures loadingUsage == old(loadingUsage)
      ensures currentUsage == if old(loadingUsage) then old(currentUsage) else usage
    {
      ghost var before := State();
      LoadModels(models);
      SessionsLoadedFrame(before, State(), loaded, Persistence.Lookup(localStorage.items, SystemMessageKey), freshId, now);
      LoadSessions(loaded, freshId, now);
      LoadUsage(usage);
    }

    /** The model half of `initializeApp`. */
    method LoadModels(models: Result<seq<string>>)
      modifies this`availableModels, this`selectedModel, this`temperature, this`maxTokens
      ensures var r := ModelsLoaded(old(State()), models, localStorage.items);
        availableModels == r.availableModels
      ensures var r := ModelsLoaded(old(State()), models, localStorage.items);
        selectedModel == r.selectedModel
      ensures var r := ModelsLoaded(old(State()), models, localStorage.items);
        temperature == r.temperature
      ensures var r := ModelsLoaded(old(State()), models, localStorage.items);
        maxTokens == r.maxTokens
    {
      match models {
        case Success(ms) =>
          availableModels := ms;
          if |ms| > 0 {
            selectedModel := ms[0];
            LoadModelSettings();
          }
        case Failure(_) =>
          var lastModel := Persistence.Lookup(localStorage.items, LastModelKey);
          if lastModel.Some? && lastModel.value.Plain? && lastModel.value.text != "" {
            selectedModel := lastModel.value.text;
            LoadModelSettings();
          }
      }
    }

    /** The session half of `initializeApp`. */
    method LoadSessions(loaded: seq<Session>, freshId: string, now: Instant)
      modifies this`sessions, this`currentSessionId, this`currentSession, this`messages, this`systemMessage
      ensures Valid()
      ensures var r := SessionsLoaded(old(State()), loaded, Persistence.Lookup(localStorage.items, SystemMessageKey), freshId, now);
        sessions == r.sessions
      ensures var r := SessionsLoaded(old(State()), loaded, Persistence.Lookup(localStorage.items, SystemMessageKey), freshId, now);
        currentSessionId == r.currentSessionId
      ensures var r := SessionsLoaded(old(State()), loaded, Persistence.Lookup(localStorage.items, SystemMessageKey), freshId, now);
        currentSession == r.currentSession
      ensures var r := SessionsLoaded(old(State()), loaded, Persistence.Lookup(localStorage.items, SystemMessageKey), freshId, now);
        messages == r.messages
      ensures var r := SessionsLoaded(old(State()), loaded, Persistence.Lookup(localStorage.items, SystemMessageKey), freshId, now);
        systemMessage == r.systemMessage
    {
      if loaded == [] {
        var stored := Persistence.Lookup(localStorage.items, SystemMessageKey);
        var prompt := StoredSystemMessage(stored);
        systemMessage := prompt;
        var first := NewSession(freshId, prompt, now);
        sessions := [first];
        currentSessionId := Some(freshId);
        currentSession := Some(first);
        messages := first.history;
      } else {
        var first := loaded[0];
        sessions := loaded;
        currentSessionId := Some(first.id);
        currentSession := Some(first);
        messages := first.history;
        if first.systemMessage.Some? && first.systemMessage.value != "" {
          systemMessage := first.systemMessage.value;
        }
      }
    }

    // ----- Sessions -----

    /** `newChat`: a new session with the current system prompt goes first and
        becomes current. */
    method NewChat(freshId: string, now: Instant)
      requires Valid()
      modifies this`sessions, this`currentSessionId, this`currentSession, this`messages, this`saved
      ensures Valid()
      ensures sessions == [NewSession(freshId, systemMessage, now)] + old(sessions)
      ensures currentSessionId == Some(freshId) && currentSession == Some(sessions[0])
      ensures messages == [ChatMessage(System, systemMessage)]
      ensures saved == old(saved) + [sessions]
    {
      var created := NewSession(freshId, systemMessage, now);
      sessions := [created] + sessions;
      currentSessionId := Some(freshId);
      currentSession := Some(created);
      messages := created.history;
      SaveSessions();
    }

    /** `switchSession`: the first session with that id becomes current; its own
        system prompt, when it has a non-empty one, becomes the store's. */
    method SwitchSession(id: string)
      requires Valid()
      modifies this`currentSessionId, this`currentSession, this`messages, this`systemMessage
      ensures Valid()
      ensures FindSession(sessions, id) < 0 ==>
        currentSessionId == old(currentSessionId) && currentSession == old(currentSession)
        && messages == old(messages) && systemMessage == old(systemMessage)
      ensures FindSession(sessions, id) >= 0 ==>
        var s := sessions[FindSession(sessions, id)];
        currentSessionId == Some(id) && currentSession == Some(s) && messages == s.history
        && systemMessage == (if s.systemMessage.Some? && s.systemMessage.value != ""
                             then s.systemMessage.value else old(systemMessage))
    {
      var k := FindSession(sessions, id);
      if k >= 0 {
        var s := sessions[k];
        currentSessionId := Some(id);
        currentSession := Some(s);
        messages := s.history;
        if s.systemMessage.Some? && s.systemMessage.value != "" {
          systemMessage := s.systemMessage.value;
        }
      }
    }

    /** `deleteSession`: the last session is never deleted; otherwise every
        session with that id goes and the list is saved, and when it was current
        the new first session takes its place. `ok` is false where the source
        throws: the current id was the only id left. */
    method DeleteSession(id: string) returns (ok: bool)
      requires Valid()
      modifies this`sessions, this`currentSessionId, this`currentSession, this`messages, this`saved
      ensures Valid()
      ensures ok <==> |old(sessions)| <= 1 || old(currentSessionId) != Some(id) || WithoutId(old(sessions), id) != []
      ensures !ok || |old(sessions)| <= 1 ==>
        sessions == old(sessions) && currentSessionId == old(currentSessionId)
        && currentSession == old(currentSession) && messages == old(messages) && saved == old(saved)
      ensures ok && |old(sessions)| > 1 ==>
        sessions == WithoutId(old(sessions), id) && saved == old(saved) + [sessions]
      ensures ok && |old(sessions)| > 1 && old(currentSessionId) == Some(id) ==>
        currentSessionId == Some(sessions[0].id) && currentSession == Some(sessions[0])
        && messages == sessions[0].history
      ensures old(currentSessionId) != Some(id) ==>
        currentSessionId == old(currentSessionId) && currentSession == old(currentSession)
        && messages == old(messages)
    {
      if |sessions| <= 1 {
        return true;
      }
      var rest := WithoutId(sessions, id);
      if currentSessionId == Some(id) {
        if rest == [] {
          return false;
        }
        assert rest[0] in rest;
        currentSessionId := Some(rest[0].id);
        currentSession := Some(rest[0]);
        messages := rest[0].history;
      }
      sessions := rest;
      SaveSessions();
      ok := true;
    }

    /** Puts `updated` in place of the current session, in the list and as the
        current session. */
    method WriteBackCurrent(updated: Session)
      requires Valid() && currentSession.Some? && updated.id == currentSession.value.id
      modifies this`sessions, this`currentSession
      ensures Valid()
      ensures sessions == WithSession(old(sessions), currentSessionId, updated) && currentSession == Some(updated)
    {
      WriteBackConsistent(State(), updated);
      sessions := WithSession(sessions, currentSessionId, updated);
      currentSession := Some(updated);
    }

    /** `updateSessionTitle`: the current session is retitled after its first
        user message. */
    method UpdateSessionTitle(now: Instant)
      requires Valid()
      modifies this`sessions, this`currentSession
      ensures Valid()
      ensures old(currentSession).None? || FindRole(old(currentSession).value.history, User) < 0 ==>
        sessions == old(sessions) && currentSession == old(currentSession)
      ensures old(currentSession).Some? && FindRole(old(currentSession).value.history, User) >= 0 ==>
        var c := old(currentSession).value;
        var retitled := c.(title := TitleFrom(c.history[FindRole(c.history, User)].text), lastUpdated := now);
        sessions == WithSession(old(sessions), currentSessionId, retitled) && currentSession == Some(retitled)
    {
      if currentSession.None? {
        return;
      }
      var c := currentSession.value;
      var k := FindRole(c.history, User);
      if k >= 0 {
        WriteBackCurrent(c.(title := TitleFrom(c.history[k].text), lastUpdated := now));
      }
    }

    // ----- Sending -----

    method SetUserInput(input: string)
      modifies this`userInput
      ensures userInput == input
    {
      userInput := input;
    }

    /** `sendMessage`: the prompt is appended, the reply grows with every
        increment, and a completed reply is written back, saved and its model
        remembered. The result is what was asked of the completion stream. */
    method SendMessage(increments: seq<string>, end: ChatService.StreamEnd, usage: Option<UsageInfo>,
                       now: Instant) returns (request: Option<StreamRequest>)
      requires Valid()
      modifies this`isSending, this`error, this`messages, this`userInput, this`sessions, this`currentSession
      modifies this`currentUsage, this`loadingUsage, this`saved, localStorage
      ensures Valid()
      ensures isSending == old(isSending) && loadingUsage == old(loadingUsage)
      ensures var r := AfterSend(old(State()), increments, end, usage, now);
        error == r.error
      ensures var r := AfterSend(old(State()), increments, end, usage, now);
        messages == r.messages
      ensures var r := AfterSend(old(State()), increments, end, usage, now);
        userInput == r.userInput
      ensures var r := AfterSend(old(State()), increments, end, usage, now);
        sessions == r.sessions
      ensures var r := AfterSend(old(State()), increments, end, usage, now);
        currentSession == r.currentSession
      ensures var r := AfterSend(old(State()), increments, end, usage, now);
        currentUsage == r.currentUsage
      ensures Starts(old(State())) <==> request.Some?
      ensures request.Some? ==>
        request.value == StreamRequest(old(messages) + [Prompt(old(State()))],
                                       EffectiveModel(old(selectedModel), old(availableModels)),
                                       old(temperature), old(maxTokens))
      ensures saved == (if request.Some? && end.Completed? then old(saved) + [sessions] else old(saved))
      ensures localStorage.items == (if request.Some? && end.Completed?
                                     then old(localStorage.items)[LastModelKey := Plain(request.value.model)]
                                     else old(localStorage.items))
    {
      if isSending || TrimJs(userInput) == "" {
        return None;
      }
      var model := EffectiveModel(selectedModel, availableModels);
      if model == "" {
        error := Some(SelectModelMessage);
        return None;
      }
      request := Some(StreamRequest(messages + [ChatMessage(User, TrimJs(userInput))], model, temperature, maxTokens));
      match end {
        case Completed =>
          SendCompleted(model, increments, usage, now);
        case Failed(message) =>
          SendInterrupted(increments, message);
      }
    }

    /** A send whose stream completed, from the moment it starts. */
    method SendCompleted(model: string, increments: seq<string>, usage: Option<UsageInfo>, now: Instant)
      requires Valid()
      modifies this`isSending, this`error, this`messages, this`userInput, this`sessions, this`currentSession
      modifies this`currentUsage, this`loadingUsage, this`saved, localStorage
      ensures Valid()
      ensures !isSending && loadingUsage == old(loadingUsage)
      ensures var r := Answered(old(State()), Concat(increments), usage, now);
        error == r.error && messages == r.messages && userInput == r.userInput
      ensures var r := Answered(old(State()), Concat(increments), usage, now);
        sessions == r.sessions
      ensures var r := Answered(old(State()), Concat(increments), usage, now);
        currentSession == r.currentSession
      ensures var r := Answered(old(State()), Concat(increments), usage, now);
        currentUsage == r.currentUsage
      ensures saved == old(saved) + [sessions]
      ensures localStorage.items == old(localStorage.items)[LastModelKey := Plain(model)]
    {
      var reply := BeginStream(increments);
      CompleteSend(model, usage, now);
      isSending := false;
    }

    /** A send whose stream threw, from the moment it starts. */
    method SendInterrupted(increments: seq<string>, message: string)
      requires Valid()
      modifies this`isSending, this`error, this`messages, this`userInput
      ensures Valid()
      ensures !isSending
      ensures var r := Interrupted(old(State()), Concat(increments), message);
        error == r.error && messages == r.messages && userInput == r.userInput
    {
      var reply := BeginStream(increments);
      InterruptSend(message);
      isSending := false;
    }

    /** The start of a send: the trimmed prompt is appended, the input cleared,
        and the reply received. */
    method BeginStream(increments: seq<string>) returns (reply: string)
      modifies this`isSending, this`error, this`messages, this`userInput
      ensures reply == Concat(increments)
      ensures isSending && error.None? && userInput == ""
      ensures messages == old(messages) + [ChatMessage(User, TrimJs(old(userInput))), ChatMessage(Assistant, reply)]
    {
      isSending := true;
      error := None;
      var asked := messages + [ChatMessage(User, TrimJs(userInput))];
      messages := asked;
      userInput := "";
      reply := ReceiveReply(asked, increments);
    }

    /** The end of a send whose stream completed: the exchange is written back
        and saved, the model remembered and the usage reloaded. */
    method CompleteSend(model: string, usage: Option<UsageInfo>, now: Instant)
      requires Valid()
      modifies this`sessions, this`currentSession, this`saved, localStorage, this`currentUsage, this`loadingUsage
      ensures Valid()
      ensures old(currentSession).None? ==> sessions == old(sessions) && currentSession == old(currentSession)
      ensures old(currentSession).Some? ==>
        var answered := old(currentSession).value.(history := messages, lastUpdated := now);
        sessions == WithSession(old(sessions), currentSessionId, answered) && currentSession == Some(answered)
      ensures saved == old(saved) + [sessions]
      ensures localStorage.items == old(localStorage.items)[LastModelKey := Plain(model)]
      ensures loadingUsage == old(loadingUsage)
      ensures currentUsage == if old(loadingUsage) then old(currentUsage) else usage
    {
      WriteBackAnswer(now);
      SaveSessions();
      localStorage.SetItem(LastModelKey, Plain(model));
      LoadUsage(usage);
    }

    /** The end of a send whose stream threw: unless it was cancelled, the error
        is shown and a reply that never received text is taken off. */
    method InterruptSend(message: string)
      modifies this`error, this`messages
      ensures Contains(message, "cancelled") ==> error == old(error) && messages == old(messages)
      ensures !Contains(message, "cancelled") ==>
        error == Some(message)
        && messages == if old(messages) != [] && old(messages)[|old(messages)| - 1] == ChatMessage(Assistant, "")
                       then old(messages)[..|old(messages)| - 1] else old(messages)
    {
      if !Contains(message, "cancelled") {
        error := Some(message);
        if |messages| > 0 && messages[|messages| - 1].role == Assistant && messages[|messages| - 1].text == "" {
          messages := messages[..|messages| - 1];
        }
      }
    }

    /** The streaming loop of `sendMessage`: every increment extends the reply
        shown after the prompt. */
    method ReceiveReply(asked: seq<ChatMessage>, increments: seq<string>) returns (reply: string)
      modifies this`messages
      ensures reply == Concat(increments)
      ensures messages == asked + [ChatMessage(Assistant, reply)]
    {
      reply := "";
      messages := asked + [ChatMessage(Assistant, reply)];
      var i := 0;
      while i < |increments|
        invariant 0 <= i <= |increments|
        invariant reply == Concat(increments[..i])
        invariant messages == asked + [ChatMessage(Assistant, reply)]
      {
        ConcatAppend(increments[..i], [increments[i]]);
        assert increments[..i + 1] == increments[..i] + [increments[i]];
        reply := reply + increments[i];
        messages := asked + [ChatMessage(Assistant, reply)];
        i := i + 1;
      }
      assert increments[..i] == increments;
    }

    /** The end of a completed send: the title is updated, then the snapshot of
        the current session taken before the title update is written back with
        the messages on screen. */
    method WriteBackAnswer(now: Instant)
      requires Valid()
      modifies this`sessions, this`currentSession
      ensures Valid()
      ensures old(currentSession).None? ==> sessions == old(sessions) && currentSession == old(currentSession)
      ensures old(currentSession).Some? ==>
        var answered := old(currentSession).value.(history := messages, lastUpdated := now);
        sessions == WithSession(old(sessions), currentSessionId, answered) && currentSession == Some(answered)
    {
      var before, current := sessions, currentSession;
      ghost var s := State();
      UpdateSessionTitle(now);
      if current.Some? {
        var updated := current.value.(history := messages, lastUpdated := now);
        WriteBackConsistent(s, updated);
        sessions := WithSession(before, currentSessionId, updated);
        currentSession := Some(updated);
      }
    }

    /** `resendMessage`: a user message and everything after it are taken off,
        its text becomes the input again, and it is sent. */
    method ResendMessage(index: int, increments: seq<string>, end: ChatService.StreamEnd,
                         usage: Option<UsageInfo>, now: Instant) returns (request: Option<StreamRequest>)
      requires Valid()
      modifies this`isSending, this`error, this`messages, this`userInput, this`sessions, this`currentSession
      modifies this`currentUsage, this`loadingUsage, this`saved, localStorage
      modifies this`editingMessageIndex, this`editingText
      ensures Valid()
      ensures !(0 <= index < |old(messages)| && old(messages)[index].role == User) ==>
        request.None? && unchanged(this) && unchanged(localStorage)
      ensures 0 <= index < |old(messages)| && old(messages)[index].role == User ==>
        editingMessageIndex.None? && editingText == "" && isSending == old(isSending) && loadingUsage == old(loadingUsage)
      ensures 0 <= index < |old(messages)| && old(messages)[index].role == User ==>
        var r := AfterSend(Retry(old(State()), index), increments, end, usage, now);
        error == r.error && messages == r.messages && userInput == r.userInput
      ensures 0 <= index < |old(messages)| && old(messages)[index].role == User ==>
        var r := AfterSend(Retry(old(State()), index), increments, end, usage, now);
        sessions == r.sessions && currentSession == r.currentSession && currentUsage == r.currentUsage
      ensures 0 <= index < |old(messages)| && old(messages)[index].role == User ==>
        (request.Some? <==> Starts(Retry(old(State()), index)))
        && (request.Some? ==> request.value.history == old(messages)[..index] + [Prompt(Retry(old(State()), index))])
    {
      if index < 0 || index >= |messages| || messages[index].role != User {
        return None;
      }
      var text := messages[index].text;
      editingMessageIndex := None;
      editingText := "";
      messages := messages[..index];
      userInput := text;
      assert State() == Retry(old(State()), index);
      request := SendMessage(increments, end, usage, now);
    }

    // ----- Editing -----

    /** `startEditMessage`: marks a message for editing with its text (empty when
        there is no message at that index). */
    method StartEditMessage(index: int)
      modifies this`editingMessageIndex, this`editingText
      ensures editingMessageIndex == Some(index)
      ensures editingText == if 0 <= index < |messages| then messages[index].text else ""
    {
      editingMessageIndex := Some(index);
      editingText := if 0 <= index < |messages| then messages[index].text else "";
    }

    /** `saveEditMessage`: only the message being edited is saved; an edited
        system message also becomes the store's and the session's prompt. A mark
        outside the list (left there by `startEditMessage` or across a session
        switch) edits no message of the list, and the session is still stamped
        and saved. */
    method SaveEditMessage(index: int, now: Instant)
      requires Valid()
      modifies this`messages, this`editingMessageIndex, this`editingText, this`systemMessage
      modifies this`sessions, this`currentSession, this`saved
      ensures Valid()
      ensures old(editingMessageIndex) != Some(index) ==>
        messages == old(messages) && editingMessageIndex == old(editingMessageIndex)
        && editingText == old(editingText) && systemMessage == old(systemMessage)
        && sessions == old(sessions) && currentSession == old(currentSession) && saved == old(saved)
      ensures old(editingMessageIndex) == Some(index) ==>
        var inList := 0 <= index < |old(messages)|;
        var isPrompt := inList && old(messages)[index].role == System;
        messages == (if inList then old(messages)[index := old(messages)[index].(text := old(editingText))]
                     else old(messages))
        && editingMessageIndex.None? && editingText == ""
        && systemMessage == (if isPrompt then old(editingText) else old(systemMessage))
        && (old(currentSession).None? ==> sessions == old(sessions) && currentSession.None?)
        && (old(currentSession).Some? ==>
              var c := old(currentSession).value;
              var edited := c.(systemMessage := if isPrompt then Some(old(editingText)) else c.systemMessage,
                               history := messages, lastUpdated := now);
              sessions == WithSession(old(sessions), currentSessionId, edited) && currentSession == Some(edited))
        && saved == old(saved) + [sessions]
    {
      if editingMessageIndex != Some(index) {
        return;
      }
      var text := editingText;
      var c := currentSession;
      var inList := 0 <= index < |messages|;
      var ms := if inList then messages[index := messages[index].(text := text)] else messages;
      messages := ms;
      editingMessageIndex := None;
      editingText := "";
      if inList && ms[index].role == System {
        systemMessage := text;
        if c.Some? {
          WriteBackCurrent(c.value.(systemMessage := Some(text), history := ms, lastUpdated := now));
        }
      } else if c.Some? {
        WriteBackCurrent(c.value.(history := ms, lastUpdated := now));
      }
      SaveSessions();
    }

    method CancelEditMessage()
      modifies this`editingMessageIndex, this`editingText
      ensures editingMessageIndex.None? && editingText == ""
    {
      editingMessageIndex := None;
      editingText := "";
    }

    /** `deleteMessage`: a system message is reset to the default prompt instead
        of being removed; any other message is removed and the edit mark follows
        the messages. `ok` is false where the source throws: no message at that
        index. */
    method DeleteMessage(index: int, now: Instant) returns (ok: bool)
      requires Valid()
      modifies this`messages, this`editingMessageIndex, this`editingText, this`systemMessage
      modifies this`sessions, this`currentSession, this`saved
      ensures Valid()
      ensures ok <==> 0 <= index < |old(messages)|
      ensures !ok ==>
        messages == old(messages) && editingMessageIndex == old(editingMessageIndex)
        && editingText == old(editingText) && systemMessage == old(systemMessage)
        && sessions == old(sessions) && currentSession == old(currentSession) && saved == old(saved)
      ensures ok && old(messages)[index].role == System ==>
        messages == old(messages)[index := ChatMessage(System, DefaultSystemMessage)]
        && systemMessage == DefaultSystemMessage && editingMessageIndex.None? && editingText == ""
      ensures ok && old(messages)[index].role != System ==>
        messages == RemoveAt(old(messages), index) && systemMessage == old(systemMessage)
        && editingMessageIndex == AdjustedEdit(old(editingMessageIndex), index)
        && editingText == (if old(editingMessageIndex) == Some(index) then "" else old(editingText))
      ensures ok && old(currentSession).None? ==> sessions == old(sessions) && currentSession.None?
      ensures ok && old(currentSession).Some? ==>
        var c := old(currentSession).value;
        var edited := c.(systemMessage := if old(messages)[index].role == System then Some(DefaultSystemMessage)
                                          else c.systemMessage,
                         history := messages, lastUpdated := now);
        sessions == WithSession(old(sessions), currentSessionId, edited) && currentSession == Some(edited)
      ensures ok ==> saved == old(saved) + [sessions]
    {
      if !(0 <= index < |messages|) {
        return false;
      }
      var c := currentSession;
      if messages[index].role == System {
        var ms := messages[index := ChatMessage(System, DefaultSystemMessage)];
        messages := ms;
        systemMessage := DefaultSystemMessage;
        editingMessageIndex := None;
        editingText := "";
        if c.Some? {
          WriteBackCurrent(c.value.(systemMessage := Some(DefaultSystemMessage), history := ms, lastUpdated := now));
        }
      } else {
        var ms := RemoveAt(messages, index);
        messages := ms;
        if editingMessageIndex == Some(index) {
          editingMessageIndex := None;
          editingText := "";
        } else if editingMessageIndex.Some? && editingMessageIndex.value > index {
          editingMessageIndex := Some(editingMessageIndex.value - 1);
        }
        if c.Some? {
          WriteBackCurrent(c.value.(history := ms, lastUpdated := now));
        }
      }
      SaveSessions();
      ok := true;
    }

    // ----- Model settings and the system prompt -----

    /** `setSelectedModel`: then that model's settings are loaded. */
    method SetSelectedModel(model: string)
      modifies this`selectedModel, this`temperature, this`maxTokens
      ensures selectedModel == model
      ensures model == "" ==> temperature == old(temperature) && maxTokens == old(maxTokens)
      ensures model != "" ==>
        ModelSettings(temperature, maxTokens)
        == ReadModelSettings(Persistence.Lookup(localStorage.items, ModelSettingsKey(model)))
    {
      selectedModel := model;
      LoadModelSettings();
    }

    /** `setTemperature`: then the settings of the selected model are saved. */
    method SetTemperature(t: real)
      modifies this`temperature, localStorage
      ensures temperature == t
      ensures localStorage.items == (if selectedModel == "" then old(localStorage.items)
                                     else old(localStorage.items)[ModelSettingsKey(selectedModel) :=
                                                                  Serialized(SettingsJson(ModelSettings(t, maxTokens)))])
    {
      temperature := t;
      SaveModelSettings();
    }

    method SetMaxTokens(tokens: Option<real>)
      modifies this`maxTokens
      ensures maxTokens == tokens
    {
      maxTokens := tokens;
    }

    /** `loadModelSettings`: the selected model's stored settings, or the
        defaults. */
    method LoadModelSettings()
      modifies this`temperature, this`maxTokens
      ensures selectedModel == "" ==> temperature == old(temperature) && maxTokens == old(maxTokens)
      ensures selectedModel != "" ==>
        ModelSettings(temperature, maxTokens)
        == ReadModelSettings(Persistence.Lookup(localStorage.items, ModelSettingsKey(selectedModel)))
    {
      if selectedModel == "" {
        return;
      }
      var stored := Persistence.Lookup(localStorage.items, ModelSettingsKey(selectedModel));
      var settings := ReadModelSettings(stored);
      temperature := settings.temperature;
      maxTokens := settings.maxTokens;
    }

    /** `saveModelSettings`: the selected model's temperature and token limit. */
    method SaveModelSettings()
      modifies localStorage
      ensures localStorage.items == (if selectedModel == "" then old(localStorage.items)
                                     else old(localStorage.items)[ModelSettingsKey(selectedModel) :=
                                                                  Serialized(SettingsJson(ModelSettings(temperature, maxTokens)))])
    {
      if selectedModel != "" {
        localStorage.SetItem(ModelSettingsKey(selectedModel), Serialized(SettingsJson(ModelSettings(temperature, maxTokens))));
      }
    }

    /** `setSystemMessage`: the prompt is remembered, and the current session's
        first system message (or a new first message) carries it. */
    method SetSystemMessage(message: string, now: Instant)
      requires Valid()
      modifies this`systemMessage, this`messages, this`sessions, this`currentSession, this`saved, localStorage
      ensures Valid()
      ensures systemMessage == message
      ensures localStorage.items == old(localStorage.items)[SystemMessageKey := Plain(message)]
      ensures old(currentSession).None? ==>
        messages == old(messages) && sessions == old(sessions) && currentSession.None? && saved == old(saved)
      ensures old(currentSession).Some? ==>
        var prompted := old(currentSession).value.(systemMessage := Some(message), lastUpdated := now,
                                                   history := SetSystemText(old(messages), message));
        messages == prompted.history
        && sessions == WithSession(old(sessions), currentSessionId, prompted) && currentSession == Some(prompted)
        && saved == old(saved) + [sessions]
    {
      systemMessage := message;
      localStorage.SetItem(SystemMessageKey, Plain(message));
      if currentSession.Some? {
        var ms := SetSystemText(messages, message);
        messages := ms;
        WriteBackCurrent(currentSession.value.(systemMessage := Some(message), lastUpdated := now, history := ms));
        SaveSessions();
      }
    }

    // ----- Usage -----

    /** `loadUsage`: skipped while a load is running, otherwise the usage the
        service reports (null when it could not be read). */
    method LoadUsage(usage: Option<UsageInfo>)
      modifies this`currentUsage, this`loadingUsage
      ensures loadingUsage == old(loadingUsage)
      ensures currentUsage == if old(loadingUsage) then old(currentUsage) else usage
    {
      if loadingUsage {
        return;
      }
      loadingUsage := true;
      currentUsage := usage;
      loadingUsage := false;
    }
  }
}
