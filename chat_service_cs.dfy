/** The WebAssembly client's completion service (`Services/ChatService.cs`): model
    listing, the non-streaming completion request and the usage query, over a
    parsed `JsonDocument` root. */
module ChatServiceCs {
  import opened Wrappers
  import opened Text
  import opened JsonValue
  import ChatTypes
  import ChatService

  /** The .NET exceptions the service lets escape, by kind. */
  datatype Exception =
    | ArgumentException(message: string)
    | InvalidOperation    // a JsonElement read on the wrong value kind
    | KeyNotFound         // GetProperty of a missing member
    | IndexOutOfRange     // [0] of an empty array
    | Format              // GetInt32 of a number that is not an Int32
    | HttpRequest(status: nat)
    | Transport(message: string)

  /** The outcome of a call that may throw. */
  datatype Outcome<+T> = Returned(value: T) | Threw(error: Exception)

  /** What `SendAsync` and `JsonDocument.ParseAsync` give: the root element of a
      successful response, a non-success status, or a failure of the transport,
      the timeout or the parser. */
  datatype Reply = Answered(root: Json) | HttpFailure(status: nat) | Faulted(message: string)

  // ----- JsonElement reads -----

  /** `TryGetProperty`: throws unless the element is an object. */
  function TryGetProperty(e: Json, name: string): (r: Outcome<Option<Json>>)
    ensures r.Threw? <==> !e.JObj?
    ensures r.Returned? ==> r.value == Prop(e, name)
  {
    if e.JObj? then Returned(Prop(e, name)) else Threw(InvalidOperation)
  }

  /** `GetProperty`: as `TryGetProperty`, but a missing member throws too. */
  function GetProperty(e: Json, name: string): (r: Outcome<Json>)
    ensures r.Returned? <==> e.JObj? && name in e.members
    ensures r.Returned? ==> r.value == e.members[name]
  {
    if !e.JObj? then Threw(InvalidOperation)
    else if name !in e.members then Threw(KeyNotFound)
    else Returned(e.members[name])
  }

  /** `GetString`: a string, or null for a JSON null; any other kind throws. */
  function GetString(e: Json): (r: Outcome<Option<string>>)
    ensures r == Returned(None) <==> e.JNull?
    ensures r.Returned? && r.value.Some? <==> e.JStr?
    ensures e.JStr? ==> r == Returned(Some(e.s))
  {
    match e
    case JStr(s) => Returned(Some(s))
    case JNull => Returned(None)
    case _ => Threw(InvalidOperation)
  }

  // ----- 32-bit integers -----

  const Int32Min: int := -0x8000_0000
  const Int32Max: int := 0x7FFF_FFFF

  predicate InInt32(x: int) {
    Int32Min <= x <= Int32Max
  }

  /** Unchecked `int` arithmetic: the result reduced into the Int32 range. */
  function Wrap32(x: int): (r: int)
    ensures InInt32(r)
    ensures (r - x) % 0x1_0000_0000 == 0
    ensures InInt32(x) ==> r == x
  {
    (x - Int32Min) % 0x1_0000_0000 + Int32Min
  }

  /** `GetInt32`: the number when it is an integer in range; otherwise it throws. */
  function GetInt32(n: real): (r: Outcome<int>)
    ensures r.Returned? <==> n == n.Floor as real && InInt32(n.Floor)
    ensures r.Returned? ==> r.value as real == n
  {
    if n == n.Floor as real && InInt32(n.Floor) then Returned(n.Floor) else Threw(Format)
  }

  /** `UsageInfo`: the two counters, and the derived number used. */
  datatype UsageInfo = UsageInfo(premiumRequestsLeft: Option<int>, totalPremiumRequests: Option<int>) {
    function PremiumRequestsUsed(): (r: Option<int>)
      ensures r.Some? <==> totalPremiumRequests.Some? && premiumRequestsLeft.Some?
      ensures r.Some? ==> InInt32(r.value)
      ensures r.Some? && InInt32(totalPremiumRequests.value - premiumRequestsLeft.value) ==>
                r.value == totalPremiumRequests.value - premiumRequestsLeft.value
    {
      if totalPremiumRequests.Some? && premiumRequestsLeft.Some?
      then Some(Wrap32(totalPremiumRequests.value - premiumRequestsLeft.value))
      else None
    }
  }

  // ----- GetModelsAsync -----

  /** The ids the `foreach` over `data` collects: a string id that is not
      null-or-whitespace is added, an item without `id` or with a null one is
      passed over, and a non-object item or a non-string id throws. */
  function CollectIds(items: seq<Json>): Outcome<seq<string>> {
    if items == [] then Returned([])
    else match CollectIds(items[..|items| - 1])
      case Threw(e) => Threw(e)
      case Returned(list) => IdStep(list, items[|items| - 1])
  }

  /** One turn of that `foreach`. */
  function IdStep(list: seq<string>, item: Json): Outcome<seq<string>> {
    match TryGetProperty(item, "id")
    case Threw(e) => Threw(e)
    case Returned(None) => Returned(list)
    case Returned(Some(idEl)) =>
      match GetString(idEl)
      case Threw(e) => Threw(e)
      case Returned(None) => Returned(list)
      case Returned(Some(id)) => if IsWhiteSpaceOnly(id) then Returned(list) else Returned(list + [id])
  }

  /** The LINQ fallback `Select(x => x.GetString()).Where(s => !IsNullOrWhiteSpace(s))`. */
  function FallbackModels(xs: seq<Json>): Outcome<seq<string>> {
    if xs == [] then Returned([])
    else match FallbackModels(xs[..|xs| - 1])
      case Threw(e) => Threw(e)
      case Returned(list) =>
        match GetString(xs[|xs| - 1])
        case Threw(e) => Threw(e)
        case Returned(None) => Returned(list)
        case Returned(Some(s)) => if IsWhiteSpaceOnly(s) then Returned(list) else Returned(list + [s])
  }

  function ArrayMember(root: Json, name: string): Option<seq<Json>>
    requires root.JObj?
  {
    if name in root.members && root.members[name].JArr? then Some(root.members[name].items) else None
  }

  function ModelsOf(reply: Reply): Outcome<seq<string>> {
    match reply
    case HttpFailure(status) => Threw(HttpRequest(status))
    case Faulted(message) => Threw(Transport(message))
    case Answered(root) =>
      if !root.JObj? then Threw(InvalidOperation)
      else
        var listed := if ArrayMember(root, "data").Some? then CollectIds(ArrayMember(root, "data").value) else Returned([]);
        match listed
        case Threw(e) => Threw(e)
        case Returned(list) =>
          if |list| > 0 then Returned(Dedup(list))
          else if ArrayMember(root, "models").Some? then FallbackModels(ArrayMember(root, "models").value)
          else Returned([])
  }

  method GetModelsAsync(reply: Reply) returns (r: Outcome<seq<string>>)
    ensures r == ModelsOf(reply)
  {
    match reply {
      case HttpFailure(status) =>
        return Threw(HttpRequest(status));
      case Faulted(message) =>
        return Threw(Transport(message));
      case Answered(root) =>
        if !root.JObj? {
          return Threw(InvalidOperation);
        }
        if "data" in root.members && root.members["data"].JArr? {
          var items := root.members["data"].items;
          var list: seq<string> := [];
          var i := 0;
          while i < |items|
            invariant 0 <= i <= |items|
            invariant CollectIds(items[..i]) == Returned(list)
          {
            assert items[..i + 1][..i] == items[..i];
            var item := items[i];
            if !item.JObj? {
              CollectIdsThrowsOnce(items, i + 1);
              return Threw(InvalidOperation);
            }
            if "id" in item.members {
              var idEl := item.members["id"];
              if !(idEl.JStr? || idEl.JNull?) {
                CollectIdsThrowsOnce(items, i + 1);
                return Threw(InvalidOperation);
              }
              if idEl.JStr? && !IsWhiteSpaceOnly(idEl.s) {
                list := list + [idEl.s];
              }
            }
            i := i + 1;
          }
          assert items[..i] == items;
          if |list| > 0 {
            return Returned(Dedup(list));
          }
        }
        if "models" in root.members && root.members["models"].JArr? {
          var list := FallbackModels(root.members["models"].items);
          if list.Threw? {
            return list;
          }
          if |list.value| > 0 {
            return list;
          }
        }
        return Returned([]);
    }
  }

  /** Once the `foreach` has thrown, the rest of the items are never read. */
  lemma {:induction false} CollectIdsThrowsOnce(items: seq<Json>, n: nat)
    requires n <= |items| && CollectIds(items[..n]).Threw?
    ensures CollectIds(items) == CollectIds(items[..n])
    decreases |items|
  {
    if n < |items| {
      var init := items[..|items| - 1];
      assert init[..n] == items[..n];
      CollectIdsThrowsOnce(init, n);
    } else {
      assert items[..n] == items;
    }
  }

  /** The ids collected are the string ids that are not null-or-whitespace, in item
      order. */
  lemma {:induction false} CollectIdsSpec(items: seq<Json>)
    ensures CollectIds(items).Returned? ==>
      (forall id :: id in CollectIds(items).value ==> !IsWhiteSpaceOnly(id))
      && (forall k :: 0 <= k < |items| && items[k].JObj? && "id" in items[k].members
            && items[k].members["id"].JStr? && !IsWhiteSpaceOnly(items[k].members["id"].s)
            ==> items[k].members["id"].s in CollectIds(items).value)
    ensures CollectIds(items).Returned? <==>
      forall k :: 0 <= k < |items| ==>
        items[k].JObj? && ("id" in items[k].members ==> items[k].members["id"].JStr? || items[k].members["id"].JNull?)
  {
    if items != [] {
      var init := items[..|items| - 1];
      CollectIdsSpec(init);
      assert forall k :: 0 <= k < |init| ==> init[k] == items[k];
    }
  }

  /** Every listed model is a name that is not null-or-whitespace; names taken
      from `data` are distinct and are exactly the ids collected there. `models`
      is read only when `data` is missing or yields no id, and then gives the
      result, or [] without a `models` array. */
  lemma ModelsOfSpec(reply: Reply)
    ensures ModelsOf(reply).Returned? ==> forall m :: m in ModelsOf(reply).value ==> !IsWhiteSpaceOnly(m)
    ensures reply.Answered? && reply.root.JObj? && ArrayMember(reply.root, "data").Some?
            && CollectIds(ArrayMember(reply.root, "data").value).Returned?
            && |CollectIds(ArrayMember(reply.root, "data").value).value| > 0 ==>
      var ids := CollectIds(ArrayMember(reply.root, "data").value).value;
      ModelsOf(reply) == Returned(Dedup(ids)) && NoDuplicates(Dedup(ids))
      && (forall m :: m in Dedup(ids) <==> m in ids)
    ensures reply.Answered? && reply.root.JObj?
            && (ArrayMember(reply.root, "data").None? || CollectIds(ArrayMember(reply.root, "data").value) == Returned([])) ==>
      ModelsOf(reply) == (if ArrayMember(reply.root, "models").Some? then FallbackModels(ArrayMember(reply.root, "models").value)
                          else Returned([]))
  {
    if reply.Answered? && reply.root.JObj? {
      var root := reply.root;
      if ArrayMember(root, "data").Some? {
        CollectIdsSpec(ArrayMember(root, "data").value);
        if CollectIds(ArrayMember(root, "data").value).Returned? {
          DedupSpec(CollectIds(ArrayMember(root, "data").value).value);
        }
      }
      if ArrayMember(root, "models").Some? {
        FallbackModelsSpec(ArrayMember(root, "models").value);
      }
    }
  }

  /** The fallback returns exactly when every element is a string or null; it
      then lists every string that is not whitespace-only, as often as it occurs,
      and nothing else. */
  lemma {:induction false} FallbackModelsSpec(xs: seq<Json>)
    ensures FallbackModels(xs).Returned? ==> forall m :: m in FallbackModels(xs).value ==> !IsWhiteSpaceOnly(m)
    ensures FallbackModels(xs).Returned? ==>
      forall m :: !IsWhiteSpaceOnly(m) ==> multiset(FallbackModels(xs).value)[m] == multiset(xs)[JStr(m)]
    ensures FallbackModels(xs).Returned? <==> forall k :: 0 <= k < |xs| ==> xs[k].JStr? || xs[k].JNull?
    decreases |xs|
  {
    if xs != [] {
      var init := xs[..|xs| - 1];
      FallbackModelsSpec(init);
      assert forall k :: 0 <= k < |init| ==> init[k] == xs[k];
      assert xs == init + [xs[|xs| - 1]];
    }
  }

  /** The fallback keeps the order of the array: when both parts are read without
      a throw, the whole is the two results one after the other. */
  lemma {:induction false} FallbackModelsAppend(a: seq<Json>, b: seq<Json>)
    requires FallbackModels(a).Returned? && FallbackModels(b).Returned?
    ensures FallbackModels(a + b) == Returned(FallbackModels(a).value + FallbackModels(b).value)
    decreases |b|
  {
    if b != [] {
      var init := b[..|b| - 1];
      assert FallbackModels(init).Returned? by {
        FallbackModelsSpec(b);
        FallbackModelsSpec(init);
        assert forall k :: 0 <= k < |init| ==> init[k] == b[k];
      }
      FallbackModelsAppend(a, init);
      var ab := a + b;
      assert ab[..|ab| - 1] == a + init;
      assert ab[|ab| - 1] == b[|b| - 1];
      var front := FallbackModels(a).value + FallbackModels(init).value;
      assert FallbackModels(ab[..|ab| - 1]) == Returned(front);
      match GetString(b[|b| - 1]) {
        case Threw(_) =>
        case Returned(None) =>
        case Returned(Some(m)) =>
          if !IsWhiteSpaceOnly(m) {
            assert front + [m] == FallbackModels(a).value + (FallbackModels(init).value + [m]);
          }
      }
    } else {
      assert a + b == a;
      assert FallbackModels(a).value + FallbackModels(b).value == FallbackModels(a).value;
    }
  }

  // ----- GetResponseAsync -----

  /** `Equals(StringComparison.OrdinalIgnoreCase)`, folding ASCII letters. */
  predicate SameIgnoringCase(a: string, b: string) {
    |a| == |b| && forall i :: 0 <= i < |a| ==> AsciiLower(a[i]) == AsciiLower(b[i])
  }

  function AsciiLower(c: char): char {
    if 'A' <= c <= 'Z' then (c as int + 32) as char else c
  }

  /** The role sent on the wire: `ChatRole` compares its names without regard to
      case; anything that is neither the user nor the system role is sent as
      `"assistant"`. */
  function WireRole(r: ChatTypes.Role): (name: string)
    ensures name == "user" || name == "system" || name == "assistant"
    ensures r == ChatTypes.User ==> name == "user"
    ensures r == ChatTypes.System ==> name == "system"
    ensures r == ChatTypes.Assistant ==> name == "assistant"
  {
    if SameIgnoringCase(ChatTypes.RoleName(r), "user") then "user"
    else if SameIgnoringCase(ChatTypes.RoleName(r), "system") then "system"
    else "assistant"
  }

  function WireMessage(m: ChatTypes.CsMessage): (w: Json)
    ensures Prop(w, "role") == Some(JStr(WireRole(m.role)))
    ensures Prop(w, "content") == Some(JStr(m.text.GetOr("")))
  {
    JObj(map["role" := JStr(WireRole(m.role)), "content" := JStr(m.text.GetOr(""))])
  }

  /** The dictionary posted to `/v1/chat/completions`. */
  function RequestBody(messages: seq<Json>, model: string, temperature: Option<real>, maxTokens: Option<int>): (body: Json)
    ensures Prop(body, "model") == Some(JStr(model))
    ensures Prop(body, "messages") == Some(JArr(messages))
    ensures Prop(body, "temperature") == Some(JNum(temperature.GetOr(0.2)))
    ensures Prop(body, "stream") == Some(JBool(false))
    ensures Prop(body, "max_tokens").Some? <==> maxTokens.Some?
    ensures maxTokens.Some? ==> Prop(body, "max_tokens") == Some(JNum(maxTokens.value as real))
  {
    var base := map[
      "model" := JStr(model),
      "messages" := JArr(messages),
      "temperature" := JNum(temperature.GetOr(0.2)),
      "stream" := JBool(false)];
    if maxTokens.Some? then JObj(base["max_tokens" := JNum(maxTokens.value as real)]) else JObj(base)
  }

  /** `choices[0].message.content`, or `""` when that is null. */
  function ExtractContent(root: Json): Outcome<string> {
    match GetProperty(root, "choices")
    case Threw(e) => Threw(e)
    case Returned(choices) =>
      if !choices.JArr? then Threw(InvalidOperation)
      else if |choices.items| == 0 then Threw(IndexOutOfRange)
      else match GetProperty(choices.items[0], "message")
        case Threw(e) => Threw(e)
        case Returned(message) =>
          match GetProperty(message, "content")
          case Threw(e) => Threw(e)
          case Returned(content) =>
            match GetString(content)
            case Threw(e) => Threw(e)
            case Returned(text) => Returned(text.GetOr(""))
  }

  /** The completion text, when the reply carries one in the OpenAI shape. */
  lemma ExtractContentSpec(root: Json, text: string)
    ensures ExtractContent(JObj(map["choices" := JArr([JObj(map["message" := JObj(map["content" := JStr(text)])])])]))
            == Returned(text)
    ensures ExtractContent(JObj(map["choices" := JArr([JObj(map["message" := JObj(map["content" := JNull])])])]))
            == Returned("")
    ensures ExtractContent(JObj(map["choices" := JArr([])])) == Threw(IndexOutOfRange)
    ensures root.JObj? && "choices" !in root.members ==> ExtractContent(root) == Threw(KeyNotFound)
  {
  }

  /** `GetResponseAsync`: the model check, the `foreach` building the messages, the
      body, and the reading of the reply. `sent` is the body that goes out. */
  method GetResponseAsync(history: seq<ChatTypes.CsMessage>, model: string, temperature: Option<real>,
                          maxTokens: Option<int>, reply: Reply)
    returns (sent: Option<Json>, r: Outcome<string>)
    ensures IsWhiteSpaceOnly(model) <==> sent.None?
    ensures IsWhiteSpaceOnly(model) ==> r == Threw(ArgumentException("model is required"))
    ensures sent.Some? ==>
      sent.value == RequestBody(seq(|history|, i requires 0 <= i < |history| => WireMessage(history[i])),
                                model, temperature, maxTokens)
    ensures sent.Some? ==> r == match reply
                                case Answered(root) => ExtractContent(root)
                                case HttpFailure(status) => Threw(HttpRequest(status))
                                case Faulted(message) => Threw(Transport(message))
  {
    if IsWhiteSpaceOnly(model) {
      return None, Threw(ArgumentException("model is required"));
    }
    var messages: seq<Json> := [];
    var i := 0;
    while i < |history|
      invariant 0 <= i <= |history|
      invariant |messages| == i
      invariant forall k :: 0 <= k < i ==> messages[k] == WireMessage(history[k])
    {
      messages := messages + [WireMessage(history[i])];
      i := i + 1;
    }
    assert messages == seq(|history|, i requires 0 <= i < |history| => WireMessage(history[i]));
    sent := Some(RequestBody(messages, model, temperature, maxTokens));
    match reply {
      case Answered(root) => r := ExtractContent(root);
      case HttpFailure(status) => r := Threw(HttpRequest(status));
      case Faulted(message) => r := Threw(Transport(message));
    }
  }

  // ----- GetUsageAsync -----

  /** One counter: set when the member is a JSON number (`GetInt32` may throw). */
  function ReadCounter(premium: Json, name: string): Outcome<Option<int>>
    requires premium.JObj?
  {
    match Prop(premium, name)
    case Some(JNum(n)) =>
      (match GetInt32(n)
       case Threw(e) => Threw(e)
       case Returned(v) => Returned(Some(v)))
    case _ => Returned(None)
  }

  /** The body of the `try`. */
  function ReadUsage(root: Json): Outcome<UsageInfo> {
    match TryGetProperty(root, "quota_snapshots")
    case Threw(e) => Threw(e)
    case Returned(None) => Returned(UsageInfo(None, None))
    case Returned(Some(snapshots)) =>
      match TryGetProperty(snapshots, "premium_interactions")
      case Threw(e) => Threw(e)
      case Returned(None) => Returned(UsageInfo(None, None))
      case Returned(Some(premium)) =>
        if !premium.JObj? then Threw(InvalidOperation)
        else match ReadCounter(premium, "remaining")
          case Threw(e) => Threw(e)
          case Returned(left) =>
            match ReadCounter(premium, "entitlement")
            case Threw(e) => Threw(e)
            case Returned(total) => Returned(UsageInfo(left, total))
  }

  /** `quota_snapshots.premium_interactions`, when the root and the snapshots are
      objects holding those members and the member is itself an object: the only
      case in which a counter can be read. */
  function PremiumOf(root: Json): Option<Json> {
    if root.JObj? && Prop(root, "quota_snapshots").Some? then
      var snapshots := Prop(root, "quota_snapshots").value;
      if snapshots.JObj? && Prop(snapshots, "premium_interactions").Some?
         && Prop(snapshots, "premium_interactions").value.JObj?
      then Prop(snapshots, "premium_interactions")
      else None
    else None
  }

  /** A member `GetInt32` can read when it is a number: absent, not a number, or
      an integer in the Int32 range. */
  predicate Int32Readable(premium: Json, name: string) {
    match Prop(premium, name)
    case Some(JNum(n)) => n == n.Floor as real && InInt32(n.Floor)
    case _ => true
  }

  /** `GetUsageAsync`: any exception gives a `UsageInfo` whose fields are all null.
      A counter is set only from a JSON number at its place under
      `quota_snapshots.premium_interactions`; a member there of any other kind
      leaves it null. */
  function GetUsageAsync(reply: Reply): (u: UsageInfo)
    ensures !reply.Answered? ==> u == UsageInfo(None, None)
    ensures reply.Answered? && ReadUsage(reply.root).Threw? ==> u == UsageInfo(None, None)
    ensures reply.Answered? && PremiumOf(reply.root).None? ==> u == UsageInfo(None, None)
    ensures u.premiumRequestsLeft.Some? ==>
      reply.Answered? && PremiumOf(reply.root).Some?
      && Prop(PremiumOf(reply.root).value, "remaining") == Some(JNum(u.premiumRequestsLeft.value as real))
    ensures u.totalPremiumRequests.Some? ==>
      reply.Answered? && PremiumOf(reply.root).Some?
      && Prop(PremiumOf(reply.root).value, "entitlement") == Some(JNum(u.totalPremiumRequests.value as real))
  {
    match reply
    case Answered(root) =>
      (match ReadUsage(root)
       case Returned(info) => info
       case Threw(_) => UsageInfo(None, None))
    case _ => UsageInfo(None, None)
  }

  /** Under a readable `premium_interactions` object: when both members are
      readable, each counter is set exactly when its member is a number, and then
      to that number; a member that is a number but not an Int32 makes `GetInt32`
      throw, and both counters stay null. */
  lemma UsageSpec(root: Json)
    requires PremiumOf(root).Some?
    ensures var premium := PremiumOf(root).value;
      var u := GetUsageAsync(Answered(root));
      (Int32Readable(premium, "remaining") && Int32Readable(premium, "entitlement") ==>
         (u.premiumRequestsLeft.Some? <==> Prop(premium, "remaining").Some? && Prop(premium, "remaining").value.JNum?)
         && (u.totalPremiumRequests.Some? <==> Prop(premium, "entitlement").Some? && Prop(premium, "entitlement").value.JNum?))
      && (!Int32Readable(premium, "remaining") || !Int32Readable(premium, "entitlement") ==> u == UsageInfo(None, None))
  {
  }

  /** A worked reply: two integral counters are read, and the number used is their
      wrapped difference. */
  lemma UsageExample(left: int, total: int)
    requires InInt32(left) && InInt32(total)
    ensures var u := GetUsageAsync(Answered(JObj(map["quota_snapshots" := JObj(map["premium_interactions" :=
                       JObj(map["remaining" := JNum(left as real), "entitlement" := JNum(total as real)])])])));
            u == UsageInfo(Some(left), Some(total)) && u.PremiumRequestsUsed() == Some(Wrap32(total - left))
  {
    assert (left as real).Floor == left;
    assert (total as real).Floor == total;
  }

  /** The derived count is computed in unchecked 32-bit arithmetic: it wraps. */
  lemma UsedCountWraps()
    ensures UsageInfo(Some(1), Some(Int32Min)).PremiumRequestsUsed() == Some(Int32Max)
  {
  }

  // ----- Where the two clients differ -----

  /** A whitespace-only id is listed by the browser client and dropped by this one. */
  lemma WhitespaceIdHandledDifferently()
    ensures ChatService.GetModels(ChatService.Answered(JObj(map["data" := JArr([JObj(map["id" := JStr(" ")])])])))
            == Success([" "])
    ensures ModelsOf(Answered(JObj(map["data" := JArr([JObj(map["id" := JStr(" ")])])]))) == Returned([])
  {
    var items := [JObj(map["id" := JStr(" ")])];
    assert items[..0] == [];
    assert ChatService.IdsOf(items) == [Some(JStr(" "))];
    assert [Some(JStr(" "))][..0] == [];
    assert JNull !in items;
    assert ChatService.NonEmptyStrings([Some(JStr(" "))]) == [" "];
    assert ChatService.ListedIds(JObj(map["data" := JArr(items)])) == Some([" "]);
    assert Dedup([" "]) == [" "] by {
      assert [" "][..0] == [];
    }
    assert IsWhiteSpaceOnly(" ");
    assert CollectIds(items) == Returned([]);
  }

  /** A `maxTokens` of zero is left out of the browser client's body and sent by
      this one. */
  lemma ZeroMaxTokensHandledDifferently(model: string)
    ensures Prop(ChatService.RequestBody([], model, 1.0, Some(0.0)), "max_tokens") == None
    ensures Prop(RequestBody([], model, None, Some(0)), "max_tokens") == Some(JNum(0.0))
  {
  }
}
