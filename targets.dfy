// The push targets of a trader: the copy-trading chats of every community
// group in the social-graph response that are enabled, follow this trader and
// name a chat, as (channel id, topic id, jump) triples in group-then-chat
// order. Any exception during the walk makes the whole answer empty.
module PushTargets {
  import opened Text
  import opened Values

  /** One push target: channel id, topic id (text) and jump flag (text). */
  datatype Target = Target(channel: int, topic: string, jump: string)

  /** The response of the social-graph request; None where the request or the
      JSON decoding of its body failed. */
  datatype Response = Response(status: int, body: Option<Value>)

  /** What one chat contributes: an exception, nothing, or one target. */
  datatype Step = Raise | Skip | Take(t: Target)

  /** The elements a `for` loop visits in `v`, None where the loop (or the
      `.get` it calls on each element) raises: only a list of values, or an
      empty string or dict, is walked without error. */
  function Items(v: Value): (r: Option<seq<Value>>)
    ensures v.VList? ==> r == Some(v.items)
    ensures r.Some? && !v.VList? ==> r.value == []
  {
    match v
    case VList(items) => Some(items)
    case VStr(s) => if s == [] then Some([]) else None
    case VDict(fields) => if fields == map[] then Some([]) else None
    case _ => None
  }

  /** The jump flag: None, "" and "null" read as "0", anything else as str(). */
  function NormalizeJump(v: Value): (r: string)
    ensures r != [] && r != "null"
    ensures v == VNone || v == VStr("") || v == VStr("null") ==> r == "0"
    ensures v.VStr? && v.s != [] && v.s != "null" ==> r == v.s
  {
    if v == VNone || v == VStr("") || v == VStr("null") then "0"
    else
      match v
      case VStr(s) => s
      case VBool(b) => if b then "True" else "False"
      case VInt(i) =>
        var text := IntToString(i);
        assert text[0] != 'n';
        text
      case VFloat(_, repr) => if repr == [] || repr == "null" then "0.0" else repr
      case VList(_) => "[...]"
      case VDict(_) => "{...}"
  }

  /** Whether a chat dict passes the filter: a copy-trading chat, enabled,
      following `uid`, with a truthy chat id. */
  predicate Selected(uid: string, f: map<string, Value>) {
    && Get(f, "type") == VStr("copy")
    && Truthy(Get(f, "enable"))
    && Str(Get(f, "traderUid")) == uid
    && Truthy(Get(f, "chatId"))
  }

  /** The inner loop body for one chat. A chat that is not a dict raises at
      its first `.get`; a selected chat whose id fails `int()` raises. */
  function ChatStep(num: NumberSyntax, uid: string, chat: Value): Step {
    if !chat.VDict? then Raise
    else
      var f := chat.fields;
      if !Selected(uid, f) then Skip
      else
        match IntOf(num, Get(f, "chatId"))
        case None => Raise
        case Some(c) => Take(Target(c, Str(GetOr(f, "topicId", VStr(""))), NormalizeJump(Get(f, "jump"))))
  }

  /** The targets of a sequence of chats, None if any of them raises. */
  function ChatsTargets(num: NumberSyntax, uid: string, chats: seq<Value>): Option<seq<Target>>
    decreases |chats|
  {
    if chats == [] then Some([])
    else
      match ChatsTargets(num, uid, chats[..|chats| - 1])
      case None => None
      case Some(ts) =>
        match ChatStep(num, uid, chats[|chats| - 1])
        case Raise => None
        case Skip => Some(ts)
        case Take(t) => Some(ts + [t])
  }

  /** The targets of one community group: its "chats" list, if it is a dict. */
  function GroupTargets(num: NumberSyntax, uid: string, group: Value): Option<seq<Target>> {
    if !group.VDict? then None
    else
      match Items(GetOr(group.fields, "chats", VList([])))
      case None => None
      case Some(chats) => ChatsTargets(num, uid, chats)
  }

  /** The targets of a sequence of groups, None if any of them raises. */
  function GroupsTargets(num: NumberSyntax, uid: string, groups: seq<Value>): Option<seq<Target>>
    decreases |groups|
  {
    if groups == [] then Some([])
    else
      match GroupsTargets(num, uid, groups[..|groups| - 1])
      case None => None
      case Some(ts) =>
        match GroupTargets(num, uid, groups[|groups| - 1])
        case None => None
        case Some(gs) => Some(ts + gs)
  }

  /** The groups of the response body: `social_data.get("data", [])`. */
  function ResponseGroups(resp: Option<Response>): Option<seq<Value>> {
    if resp.None? || resp.value.status != 200 || resp.value.body.None? then None
    else
      var body := resp.value.body.value;
      if !body.VDict? then None else Items(GetOr(body.fields, "data", VList([])))
  }

  /** `get_push_targets` as a value: [] on a failed request, a non-200 status
      or any exception during the walk. */
  function Targets(num: NumberSyntax, uid: string, resp: Option<Response>): seq<Target> {
    match ResponseGroups(resp)
    case None => []
    case Some(groups) =>
      match GroupsTargets(num, uid, groups)
      case None => []
      case Some(ts) => ts
  }

  /** The filter and normalisation loop of `get_push_targets`. */
  method GetPushTargets(num: NumberSyntax, uid: string, resp: Option<Response>) returns (targets: seq<Target>)
    ensures targets == Targets(num, uid, resp)
  {
    var data := ResponseGroups(resp);
    if data.None? {
      return [];
    }
    var groups := data.value;
    targets := [];
    var i := 0;
    while i < |groups|
      invariant 0 <= i <= |groups|
      invariant GroupsTargets(num, uid, groups[..i]) == Some(targets)
    {
      var group := groups[i];
      assert groups[..i + 1][..i] == groups[..i];
      if !group.VDict? {
        GroupsSucceed(num, uid, groups);
        return [];
      }
      var items := Items(GetOr(group.fields, "chats", VList([])));
      if items.None? {
        GroupsSucceed(num, uid, groups);
        return [];
      }
      var chats := items.value;
      var before := targets;
      var j := 0;
      while j < |chats|
        invariant 0 <= j <= |chats|
        invariant ChatsTargets(num, uid, chats[..j]).Some?
        invariant targets == before + ChatsTargets(num, uid, chats[..j]).value
      {
        assert chats[..j + 1][..j] == chats[..j];
        match ChatStep(num, uid, chats[j]) {
          case Raise =>
            ChatsSucceed(num, uid, chats);
            GroupsSucceed(num, uid, groups);
            return [];
          case Skip =>
          case Take(t) =>
            targets := targets + [t];
        }
        j := j + 1;
      }
      assert chats[..j] == chats;
      i := i + 1;
    }
    assert groups[..i] == groups;
  }

  // ---------------------------------------------------------------------
  // Properties

  /** The inner loop over chats for any per-chat step. */
  function ChatWalk(step: Value -> Step, chats: seq<Value>): Option<seq<Target>>
    decreases |chats|
  {
    if chats == [] then Some([])
    else
      match ChatWalk(step, chats[..|chats| - 1])
      case None => None
      case Some(ts) =>
        match step(chats[|chats| - 1])
        case Raise => None
        case Skip => Some(ts)
        case Take(t) => Some(ts + [t])
  }

  /** The outer loop over groups for any per-group step. */
  function Walk(f: Value -> Option<seq<Target>>, groups: seq<Value>): Option<seq<Target>>
    decreases |groups|
  {
    if groups == [] then Some([])
    else
      match Walk(f, groups[..|groups| - 1])
      case None => None
      case Some(ts) =>
        match f(groups[|groups| - 1])
        case None => None
        case Some(gs) => Some(ts + gs)
  }

  /** The step of one chat, as a function of the chat. */
  function ChatOf(num: NumberSyntax, uid: string): Value -> Step {
    chat => ChatStep(num, uid, chat)
  }

  /** The targets of one group, as a function of the group. */
  function GroupOf(num: NumberSyntax, uid: string): Value -> Option<seq<Target>> {
    group => GroupTargets(num, uid, group)
  }

  /** The walk of the chats is the generic walk with the chat step. */
  lemma {:induction false} ChatsWalk(num: NumberSyntax, uid: string, chats: seq<Value>)
    ensures ChatsTargets(num, uid, chats) == ChatWalk(ChatOf(num, uid), chats)
    decreases |chats|
  {
    if chats != [] {
      ChatsWalk(num, uid, chats[..|chats| - 1]);
    }
  }

  /** The walk of the groups is the generic walk with the group step. */
  lemma {:induction false} GroupsWalk(num: NumberSyntax, uid: string, groups: seq<Value>)
    ensures GroupsTargets(num, uid, groups) == Walk(GroupOf(num, uid), groups)
    decreases |groups|
  {
    if groups != [] {
      GroupsWalk(num, uid, groups[..|groups| - 1]);
    }
  }

  lemma {:induction false} ChatWalkSucceed(step: Value -> Step, chats: seq<Value>)
    ensures ChatWalk(step, chats).Some? <==> forall j :: 0 <= j < |chats| ==> step(chats[j]) != Raise
    decreases |chats|
  {
    if chats != [] {
      var init := chats[..|chats| - 1];
      ChatWalkSucceed(step, init);
      forall j | 0 <= j < |init| ensures init[j] == chats[j] {
      }
    }
  }

  lemma {:induction false} ChatWalkMember(step: Value -> Step, chats: seq<Value>, t: Target)
    requires ChatWalk(step, chats).Some?
    ensures t in ChatWalk(step, chats).value <==> exists j :: 0 <= j < |chats| && step(chats[j]) == Take(t)
    decreases |chats|
  {
    if chats != [] {
      var init := chats[..|chats| - 1];
      ChatWalkMember(step, init, t);
      if exists j :: 0 <= j < |chats| && step(chats[j]) == Take(t) {
        var j :| 0 <= j < |chats| && step(chats[j]) == Take(t);
        if j < |chats| - 1 {
          assert init[j] == chats[j];
        }
      }
      forall j | 0 <= j < |init| ensures init[j] == chats[j] {
      }
    }
  }

  lemma {:induction false} ChatWalkAppend(step: Value -> Step, c1: seq<Value>, c2: seq<Value>)
    requires ChatWalk(step, c1).Some? && ChatWalk(step, c2).Some?
    ensures ChatWalk(step, c1 + c2) == Some(ChatWalk(step, c1).value + ChatWalk(step, c2).value)
    decreases |c2|
  {
    if c2 == [] {
      assert c1 + c2 == c1;
      assert ChatWalk(step, c1).value + [] == ChatWalk(step, c1).value;
    } else {
      var init := c2[..|c2| - 1];
      assert (c1 + c2)[..|c1 + c2| - 1] == c1 + init;
      assert (c1 + c2)[|c1 + c2| - 1] == c2[|c2| - 1];
      ChatWalkAppend(step, c1, init);
      var a := ChatWalk(step, c1).value;
      var b := ChatWalk(step, init).value;
      match step(c2[|c2| - 1]) {
        case Skip =>
        case Take(t) =>
          assert a + b + [t] == a + (b + [t]);
      }
    }
  }

  lemma {:induction false} WalkSucceed(f: Value -> Option<seq<Target>>, groups: seq<Value>)
    ensures Walk(f, groups).Some? <==> forall i :: 0 <= i < |groups| ==> f(groups[i]).Some?
    decreases |groups|
  {
    if groups != [] {
      var init := groups[..|groups| - 1];
      WalkSucceed(f, init);
      forall i | 0 <= i < |init| ensures init[i] == groups[i] {
      }
    }
  }

  lemma {:induction false} WalkMember(f: Value -> Option<seq<Target>>, groups: seq<Value>, t: Target)
    requires Walk(f, groups).Some?
    ensures t in Walk(f, groups).value <==>
      exists i :: 0 <= i < |groups| && f(groups[i]).Some? && t in f(groups[i]).value
    decreases |groups|
  {
    if groups != [] {
      var init := groups[..|groups| - 1];
      WalkMember(f, init, t);
      forall i | 0 <= i < |init| ensures init[i] == groups[i] {
      }
      if exists i :: 0 <= i < |groups| && f(groups[i]).Some? && t in f(groups[i]).value {
        var i :| 0 <= i < |groups| && f(groups[i]).Some? && t in f(groups[i]).value;
        if i < |groups| - 1 {
          assert init[i] == groups[i];
        }
      }
    }
  }

  /** Any walk over two runs is the walk over the first followed by the
      walk over the second. */
  lemma {:induction false} WalkAppend(f: Value -> Option<seq<Target>>, g1: seq<Value>, g2: seq<Value>)
    requires Walk(f, g1).Some? && Walk(f, g2).Some?
    ensures Walk(f, g1 + g2) == Some(Walk(f, g1).value + Walk(f, g2).value)
    decreases |g2|
  {
    if g2 == [] {
      assert g1 + g2 == g1;
      assert Walk(f, g1).value + [] == Walk(f, g1).value;
    } else {
      var init := g2[..|g2| - 1];
      var x := g2[|g2| - 1];
      assert (g1 + g2)[..|g1 + g2| - 1] == g1 + init;
      assert (g1 + g2)[|g1 + g2| - 1] == x;
      WalkAppend(f, g1, init);
      var a := Walk(f, g1).value;
      var b := Walk(f, init).value;
      var last := f(x).value;
      assert a + b + last == a + (b + last);
    }
  }

  /** A chat is a target of a chat sequence iff its own step takes it. */
  lemma {:induction false} ChatsMember(num: NumberSyntax, uid: string, chats: seq<Value>, t: Target)
    requires ChatsTargets(num, uid, chats).Some?
    ensures t in ChatsTargets(num, uid, chats).value <==>
      exists j :: 0 <= j < |chats| && ChatStep(num, uid, chats[j]) == Take(t)
  {
    ChatsWalk(num, uid, chats);
    ChatWalkMember(ChatOf(num, uid), chats, t);
  }

  /** The walk of the chats succeeds iff no chat raises. */
  lemma {:induction false} ChatsSucceed(num: NumberSyntax, uid: string, chats: seq<Value>)
    ensures ChatsTargets(num, uid, chats).Some? <==>
      forall j :: 0 <= j < |chats| ==> ChatStep(num, uid, chats[j]) != Raise
  {
    ChatsWalk(num, uid, chats);
    ChatWalkSucceed(ChatOf(num, uid), chats);
  }

  /** The walk of the groups succeeds iff no group raises. */
  lemma {:induction false} GroupsSucceed(num: NumberSyntax, uid: string, groups: seq<Value>)
    ensures GroupsTargets(num, uid, groups).Some? <==>
      forall i :: 0 <= i < |groups| ==> GroupTargets(num, uid, groups[i]).Some?
  {
    GroupsWalk(num, uid, groups);
    WalkSucceed(GroupOf(num, uid), groups);
  }

  /** A target of the groups is a target of one of the groups. */
  lemma {:induction false} GroupsMember(num: NumberSyntax, uid: string, groups: seq<Value>, t: Target)
    requires GroupsTargets(num, uid, groups).Some?
    ensures t in GroupsTargets(num, uid, groups).value <==>
      exists i :: 0 <= i < |groups| && GroupTargets(num, uid, groups[i]).Some?
        && t in GroupTargets(num, uid, groups[i]).value
  {
    GroupsWalk(num, uid, groups);
    WalkMember(GroupOf(num, uid), groups, t);
  }

  /** Group-then-chat order: the targets of two runs of groups are those of
      the first run followed by those of the second. */
  lemma {:induction false} GroupsAppend(num: NumberSyntax, uid: string, g1: seq<Value>, g2: seq<Value>)
    requires GroupsTargets(num, uid, g1).Some? && GroupsTargets(num, uid, g2).Some?
    ensures GroupsTargets(num, uid, g1 + g2)
      == Some(GroupsTargets(num, uid, g1).value + GroupsTargets(num, uid, g2).value)
  {
    GroupsWalk(num, uid, g1);
    GroupsWalk(num, uid, g2);
    GroupsWalk(num, uid, g1 + g2);
    WalkAppend(GroupOf(num, uid), g1, g2);
  }

  /** Chat order within a group: the targets of two runs of chats are those
      of the first run followed by those of the second. */
  lemma {:induction false} ChatsAppend(num: NumberSyntax, uid: string, c1: seq<Value>, c2: seq<Value>)
    requires ChatsTargets(num, uid, c1).Some? && ChatsTargets(num, uid, c2).Some?
    ensures ChatsTargets(num, uid, c1 + c2)
      == Some(ChatsTargets(num, uid, c1).value + ChatsTargets(num, uid, c2).value)
  {
    ChatsWalk(num, uid, c1);
    ChatsWalk(num, uid, c2);
    ChatsWalk(num, uid, c1 + c2);
    ChatWalkAppend(ChatOf(num, uid), c1, c2);
  }

  /** A chat is taken iff it is a dict that passes the filter and whose id
      parses, and the target carries the normalised fields. */
  lemma {:induction false} TakenChat(num: NumberSyntax, uid: string, chat: Value, t: Target)
    ensures ChatStep(num, uid, chat) == Take(t) <==>
      chat.VDict? && Selected(uid, chat.fields)
      && IntOf(num, Get(chat.fields, "chatId")) == Some(t.channel)
      && t.topic == Str(GetOr(chat.fields, "topicId", VStr("")))
      && t.jump == NormalizeJump(Get(chat.fields, "jump"))
  {
  }

  /** Every target of a successful walk has a normalised jump flag and came
      from a selected chat of some group. */
  lemma {:induction false} TargetsNormalized(num: NumberSyntax, uid: string, resp: Option<Response>, t: Target)
    requires t in Targets(num, uid, resp)
    ensures t.jump != [] && t.jump != "null"
    ensures exists i :: (0 <= i < |ResponseGroups(resp).value|
      && GroupTargets(num, uid, ResponseGroups(resp).value[i]).Some?
      && t in GroupTargets(num, uid, ResponseGroups(resp).value[i]).value)
  {
    var groups := ResponseGroups(resp).value;
    GroupsMember(num, uid, groups, t);
    var i :| 0 <= i < |groups| && GroupTargets(num, uid, groups[i]).Some?
      && t in GroupTargets(num, uid, groups[i]).value;
    var chats := Items(GetOr(groups[i].fields, "chats", VList([]))).value;
    ChatsMember(num, uid, chats, t);
  }

  /** All or nothing: one selected chat whose id fails `int()` empties the
      whole answer, whatever the other groups hold. */
  lemma {:induction false} BadChatIdEmptiesAll(num: NumberSyntax, uid: string, resp: Option<Response>, i: nat, j: nat)
    requires ResponseGroups(resp).Some?
    requires i < |ResponseGroups(resp).value|
    requires var g := ResponseGroups(resp).value[i];
      g.VDict? && Items(GetOr(g.fields, "chats", VList([]))).Some?
      && j < |Items(GetOr(g.fields, "chats", VList([]))).value|
    requires var chat := Items(GetOr(ResponseGroups(resp).value[i].fields, "chats", VList([]))).value[j];
      chat.VDict? && Selected(uid, chat.fields) && IntOf(num, Get(chat.fields, "chatId")).None?
    ensures Targets(num, uid, resp) == []
  {
    var groups := ResponseGroups(resp).value;
    var chats := Items(GetOr(groups[i].fields, "chats", VList([]))).value;
    ChatsSucceed(num, uid, chats);
    GroupsSucceed(num, uid, groups);
  }

  /** A failed request or a non-200 status gives no targets. */
  lemma {:induction false} FailedRequestIsEmpty(num: NumberSyntax, uid: string, resp: Option<Response>)
    requires resp.None? || resp.value.status != 200
    ensures Targets(num, uid, resp) == []
  {
  }
}
