// The once-a-minute article feed: the unpublished articles and the social
// groups are fetched, a topic -> channel map is built from the groups' enabled
// chats, and each article is sent to its topic's channel and then marked
// published. The two fetches, the Discord channel cache and the outcome of
// each send are inputs.
module ArticleFeed {
  import opened Text
  import opened Values

  /** The members of `v` when the code iterates it and reads each member
      with `.get`: a list's items, nothing for an empty string or dict, and
      None where iterating raises or the first member is a string (a
      non-empty string or dict), whose `.get` raises. */
  function Members(v: Value): Option<seq<Value>> {
    match v
    case VList(items) => Some(items)
    case VStr(s) => if s == [] then Some([]) else None
    case VDict(f) => if f == map[] then Some([]) else None
    case _ => None
  }

  /** `chat.get("enable", False)` is truthy. */
  predicate Enabled(chat: map<string, Value>) {
    Truthy(GetOr(chat, "enable", VBool(false)))
  }

  /** Lists and dicts cannot be dict keys. */
  predicate Hashable(v: Value) {
    !v.VList? && !v.VDict?
  }

  /** One chat's effect on the map, None where it raises: an enabled chat
      maps its `name` to `int(chatId)`, replacing any earlier entry. */
  function AddChat(num: NumberSyntax, m: map<Value, int>, chat: Value): Option<map<Value, int>> {
    if !chat.VDict? then None
    else if !Enabled(chat.fields) then Some(m)
    else if "name" !in chat.fields || "chatId" !in chat.fields || !Hashable(chat.fields["name"]) then None
    else
      match IntOf(num, chat.fields["chatId"])
      case None => None
      case Some(id) => Some(m[chat.fields["name"] := id])
  }

  /** The chats added in order to `m`. */
  function ChatsFold(num: NumberSyntax, m: map<Value, int>, chats: seq<Value>): Option<map<Value, int>>
    decreases |chats|
  {
    if chats == [] then Some(m)
    else
      match ChatsFold(num, m, chats[..|chats| - 1])
      case None => None
      case Some(m') => AddChat(num, m', chats[|chats| - 1])
  }

  /** The chats of each group in order; None where a group is not a dict
      or its "chats" cannot be iterated. */
  function GroupsFold(num: NumberSyntax, groups: seq<Value>): Option<map<Value, int>>
    decreases |groups|
  {
    if groups == [] then Some(map[])
    else
      match GroupsFold(num, groups[..|groups| - 1])
      case None => None
      case Some(m) =>
        var g := groups[|groups| - 1];
        if !g.VDict? then None
        else
          match Members(GetOr(g.fields, "chats", VList([])))
          case None => None
          case Some(chats) => ChatsFold(num, m, chats)
  }

  /** The topic map built from the social response, None where building
      it raises. */
  function TopicMap(num: NumberSyntax, social: Value): Option<map<Value, int>> {
    if !social.VDict? then None
    else
      match Members(GetOr(social.fields, "data", VList([])))
      case None => None
      case Some(groups) => GroupsFold(num, groups)
  }

  /** Every chat of every group, in order; None where a group is not a
      dict or its "chats" cannot be iterated. */
  function AllChats(groups: seq<Value>): Option<seq<Value>>
    decreases |groups|
  {
    if groups == [] then Some([])
    else
      match AllChats(groups[..|groups| - 1])
      case None => None
      case Some(cs) =>
        var g := groups[|groups| - 1];
        if !g.VDict? then None
        else
          match Members(GetOr(g.fields, "chats", VList([])))
          case None => None
          case Some(chats) => Some(cs + chats)
  }

  /** Once adding a prefix of the chats has raised, the rest do not
      matter. */
  lemma {:induction false} ChatsFoldStops(num: NumberSyntax, m: map<Value, int>, chats: seq<Value>, k: nat)
    requires k <= |chats| && ChatsFold(num, m, chats[..k]).None?
    ensures ChatsFold(num, m, chats).None?
    decreases |chats| - k
  {
    if k < |chats| {
      assert chats[..k + 1][..k] == chats[..k];
      ChatsFoldStops(num, m, chats, k + 1);
    } else {
      assert chats[..k] == chats;
    }
  }

  lemma {:induction false} GroupsFoldStops(num: NumberSyntax, groups: seq<Value>, k: nat)
    requires k <= |groups| && GroupsFold(num, groups[..k]).None?
    ensures GroupsFold(num, groups).None?
    decreases |groups| - k
  {
    if k < |groups| {
      assert groups[..k + 1][..k] == groups[..k];
      GroupsFoldStops(num, groups, k + 1);
    } else {
      assert groups[..k] == groups;
    }
  }

  /** Adding two runs of chats is adding their concatenation. */
  lemma {:induction false} ChatsFoldAppend(num: NumberSyntax, m: map<Value, int>, xs: seq<Value>, ys: seq<Value>)
    ensures ChatsFold(num, m, xs + ys) ==
      match ChatsFold(num, m, xs)
      case None => None
      case Some(m') => ChatsFold(num, m', ys)
    decreases |ys|
  {
    if ys == [] {
      assert xs + ys == xs;
    } else {
      var init := ys[..|ys| - 1];
      assert (xs + ys)[..|xs + ys| - 1] == xs + init;
      ChatsFoldAppend(num, m, xs, init);
    }
  }

  /** Building the map group by group is adding all chats in order. */
  lemma {:induction false} GroupsFoldFlattens(num: NumberSyntax, groups: seq<Value>)
    ensures GroupsFold(num, groups) ==
      match AllChats(groups)
      case None => None
      case Some(cs) => ChatsFold(num, map[], cs)
    decreases |groups|
  {
    if groups != [] {
      var init := groups[..|groups| - 1];
      GroupsFoldFlattens(num, init);
      var g := groups[|groups| - 1];
      if AllChats(init).Some? && g.VDict? {
        match Members(GetOr(g.fields, "chats", VList([])))
        case None =>
        case Some(chats) =>
          ChatsFoldAppend(num, map[], AllChats(init).value, chats);
      }
    }
  }

  /** A chat that puts an entry in the map: an enabled dict with a name
      and a chat id. */
  predicate Adds(chat: Value) {
    chat.VDict? && Enabled(chat.fields) && "name" in chat.fields && "chatId" in chat.fields
  }

  /** Building the map raises on no chat that is not a dict, and every
      enabled chat has a name and an id that `int()` accepts. */
  lemma {:induction false} ChatsFoldWellFormed(num: NumberSyntax, m: map<Value, int>, chats: seq<Value>)
    requires ChatsFold(num, m, chats).Some?
    ensures forall j :: 0 <= j < |chats| ==> chats[j].VDict?
    ensures forall j :: 0 <= j < |chats| && Enabled(chats[j].fields) ==>
      Adds(chats[j]) && IntOf(num, chats[j].fields["chatId"]).Some?
    decreases |chats|
  {
    if chats != [] {
      var init := chats[..|chats| - 1];
      ChatsFoldWellFormed(num, m, init);
      assert forall j :: 0 <= j < |init| ==> init[j] == chats[j];
    }
  }

  /** The map holds exactly the names of the enabled chats, besides what
      it started with. */
  lemma {:induction false} ChatsFoldKeys(num: NumberSyntax, m: map<Value, int>, chats: seq<Value>)
    requires ChatsFold(num, m, chats).Some?
    ensures forall k :: k in ChatsFold(num, m, chats).value <==>
      k in m || exists j :: 0 <= j < |chats| && Adds(chats[j]) && chats[j].fields["name"] == k
    decreases |chats|
  {
    if chats != [] {
      var init := chats[..|chats| - 1];
      ChatsFoldKeys(num, m, init);
      assert forall j :: 0 <= j < |init| ==> init[j] == chats[j];
    }
  }

  /** A repeated name maps to the id of the last enabled chat with it. */
  lemma {:induction false} ChatsFoldLastWins(num: NumberSyntax, m: map<Value, int>, chats: seq<Value>, j: nat)
    requires ChatsFold(num, m, chats).Some?
    requires j < |chats| && Adds(chats[j])
    requires forall j' :: j < j' < |chats| && Adds(chats[j']) ==> chats[j'].fields["name"] != chats[j].fields["name"]
    ensures chats[j].fields["name"] in ChatsFold(num, m, chats).value
    ensures IntOf(num, chats[j].fields["chatId"]).Some?
    ensures ChatsFold(num, m, chats).value[chats[j].fields["name"]] == IntOf(num, chats[j].fields["chatId"]).value
    decreases |chats|
  {
    var init := chats[..|chats| - 1];
    var last := chats[|chats| - 1];
    var before := ChatsFold(num, m, init).value;
    if j < |chats| - 1 {
      assert init[j] == chats[j];
      ChatsFoldLastWins(num, m, init, j);
      if Adds(last) {
        assert last.fields["name"] != chats[j].fields["name"];
      }
    }
  }

  /** The topic map, when it is built, holds exactly the enabled chats of
      the groups' chats, the last one winning for a repeated name. */
  lemma {:induction false} TopicMapContents(num: NumberSyntax, social: Value)
    requires TopicMap(num, social).Some?
    ensures social.VDict? && Members(GetOr(social.fields, "data", VList([]))).Some?
    ensures var groups := Members(GetOr(social.fields, "data", VList([]))).value;
      AllChats(groups).Some? && ChatsFold(num, map[], AllChats(groups).value) == TopicMap(num, social)
  {
    var groups := Members(GetOr(social.fields, "data", VList([]))).value;
    GroupsFoldFlattens(num, groups);
  }

  /** `topic_to_channel_map`, built with the source's two nested loops. */
  method BuildTopicMap(num: NumberSyntax, groups: seq<Value>) returns (topics: Option<map<Value, int>>)
    ensures topics == GroupsFold(num, groups)
  {
    var m: map<Value, int> := map[];
    var i := 0;
    while i < |groups|
      invariant 0 <= i <= |groups|
      invariant GroupsFold(num, groups[..i]) == Some(m)
    {
      assert groups[..i + 1][..i] == groups[..i];
      var g := groups[i];
      if !g.VDict? {
        GroupsFoldStops(num, groups, i + 1);
        return None;
      }
      var members := Members(GetOr(g.fields, "chats", VList([])));
      if members.None? {
        GroupsFoldStops(num, groups, i + 1);
        return None;
      }
      var chats := members.value;
      var start := m;
      var j := 0;
      while j < |chats|
        invariant 0 <= j <= |chats|
        invariant ChatsFold(num, start, chats[..j]) == Some(m)
      {
        assert chats[..j + 1][..j] == chats[..j];
        var chat := chats[j];
        if !chat.VDict? {
          ChatsFoldStops(num, start, chats, j + 1);
          GroupsFoldStops(num, groups, i + 1);
          return None;
        }
        if Enabled(chat.fields) {
          if "name" !in chat.fields || "chatId" !in chat.fields || !Hashable(chat.fields["name"]) {
            ChatsFoldStops(num, start, chats, j + 1);
            GroupsFoldStops(num, groups, i + 1);
            return None;
          }
          var id := IntOf(num, chat.fields["chatId"]);
          if id.None? {
            ChatsFoldStops(num, start, chats, j + 1);
            GroupsFoldStops(num, groups, i + 1);
            return None;
          }
          m := m[chat.fields["name"] := id.value];
        }
        j := j + 1;
      }
      assert chats[..j] == chats;
      i := i + 1;
    }
    assert groups[..i] == groups;
    return Some(m);
  }

  // ---------------------------------------------------------------------
  // Publishing

  /** What the feed does to the outside world: a message posted to a
      channel (with the article's image attached when it has one), and the
      request marking an article published. */
  datatype Action = Posted(channel: int, content: Value, image: Option<Value>) | MarkedPublished(id: Value)

  /** One article: None where it raises (it is not a dict, or its
      `topic_name` is not a string), nothing where its stripped topic has no
      non-zero channel, the channel is not in the bot's cache or the send
      raised, and otherwise the post followed by the mark request. */
  function ArticleStep(topics: map<Value, int>, visible: set<int>, article: Value, sent: bool): Option<seq<Action>> {
    if !article.VDict? then None
    else
      var a := article.fields;
      var topic := Get(a, "topic_name");
      if !topic.VStr? then None
      else
        var key := VStr(Strip(topic.s));
        if key !in topics || topics[key] == 0 || topics[key] !in visible || !sent then Some([])
        else
          var image := Get(a, "image");
          Some([Posted(topics[key], GetOr(a, "content", VStr("No Content")), if Truthy(image) then Some(image) else None),
                MarkedPublished(Get(a, "id"))])
  }

  /** The actions taken so far, and whether an exception ended the tick. */
  datatype Run = Run(actions: seq<Action>, raised: bool)

  /** The articles in order; `sent(k)` is whether sending the k-th article
      went through. */
  function ArticlesRun(topics: map<Value, int>, visible: set<int>, articles: seq<Value>, sent: nat -> bool): Run
    decreases |articles|
  {
    if articles == [] then Run([], false)
    else
      var r := ArticlesRun(topics, visible, articles[..|articles| - 1], sent);
      if r.raised then r
      else
        match ArticleStep(topics, visible, articles[|articles| - 1], sent(|articles| - 1))
        case None => Run(r.actions, true)
        case Some(acts) => Run(r.actions + acts, false)
  }

  /** An article is posted and marked exactly when it is a dict whose
      stripped topic maps to a non-zero channel the bot can see and the
      send went through; otherwise nothing happens for it. */
  lemma {:induction false} ArticleStepCases(topics: map<Value, int>, visible: set<int>, article: Value, sent: bool)
    ensures ArticleStep(topics, visible, article, sent).None? <==> !article.VDict? || !Get(article.fields, "topic_name").VStr?
    ensures var r := ArticleStep(topics, visible, article, sent);
      r.Some? ==> (r.value == [] || (|r.value| == 2 && r.value[0].Posted? && r.value[1] == MarkedPublished(Get(article.fields, "id"))))
    ensures var r := ArticleStep(topics, visible, article, sent);
      r.Some? && r.value != [] <==>
        && article.VDict? && Get(article.fields, "topic_name").VStr?
        && var key := VStr(Strip(Get(article.fields, "topic_name").s));
           key in topics && topics[key] != 0 && topics[key] in visible && sent
  {
  }

  /** The stripped topic is looked up, so surrounding blanks in an
      article's topic do not matter, while a map key with a leading or
      trailing blank is never matched. */
  lemma {:induction false} TopicStripped(topics: map<Value, int>, visible: set<int>, a: map<string, Value>, t: string, sent: bool)
    ensures ArticleStep(topics, visible, VDict(a["topic_name" := VStr(t)]), sent)
         == ArticleStep(topics, visible, VDict(a["topic_name" := VStr(Strip(t))]), sent)
    ensures forall k :: k != [] && (IsSpace(k[0]) || IsSpace(k[|k| - 1])) ==> VStr(Strip(t)) != VStr(k)
  {
    StripIdempotent(t);
  }

  /** The actions come in pairs, a post followed by its mark request: no
      article is marked without having been posted just before. */
  lemma {:induction false} PostThenMark(topics: map<Value, int>, visible: set<int>, articles: seq<Value>, sent: nat -> bool)
    ensures var acts := ArticlesRun(topics, visible, articles, sent).actions;
      |acts| % 2 == 0 && forall i :: 0 <= i < |acts| ==> (acts[i].Posted? <==> i % 2 == 0)
    decreases |articles|
  {
    if articles != [] {
      var init := articles[..|articles| - 1];
      PostThenMark(topics, visible, init, sent);
      ArticleStepCases(topics, visible, articles[|articles| - 1], sent(|articles| - 1));
    }
  }

  /** An article whose send failed, or that has no reachable channel, adds
      nothing: with no send going through, the feed takes no action. */
  lemma {:induction false} NothingSentNothingMarked(topics: map<Value, int>, visible: set<int>, articles: seq<Value>, sent: nat -> bool)
    requires forall k: nat :: k < |articles| ==> !sent(k)
    ensures ArticlesRun(topics, visible, articles, sent).actions == []
    decreases |articles|
  {
    if articles != [] {
      NothingSentNothingMarked(topics, visible, articles[..|articles| - 1], sent);
    }
  }

  /** The article loop, with `continue` for the skipped articles. */
  method PublishArticles(topics: map<Value, int>, visible: set<int>, articles: seq<Value>, sent: nat -> bool)
    returns (actions: seq<Action>, raised: bool)
    ensures Run(actions, raised) == ArticlesRun(topics, visible, articles, sent)
  {
    actions := [];
    var k := 0;
    while k < |articles|
      invariant 0 <= k <= |articles|
      invariant ArticlesRun(topics, visible, articles[..k], sent) == Run(actions, false)
    {
      assert articles[..k + 1][..k] == articles[..k];
      var article := articles[k];
      k := k + 1;
      if !article.VDict? || !Get(article.fields, "topic_name").VStr? {
        ArticlesRaisedStays(topics, visible, articles, sent, k);
        return actions, true;
      }
      var a := article.fields;
      var key := VStr(Strip(Get(a, "topic_name").s));
      if key !in topics || topics[key] == 0 {
        continue;
      }
      var channel := topics[key];
      if channel !in visible {
        continue;
      }
      if !sent(k - 1) {
        continue;
      }
      var image := Get(a, "image");
      actions := actions + [Posted(channel, GetOr(a, "content", VStr("No Content")), if Truthy(image) then Some(image) else None)];
      actions := actions + [MarkedPublished(Get(a, "id"))];
    }
    assert articles[..k] == articles;
    return actions, false;
  }

  /** Once an article has raised, the later ones are not reached. */
  lemma {:induction false} ArticlesRaisedStays(topics: map<Value, int>, visible: set<int>, articles: seq<Value>, sent: nat -> bool, k: nat)
    requires k <= |articles| && ArticlesRun(topics, visible, articles[..k], sent).raised
    ensures ArticlesRun(topics, visible, articles, sent) == ArticlesRun(topics, visible, articles[..k], sent)
    decreases |articles| - k
  {
    if k < |articles| {
      assert articles[..k + 1][..k] == articles[..k];
      ArticlesRaisedStays(topics, visible, articles, sent, k + 1);
    } else {
      assert articles[..k] == articles;
    }
  }

  /** One tick of the feed. `messageStatus`/`messages` are the
      unpublished-articles fetch, `socialStatus`/`social` the social-groups
      fetch, `visible` the channel ids the bot can resolve. A non-200
      answer or an empty article list ends the tick quietly; the fetch of
      the social groups happens only when there are articles. */
  function Tick(num: NumberSyntax, messageStatus: int, messages: Value, socialStatus: int, social: Value,
                visible: set<int>, sent: nat -> bool): Run
  {
    if messageStatus != 200 then Run([], false)
    else if !messages.VDict? then Run([], true)
    else
      var data := GetOr(messages.fields, "data", VDict(map[]));
      if !data.VDict? then Run([], true)
      else
        var items := GetOr(data.fields, "items", VList([]));
        if !Truthy(items) || socialStatus != 200 then Run([], false)
        else
          match TopicMap(num, social)
          case None => Run([], true)
          case Some(topics) =>
            match Members(items)
            case None => Run([], true)
            case Some(articles) => ArticlesRun(topics, visible, articles, sent)
  }

  /** A failed fetch or an empty article list ends the tick without
      sending anything. */
  lemma {:induction false} QuietTicks(num: NumberSyntax, messageStatus: int, messages: Value, socialStatus: int, social: Value,
                   visible: set<int>, sent: nat -> bool)
    requires messageStatus != 200 || socialStatus != 200
      || (messages.VDict? && GetOr(messages.fields, "data", VDict(map[])).VDict?
          && !Truthy(GetOr(GetOr(messages.fields, "data", VDict(map[])).fields, "items", VList([]))))
    ensures Tick(num, messageStatus, messages, socialStatus, social, visible, sent).actions == []
  {
  }

  /** `fetch_unpublished_messages`, one tick. */
  method FetchUnpublishedMessages(num: NumberSyntax, messageStatus: int, messages: Value, socialStatus: int, social: Value,
                                  visible: set<int>, sent: nat -> bool)
    returns (run: Run)
    ensures run == Tick(num, messageStatus, messages, socialStatus, social, visible, sent)
  {
    if messageStatus != 200 {
      return Run([], false);
    }
    if !messages.VDict? {
      return Run([], true);
    }
    var data := GetOr(messages.fields, "data", VDict(map[]));
    if !data.VDict? {
      return Run([], true);
    }
    var items := GetOr(data.fields, "items", VList([]));
    if !Truthy(items) || socialStatus != 200 {
      return Run([], false);
    }
    if !social.VDict? {
      return Run([], true);
    }
    var groups := Members(GetOr(social.fields, "data", VList([])));
    if groups.None? {
      return Run([], true);
    }
    var topics := BuildTopicMap(num, groups.value);
    if topics.None? {
      return Run([], true);
    }
    var articles := Members(items);
    if articles.None? {
      return Run([], true);
    }
    var actions, raised := PublishArticles(topics.value, visible, articles.value, sent);
    return Run(actions, raised);
  }
}
