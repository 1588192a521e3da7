/** The enrichment pipeline of the activity command (`enrich_items_async`):
    scan the feed items for channel, message and actor ids; resolve them in a
    first round; scan the fetched message texts for mentions; resolve the
    newly seen ids in a second round; then build one enriched copy of every
    item, in input order. The network is the `Api` value: every reply is a
    fixed function of its request, so the concurrent gathers are plain maps. */
module Activity {
  import opened Wrappers
  import opened JsonValues
  import opened SlackApi
  import opened Mentions
  import opened ActivityResolvers

  /** One feed item: a JSON object whose `item` member describes the event. */
  type Item = map<string, Json>

  /** The item types whose actor is the author of the message. */
  const MentionTypes: set<string> := {"at_user", "at_user_group", "at_channel", "at_everyone", "keyword"}

  /** The keys the pipeline may add to (or overwrite in) an item. */
  const EnrichmentKeys: set<string> := {"channel_name", "message_text", "username", "emoji"}

  function ItemData(item: Item): Json {
    Obj(JObj(item), "item")
  }

  function ItemType(item: Item): Option<string> {
    Text(ItemData(item), "type")
  }

  predicate IsThread(item: Item) {
    ItemType(item) == Some("thread_v2")
  }

  predicate IsReaction(item: Item) {
    ItemType(item) == Some("message_reaction")
  }

  predicate IsMentionFamily(item: Item) {
    ItemType(item).Some? && ItemType(item).value in MentionTypes
  }

  /** Where the item's channel and timestamp live: the thread entry of a
      `thread_v2` item, the message of any other item. */
  function CoordinateSource(item: Item): Json {
    if IsThread(item) then
      var bundleInfo := Obj(ItemData(item), "bundle_info");
      var payload := Obj(bundleInfo, "payload");
      Obj(payload, "thread_entry")
    else Obj(ItemData(item), "message")
  }

  /** The item's channel id, when it is a non-empty string. */
  function ChannelId(item: Item): Option<string> {
    NonEmptyText(CoordinateSource(item), if IsThread(item) then "channel_id" else "channel")
  }

  /** The item's message timestamp (the latest reply for a thread). */
  function MessageTs(item: Item): Option<string> {
    NonEmptyText(CoordinateSource(item), if IsThread(item) then "latest_ts" else "ts")
  }

  datatype Coordinate = Coordinate(channel: string, ts: string)

  /** The message to fetch for an item: present iff both parts are present. */
  function FetchCoordinate(item: Item): (co: Option<Coordinate>)
    ensures co.Some? <==> ChannelId(item).Some? && MessageTs(item).Some?
    ensures co.Some? ==> co.value == Coordinate(ChannelId(item).value, MessageTs(item).value)
  {
    match (ChannelId(item), MessageTs(item))
    case (Some(c), Some(t)) => Some(Coordinate(c, t))
    case _ => None
  }

  /** The user the item is about: the reacting user of a reaction, the author
      of a mention-family message; nobody for other types. */
  function ActorId(item: Item): (actor: Option<string>)
    ensures actor.Some? ==> IsReaction(item) || IsMentionFamily(item)
    ensures IsReaction(item) ==> actor == NonEmptyText(Obj(ItemData(item), "reaction"), "user")
    ensures IsMentionFamily(item) ==> actor == NonEmptyText(Obj(ItemData(item), "message"), "author_user_id")
  {
    if IsReaction(item) then NonEmptyText(Obj(ItemData(item), "reaction"), "user")
    else if IsMentionFamily(item) then NonEmptyText(Obj(ItemData(item), "message"), "author_user_id")
    else None
  }

  /** One queued history request: the item it was queued for and where to look. */
  datatype Fetch = Fetch(index: nat, at: Coordinate)

  /** How many items have a fetch coordinate. */
  function CoordinateCount(items: seq<Item>): nat {
    if |items| == 0 then 0
    else
      var n := |items| - 1;
      CoordinateCount(items[..n]) + (if FetchCoordinate(items[n]).Some? then 1 else 0)
  }

  /** `messages_to_fetch`: one request per item that has a coordinate, in item
      order; two items with the same coordinate are fetched twice. */
  function Fetches(items: seq<Item>): (fs: seq<Fetch>)
    ensures |fs| == CoordinateCount(items)
    ensures forall k :: 0 <= k < |fs| ==>
              fs[k].index < |items| && FetchCoordinate(items[fs[k].index]) == Some(fs[k].at)
    ensures forall k, l :: 0 <= k < l < |fs| ==> fs[k].index < fs[l].index
  {
    if |items| == 0 then []
    else
      var n := |items| - 1;
      var earlier := Fetches(items[..n]);
      assert forall i :: 0 <= i < n ==> items[..n][i] == items[i];
      match FetchCoordinate(items[n])
      case Some(co) => earlier + [Fetch(n, co)]
      case None => earlier
  }

  /** One step of the fetch list: the last item adds its own request, if any. */
  lemma FetchesStep(items: seq<Item>)
    requires |items| > 0
    ensures var n := |items| - 1;
            var co := FetchCoordinate(items[n]);
            Fetches(items) == Fetches(items[..n]) + (if co.Some? then [Fetch(n, co.value)] else [])
  {
  }

  /** The requests for a longer list start with those for its prefix. */
  lemma FetchesPrefix(items: seq<Item>)
    requires |items| > 0
    ensures var es := Fetches(items[..|items| - 1]);
            |es| <= |Fetches(items)| && forall k :: 0 <= k < |es| ==> Fetches(items)[k] == es[k]
  {
    FetchesStep(items);
  }

  /** The last item, when it has a coordinate, adds the last request. */
  lemma FetchesLast(items: seq<Item>)
    requires |items| > 0 && FetchCoordinate(items[|items| - 1]).Some?
    ensures |Fetches(items)| > 0 && Fetches(items)[|Fetches(items)| - 1].index == |items| - 1
  {
    FetchesStep(items);
  }

  /** No item with a coordinate is skipped. */
  lemma {:induction false} FetchesComplete(items: seq<Item>, i: nat)
    requires i < |items| && FetchCoordinate(items[i]).Some?
    ensures exists k :: 0 <= k < |Fetches(items)| && Fetches(items)[k].index == i
  {
    var n := |items| - 1;
    if i == n {
      FetchesLast(items);
      var fs := Fetches(items);
      assert fs[|fs| - 1].index == i;
    } else {
      var earlier := items[..n];
      assert earlier[i] == items[i];
      FetchesComplete(earlier, i);
      FetchesPrefix(items);
      var es := Fetches(earlier);
      var k :| 0 <= k < |es| && es[k].index == i;
      assert Fetches(items)[k] == es[k];
    }
  }

  /** The user ids of the first round: every actor id. */
  function RoundOneUserIds(items: seq<Item>): set<string> {
    set i | 0 <= i < |items| && ActorId(items[i]).Some? :: ActorId(items[i]).value
  }

  /** Every channel id any item names. */
  function ChannelIds(items: seq<Item>): set<string> {
    set i | 0 <= i < |items| && ChannelId(items[i]).Some? :: ChannelId(items[i]).value
  }

  /** `message_cache`: the fetched text (or `None`) by item index. */
  function MessageCache(items: seq<Item>, api: Api): map<nat, Option<string>> {
    var fs := Fetches(items);
    map k | 0 <= k < |fs| :: fs[k].index := FetchMessageContent(api.history(fs[k].at.channel, fs[k].at.ts))
  }

  /** The non-empty fetched texts. */
  function FetchedTexts(cache: map<nat, Option<string>>): set<string> {
    set i | i in cache && cache[i].Some? && cache[i].value != "" :: cache[i].value
  }

  /** The ids `re.findall` sees in any of the texts. */
  function MentionedIds(texts: set<string>, prefix: string): set<string> {
    set t, id | t in texts && id in FindAll(prefix, t) :: id
  }

  /** The user ids of the second round: those mentioned in the fetched texts
      that the first round did not already resolve. */
  function RoundTwoUserIds(items: seq<Item>, api: Api): set<string> {
    MentionedIds(FetchedTexts(MessageCache(items, api)), UserPrefix) - RoundOneUserIds(items)
  }

  /** The second round never asks again for a first-round id, and the two
      rounds together cover every user the texts mention. */
  lemma RoundsPartitionUsers(items: seq<Item>, api: Api)
    ensures RoundOneUserIds(items) !! RoundTwoUserIds(items, api)
    ensures MentionedIds(FetchedTexts(MessageCache(items, api)), UserPrefix)
              <= RoundOneUserIds(items) + RoundTwoUserIds(items, api)
  {
  }

  /** Every user-group id mentioned in the fetched texts. */
  function UsergroupIds(items: seq<Item>, api: Api): set<string> {
    MentionedIds(FetchedTexts(MessageCache(items, api)), UsergroupPrefix)
  }

  /** Everything the two rounds resolved. */
  datatype Caches = Caches(
    users: map<string, string>,
    channels: map<string, string>,
    messages: map<nat, Option<string>>,
    usergroups: map<string, string>)

  /** Both rounds of look-ups. The second round asks only for what is left, and
      only when something is left. */
  function Resolve(items: seq<Item>, api: Api): (caches: Caches)
    ensures caches.users.Keys == RoundOneUserIds(items) + RoundTwoUserIds(items, api)
    ensures caches.channels.Keys == ChannelIds(items)
    ensures UsergroupIds(items, api) == {} ==> caches.usergroups == map[]
    ensures UsergroupIds(items, api) != {} ==>
              caches.usergroups == FetchUsergroupNames(UsergroupIds(items, api), api.usergroupsInfo)
  {
    var roundOne := FetchUsernames(RoundOneUserIds(items), api.usersInfo);
    var channels := FetchChannelNames(ChannelIds(items), api);
    var messages := MessageCache(items, api);
    var additional := RoundTwoUserIds(items, api);
    var groups := UsergroupIds(items, api);
    var users := if additional != {} then roundOne + FetchUsernames(additional, api.usersInfo) else roundOne;
    var usergroups := if groups != {} then FetchUsergroupNames(groups, api.usergroupsInfo) else map[];
    Caches(users, channels, messages, usergroups)
  }

  /** The `message_text` value of a fetched message: `None` stays `None`, an
      empty text stays empty, any other text has its mentions rewritten. */
  function ShownText(content: Option<string>, caches: Caches): (shown: Json)
    ensures content.None? ==> shown == JNull
    ensures content.Some? ==> shown.JStr?
    ensures content == Some("") ==> shown == JStr("")
    ensures content.Some? && '<' !in content.value ==> shown == JStr(content.value)
    ensures content.Some? && content.value != "" ==>
              shown == JStr(RewriteMentions(content.value, caches.users, caches.usergroups))
  {
    match content
    case None => JNull
    case Some(t) => JStr(if t != "" then RewriteMentions(t, caches.users, caches.usergroups) else t)
  }

  /** A fetched text made of words and mentions is shown piece by piece:
      each user mention as `@` and its handle (or `@user`), each user-group
      mention as its cached handle (or `@team`), the words as they are. */
  lemma ShownTextOfPieces(ps: seq<Piece>, caches: Caches)
    requires WellFormed(ps) && Spell(ps) != ""
    requires forall u :: u in caches.users ==> '<' !in caches.users[u]
    ensures ShownText(Some(Spell(ps)), caches) == JStr(ShownAll(ps, caches.users, caches.usergroups))
  {
    RewritePieces(ps, caches.users, caches.usergroups);
  }

  /** A fetched text with no `<` in it is shown exactly as fetched. */
  lemma PlainTextShownAsIs(t: string, caches: Caches)
    requires '<' !in t
    ensures ShownText(Some(t), caches) == JStr(t)
  {
    if t != "" {
      NoAngleUnchanged(UserPrefix, t, caches.users, "@", "user");
      NoAngleUnchanged(UsergroupPrefix, t, caches.usergroups, "", "@team");
    }
  }

  /** The keys the merge adds to an item. */
  function AddedKeys(item: Item, idx: nat, caches: Caches): set<string> {
    {"channel_name"}
    + (if idx in caches.messages then {"message_text"} else {})
    + (if ActorId(item).Some? then {"username"} else {})
    + (if IsReaction(item) then {"emoji"} else {})
  }

  /** The merge step for one item: a copy of the item with its channel name,
      fetched text, actor's handle and reaction emoji added. */
  function EnrichItem(item: Item, idx: nat, caches: Caches): (e: Item)
    ensures e.Keys == item.Keys + AddedKeys(item, idx, caches)
    ensures forall k :: k in item && k !in EnrichmentKeys ==> e[k] == item[k]
    ensures ChannelId(item).Some? ==>
              e["channel_name"] == JStr(Lookup(caches.channels, ChannelId(item).value, "unknown"))
    ensures ChannelId(item).None? ==> e["channel_name"] == JStr("unknown")
    ensures idx in caches.messages ==> e["message_text"] == ShownText(caches.messages[idx], caches)
    ensures idx !in caches.messages && "message_text" in item ==> e["message_text"] == item["message_text"]
    ensures ActorId(item).Some? ==>
              e["username"] == JStr(Lookup(caches.users, ActorId(item).value, ActorId(item).value))
    ensures ActorId(item).None? && "username" in item ==> e["username"] == item["username"]
    ensures IsReaction(item) ==>
              e["emoji"] == Member(Obj(ItemData(item), "reaction"), "name").GetOr(JStr("unknown"))
    ensures !IsReaction(item) && "emoji" in item ==> e["emoji"] == item["emoji"]
  {
    var channelName :=
      match ChannelId(item)
      case Some(c) => Lookup(caches.channels, c, "unknown")
      case None => "unknown";
    var withChannel := item["channel_name" := JStr(channelName)];
    var withText :=
      if idx in caches.messages then withChannel["message_text" := ShownText(caches.messages[idx], caches)]
      else withChannel;
    if IsReaction(item) then
      var reaction := Obj(ItemData(item), "reaction");
      var withUser :=
        match NonEmptyText(reaction, "user")
        case Some(u) => withText["username" := JStr(Lookup(caches.users, u, u))]
        case None => withText;
      withUser["emoji" := Member(reaction, "name").GetOr(JStr("unknown"))]
    else if IsMentionFamily(item) then
      var message := Obj(ItemData(item), "message");
      match NonEmptyText(message, "author_user_id")
      case Some(u) => withText["username" := JStr(Lookup(caches.users, u, u))]
      case None => withText
    else withText
  }

  /** `enrich_items_async`: one enriched copy per item, in input order, each
      merged against the caches both rounds built. */
  function Enrich(items: seq<Item>, api: Api): (out: seq<Item>)
    ensures |out| == |items|
    ensures forall i :: 0 <= i < |items| ==> out[i] == EnrichItem(items[i], i, Resolve(items, api))
  {
    var caches := Resolve(items, api);
    seq(|items|, i requires 0 <= i < |items| => EnrichItem(items[i], i, caches))
  }

  /** What the pipeline does to item `i`: the fields it does not own are
      kept; a channel name is always added; a message text is added exactly
      when the item has a coordinate (and is otherwise left as it was); a
      username is added for every actor and an emoji for every reaction. */
  lemma EnrichedItem(items: seq<Item>, api: Api, i: nat)
    requires i < |items|
    ensures var e := Enrich(items, api)[i];
            && (forall k :: k in items[i] && k !in EnrichmentKeys ==> k in e && e[k] == items[i][k])
            && "channel_name" in e
            && (FetchCoordinate(items[i]).Some? ==> "message_text" in e)
            && (FetchCoordinate(items[i]).None? ==>
                  ("message_text" in e <==> "message_text" in items[i])
                  && ("message_text" in e ==> e["message_text"] == items[i]["message_text"]))
            && (ActorId(items[i]).Some? ==> "username" in e)
            && (IsReaction(items[i]) ==> "emoji" in e)
  {
    var caches := Resolve(items, api);
    assert Enrich(items, api)[i] == EnrichItem(items[i], i, caches);
    assert caches.messages == MessageCache(items, api);
    MessageCacheHas(items, api, i);
    EnrichItemKeys(items[i], i, caches);
  }

  /** The keys one merge step guarantees, read off its contract. */
  lemma EnrichItemKeys(item: Item, idx: nat, caches: Caches)
    ensures var e := EnrichItem(item, idx, caches);
            && (forall k :: k in item && k !in EnrichmentKeys ==> k in e && e[k] == item[k])
            && "channel_name" in e
            && (idx in caches.messages ==> "message_text" in e)
            && (idx !in caches.messages ==>
                  ("message_text" in e <==> "message_text" in item)
                  && ("message_text" in e ==> e["message_text"] == item["message_text"]))
            && (ActorId(item).Some? ==> "username" in e)
            && (IsReaction(item) ==> "emoji" in e)
  {
    var e := EnrichItem(item, idx, caches);
    assert e.Keys == item.Keys + AddedKeys(item, idx, caches);
  }

  /** Item `i` has a message-cache entry exactly when it has a coordinate. */
  lemma MessageCacheHas(items: seq<Item>, api: Api, i: nat)
    requires i < |items|
    ensures i in MessageCache(items, api) <==> FetchCoordinate(items[i]).Some?
  {
    MessageCacheKeys(items, api);
  }

  /** The text shown for an item with a coordinate is the reply to that
      coordinate's history request, mentions rewritten with the final caches. */
  lemma EnrichedText(items: seq<Item>, api: Api, i: nat)
    requires i < |items| && FetchCoordinate(items[i]).Some?
    ensures var co := FetchCoordinate(items[i]).value;
            var caches := Resolve(items, api);
            && "message_text" in Enrich(items, api)[i]
            && Enrich(items, api)[i]["message_text"]
              == ShownText(FetchMessageContent(api.history(co.channel, co.ts)), caches)
  {
    var caches := Resolve(items, api);
    MessageCacheAt(items, api, i);
    assert caches.messages == MessageCache(items, api);
    var e := EnrichItem(items[i], i, caches);
    assert e["message_text"] == ShownText(caches.messages[i], caches);
  }

  /** The cache entry of an item with a coordinate. */
  lemma MessageCacheAt(items: seq<Item>, api: Api, i: nat)
    requires i < |items| && FetchCoordinate(items[i]).Some?
    ensures var co := FetchCoordinate(items[i]).value;
            i in MessageCache(items, api)
            && MessageCache(items, api)[i] == FetchMessageContent(api.history(co.channel, co.ts))
  {
    MessageCacheKeys(items, api);
  }

  /** An item has an entry in the message cache exactly when it has a fetch
      coordinate, and the entry is the reply to that coordinate's request. */
  lemma {:induction false} MessageCacheKeys(items: seq<Item>, api: Api)
    ensures forall i :: 0 <= i < |items| ==>
              (i in MessageCache(items, api) <==> FetchCoordinate(items[i]).Some?)
    ensures forall i :: i in MessageCache(items, api) ==>
              0 <= i < |items| && FetchCoordinate(items[i]).Some?
              && var co := FetchCoordinate(items[i]).value;
                 MessageCache(items, api)[i] == FetchMessageContent(api.history(co.channel, co.ts))
  {
    var fs := Fetches(items);
    var cache := MessageCache(items, api);
    forall i | 0 <= i < |items| && FetchCoordinate(items[i]).Some?
      ensures i in cache
    {
      FetchesComplete(items, i);
      var k :| 0 <= k < |fs| && fs[k].index == i;
    }
    forall i | i in cache
      ensures 0 <= i < |items| && FetchCoordinate(items[i]).Some?
      ensures var co := FetchCoordinate(items[i]).value;
              cache[i] == FetchMessageContent(api.history(co.channel, co.ts))
    {
      var k :| 0 <= k < |fs| && fs[k].index == i;
    }
  }

  /** The "unknown" fallback of the merge is never taken for an item that
      names a channel: the first round looked every such channel up. */
  lemma ChannelNameResolved(items: seq<Item>, api: Api, i: nat)
    requires i < |items| && ChannelId(items[i]).Some?
    ensures var c := ChannelId(items[i]).value;
            && "channel_name" in Enrich(items, api)[i]
            && Enrich(items, api)[i]["channel_name"]
                 == JStr(ChannelNameFromReply(c, api.conversationsInfo(c), api.usersInfo))
  {
    var c := ChannelId(items[i]).value;
    var caches := Resolve(items, api);
    assert c in ChannelIds(items);
    assert caches.channels == FetchChannelNames(ChannelIds(items), api);
    assert caches.channels[c] == ChannelNameFromReply(c, api.conversationsInfo(c), api.usersInfo);
  }

  /** The final user cache keeps every first-round name, and adds second-round
      names only for ids the first round did not ask for. */
  lemma ResolvedUsers(items: seq<Item>, api: Api)
    ensures forall u :: u in RoundOneUserIds(items) ==>
              u in Resolve(items, api).users
              && Resolve(items, api).users[u] == FetchUsernames(RoundOneUserIds(items), api.usersInfo)[u]
    ensures forall u :: u in Resolve(items, api).users && u !in RoundOneUserIds(items) ==>
              u in RoundTwoUserIds(items, api)
              && Resolve(items, api).users[u] == FetchUsernames(RoundTwoUserIds(items, api), api.usersInfo)[u]
  {
    RoundsPartitionUsers(items, api);
  }

  /** Every name in the final user cache is the look-up of its own id: the
      second round never overwrites a first-round entry. */
  lemma UserCacheConsistent(items: seq<Item>, api: Api)
    ensures var users := Resolve(items, api).users;
            forall u :: u in users ==> users[u] == SlackUtils.GetUsername(u, api.usersInfo(u))
    ensures RoundOneUserIds(items) + RoundTwoUserIds(items, api) == Resolve(items, api).users.Keys
  {
    ResolvedUsers(items, api);
  }

  /** The username shown for an item's actor is that user's handle from
      `users.info` (or the id when the look-up fails). */
  lemma UsernameResolved(items: seq<Item>, api: Api, i: nat)
    requires i < |items| && ActorId(items[i]).Some?
    ensures var u := ActorId(items[i]).value;
            && "username" in Enrich(items, api)[i]
            && Enrich(items, api)[i]["username"] == JStr(SlackUtils.GetUsername(u, api.usersInfo(u)))
  {
    var u := ActorId(items[i]).value;
    var caches := Resolve(items, api);
    assert u in RoundOneUserIds(items);
    UserCacheConsistent(items, api);
    assert u in caches.users;
  }

  /** Every user mentioned in a fetched text is in the cache the rewrite
      uses, so no user mention falls back to "@user" for lack of a look-up. */
  lemma MentionedUsersResolved(items: seq<Item>, api: Api)
    ensures MentionedIds(FetchedTexts(MessageCache(items, api)), UserPrefix) <= Resolve(items, api).users.Keys
  {
    RoundsPartitionUsers(items, api);
    UserCacheConsistent(items, api);
  }

  /** Whatever the user-group look-up returns, every cached group name is
      `@`-prefixed, like the `@team` fallback the rewrite uses for a miss. */
  lemma UsergroupCachePrefixed(items: seq<Item>, api: Api)
    ensures forall g :: g in Resolve(items, api).usergroups ==> "@" <= Resolve(items, api).usergroups[g]
  {
    UsergroupNamesPrefixed(UsergroupIds(items, api), api.usergroupsInfo);
  }
}
