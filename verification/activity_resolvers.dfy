/** The asynchronous look-ups of `activity.py`, each turning the replies it
    receives into an id-to-name map. Exceptions raised by the asynchronous
    client are not caught here; only its falsy or not-ok replies are, and a
    `None` reply means such a falsy result. */
module ActivityResolvers {
  import opened Wrappers
  import opened JsonValues
  import opened SlackApi
  import SlackUtils

  /** `fetch_message_content`: the first message's text when the history reply
      is ok and lists a message, otherwise `None`. */
  function FetchMessageContent(reply: Option<Json>): (content: Option<string>)
    ensures content == SlackUtils.GetMessageContent(reply)
  {
    if reply.Some? && Ok(reply.value) && |Array(reply.value, "messages")| > 0 then
      var message := Array(reply.value, "messages")[0];
      Some(SlackUtils.MessageText(message))
    else None
  }

  /** `fetch_one` of `fetch_usernames`: the handle from an ok reply, else the id. */
  function UserNameFromReply(userId: string, reply: Option<Json>): string {
    if OkReply(reply) then
      var user := Obj(reply.value, "user");
      Text(user, "name").GetOr(userId)
    else userId
  }

  /** `fetch_usernames`: one entry per requested id, holding what the
      synchronous `get_username` would give for the same reply; a falsy or
      not-ok reply leaves the id as its own name. */
  function FetchUsernames(ids: set<string>, usersInfo: string -> Option<Json>): (names: map<string, string>)
    ensures names.Keys == ids
    ensures forall u :: u in ids ==> names[u] == SlackUtils.GetUsername(u, usersInfo(u))
    ensures forall u :: u in ids && !OkReply(usersInfo(u)) ==> names[u] == u
  {
    map u | u in ids :: UserNameFromReply(u, usersInfo(u))
  }

  /** `fetch_one` of `fetch_channel_names`. */
  function ChannelNameFromReply(channelId: string, reply: Option<Json>, usersInfo: string -> Option<Json>): string {
    if OkReply(reply) then
      var channel := Obj(reply.value, "channel");
      if TruthyMember(channel, "is_im") && NonEmptyText(channel, "user").Some? then
        var userReply := usersInfo(NonEmptyText(channel, "user").value);
        if OkReply(userReply) then
          var user := Obj(userReply.value, "user");
          "@" + Text(user, "name").GetOr(channelId)
        else Text(channel, "name").GetOr(channelId)
      else Text(channel, "name").GetOr(channelId)
    else channelId
  }

  /** `fetch_channel_names`: one entry per requested id. A direct-message
      channel whose partner look-up is ok is named `@` and the partner's handle;
      every other ok reply gives the channel's name (else its id); a falsy or
      not-ok reply gives the id. */
  function FetchChannelNames(ids: set<string>, api: Api): (names: map<string, string>)
    ensures names.Keys == ids
    ensures forall c :: c in ids && !OkReply(api.conversationsInfo(c)) ==> names[c] == c
    ensures forall c :: c in ids && OkReply(api.conversationsInfo(c)) ==>
              var channel := Obj(api.conversationsInfo(c).value, "channel");
              var partner := SlackUtils.ImPartner(channel);
              if partner.Some? && OkReply(api.usersInfo(partner.value)) then
                names[c] == "@" + SlackUtils.ReportedUserName(api.usersInfo(partner.value).value).GetOr(c)
              else
                names[c] == SlackUtils.PlainChannelName(channel, c)
  {
    map c | c in ids :: ChannelNameFromReply(c, api.conversationsInfo(c), api.usersInfo)
  }

  /** The asynchronous and synchronous channel look-ups agree except when the
      partner's `users.info` call raises: the synchronous helper then gives up
      with the channel id, while the asynchronous one never sees an exception
      turned into `None` and falls back to the channel's own name. */
  lemma ChannelNameVersusSync(c: string, api: Api)
    ensures var reply := api.conversationsInfo(c);
            var partner := if OkReply(reply) then SlackUtils.ImPartner(Obj(reply.value, "channel")) else None;
            var async := FetchChannelNames({c}, api)[c];
            var sync := SlackUtils.GetChannelName(c, reply, api.usersInfo);
            if partner.Some? && api.usersInfo(partner.value).None? then
              async == SlackUtils.PlainChannelName(Obj(reply.value, "channel"), c) && sync == c
            else async == sync
  {
  }

  /** The placeholder every requested user group gets when the batch call fails. */
  const TeamPlaceholder: string := "@team"

  /** `ug.get('handle', ug.get('name', ug_id))`. */
  function HandleOf(ug: Json, id: string): string {
    match Text(ug, "handle")
    case Some(h) => h
    case None => Text(ug, "name").GetOr(id)
  }

  /** The map the loop over `results` builds: each result's id to `@` and its
      handle; a later result with the same id overwrites an earlier one. A
      result without a string id is stored by the source under a key no
      look-up by id can reach, so it is left out. */
  function HandleMap(results: seq<Json>): (m: map<string, string>)
    ensures m.Keys == set i | 0 <= i < |results| && Text(results[i], "id").Some? :: Text(results[i], "id").value
  {
    if |results| == 0 then map[]
    else
      var n := |results| - 1;
      var earlier := HandleMap(results[..n]);
      assert forall i :: 0 <= i < n ==> results[..n][i] == results[i];
      match Text(results[n], "id")
      case Some(id) => earlier[id := "@" + HandleOf(results[n], id)]
      case None => earlier
  }

  /** One step of the handle map: the last result decides its own id's entry
      and leaves every other entry as the earlier results left it. */
  lemma HandleMapStep(results: seq<Json>, k: string)
    requires |results| > 0
    ensures Text(results[|results| - 1], "id") == Some(k) ==>
              k in HandleMap(results) && HandleMap(results)[k] == "@" + HandleOf(results[|results| - 1], k)
    ensures Text(results[|results| - 1], "id") != Some(k) ==>
              (k in HandleMap(results) <==> k in HandleMap(results[..|results| - 1]))
              && (k in HandleMap(results) ==> HandleMap(results)[k] == HandleMap(results[..|results| - 1])[k])
  {
  }

  /** The index of the last result whose id is `k`, or -1 when none is. */
  function LastWith(results: seq<Json>, k: string): (i: int)
    ensures -1 <= i < |results|
    ensures i >= 0 ==> Text(results[i], "id") == Some(k)
    ensures forall j :: i < j < |results| ==> Text(results[j], "id") != Some(k)
  {
    if |results| == 0 then -1
    else if Text(results[|results| - 1], "id") == Some(k) then |results| - 1
    else
      assert forall j :: 0 <= j < |results| - 1 ==> results[..|results| - 1][j] == results[j];
      LastWith(results[..|results| - 1], k)
  }

  /** A key of the handle map holds the handle of the last result carrying it. */
  lemma {:induction false} HandleMapAtLast(results: seq<Json>, k: string)
    requires k in HandleMap(results)
    ensures 0 <= LastWith(results, k)
    ensures HandleMap(results)[k] == "@" + HandleOf(results[LastWith(results, k)], k)
  {
    var n := |results| - 1;
    HandleMapStep(results, k);
    if Text(results[n], "id") != Some(k) {
      assert k in HandleMap(results[..n]);
      HandleMapAtLast(results[..n], k);
      var i := LastWith(results[..n], k);
      assert LastWith(results, k) == i;
      assert results[i] == results[..n][i];
    }
  }

  /** Each key of the handle map holds the handle of the LAST result carrying
      that id. */
  lemma HandleMapLastWins(results: seq<Json>, k: string)
    requires k in HandleMap(results)
    ensures exists i :: 0 <= i < |results| && Text(results[i], "id") == Some(k)
              && HandleMap(results)[k] == "@" + HandleOf(results[i], k)
              && forall j :: i < j < |results| ==> Text(results[j], "id") != Some(k)
  {
    HandleMapAtLast(results, k);
    var i := LastWith(results, k);
    assert Text(results[i], "id") == Some(k);
  }

  /** Every handle in the map already carries its `@`. */
  lemma {:induction false} HandleMapPrefixed(results: seq<Json>)
    ensures forall g :: g in HandleMap(results) ==> "@" <= HandleMap(results)[g]
  {
    if |results| > 0 {
      var n := |results| - 1;
      HandleMapPrefixed(results[..n]);
      forall g | g in HandleMap(results)
        ensures "@" <= HandleMap(results)[g]
      {
        HandleMapStep(results, g);
      }
    }
  }

  /** Every user-group name, looked up or fallen back, is `@`-prefixed, so
      the rewrite can substitute it as it is. */
  lemma UsergroupNamesPrefixed(ids: set<string>, usergroupsInfo: set<string> -> Option<Json>)
    ensures forall g :: g in FetchUsergroupNames(ids, usergroupsInfo) ==>
              "@" <= FetchUsergroupNames(ids, usergroupsInfo)[g]
  {
    if ids != {} && UsableBatch(usergroupsInfo(ids)) {
      HandleMapPrefixed(Array(usergroupsInfo(ids).value, "results"));
    }
  }

  /** A result whose `id` Python can use as a dictionary key: a list or an
      object is unhashable, so storing it raises inside the `try`. */
  predicate HashableId(result: Json) {
    match Member(result, "id")
    case None => true
    case Some(id) => !id.JArr? && !id.JObj?
  }

  /** The batch reply can be used: ok, with a non-empty `results` list of
      objects whose ids are hashable; anything else makes the source raise
      inside its `try` or skip the map. */
  predicate UsableBatch(reply: Option<Json>) {
    && OkReply(reply)
    && |Array(reply.value, "results")| > 0
    && (forall i :: 0 <= i < |Array(reply.value, "results")| ==> Array(reply.value, "results")[i].JObj?)
    && (forall i :: 0 <= i < |Array(reply.value, "results")| ==> HashableId(Array(reply.value, "results")[i]))
  }

  /** One result with an unhashable id spoils the whole batch: every requested
      id falls back to `@team`, even those another result names. */
  lemma UnhashableIdFallsBack(ids: set<string>, usergroupsInfo: set<string> -> Option<Json>, i: nat)
    requires ids != {} && OkReply(usergroupsInfo(ids))
    requires i < |Array(usergroupsInfo(ids).value, "results")|
    requires Member(Array(usergroupsInfo(ids).value, "results")[i], "id").Some?
    requires Member(Array(usergroupsInfo(ids).value, "results")[i], "id").value.JArr?
    ensures FetchUsergroupNames(ids, usergroupsInfo).Keys == ids
    ensures forall g :: g in ids ==> FetchUsergroupNames(ids, usergroupsInfo)[g] == TeamPlaceholder
  {
    assert !HashableId(Array(usergroupsInfo(ids).value, "results")[i]);
  }

  /** `fetch_usergroup_names`: nothing for no ids; the handles of a usable batch
      reply; otherwise `@team` for every requested id. */
  function FetchUsergroupNames(ids: set<string>, usergroupsInfo: set<string> -> Option<Json>): (names: map<string, string>)
    ensures ids == {} ==> names == map[]
    ensures ids != {} && UsableBatch(usergroupsInfo(ids)) ==>
              names == HandleMap(Array(usergroupsInfo(ids).value, "results"))
    ensures ids != {} && !UsableBatch(usergroupsInfo(ids)) ==>
              names.Keys == ids && forall g :: g in ids ==> names[g] == TeamPlaceholder
  {
    if ids == {} then map[]
    else
      var reply := usergroupsInfo(ids);
      if UsableBatch(reply) then HandleMap(Array(reply.value, "results"))
      else map g | g in ids :: TeamPlaceholder
  }
}
