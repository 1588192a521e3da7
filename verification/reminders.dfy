/** The `reminders` listing: the saved items of `saved.list`, optionally
    narrowed to reminders, each shaped into a reminder entry or a saved-message
    entry with its channel name, text and permalink. */
module Reminders {
  import opened Wrappers
  import opened JsonValues
  import opened Strings
  import opened SlackApi
  import SlackUtils

  const DefaultWorkspaceUrl: string := "https://slack.com"
  const UnknownText: string := "Unknown"

  /** `item.get(key, 'unknown')`. */
  function OrUnknown(item: Json, key: string): Json {
    Member(item, key).GetOr(JStr("unknown"))
  }

  predicate IsReminder(item: Json) {
    Member(item, "item_type") == Some(JStr("reminder"))
  }

  /** The reminders-only comprehension. */
  function KeepReminders(items: seq<Json>): (r: seq<Json>)
    ensures |r| <= |items|
  {
    if |items| == 0 then []
    else
      var n := |items| - 1;
      KeepReminders(items[..n]) + (if IsReminder(items[n]) then [items[n]] else [])
  }

  /** Exactly the reminders are kept. */
  lemma {:induction false} KeepRemindersMembers(items: seq<Json>)
    ensures forall x :: x in KeepReminders(items) <==> x in items && IsReminder(x)
  {
    if |items| > 0 {
      var n := |items| - 1;
      assert items == items[..n] + [items[n]];
      KeepRemindersMembers(items[..n]);
    }
  }

  /** The filter keeps the input's order: it distributes over concatenation. */
  lemma {:induction false} KeepRemindersAppend(a: seq<Json>, b: seq<Json>)
    ensures KeepReminders(a + b) == KeepReminders(a) + KeepReminders(b)
  {
    if |b| == 0 {
      assert a + b == a;
    } else {
      var n := |b| - 1;
      assert (a + b)[..|a| + n] == a + b[..n];
      KeepRemindersAppend(a, b[..n]);
    }
  }

  /** The link base: the `url` of an ok `auth.test` reply, else slack.com. */
  function WorkspaceUrl(auth: Json): (url: string)
    ensures !Ok(auth) ==> url == DefaultWorkspaceUrl
    ensures Ok(auth) && Text(auth, "url").Some? ==> url == Text(auth, "url").value
    ensures Ok(auth) && Member(auth, "url").None? ==> url == DefaultWorkspaceUrl
  {
    if Ok(auth) then Text(auth, "url").GetOr(DefaultWorkspaceUrl) else DefaultWorkspaceUrl
  }

  /** `xs[i]` on a JSON list, absent when out of range or not a list. */
  function At(j: Json, i: nat): (r: Option<Json>)
    ensures r.Some? <==> j.JArr? && i < |j.items|
  {
    if j.JArr? && i < |j.items| then Some(j.items[i]) else None
  }

  /** `desc_blocks[0]['elements'][0]['elements'][0]['text']`, absent when any
      step misses. */
  function DescriptionPath(desc: Json): (r: Option<Json>)
    ensures r.Some? ==> desc.JArr? && |desc.items| > 0 && Member(desc.items[0], "elements").Some?
  {
    match At(desc, 0)
    case None => None
    case Some(block) =>
      match Member(block, "elements")
      case None => None
      case Some(elements) =>
        match At(elements, 0)
        case None => None
        case Some(section) =>
          match Member(section, "elements")
          case None => None
          case Some(leaves) =>
            match At(leaves, 0)
            case None => None
            case Some(leaf) => Member(leaf, "text")
  }

  /** A reminder's text: the description path when the description is truthy
      and the path is there, else "Unknown". */
  function ReminderText(item: Json): (text: Json)
    ensures Member(item, "description").None? ==> text == JStr(UnknownText)
    ensures Member(item, "description").Some? && !Truthy(Member(item, "description").value) ==> text == JStr(UnknownText)
    ensures text != JStr(UnknownText) ==>
              Member(item, "description").Some? && DescriptionPath(Member(item, "description").value) == Some(text)
    ensures Member(item, "description").Some? && Truthy(Member(item, "description").value)
            && DescriptionPath(Member(item, "description").value).Some? ==>
              text == DescriptionPath(Member(item, "description").value).value
    ensures Member(item, "description").Some? && DescriptionPath(Member(item, "description").value).None? ==>
              text == JStr(UnknownText)
  {
    var desc := Member(item, "description").GetOr(JArr([]));
    if Truthy(desc) then DescriptionPath(desc).GetOr(JStr(UnknownText)) else JStr(UnknownText)
  }

  /** The description Slack sends for a plain reminder: one block holding one
      section holding one leaf. */
  function PlainDescription(leaf: Json): Json {
    JArr([JObj(map["elements" := JArr([JObj(map["elements" := JArr([JObj(map["text" := leaf])])])])])])
  }

  /** A reminder whose description has the plain shape shows that leaf's text,
      whatever other members the item has. */
  lemma ReminderTextOfPlainDescription(item: Json, leaf: Json)
    requires item.JObj? && "description" in item.fields && item.fields["description"] == PlainDescription(leaf)
    ensures ReminderText(item) == leaf
  {
    var desc := PlainDescription(leaf);
    assert Member(item, "description") == Some(desc);
    assert Truthy(desc);
    var block := JObj(map["elements" := JArr([JObj(map["elements" := JArr([JObj(map["text" := leaf])])])])]);
    var section := JObj(map["elements" := JArr([JObj(map["text" := leaf])])]);
    assert At(desc, 0) == Some(block);
    assert At(Member(block, "elements").value, 0) == Some(section);
    assert At(Member(section, "elements").value, 0) == Some(JObj(map["text" := leaf]));
  }

  /** `ts.replace('.', '')` in the permalink. */
  function MessageLink(workspaceUrl: string, channelId: string, ts: string): (link: string)
    ensures link == workspaceUrl + "archives/" + channelId + "/p" + Without(ts, '.')
    ensures |link| >= |workspaceUrl| + |"archives/"| + |channelId| + |"/p"|
    ensures link[..|workspaceUrl|] == workspaceUrl
    ensures var tail := link[|workspaceUrl| + |"archives/"| + |channelId| + |"/p"|..];
            && '.' !in tail
            && forall x :: x != '.' ==> multiset(tail)[x] == multiset(ts)[x]
  {
    workspaceUrl + "archives/" + channelId + "/p" + Without(ts, '.')
  }

  /** A `seconds.micros` timestamp loses only its dot in the permalink. */
  lemma LinkOfTimestamp(workspaceUrl: string, channelId: string, secs: string, micros: string)
    requires '.' !in secs && '.' !in micros
    ensures MessageLink(workspaceUrl, channelId, secs + "." + micros)
              == workspaceUrl + "archives/" + channelId + "/p" + secs + micros
  {
    WithoutAppend(secs + ".", micros, '.');
    WithoutAppend(secs, ".", '.');
  }

  /** A timestamp without a dot, such as the `unknown` default, is kept as it
      is at the end of the link. */
  lemma DotFreeTimestampKept(workspaceUrl: string, channelId: string, ts: string)
    requires '.' !in ts
    ensures MessageLink(workspaceUrl, channelId, ts) == workspaceUrl + "archives/" + channelId + "/p" + ts
  {
  }

  /** The shown date: formatted from the parsed timestamp, or the raw string
      when `float(ts)` or `fromtimestamp` raises. */
  datatype ShownDate = Formatted(seconds: real) | Raw(text: string)

  datatype Entry =
    | ReminderEntry(state: Json, text: Json, dueTimestamp: Json)
    | MessageEntry(state: Json, channelId: string, channelName: string, message: Option<string>,
                   date: ShownDate, timestamp: Option<real>, link: string)

  /** `item.get(key, 'unknown')` for a value the command uses as a string. */
  function TextOrUnknown(item: Json, key: string): (r: string)
    ensures Member(item, key).None? ==> r == "unknown"
    ensures Text(item, key).Some? ==> r == Text(item, key).value
  {
    Text(item, key).GetOr("unknown")
  }

  /** The body of the shaping loop for one saved item. `parseTime` stands for
      the `try` around the message time: Python's `float()` followed by
      `datetime.fromtimestamp`, `None` when either raises, so an out-of-range
      time falls back to the raw string just as an unparseable one does. */
  function Shape(item: Json, workspaceUrl: string, api: Api, parseTime: string -> Option<real>): (e: Entry)
    ensures e.ReminderEntry? <==> OrUnknown(item, "item_type") == JStr("reminder")
    ensures e.state == OrUnknown(item, "state")
    ensures e.ReminderEntry? ==> e.text == ReminderText(item)
    ensures e.ReminderEntry? ==> e.dueTimestamp == Member(item, "date_due").GetOr(JNum(0.0))
    ensures e.MessageEntry? ==>
              var ch := TextOrUnknown(item, "item_id");
              var ts := TextOrUnknown(item, "ts");
              && e.channelId == ch
              && e.channelName == SlackUtils.GetChannelName(ch, api.conversationsInfo(ch), api.usersInfo)
              && e.message == SlackUtils.GetMessageContent(api.history(ch, ts))
              && e.link == MessageLink(workspaceUrl, ch, ts)
              && e.timestamp == parseTime(ts)
              && (e.date.Raw? <==> parseTime(ts).None?)
              && (e.date.Raw? ==> e.date.text == ts)
              && (e.date.Formatted? ==> e.timestamp == Some(e.date.seconds))
  {
    var state := OrUnknown(item, "state");
    if OrUnknown(item, "item_type") == JStr("reminder") then
      ReminderEntry(state, ReminderText(item), Member(item, "date_due").GetOr(JNum(0.0)))
    else
      var ch := TextOrUnknown(item, "item_id");
      var ts := TextOrUnknown(item, "ts");
      var name := SlackUtils.GetChannelName(ch, api.conversationsInfo(ch), api.usersInfo);
      var message := SlackUtils.GetMessageContent(api.history(ch, ts));
      var date := match parseTime(ts) case Some(x) => Formatted(x) case None => Raw(ts);
      MessageEntry(state, ch, name, message, date, parseTime(ts), MessageLink(workspaceUrl, ch, ts))
  }

  /** The whole listing: the error of a not-ok `saved.list` reply, else one
      entry per (remaining) saved item, in order. */
  function ListReminders(saved: Json, remindersOnly: bool, auth: Json, api: Api,
                         parseTime: string -> Option<real>): (r: Result<seq<Entry>, Json>)
    ensures r.Failure? <==> !Ok(saved)
    ensures r.Success? ==>
              var items := if remindersOnly then KeepReminders(Array(saved, "saved_items")) else Array(saved, "saved_items");
              && |r.value| == |items|
              && forall i :: 0 <= i < |items| ==> r.value[i] == Shape(items[i], WorkspaceUrl(auth), api, parseTime)
  {
    if !Ok(saved) then Failure(Member(saved, "error").GetOr(JNull))
    else
      var all := Array(saved, "saved_items");
      var items := if remindersOnly then KeepReminders(all) else all;
      var url := WorkspaceUrl(auth);
      Success(seq(|items|, i requires 0 <= i < |items| => Shape(items[i], url, api, parseTime)))
  }

  /** With the reminders-only flag every entry is a reminder entry. */
  lemma RemindersOnlyGivesReminders(saved: Json, auth: Json, api: Api, parseTime: string -> Option<real>)
    requires Ok(saved)
    ensures var r := ListReminders(saved, true, auth, api, parseTime);
            r.Success? && forall i :: 0 <= i < |r.value| ==> r.value[i].ReminderEntry?
  {
    var items := KeepReminders(Array(saved, "saved_items"));
    KeepRemindersMembers(Array(saved, "saved_items"));
    forall i | 0 <= i < |items|
      ensures IsReminder(items[i])
    {
      assert items[i] in items;
    }
  }
}
