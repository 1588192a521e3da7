# slacker core, modelled in Dafny

slacker is a command-line client for Slack. This project models the parts of it
that are pure logic once the network replies are known:

- the **activity feed enrichment** of the `activity` command, in five parts:
  - the scan of feed items for channel, message and actor ids;
  - the per-kind name resolvers (users, channels, user groups, message bodies);
  - the mention scan of fetched texts, with a second round of look-ups;
  - the rewriting of `<@ID>` and `<!subteam^ID>` tokens;
  - the merge that builds one enriched copy of every item;
- the synchronous resolvers in `utils.py` that the other commands use;
- the method-list dedupe, sort and grouping of `discover`;
- the saved-item filter and shaping of `reminders`;
- the since-filter, `from_you` flag and counts of `dms`;
- the URL filter, saved record, request tallies, scenario check and
  closed-browser test of `record`;
- the workspace-URL normalisation and validation of `login`.

JSON documents are a closed `Json` datatype (`JsonValues`). Every Slack call is
a field of the `Api` value (`SlackApi`): a total function from the request to an
optional reply. For the asynchronous helpers of `activity.py`, `None` stands for
a falsy reply. For the synchronous helpers of `utils.py`, `None` stands for a
call that raised, which their bare `except` turns into the fallback. Concurrent
`asyncio.gather` calls become plain maps over these functions, because a reply
depends only on its request.

One reading rule applies to every JSON field access. A field whose value has
the wrong JSON type is treated as absent:

- a string field read with `Text` or `NonEmptyText`;
- an object read with `Obj`, which gives the empty object;
- a list read with `Array`, which gives `[]`.

Where the code's behaviour may be unexpected, the model follows the code:

- Fetches are not de-duplicated by coordinate. Two items with the same channel
  and timestamp each get their own history request (`Activity.Fetches`).
- There is no `<!subteam^ID|label>` token form
  (`Mentions.LabelledUsergroupNotRewritten`).
- Rewriting is not idempotent in general. The two-pass rewrite is idempotent on
  a text whose every `<` opens a mention, when no handle holds a `<`
  (`Mentions.RewriteIdempotent`). A single pass is idempotent when no `<`
  occurs outside tokens or in the names (`Mentions.SubstituteIdempotent`).
  `Mentions.SubstituteNotIdempotentInGeneral` exhibits a text that one pass
  changes twice.

Modules, one per source file or concept:

| module | file | models |
|---|---|---|
| `Wrappers` | wrappers.dfy | `Option`, `Result`, `dict.get` with a default |
| `JsonValues` | json.dfy | JSON values, truthiness, typed field reads |
| `Strings` | strings.dfy | substring test, ASCII lower-casing, `replace(c, '')`, `split(c)[0]`, string order |
| `SlackApi` | api.dfy | the replies of the Slack calls |
| `SlackUtils` | utils.dfy | `utils.py` |
| `Mentions` | mentions.dfy | the two mention regexes: scan, `findall`, `sub` |
| `ActivityResolvers` | activity_resolvers.dfy | `fetch_*` helpers of `activity.py` |
| `Activity` | activity.dfy | `enrich_items_async` |
| `Discover` | discover.dfy | `discover.py` lines 36-52 |
| `Reminders` | reminders.dfy | `reminders.py` lines 33-107 |
| `DirectMessages` | dms.dfy | `dms.py` lines 28-116 |
| `Record` | record.dfy | `record.py` scenario, polling test, lines 204-268 |
| `Login` | login.dfy | `login.py` lines 18-24 |

## Model

| member | source | states |
|---|---|---|
| JsonValues.Member | src/slacker/utils.py:21 | `d.get(key)` is present exactly when the value is an object holding the key, and is that key's value |
| JsonValues.Text | src/slacker/utils.py:21 | a string field is present exactly when the member exists and is a string |
| JsonValues.NonEmptyText | src/slacker/commands/activity.py:192 | a truthy string field: present exactly when the string member is non-empty |
| JsonValues.Obj | src/slacker/utils.py:20 | `d.get(key, {})`: the member when it is an object, else the empty object |
| JsonValues.Array | src/slacker/commands/activity.py:37 | `d.get(key, [])`: the member's items when it is a list, else the empty list |
| SlackUtils.GetUsername | src/slacker/utils.py:17-24 | the user's `name` from an ok reply; the id when `name` is missing, the reply is not ok, or the call raised |
| SlackUtils.GetChannelName | src/slacker/utils.py:38-53 | the id for a failed reply; for an ok IM reply with a partner, `@`+partner name (or `@`+id) when the partner look-up is ok, the channel name when it is not ok, the id when it raised; otherwise the channel name, else the id |
| SlackUtils.JoinAppend | src/slacker/utils.py:79-85 | the text collected from blocks is the concatenation over any split of the list: block order is kept |
| SlackUtils.JoinSilent | src/slacker/utils.py:79-85 | blocks that contribute nothing leave the collected text empty |
| SlackUtils.LeafTextsAppend | src/slacker/utils.py:84-85 | the text of a concatenation of leaves is the concatenation of their texts |
| SlackUtils.FlattenMembers | src/slacker/utils.py:80-85 | a leaf is among the flattened leaves exactly when it is among those of some block |
| SlackUtils.JoinFlatten | src/slacker/utils.py:79-85 | joining per-block texts equals the text of all their leaves taken in block order |
| SlackUtils.TextLeaves | src/slacker/utils.py:84-85 | the kept leaves are exactly the elements of type `text`, each one drawn from the list |
| SlackUtils.JoinLeaves | src/slacker/utils.py:84-85 | joining a section's leaves is the concatenation of the texts of its `text` leaves, in order |
| SlackUtils.MessageLeavesMembers | src/slacker/utils.py:78-85 | a leaf is collected exactly when it is a `text` leaf inside a `rich_text_section` inside a `rich_text` block |
| SlackUtils.LeafText | src/slacker/utils.py:84-85 | a leaf of type `text` contributes its `text` (or nothing when that is missing); any other leaf contributes nothing |
| SlackUtils.SectionText | src/slacker/utils.py:82-85 | the concatenated texts of the element's `text` leaves, in order; nothing for an element that is not a `rich_text_section` |
| SlackUtils.BlockText | src/slacker/utils.py:80-85 | the concatenated texts of the `text` leaves of the block's sections, in order; nothing for a block that is not `rich_text` |
| SlackUtils.MessageText | src/slacker/utils.py:75-87 | the message's `text` when non-empty; otherwise the concatenated texts of all collected leaves, in block, section and leaf order |
| SlackUtils.GetMessageContent | src/slacker/utils.py:68-90 | present exactly when the reply is ok with a non-empty `messages`; then the text of the first message |
| ActivityResolvers.FetchMessageContent | src/slacker/commands/activity.py:28-44 | the asynchronous body extraction agrees with the synchronous one on every reply |
| ActivityResolvers.FetchUsernames | src/slacker/commands/activity.py:59-69 | keys are exactly the requested ids; each value is what `get_username` gives for the same reply; a falsy or not-ok reply gives the id |
| ActivityResolvers.FetchChannelNames | src/slacker/commands/activity.py:84-103 | keys are exactly the requested ids; `@`+partner name for an IM whose partner look-up is ok, else the channel name (or id); the id for a failed reply |
| ActivityResolvers.ChannelNameVersusSync | src/slacker/commands/activity.py:90-98 | the asynchronous and synchronous channel names agree, except when the partner look-up fails outright: then the first gives the channel name and the second the id |
| ActivityResolvers.HandleMap | src/slacker/commands/activity.py:147-153 | the handle map's keys are exactly the string ids among the results |
| ActivityResolvers.LastWith | src/slacker/commands/activity.py:149-152 | the index of a result carrying the id with no later one carrying it, or -1 when none does |
| ActivityResolvers.HandleMapAtLast | src/slacker/commands/activity.py:149-152 | a key of the handle map holds the handle of the result at the last index carrying it |
| ActivityResolvers.HandleMapLastWins | src/slacker/commands/activity.py:149-152 | each key holds `@` and the handle (else name, else id) of the last result with that id |
| ActivityResolvers.FetchUsergroupNames | src/slacker/commands/activity.py:119-158 | no ids give an empty map; an ok reply with a non-empty list of objects whose ids are hashable gives the handle map; any other outcome maps every requested id to `@team` |
| ActivityResolvers.UnhashableIdFallsBack | src/slacker/commands/activity.py:147-158 | one result whose `id` is a list makes the loop raise, so every requested id gets `@team` |
| ActivityResolvers.HandleMapPrefixed | src/slacker/commands/activity.py:149-152 | every handle stored in the map starts with `@` |
| ActivityResolvers.UsergroupNamesPrefixed | src/slacker/commands/activity.py:119-158 | every user-group name returned, looked up or fallen back, starts with `@` |
| Mentions.IdRun | src/slacker/commands/activity.py:249 | the greedy `[A-Z0-9]+` run: all id characters, stopped by a non-id character or the end |
| Mentions.TokenAt | src/slacker/commands/activity.py:249 | a token found at the start of the text is the prefix, an id and `>` |
| Mentions.TokenAtComplete | src/slacker/commands/activity.py:249 | whenever the text starts with a token, the scan finds exactly that token |
| Mentions.Segments | src/slacker/commands/activity.py:249-253 | the scan yields at most one segment per character |
| Mentions.SegmentTokensAreIds | src/slacker/commands/activity.py:249-253 | every token the scan takes whole has an id matching `[A-Z0-9]+` |
| Mentions.Substitute | src/slacker/commands/activity.py:309 | a pass leaves a text without `<` unchanged |
| Mentions.RenderFacts | src/slacker/commands/activity.py:309 | a pass leaves a text without `<` unchanged, and leaves no `<` when none occurs outside tokens, in the lead, the fallback or the names |
| Mentions.RewriteMentions | src/slacker/commands/activity.py:300-317 | the two passes leave a text without `<` unchanged |
| Mentions.IdsAreTokens | src/slacker/commands/activity.py:249-253 | every id found comes from a token of the scanned text |
| Mentions.RenderAppend | src/slacker/commands/activity.py:309 | substitution works piece by piece: rewriting a concatenation is the concatenation of the rewrites |
| Mentions.IdsAppend | src/slacker/commands/activity.py:249-253 | ids of a concatenation are found in order, first those of the first part |
| Mentions.RenderHasNoAngle | src/slacker/commands/activity.py:309 | with no `<` in the plain text, the lead, the fallback or the names, the rewritten text holds no `<` |
| Mentions.SegmentsRoundTrip | src/slacker/commands/activity.py:309 | the scan loses nothing: writing its segments back gives the text again |
| Mentions.FindAll | src/slacker/commands/activity.py:249-253 | every id `findall` returns is a non-empty run of `[A-Z0-9]` |
| Mentions.PlainTextUnchanged | src/slacker/commands/activity.py:309 | text without `<` in front of the rest is copied unchanged and yields no ids |
| Mentions.TokenReplaced | src/slacker/commands/activity.py:304-309 | a token is replaced by the lead and the cached name, or the fallback when the id is unknown, and its id is found |
| Mentions.NoAngleUnchanged | src/slacker/commands/activity.py:309-316 | text without `<` is left as it is by both passes |
| Mentions.SubstituteIdempotent | src/slacker/commands/activity.py:309 | a second pass changes nothing when no `<` occurs outside tokens, in the lead, fallback or names |
| Mentions.StrayAngleKept | src/slacker/commands/activity.py:309 | a `<` that starts no token is kept |
| Mentions.UserPassKeepsUsergroupToken | src/slacker/commands/activity.py:309 | the user pass leaves a user-group token as it is |
| Mentions.PlainThenToken | src/slacker/commands/activity.py:312-316 | plain text then a token: the text is kept and the token replaced |
| Mentions.UserPassOverMixed | src/slacker/commands/activity.py:304-309 | over a user mention, text and a user-group mention, the user pass changes only the user mention |
| Mentions.RewriteUserThenUsergroup | src/slacker/commands/activity.py:303-316 | `<@U>`, text, `<!subteam^G>` reads `@` and the cached name (or `@user`), the text, then the group's cached handle or `@team` |
| Mentions.UserPassOfMixedText | src/slacker/commands/activity.py:304-309 | the user pass over a user mention, text and a user-group mention replaces only the user mention |
| Mentions.NoAngleJoin | src/slacker/commands/activity.py:303-309 | `@`, a `<`-free handle and `<`-free text join into `<`-free text |
| Mentions.GroupMentionSkippedByUserPass | src/slacker/commands/activity.py:309 | the user pass skips a user-group mention whole and goes on after it |
| Mentions.UserPassPieces | src/slacker/commands/activity.py:304-309 | over a text of words and mentions whose every `<` opens a mention, the user pass turns exactly the user mentions into `@`+handle |
| Mentions.AfterUserPassShape | src/slacker/commands/activity.py:304-309 | after the user pass no user mention is left, every `<` still opens a mention, and the pieces still show the same |
| Mentions.GroupPassPieces | src/slacker/commands/activity.py:312-316 | the user-group pass over such a text without user mentions shows every piece |
| Mentions.RewritePieces | src/slacker/commands/activity.py:300-317 | the two passes over a text of words and mentions show each piece in turn: words as they are, `@`+handle or `@user`, the group handle or `@team` |
| Mentions.ShownAllNoAngle | src/slacker/commands/activity.py:303-316 | with `<`-free handles, the shown text holds no `<` |
| Mentions.RewriteIdempotent | src/slacker/commands/activity.py:300-317 | the two-pass rewrite applied to its own output changes nothing, for a text whose every `<` opens a mention and `<`-free handles |
| Mentions.LabelledUsergroupNotRewritten | src/slacker/commands/activity.py:316 | `<!subteam^ID\|label>` is neither rewritten nor found |
| Mentions.StrayAroundMention | src/slacker/commands/activity.py:309 | `<` + a user mention + `>` keeps the stray characters around the replaced mention |
| Mentions.SubstituteNotIdempotentInGeneral | src/slacker/commands/activity.py:309 | a stray `<` before a mention whose name is an unknown id-shaped word forms a new token on the first pass, so a second pass changes the text again |
| Activity.FetchCoordinate | src/slacker/commands/activity.py:185-200 | a coordinate exists exactly when both the channel id and the timestamp are present (thread entry for `thread_v2`, message otherwise) |
| Activity.ActorId | src/slacker/commands/activity.py:206-215 | the reacting user of a reaction, the author of a mention-family message, nobody otherwise |
| Activity.Fetches | src/slacker/commands/activity.py:178-200 | one request per item with a coordinate, no de-duplication; in item order; each for its own item's coordinate |
| Activity.FetchesPrefix | src/slacker/commands/activity.py:178-200 | the requests queued for a list start with those queued for its prefix |
| Activity.FetchesLast | src/slacker/commands/activity.py:192-200 | the last item, when it has a coordinate, queues the last request |
| Activity.FetchesComplete | src/slacker/commands/activity.py:192-200 | no item with a coordinate is skipped |
| Activity.RoundsPartitionUsers | src/slacker/commands/activity.py:244-257 | the second round never asks for a first-round id, and the two rounds cover every mentioned user |
| Activity.MessageCacheKeys | src/slacker/commands/activity.py:238-241 | an item has a cache entry exactly when it has a coordinate; the entry is the reply to its own request |
| Activity.MessageCacheHas | src/slacker/commands/activity.py:238-241 | item `i` has a cache entry exactly when it has a coordinate |
| Activity.MessageCacheAt | src/slacker/commands/activity.py:238-241 | the cache entry of an item with a coordinate is the body fetched for that coordinate |
| Activity.Resolve | src/slacker/commands/activity.py:238-274 | the user cache covers exactly the ids of both rounds; the channel cache exactly the items' channel ids; the group cache is empty without user-group ids and otherwise the result of the batch look-up for them |
| Activity.ShownText | src/slacker/commands/activity.py:300-317 | no fetched text gives `null`; an empty text stays empty; any other text is shown with its user mentions and then its user-group mentions rewritten, so a text without `<` is shown as fetched |
| Activity.ShownTextOfPieces | src/slacker/commands/activity.py:300-317 | a fetched text of words and mentions is shown piece by piece: words as they are, `@` and the handle (or `@user`), the group handle (or `@team`) |
| Activity.PlainTextShownAsIs | src/slacker/commands/activity.py:300-317 | a fetched text without `<` is shown exactly as fetched |
| Activity.EnrichItem | src/slacker/commands/activity.py:279-330 | the copy's keys are the item's plus exactly the added ones; other fields unchanged; channel name from the cache or `unknown`; text only with a cache entry; username only with an actor; emoji only for reactions (else kept as it was) |
| Activity.Enrich | src/slacker/commands/activity.py:277-334 | one output per input, in order, each merged against the caches of both rounds |
| Activity.EnrichItemKeys | src/slacker/commands/activity.py:279-330 | the merge step always adds a channel name, a text exactly with a cache entry, a username for an actor and an emoji for a reaction, and keeps the other fields |
| Activity.EnrichedItem | src/slacker/commands/activity.py:279-330 | fields the merge does not own are kept; a channel name is always present; a message text exactly when there is a coordinate; a username for every actor; an emoji for every reaction |
| Activity.EnrichedText | src/slacker/commands/activity.py:300-317 | the shown text is the body fetched for the item's own coordinate, rewritten with the final caches |
| Activity.ChannelNameResolved | src/slacker/commands/activity.py:294-297 | the `unknown` fallback is never taken for an item that names a channel |
| Activity.ResolvedUsers | src/slacker/commands/activity.py:256-274 | every first-round name is kept as fetched; a name for any other id comes from the second round, which asked for that id |
| Activity.UserCacheConsistent | src/slacker/commands/activity.py:256-269 | every cached name is the look-up of its own id, and the cache covers exactly the ids of both rounds |
| Activity.UsernameResolved | src/slacker/commands/activity.py:320-330 | the shown username is the actor's handle (or id), never a miss in the cache |
| Activity.MentionedUsersResolved | src/slacker/commands/activity.py:244-269 | every user mentioned in a fetched text is in the cache the rewrite uses |
| Activity.UsergroupCachePrefixed | src/slacker/commands/activity.py:253-274 | every name in the user-group cache the rewrite uses starts with `@`, like the `@team` fallback, so the substitution adds no `@` of its own |
| Strings.ContainsIff | src/slacker/commands/record.py:221 | the substring test holds exactly when the needle occurs at some position |
| Strings.ContainsExtend | src/slacker/commands/login.py:22 | a substring stays a substring when text is added on either side |
| Strings.LowerIdempotent | src/slacker/commands/record.py:221 | lower-casing twice is lower-casing once |
| Strings.Lower | src/slacker/commands/record.py:221 | lower-casing keeps the length, maps each character, and leaves no upper-case letter |
| Strings.Without | src/slacker/commands/reminders.py:95 | removing a character removes all of it and keeps every other character with its count |
| Strings.WithoutAppend | src/slacker/commands/reminders.py:95 | removing a character distributes over concatenation |
| Strings.BeforeFirst | src/slacker/commands/discover.py:46 | the category is a prefix of the name, holds no dot, and ends at the first dot or the end |
| Strings.LessEqReflexive | src/slacker/commands/discover.py:41 | string order is reflexive |
| Strings.LessEqAntisymmetric | src/slacker/commands/discover.py:41 | string order is antisymmetric |
| Strings.LessEqTransitive | src/slacker/commands/discover.py:41 | string order is transitive |
| Strings.LessEqTotal | src/slacker/commands/discover.py:41 | string order is total |
| Discover.FirstIndex | src/slacker/commands/discover.py:36-38 | the first position of a name in the match list |
| Discover.Dedupe | src/slacker/commands/discover.py:36-38 | the kept names are exactly the matched names with a dot, without duplicates, in order of first occurrence |
| Discover.InsertSorted | src/slacker/commands/discover.py:41 | inserting into an ascending list keeps it ascending |
| Discover.InsertDistinct | src/slacker/commands/discover.py:41 | inserting a new name into a list without duplicates keeps it so |
| Discover.Sort | src/slacker/commands/discover.py:41 | sorting keeps the names with their counts |
| Discover.SortSorted | src/slacker/commands/discover.py:41 | the sorted list is ascending and keeps distinctness |
| Discover.Select | src/slacker/commands/discover.py:44-49 | a category's list holds exactly the methods of that category |
| Discover.Group | src/slacker/commands/discover.py:44-49 | the categories are exactly those of the methods |
| Discover.GroupIsSelect | src/slacker/commands/discover.py:44-49 | each category's list is the methods of that category in list order |
| Discover.SelectKeepsOrder | src/slacker/commands/discover.py:44-49 | a category's list is sorted and has no duplicates |
| Discover.GroupKeys | src/slacker/commands/discover.py:44-49 | no list is created for a category that no method has |
| Discover.ExactlyOneCategory | src/slacker/commands/discover.py:44-49 | every method sits in its own category's list and in no other |
| Discover.Discover | src/slacker/commands/discover.py:36-52 | the method list is the dotted matches, distinct and sorted; the total is its length; the categories are exactly those of the methods, each list that category's methods, sorted and distinct |
| Login.NormalizeUrl | src/slacker/commands/login.py:18-20 | the result starts with `https://`; a URL that already does is unchanged, any other keeps the URL after the added scheme |
| Login.NormalizeIdempotent | src/slacker/commands/login.py:19-20 | normalising twice is normalising once |
| Login.PlainHttpPrefixed | src/slacker/commands/login.py:19 | an `http://` URL is prefixed too |
| Login.ValidateUrl | src/slacker/commands/login.py:22-24 | accepted exactly when the normalised URL contains `.slack.com`, and then it is the normalised URL |
| Login.ValidateUrlIff | src/slacker/commands/login.py:22 | acceptance means `.slack.com` occurs at some position of the normalised URL |
| Login.SlackHostAccepted | src/slacker/commands/login.py:19-22 | a URL naming a Slack host is accepted with or without its scheme |
| Reminders.KeepReminders | src/slacker/commands/reminders.py:40-41 | the filter never lengthens the list |
| Reminders.KeepRemindersMembers | src/slacker/commands/reminders.py:40-41 | exactly the items whose `item_type` is `reminder` are kept |
| Reminders.KeepRemindersAppend | src/slacker/commands/reminders.py:41 | the filter keeps the input order |
| Reminders.WorkspaceUrl | src/slacker/commands/reminders.py:44-45 | the `url` of an ok `auth.test` reply, else `https://slack.com` |
| Reminders.At | src/slacker/commands/reminders.py:60 | a list index is present exactly when it is in range of a list |
| Reminders.DescriptionPath | src/slacker/commands/reminders.py:59-61 | a value is found only under the first element of a list description whose first block has `elements` |
| Reminders.ReminderText | src/slacker/commands/reminders.py:56-62 | `Unknown` for a missing or falsy description or a broken path; the value at the end of the path for a truthy description where the path exists |
| Reminders.ReminderTextOfPlainDescription | src/slacker/commands/reminders.py:56-62 | a description of one block, one section and one leaf shows that leaf's `text` |
| Reminders.MessageLink | src/slacker/commands/reminders.py:95-96 | the link is the workspace URL, `archives/`, the channel id, `/p` and the timestamp with its dots removed, every other character kept in order |
| Reminders.DotFreeTimestampKept | src/slacker/commands/reminders.py:95-96 | a timestamp without a dot, such as the `unknown` default, ends the link as it is |
| Reminders.LinkOfTimestamp | src/slacker/commands/reminders.py:95-96 | a `secs.micros` timestamp appears in the link as `secs` followed by `micros` |
| Reminders.TextOrUnknown | src/slacker/commands/reminders.py:77-78 | a missing channel id or timestamp reads `unknown` |
| Reminders.Shape | src/slacker/commands/reminders.py:50-107 | a reminder entry exactly for `item_type` `reminder`; state defaults to `unknown`; a message entry carries the synchronous channel name and body, the link, and a formatted date and a parsed timestamp exactly when `float` and `fromtimestamp` both succeed, else the raw timestamp as the date |
| Reminders.ListReminders | src/slacker/commands/reminders.py:33-107 | an error exactly for a not-ok list reply; else one entry per remaining saved item, in order |
| Reminders.RemindersOnlyGivesReminders | src/slacker/commands/reminders.py:40-54 | with the reminders-only flag every entry is a reminder entry |
| DirectMessages.MessageTs | src/slacker/commands/dms.py:60-61 | a missing timestamp is 0; a number is itself; `true` is 1 and `false` is 0; a string goes through `float`; `null`, a list or an object raises |
| DirectMessages.OwnUserId | src/slacker/commands/dms.py:54-55 | the own id is empty when `auth.test` is not ok |
| DirectMessages.Shape | src/slacker/commands/dms.py:67-83 | `from_you` exactly when the sender is the own id; `has_files` only on individual DMs, true exactly for truthy `files`; a missing text is empty |
| DirectMessages.Timestamps | src/slacker/commands/dms.py:59-61 | all message times parse exactly when each one does, and then they are each conversation's time |
| DirectMessages.Recent | src/slacker/commands/dms.py:58-83 | the filter never lengthens the list |
| DirectMessages.RecentMembers | src/slacker/commands/dms.py:63-65 | every listed conversation is at or after `since`, and every such conversation is listed |
| DirectMessages.RecentAppend | src/slacker/commands/dms.py:58-83 | the filter keeps the input order |
| DirectMessages.RecentTimes | src/slacker/commands/dms.py:58-83 | every listed conversation carries some input time at or after `since` |
| DirectMessages.ListedIffRecent | src/slacker/commands/dms.py:63-65 | a conversation is listed exactly when its time is at or after `since` |
| DirectMessages.ListDms | src/slacker/commands/dms.py:28-116 | an unparseable since-expression or a not-ok reply is an error; a bad timestamp is an error exactly when a `float` fails or a listed time cannot be formatted; otherwise the two filtered lists, each count the length of its list, every listed time formattable |
| DirectMessages.SenderlessIsYoursWhenAuthFails | src/slacker/commands/dms.py:55-68 | when `auth.test` fails, a message without a sender counts as the caller's own |
| Record.ResolveScenario | src/slacker/commands/record.py:47-59 | a given non-empty name is used; off a terminal a missing one is an error; on a terminal an empty answer is an error; a resolved name is never empty |
| Record.BlankGivenScenarioAccepted | src/slacker/commands/record.py:47-59 | a blank name given on the command line is not stripped and is accepted |
| Record.StopPollingIgnoresCase | src/slacker/commands/record.py:157-158 | the closed-browser test ignores case |
| Record.StopPollingPhrases | src/slacker/commands/record.py:157-159 | polling stops exactly when the lower-cased message contains one of the four phrases |
| Record.Matching | src/slacker/commands/record.py:219-222 | the filter never lengthens the list |
| Record.MatchingMembers | src/slacker/commands/record.py:219-222 | exactly the entries whose URL contains the filter, ignoring case, are kept |
| Record.MatchingAppend | src/slacker/commands/record.py:219-222 | the filter keeps the capture order |
| Record.ApplyFilter | src/slacker/commands/record.py:204-229 | no filter or an empty one leaves the list unchanged; otherwise the matching entries |
| Record.FilterIgnoresCase | src/slacker/commands/record.py:221 | a filter and its lower-cased form keep the same entries |
| Record.Output | src/slacker/commands/record.py:232-238 | `total_requests` is the length of the saved list, which is the filtered capture |
| Record.Bump | src/slacker/commands/record.py:259-260 | a bump adds at most one counter |
| Record.BumpCounts | src/slacker/commands/record.py:259-260 | a bump adds one to its key's count and to the total, and nothing to other keys |
| Record.Keys | src/slacker/commands/record.py:248-249 | one key per counter |
| Record.BumpKeys | src/slacker/commands/record.py:259-260 | a new key is appended, a known one keeps its place; counters stay positive |
| Record.TalliesCount | src/slacker/commands/record.py:250-260 | each counter counts its key's occurrences; the counts sum to the number of keys; keys are distinct and are exactly those seen |
| Record.InsertByCount | src/slacker/commands/record.py:263 | insertion keeps every counter |
| Record.SortByCount | src/slacker/commands/record.py:263 | sorting by count keeps every counter |
| Record.InsertByCountSorted | src/slacker/commands/record.py:263 | insertion keeps the descending order |
| Record.SortByCountSorted | src/slacker/commands/record.py:263 | the sorted counters are in non-increasing count order |
| Record.Top | src/slacker/commands/record.py:263-267 | the top list holds exactly `n` counters, or all of them when there are at most `n` |
| Record.TopIsTop | src/slacker/commands/record.py:263-267 | the top list is descending, drawn from the tally, and nothing left out counts more than anything kept |
| Record.RequestUrls | src/slacker/commands/record.py:250-257 | one parsed URL per request entry; responses are skipped (contents and order are fixed by `Record.RequestUrlsAt` and `Record.RequestUrlsFrom`) |
| Record.RequestUrlsAt | src/slacker/commands/record.py:250-257 | the request entry at position `i` yields the parse of its URL, at the position counting the request entries before it |
| Record.RequestUrlsFrom | src/slacker/commands/record.py:250-257 | every parsed URL is the parse of the URL of a request entry, the one with that many request entries before it |
| Record.Domains | src/slacker/commands/record.py:257 | one domain per request |
| Record.Paths | src/slacker/commands/record.py:256 | one path per request |
| Record.Summarize | src/slacker/commands/record.py:246-268 | exactly ten domains and twenty paths are shown, or all of them when there are fewer |
| Record.SummaryCountsRequests | src/slacker/commands/record.py:250-260 | the domain counts and the path counts each sum to the number of request entries |
| Record.SummaryOrdered | src/slacker/commands/record.py:262-268 | both top lists are in non-increasing count order |

## Left out

- HTTP transport, the asynchronous client and `asyncio.gather`: replies are the fields of an `Api` value, each a fixed function of its request.
- Exceptions from the asynchronous calls in `activity.py` are not caught by the source, so only the falsy and not-ok paths are modelled there.
- The hard-coded EdgeAPI URL, headers and payload of the user-group call (`activity.py` lines 129-140): the batch call is one function of the requested id set.
- Field values of the wrong JSON type: the model reads them as absent, while Python would raise, or would format them with `str()` (for example a `null` handle shown as `@None`).
- ActivityResolvers.HandleMap: results whose `id` is missing, `null`, a number or a boolean are dropped. The source stores them under a key that no look-up by a string id can reach. A list or object id makes the source raise, and the model gives the fallback for it (`ActivityResolvers.UnhashableIdFallsBack`).
- Dictionary key order: resolver caches, categories and the enriched items are maps. An enriched item is `item.copy()` with keys added after the item's own (`activity.py` lines 279-330), and the model does not keep that order. The tallies of `record` keep first-appearance order, because the stable sort depends on it.
- Record.SortByCountSorted: proves the order and the permutation of the sort, but not its stability for equal counts.
- Python `float()`, `datetime.fromtimestamp`, `dateparser` and the midnight truncation of `today`: they are parameters or inputs. In `dms`, `float()` is `parseFloat` and the success of `fromtimestamp` is `canFormat`. In `reminders`, `float()` followed by `fromtimestamp` is `parseTime`. The since-instant is an input. NaN is not modelled.
- Date formatting (`strftime`): a reminder keeps its raw due timestamp. A message keeps its parsed timestamp, or the raw string when parsing or formatting fails.
- Reminders.ListReminders: does not model the crash at `reminders.py` line 66 when `date_due` is not a time `fromtimestamp` accepts, because the formatted due date is left out.
- Strings.Lower: lower-cases ASCII letters only, not the full Unicode mapping of Python's `lower()`.
- `urlparse`: the summary takes it as a parameter giving the domain and the path.
- The documentation scrape of `discover` (HTTP fetch and HTML regex): the model starts from the list of matched method names.
- Browser automation, credential extraction, `input()` prompts and `strip()`: the prompted scenario name is an input, already stripped.
- Output formatting (`formatters.py`), printing, file writing and `sys.exit`: errors are `Failure` values.
- CLI parsing, `whoami.py`, `reminder.py`, `api_call.py` and the unseen `auth` module are not part of this model.
- Python's equality between booleans and numbers: ids are compared as strings.
