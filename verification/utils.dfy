/** The synchronous look-ups of `utils.py`: a user's handle, a channel's display
    name and a message's text, each a pure function of the replies it receives.
    Every exception inside these helpers is caught and turned into the fallback,
    so here a `None` reply means "the call raised". */
module SlackUtils {
  import opened Wrappers
  import opened JsonValues

  /** The `name` carried by the `user` record of a `users.info` reply. */
  function ReportedUserName(reply: Json): Option<string> {
    Text(Obj(reply, "user"), "name")
  }

  /** `get_username`: the handle from an ok reply, else the id itself. */
  function GetUsername(userId: string, reply: Option<Json>): (name: string)
    ensures !OkReply(reply) ==> name == userId
    ensures OkReply(reply) && ReportedUserName(reply.value).Some? ==> name == ReportedUserName(reply.value).value
    ensures OkReply(reply) && ReportedUserName(reply.value).None? ==> name == userId
  {
    match reply
    case None => userId
    case Some(r) =>
      if Ok(r) then
        var user := Obj(r, "user");
        Text(user, "name").GetOr(userId)
      else userId
  }

  /** The other participant of a direct-message channel record: present when
      `is_im` is truthy and `user` is a non-empty string. */
  function ImPartner(channel: Json): Option<string> {
    if TruthyMember(channel, "is_im") then NonEmptyText(channel, "user") else None
  }

  /** `channel.get('name', channel_id)`. */
  function PlainChannelName(channel: Json, channelId: string): string {
    Text(channel, "name").GetOr(channelId)
  }

  /** `get_channel_name`: the channel's name; for a direct message whose partner
      look-up succeeds, `@` and the partner's handle. A failed channel look-up, or
      a partner look-up that raises, yields the channel id; a partner look-up that
      answers "not ok" falls back to the channel's own name. */
  function GetChannelName(channelId: string, reply: Option<Json>, usersInfo: string -> Option<Json>): (name: string)
    ensures !OkReply(reply) ==> name == channelId
    ensures OkReply(reply) && ImPartner(Obj(reply.value, "channel")).None? ==>
              name == PlainChannelName(Obj(reply.value, "channel"), channelId)
    ensures OkReply(reply) && ImPartner(Obj(reply.value, "channel")).Some? ==>
              var partnerReply := usersInfo(ImPartner(Obj(reply.value, "channel")).value);
              && (partnerReply.None? ==> name == channelId)
              && (partnerReply.Some? && !Ok(partnerReply.value) ==>
                    name == PlainChannelName(Obj(reply.value, "channel"), channelId))
              && (OkReply(partnerReply) ==>
                    name == "@" + ReportedUserName(partnerReply.value).GetOr(channelId))
  {
    match reply
    case None => channelId
    case Some(r) =>
      if !Ok(r) then channelId
      else
        var channel := Obj(r, "channel");
        if TruthyMember(channel, "is_im") && NonEmptyText(channel, "user").Some? then
          match usersInfo(NonEmptyText(channel, "user").value)
          case None => channelId
          case Some(u) =>
            if Ok(u) then "@" + Text(Obj(u, "user"), "name").GetOr(channelId)
            else Text(channel, "name").GetOr(channelId)
        else Text(channel, "name").GetOr(channelId)
  }

  /** The concatenation, in order, of `f` over `xs`. */
  function Join(xs: seq<Json>, f: Json -> string): string
  {
    if |xs| == 0 then "" else f(xs[0]) + Join(xs[1..], f)
  }

  /** Joining a concatenation is concatenating the joins: every piece lands in
      input order. */
  lemma {:induction false} JoinAppend(xs: seq<Json>, ys: seq<Json>, f: Json -> string)
    ensures Join(xs + ys, f) == Join(xs, f) + Join(ys, f)
    decreases |xs|
  {
    if |xs| > 0 {
      assert (xs + ys)[1..] == xs[1..] + ys;
      JoinAppend(xs[1..], ys, f);
    } else {
      assert xs + ys == ys;
    }
  }

  /** Pieces that contribute nothing leave the join empty. */
  lemma {:induction false} JoinSilent(xs: seq<Json>, f: Json -> string)
    requires forall i :: 0 <= i < |xs| ==> f(xs[i]) == ""
    ensures Join(xs, f) == ""
    decreases |xs|
  {
    if |xs| > 0 {
      JoinSilent(xs[1..], f);
    }
  }

  /** A leaf of a `rich_text_section` that carries text. */
  predicate IsTextLeaf(elem: Json) {
    Text(elem, "type") == Some("text")
  }

  /** The text a leaf carries: its `text` member, or "" when it has none. */
  function LeafString(leaf: Json): string {
    Text(leaf, "text").GetOr("")
  }

  /** The texts of a list of leaves, concatenated in order. */
  function LeafTexts(leaves: seq<Json>): string {
    if |leaves| == 0 then "" else LeafString(leaves[0]) + LeafTexts(leaves[1..])
  }

  lemma {:induction false} LeafTextsAppend(a: seq<Json>, b: seq<Json>)
    ensures LeafTexts(a + b) == LeafTexts(a) + LeafTexts(b)
    decreases |a|
  {
    if |a| > 0 {
      assert (a + b)[1..] == a[1..] + b;
      LeafTextsAppend(a[1..], b);
    } else {
      assert a + b == b;
    }
  }

  /** The concatenation, in order, of the lists `f` gives for each of `xs`. */
  function Flatten(xs: seq<Json>, f: Json -> seq<Json>): seq<Json> {
    if |xs| == 0 then [] else f(xs[0]) + Flatten(xs[1..], f)
  }

  /** A value is in the flattened list exactly when some piece's list holds it. */
  lemma {:induction false} FlattenMembers(xs: seq<Json>, f: Json -> seq<Json>, x: Json)
    ensures x in Flatten(xs, f) <==> exists i :: 0 <= i < |xs| && x in f(xs[i])
    decreases |xs|
  {
    if |xs| > 0 {
      FlattenMembers(xs[1..], f, x);
      if x in Flatten(xs[1..], f) {
        var i :| 0 <= i < |xs[1..]| && x in f(xs[1..][i]);
        assert x in f(xs[i + 1]);
      }
      if exists i :: 0 <= i < |xs| && x in f(xs[i]) {
        var i :| 0 <= i < |xs| && x in f(xs[i]);
        if i > 0 {
          assert x in f(xs[1..][i - 1]);
        }
      }
    }
  }

  /** Joining piecewise texts is taking the text of the flattened leaves, when
      each piece's text is the text of its own leaves. */
  lemma {:induction false} JoinFlatten(xs: seq<Json>, g: Json -> string, f: Json -> seq<Json>)
    requires forall i :: 0 <= i < |xs| ==> g(xs[i]) == LeafTexts(f(xs[i]))
    ensures Join(xs, g) == LeafTexts(Flatten(xs, f))
    decreases |xs|
  {
    if |xs| > 0 {
      JoinFlatten(xs[1..], g, f);
      LeafTextsAppend(f(xs[0]), Flatten(xs[1..], f));
    }
  }

  /** The `text` leaves of a list of section elements, in order. */
  function TextLeaves(elems: seq<Json>): (leaves: seq<Json>)
    ensures forall l :: l in leaves ==> l in elems && IsTextLeaf(l)
    ensures forall i :: 0 <= i < |elems| && IsTextLeaf(elems[i]) ==> elems[i] in leaves
  {
    if |elems| == 0 then []
    else (if IsTextLeaf(elems[0]) then [elems[0]] else []) + TextLeaves(elems[1..])
  }

  /** The text leaves a `rich_text` block element holds: none unless it is a
      `rich_text_section`. */
  function SectionLeaves(element: Json): seq<Json> {
    if Text(element, "type") == Some("rich_text_section") then TextLeaves(Array(element, "elements")) else []
  }

  /** The text leaves a message block holds: none unless it is `rich_text`. */
  function BlockLeaves(block: Json): seq<Json> {
    if Text(block, "type") == Some("rich_text") then Flatten(Array(block, "elements"), SectionLeaves) else []
  }

  /** Every text leaf of every section of every rich-text block, in order. */
  function MessageLeaves(blocks: seq<Json>): seq<Json> {
    Flatten(blocks, BlockLeaves)
  }

  /** A leaf of a `rich_text_section`: its `text` when it is a `text` leaf. */
  function LeafText(elem: Json): (r: string)
    ensures !IsTextLeaf(elem) ==> r == ""
    ensures IsTextLeaf(elem) ==> r == LeafString(elem)
  {
    if Text(elem, "type") == Some("text") then Text(elem, "text").GetOr("") else ""
  }

  /** Collecting leaf by leaf gives the texts of the `text` leaves. */
  lemma {:induction false} JoinLeaves(elems: seq<Json>)
    ensures Join(elems, LeafText) == LeafTexts(TextLeaves(elems))
    decreases |elems|
  {
    if |elems| > 0 {
      JoinLeaves(elems[1..]);
      var head := if IsTextLeaf(elems[0]) then [elems[0]] else [];
      LeafTextsAppend(head, TextLeaves(elems[1..]));
      if IsTextLeaf(elems[0]) {
        assert LeafTexts(head) == LeafString(elems[0]) + LeafTexts(head[1..]);
        assert head[1..] == [];
      }
    }
  }

  /** An element of a `rich_text` block: the texts of its `text` leaves, in
      order, when it is a section; nothing otherwise. */
  function SectionText(element: Json): (r: string)
    ensures Text(element, "type") != Some("rich_text_section") ==> r == ""
    ensures r == LeafTexts(SectionLeaves(element))
  {
    if Text(element, "type") == Some("rich_text_section") then
      JoinLeaves(Array(element, "elements"));
      Join(Array(element, "elements"), LeafText)
    else ""
  }

  /** A block of a message: the texts of the `text` leaves of its sections, in
      order, when it is a `rich_text` block; nothing otherwise. */
  function BlockText(block: Json): (r: string)
    ensures Text(block, "type") != Some("rich_text") ==> r == ""
    ensures r == LeafTexts(BlockLeaves(block))
  {
    if Text(block, "type") == Some("rich_text") then
      JoinFlatten(Array(block, "elements"), SectionText, SectionLeaves);
      Join(Array(block, "elements"), SectionText)
    else ""
  }

  /** The text of one message record: its top-level `text`, or, when that is
      empty, the texts of the `text` leaves of its rich-text blocks in order. */
  function MessageText(message: Json): (text: string)
    ensures NonEmptyText(message, "text").Some? ==> text == NonEmptyText(message, "text").value
    ensures NonEmptyText(message, "text").None? ==> text == LeafTexts(MessageLeaves(Array(message, "blocks")))
  {
    var text := Text(message, "text").GetOr("");
    if text == "" && |Array(message, "blocks")| > 0 then
      JoinFlatten(Array(message, "blocks"), BlockText, BlockLeaves);
      Join(Array(message, "blocks"), BlockText)
    else text
  }

  /** The leaves a message's text is read from are exactly the `text` leaves of
      the `rich_text_section` elements of its `rich_text` blocks. */
  lemma MessageLeavesMembers(blocks: seq<Json>, leaf: Json)
    ensures leaf in MessageLeaves(blocks) <==>
              exists i, j :: 0 <= i < |blocks| && Text(blocks[i], "type") == Some("rich_text")
                && 0 <= j < |Array(blocks[i], "elements")|
                && Text(Array(blocks[i], "elements")[j], "type") == Some("rich_text_section")
                && leaf in Array(Array(blocks[i], "elements")[j], "elements") && IsTextLeaf(leaf)
  {
    FlattenMembers(blocks, BlockLeaves, leaf);
    forall i | 0 <= i < |blocks|
      ensures leaf in BlockLeaves(blocks[i]) <==>
                Text(blocks[i], "type") == Some("rich_text")
                && (exists j :: 0 <= j < |Array(blocks[i], "elements")|
                      && Text(Array(blocks[i], "elements")[j], "type") == Some("rich_text_section")
                      && leaf in Array(Array(blocks[i], "elements")[j], "elements") && IsTextLeaf(leaf))
    {
      var es := Array(blocks[i], "elements");
      FlattenMembers(es, SectionLeaves, leaf);
      forall j | 0 <= j < |es|
        ensures leaf in SectionLeaves(es[j]) <==>
                  Text(es[j], "type") == Some("rich_text_section") && leaf in Array(es[j], "elements") && IsTextLeaf(leaf)
      {
        if Text(es[j], "type") == Some("rich_text_section") && leaf in Array(es[j], "elements") && IsTextLeaf(leaf) {
          var k :| 0 <= k < |Array(es[j], "elements")| && Array(es[j], "elements")[k] == leaf;
        }
      }
    }
  }

  /** `get_message_content`: the first message's text, or `None` when the
      history call raised, was not ok, or listed no message. */
  function GetMessageContent(reply: Option<Json>): (content: Option<string>)
    ensures content.Some? <==> OkReply(reply) && |Array(reply.value, "messages")| > 0
    ensures content.Some? ==> content.value == MessageText(Array(reply.value, "messages")[0])
  {
    match reply
    case None => None
    case Some(r) =>
      if Ok(r) && |Array(r, "messages")| > 0 then
        Some(MessageText(Array(r, "messages")[0]))
      else None
  }
}
