/** The `dms` listing: the individual and group direct-message
    conversations of `client.dms` whose latest message is at or after the
    `--since` instant, each marked with whether the caller sent it. */
module DirectMessages {
  import opened Wrappers
  import opened JsonValues
  import opened SlackApi
  import SlackUtils

  datatype DmsError =
    | UnparseableSince(text: string)
    | ListFailed(error: Json)
    | BadTimestamp

  /** One listed conversation. `hasFiles` is present on individual DMs only. */
  datatype Conversation = Conversation(
    id: Json, ts: real, fromYou: bool, username: string, text: Json, hasFiles: Option<bool>)

  datatype Listing = Listing(dms: seq<Conversation>, groupDms: seq<Conversation>, dmCount: nat, groupDmCount: nat)

  /** `float(message.get('ts', 0))`: a missing ts is 0, a number is itself, a
      boolean is 0 or 1, a string goes through `parseFloat` (Python's
      `float()`); anything else raises, shown as `None`. */
  function MessageTs(message: Json, parseFloat: string -> Option<real>): (t: Option<real>)
    ensures Member(message, "ts").None? ==> t == Some(0.0)
    ensures Text(message, "ts").Some? ==> t == parseFloat(Text(message, "ts").value)
    ensures Member(message, "ts") == Some(JNull) ==> t.None?
    ensures forall n :: Member(message, "ts") == Some(JNum(n)) ==> t == Some(n)
    ensures Member(message, "ts") == Some(JBool(true)) ==> t == Some(1.0)
    ensures Member(message, "ts") == Some(JBool(false)) ==> t == Some(0.0)
    ensures Member(message, "ts").Some? && (Member(message, "ts").value.JArr? || Member(message, "ts").value.JObj?)
            ==> t.None?
  {
    match Member(message, "ts")
    case None => Some(0.0)
    case Some(JNum(n)) => Some(n)
    case Some(JBool(b)) => Some(if b then 1.0 else 0.0)
    case Some(JStr(s)) => parseFloat(s)
    case Some(_) => None
  }

  /** The id `from_you` compares against: the `user_id` of an ok `auth.test`
      reply, else the empty string. */
  function OwnUserId(auth: Json): (own: string)
    ensures !Ok(auth) ==> own == ""
    ensures Ok(auth) && Text(auth, "user_id").Some? ==> own == Text(auth, "user_id").value
  {
    if Ok(auth) then Text(auth, "user_id").GetOr("") else ""
  }

  /** `message.get('user', '')`. */
  function Sender(message: Json): string {
    Text(message, "user").GetOr("")
  }

  /** The entry for one conversation whose message time is `ts`. */
  function Shape(conv: Json, ts: real, own: string, api: Api, individual: bool): (e: Conversation)
    ensures e.ts == ts
    ensures e.fromYou <==> Sender(Obj(conv, "message")) == own
    ensures e.hasFiles.Some? <==> individual
    ensures e.hasFiles.Some? ==> (e.hasFiles.value <==> TruthyMember(Obj(conv, "message"), "files"))
    ensures var u := Sender(Obj(conv, "message")); e.username == SlackUtils.GetUsername(u, api.usersInfo(u))
    ensures Member(Obj(conv, "message"), "text").None? ==> e.text == JStr("")
  {
    var message := Obj(conv, "message");
    var user := Sender(message);
    Conversation(
      Member(conv, "id").GetOr(JStr("")),
      ts,
      user == own,
      SlackUtils.GetUsername(user, api.usersInfo(user)),
      Member(message, "text").GetOr(JStr("")),
      if individual then Some(TruthyMember(message, "files")) else None)
  }

  /** Every conversation's message time, or `None` when one of them raises. */
  function Timestamps(convs: seq<Json>, parseFloat: string -> Option<real>): (tss: Option<seq<real>>)
    ensures tss.Some? <==> forall i :: 0 <= i < |convs| ==> MessageTs(Obj(convs[i], "message"), parseFloat).Some?
    ensures tss.Some? ==> |tss.value| == |convs|
    ensures tss.Some? ==>
              forall i :: 0 <= i < |convs| && i < |tss.value| ==>
                Some(tss.value[i]) == MessageTs(Obj(convs[i], "message"), parseFloat)
  {
    if |convs| == 0 then Some([])
    else
      var n := |convs| - 1;
      assert forall i :: 0 <= i < n ==> convs[..n][i] == convs[i];
      match (Timestamps(convs[..n], parseFloat), MessageTs(Obj(convs[n], "message"), parseFloat))
      case (Some(earlier), Some(t)) => Some(earlier + [t])
      case _ => None
  }

  /** The loop over one conversation list: the recent ones, shaped, in order. */
  function Recent(convs: seq<Json>, tss: seq<real>, since: real, own: string, api: Api, individual: bool): (r: seq<Conversation>)
    requires |tss| == |convs|
    ensures |r| <= |convs|
  {
    if |convs| == 0 then []
    else
      var n := |convs| - 1;
      Recent(convs[..n], tss[..n], since, own, api, individual)
        + (if tss[n] >= since then [Shape(convs[n], tss[n], own, api, individual)] else [])
  }

  /** Every listed conversation is recent, and every recent one is listed. */
  lemma {:induction false} RecentMembers(convs: seq<Json>, tss: seq<real>, since: real, own: string, api: Api, individual: bool)
    requires |tss| == |convs|
    ensures var r := Recent(convs, tss, since, own, api, individual);
            && (forall k :: 0 <= k < |r| ==> r[k].ts >= since)
            && (forall i :: 0 <= i < |convs| && tss[i] >= since ==> Shape(convs[i], tss[i], own, api, individual) in r)
  {
    if |convs| > 0 {
      var n := |convs| - 1;
      assert forall i :: 0 <= i < n ==> convs[..n][i] == convs[i] && tss[..n][i] == tss[i];
      RecentMembers(convs[..n], tss[..n], since, own, api, individual);
      assert Recent(convs, tss, since, own, api, individual)
        == Recent(convs[..n], tss[..n], since, own, api, individual)
           + (if tss[n] >= since then [Shape(convs[n], tss[n], own, api, individual)] else []);
    }
  }

  /** The filter keeps the input order: it distributes over concatenation. */
  lemma {:induction false} RecentAppend(a: seq<Json>, ta: seq<real>, b: seq<Json>, tb: seq<real>,
                                         since: real, own: string, api: Api, individual: bool)
    requires |ta| == |a| && |tb| == |b|
    ensures Recent(a + b, ta + tb, since, own, api, individual)
              == Recent(a, ta, since, own, api, individual) + Recent(b, tb, since, own, api, individual)
  {
    if |b| == 0 {
      assert a + b == a && ta + tb == ta;
    } else {
      var n := |b| - 1;
      assert (a + b)[..|a| + n] == a + b[..n];
      assert (ta + tb)[..|a| + n] == ta + tb[..n];
      RecentAppend(a, ta, b[..n], tb[..n], since, own, api, individual);
    }
  }

  /** Every listed conversation carries the time of some input conversation. */
  lemma {:induction false} RecentTimes(convs: seq<Json>, tss: seq<real>, since: real, own: string, api: Api, individual: bool)
    requires |tss| == |convs|
    ensures forall k :: 0 <= k < |Recent(convs, tss, since, own, api, individual)| ==>
              Recent(convs, tss, since, own, api, individual)[k].ts in tss
              && Recent(convs, tss, since, own, api, individual)[k].ts >= since
  {
    if |convs| > 0 {
      var n := |convs| - 1;
      RecentTimes(convs[..n], tss[..n], since, own, api, individual);
      var earlier := Recent(convs[..n], tss[..n], since, own, api, individual);
      var last: seq<Conversation> := if tss[n] >= since then [Shape(convs[n], tss[n], own, api, individual)] else [];
      var r := Recent(convs, tss, since, own, api, individual);
      assert r == earlier + last;
      forall k | 0 <= k < |r|
        ensures r[k].ts in tss && r[k].ts >= since
      {
        if k < |earlier| {
          assert r[k] == earlier[k];
          assert earlier[k].ts in tss[..n] && earlier[k].ts >= since;
          assert forall x :: x in tss[..n] ==> x in tss;
        } else {
          assert |last| == 1 && tss[n] >= since;
          assert r[k] == Shape(convs[n], tss[n], own, api, individual);
          assert tss[n] in tss;
        }
      }
    }
  }

  /** A conversation is listed iff its message is at or after `since`. */
  lemma ListedIffRecent(convs: seq<Json>, tss: seq<real>, since: real, own: string, api: Api, individual: bool, i: nat)
    requires |tss| == |convs| && i < |convs|
    ensures (Shape(convs[i], tss[i], own, api, individual) in Recent(convs, tss, since, own, api, individual))
              <==> tss[i] >= since
  {
    RecentMembers(convs, tss, since, own, api, individual);
  }

  /** Every message time the listing shows can be formatted: `canFormat`
      stands for `datetime.fromtimestamp` succeeding, which the source calls
      outside any `try` for each listed conversation. */
  predicate ShownTimesValid(tss: seq<real>, since: real, canFormat: real -> bool) {
    forall i :: 0 <= i < |tss| && tss[i] >= since ==> canFormat(tss[i])
  }

  /** The whole command from the parsed `--since` instant on: the error exits
      and the two lists with their counts. `since` is `None` when the time
      expression could not be parsed; `BadTimestamp` stands for a `float` or
      `fromtimestamp` call that raised. */
  function ListDms(sinceText: string, since: Option<real>, reply: Json, auth: Json, api: Api,
                   parseFloat: string -> Option<real>, canFormat: real -> bool): (r: Result<Listing, DmsError>)
    ensures since.None? ==> r == Failure(UnparseableSince(sinceText))
    ensures since.Some? && !Ok(reply) ==> r.Failure? && r.error.ListFailed?
    ensures r == Failure(BadTimestamp) <==>
              && since.Some? && Ok(reply)
              && var imTs := Timestamps(Array(reply, "ims"), parseFloat);
                 var mpimTs := Timestamps(Array(reply, "mpims"), parseFloat);
                 || imTs.None? || mpimTs.None?
                 || !ShownTimesValid(imTs.value, since.value, canFormat)
                 || !ShownTimesValid(mpimTs.value, since.value, canFormat)
    ensures r.Success? ==>
              && r.value.dmCount == |r.value.dms|
              && r.value.groupDmCount == |r.value.groupDms|
              && r.value.dms == Recent(Array(reply, "ims"), Timestamps(Array(reply, "ims"), parseFloat).value,
                                       since.value, OwnUserId(auth), api, true)
              && r.value.groupDms == Recent(Array(reply, "mpims"), Timestamps(Array(reply, "mpims"), parseFloat).value,
                                            since.value, OwnUserId(auth), api, false)
              && (forall k :: 0 <= k < |r.value.dms| ==> canFormat(r.value.dms[k].ts))
              && (forall k :: 0 <= k < |r.value.groupDms| ==> canFormat(r.value.groupDms[k].ts))
  {
    match since
    case None => Failure(UnparseableSince(sinceText))
    case Some(sinceTs) =>
      if !Ok(reply) then Failure(ListFailed(Member(reply, "error").GetOr(JNull)))
      else
        var ims := Array(reply, "ims");
        var mpims := Array(reply, "mpims");
        match (Timestamps(ims, parseFloat), Timestamps(mpims, parseFloat))
        case (Some(imTs), Some(mpimTs)) =>
          if !ShownTimesValid(imTs, sinceTs, canFormat) || !ShownTimesValid(mpimTs, sinceTs, canFormat) then
            Failure(BadTimestamp)
          else
            var own := OwnUserId(auth);
            var dms := Recent(ims, imTs, sinceTs, own, api, true);
            var groupDms := Recent(mpims, mpimTs, sinceTs, own, api, false);
            RecentTimes(ims, imTs, sinceTs, own, api, true);
            RecentTimes(mpims, mpimTs, sinceTs, own, api, false);
            Success(Listing(dms, groupDms, |dms|, |groupDms|))
        case _ => Failure(BadTimestamp)
  }

  /** When `auth.test` fails the own id is empty, so every message without a
      sender counts as the caller's own. */
  lemma SenderlessIsYoursWhenAuthFails(conv: Json, ts: real, auth: Json, api: Api, individual: bool)
    requires !Ok(auth) && Member(Obj(conv, "message"), "user").None?
    ensures Shape(conv, ts, OwnUserId(auth), api, individual).fromYou
  {
  }
}
