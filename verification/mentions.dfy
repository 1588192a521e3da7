/** Inline mention tokens inside message text, as the activity command finds and
    rewrites them with the regular expressions `<@([A-Z0-9]+)>` and
    `<!subteam\^([A-Z0-9]+)>`.

    A scan reads the text left to right: where a token starts it is consumed
    whole, otherwise one character is kept as it is. `Segments` records that
    reading; finding (`re.findall`) and substituting (`re.sub`) are both read off
    it. */
module Mentions {
  import opened Wrappers

  /** The opening of a user mention, `<@U123>`. */
  const UserPrefix: string := "<@"
  /** The opening of a user-group mention, `<!subteam^S456>`. */
  const UsergroupPrefix: string := "<!subteam^"

  /** The character class `[A-Z0-9]`. */
  predicate IsIdChar(c: char) {
    'A' <= c <= 'Z' || '0' <= c <= '9'
  }

  /** `[A-Z0-9]+`. */
  predicate IsId(s: string) {
    |s| > 0 && forall i :: 0 <= i < |s| ==> IsIdChar(s[i])
  }

  /** A prefix opens with `<`, so no token can start at a character that is not `<`. */
  predicate OpensWithAngle(prefix: string) {
    |prefix| > 0 && prefix[0] == '<'
  }

  /** The length of the longest run of id characters that `s` starts with. */
  function IdRun(s: string): (n: nat)
    ensures n <= |s|
    ensures forall i :: 0 <= i < n ==> IsIdChar(s[i])
    ensures n < |s| ==> !IsIdChar(s[n])
  {
    if |s| > 0 && IsIdChar(s[0]) then 1 + IdRun(s[1..]) else 0
  }

  /** The id of the token `prefix + ID + ">"` that `s` starts with, if any. The
      greedy `[A-Z0-9]+` cannot give back characters to reach a `>`, since `>`
      is not an id character, so the run must stop exactly at the `>`. */
  function TokenAt(prefix: string, s: string): (id: Option<string>)
    ensures id.Some? ==> IsId(id.value) && prefix + id.value + ">" <= s
  {
    if prefix <= s then
      var rest := s[|prefix|..];
      var n := IdRun(rest);
      if 0 < n < |rest| && rest[n] == '>' then
        assert prefix + rest[..n] + ">" == s[..|prefix| + n + 1];
        Some(rest[..n])
      else None
    else None
  }

  lemma {:induction false} IdRunStopsAtEnd(id: string, rest: string)
    requires IsId(id)
    requires |rest| > 0 && !IsIdChar(rest[0])
    ensures IdRun(id + rest) == |id|
    decreases |id|
  {
    if |id| > 1 {
      assert (id + rest)[1..] == id[1..] + rest;
      IdRunStopsAtEnd(id[1..], rest);
    } else {
      assert (id + rest)[1..] == rest;
    }
  }

  /** Whenever `s` starts with a token, `TokenAt` finds exactly that token. */
  lemma {:induction false} TokenAtComplete(prefix: string, id: string, s: string)
    requires IsId(id)
    requires prefix + id + ">" <= s
    ensures TokenAt(prefix, s) == Some(id)
  {
    var rest := s[|prefix|..];
    assert prefix <= s;
    assert rest == id + rest[|id|..];
    assert rest[|id|] == '>';
    IdRunStopsAtEnd(id, rest[|id|..]);
    assert rest[..|id|] == id;
  }

  /** One step of the scan: a character kept as it is, or a whole token. */
  datatype Segment = Plain(c: char) | Token(id: string)

  /** The left-to-right reading of `s` into plain characters and tokens. */
  function Segments(prefix: string, s: string): (segs: seq<Segment>)
    ensures |segs| <= |s|
    decreases |s|
  {
    if |s| == 0 then []
    else
      match TokenAt(prefix, s)
      case Some(id) => [Token(id)] + Segments(prefix, s[|prefix| + |id| + 1..])
      case None => [Plain(s[0])] + Segments(prefix, s[1..])
  }

  /** Every token the scan takes whole carries an id matching `[A-Z0-9]+`. */
  lemma {:induction false} SegmentTokensAreIds(prefix: string, s: string, k: nat)
    requires k < |Segments(prefix, s)| && Segments(prefix, s)[k].Token?
    ensures IsId(Segments(prefix, s)[k].id)
    decreases |s|
  {
    match TokenAt(prefix, s)
    case Some(id) =>
      if k > 0 {
        SegmentTokensAreIds(prefix, s[|prefix| + |id| + 1..], k - 1);
      }
    case None =>
      SegmentTokensAreIds(prefix, s[1..], k - 1);
  }

  /** Writing the segments back out. */
  function Unparse(prefix: string, segs: seq<Segment>): string
  {
    if |segs| == 0 then ""
    else
      (match segs[0]
       case Plain(c) => [c]
       case Token(id) => prefix + id + ">")
      + Unparse(prefix, segs[1..])
  }

  /** The scan loses nothing: writing its segments back gives the text again. */
  lemma {:induction false} SegmentsRoundTrip(prefix: string, s: string)
    ensures Unparse(prefix, Segments(prefix, s)) == s
    decreases |s|
  {
    if |s| > 0 {
      match TokenAt(prefix, s)
      case Some(id) =>
        var n := |prefix| + |id| + 1;
        SegmentsRoundTrip(prefix, s[n..]);
        assert s == s[..n] + s[n..];
      case None =>
        SegmentsRoundTrip(prefix, s[1..]);
        assert s == [s[0]] + s[1..];
    }
  }

  /** Characters that can start no token are read as plain characters. */
  lemma {:induction false} SegmentsPlain(prefix: string, x: string, y: string)
    requires OpensWithAngle(prefix)
    requires '<' !in x
    ensures Segments(prefix, x + y) == seq(|x|, i requires 0 <= i < |x| => Plain(x[i])) + Segments(prefix, y)
    decreases |x|
  {
    if |x| == 0 {
      assert x + y == y;
    } else {
      var s := x + y;
      assert !(prefix <= s) by {
        assert s[0] == x[0] != '<';
      }
      assert s[1..] == x[1..] + y;
      SegmentsPlain(prefix, x[1..], y);
    }
  }

  /** A token is read whole, and the scan resumes right after its `>`. */
  lemma {:induction false} SegmentsToken(prefix: string, id: string, y: string)
    requires IsId(id)
    ensures Segments(prefix, prefix + id + ">" + y) == [Token(id)] + Segments(prefix, y)
  {
    var s := prefix + id + ">" + y;
    TokenAtComplete(prefix, id, s);
    assert s[|prefix| + |id| + 1..] == y;
  }

  /** The ids of the tokens, in order. */
  function Ids(segs: seq<Segment>): (ids: seq<string>)
    ensures |ids| <= |segs|
  {
    if |segs| == 0 then []
    else
      (match segs[0]
       case Plain(_) => []
       case Token(id) => [id])
      + Ids(segs[1..])
  }

  /** The text a segment turns into: a plain character stays, a token becomes
      `lead` followed by its name, or by `fallback` when the id has none. */
  function Render(segs: seq<Segment>, names: map<string, string>, lead: string, fallback: string): string
  {
    if |segs| == 0 then ""
    else
      (match segs[0]
       case Plain(c) => [c]
       case Token(id) => lead + (if id in names then names[id] else fallback))
      + Render(segs[1..], names, lead, fallback)
  }

  /** `re.findall(pattern, s)`: the ids of the tokens of `s`, in order. */
  function FindAll(prefix: string, s: string): (ids: seq<string>)
    ensures forall id :: id in ids ==> IsId(id)
  {
    SegmentsAreTokens(prefix, s);
    IdsAreTokens(Segments(prefix, s));
    Ids(Segments(prefix, s))
  }

  /** Every id read off the segments belongs to one of their tokens. */
  lemma {:induction false} IdsAreTokens(segs: seq<Segment>)
    ensures forall id :: id in Ids(segs) ==> Token(id) in segs
    decreases |segs|
  {
    if |segs| > 0 {
      IdsAreTokens(segs[1..]);
      forall id | id in Ids(segs)
        ensures Token(id) in segs
      {
        if id !in Ids(segs[1..]) {
          assert segs[0] == Token(id);
        } else {
          assert Token(id) in segs[1..];
        }
      }
    }
  }

  lemma {:induction false} SegmentsAreTokens(prefix: string, s: string)
    ensures forall id :: Token(id) in Segments(prefix, s) ==> IsId(id)
    decreases |s|
  {
    if |s| > 0 {
      match TokenAt(prefix, s)
      case Some(id) => SegmentsAreTokens(prefix, s[|prefix| + |id| + 1..]);
      case None => SegmentsAreTokens(prefix, s[1..]);
    }
  }

  /** `re.sub(pattern, replace, s)` where `replace` looks the id up in `names`. */
  function Substitute(prefix: string, s: string, names: map<string, string>, lead: string, fallback: string): (r: string)
    ensures OpensWithAngle(prefix) && '<' !in s ==> r == s
  {
    RenderFacts(prefix, s, names, lead, fallback);
    Render(Segments(prefix, s), names, lead, fallback)
  }

  /** What the rendering of a scan keeps: text without `<` comes back as it
      is, and no `<` appears that the plain text, lead, fallback or names do
      not bring. */
  lemma RenderFacts(prefix: string, s: string, names: map<string, string>, lead: string, fallback: string)
    ensures OpensWithAngle(prefix) && '<' !in s ==> Render(Segments(prefix, s), names, lead, fallback) == s
    ensures && (forall seg :: seg in Segments(prefix, s) && seg.Plain? ==> seg.c != '<')
            && '<' !in lead && '<' !in fallback
            && (forall id :: id in names ==> '<' !in names[id])
            ==> '<' !in Render(Segments(prefix, s), names, lead, fallback)
  {
    if OpensWithAngle(prefix) && '<' !in s {
      SegmentsPlain(prefix, s, "");
      assert s + "" == s;
      PlainSegmentsRender(s, names, lead, fallback);
    }
    if && (forall seg :: seg in Segments(prefix, s) && seg.Plain? ==> seg.c != '<')
       && '<' !in lead && '<' !in fallback
       && (forall id :: id in names ==> '<' !in names[id]) {
      RenderHasNoAngle(Segments(prefix, s), names, lead, fallback);
    }
  }

  lemma {:induction false} RenderAppend(a: seq<Segment>, b: seq<Segment>, names: map<string, string>, lead: string, fallback: string)
    ensures Render(a + b, names, lead, fallback) == Render(a, names, lead, fallback) + Render(b, names, lead, fallback)
    decreases |a|
  {
    if |a| > 0 {
      assert (a + b)[1..] == a[1..] + b;
      RenderAppend(a[1..], b, names, lead, fallback);
    } else {
      assert a + b == b;
    }
  }

  lemma {:induction false} IdsAppend(a: seq<Segment>, b: seq<Segment>)
    ensures Ids(a + b) == Ids(a) + Ids(b)
    decreases |a|
  {
    if |a| > 0 {
      assert (a + b)[1..] == a[1..] + b;
      IdsAppend(a[1..], b);
    } else {
      assert a + b == b;
    }
  }

  lemma {:induction false} PlainSegmentsRender(x: string, names: map<string, string>, lead: string, fallback: string)
    ensures Render(seq(|x|, i requires 0 <= i < |x| => Plain(x[i])), names, lead, fallback) == x
    ensures Ids(seq(|x|, i requires 0 <= i < |x| => Plain(x[i]))) == []
    decreases |x|
  {
    var segs := seq(|x|, i requires 0 <= i < |x| => Plain(x[i]));
    if |x| > 0 {
      PlainSegmentsRender(x[1..], names, lead, fallback);
      assert segs[1..] == seq(|x[1..]|, i requires 0 <= i < |x[1..]| => Plain(x[1..][i]));
      assert x == [x[0]] + x[1..];
    }
  }

  /** Text outside tokens is copied unchanged and yields no ids. */
  lemma {:induction false} PlainTextUnchanged(prefix: string, x: string, y: string, names: map<string, string>, lead: string, fallback: string)
    requires OpensWithAngle(prefix)
    requires '<' !in x
    ensures Substitute(prefix, x + y, names, lead, fallback) == x + Substitute(prefix, y, names, lead, fallback)
    ensures FindAll(prefix, x + y) == FindAll(prefix, y)
  {
    var px := seq(|x|, i requires 0 <= i < |x| => Plain(x[i]));
    SegmentsPlain(prefix, x, y);
    RenderAppend(px, Segments(prefix, y), names, lead, fallback);
    IdsAppend(px, Segments(prefix, y));
    PlainSegmentsRender(x, names, lead, fallback);
  }

  /** Every token is replaced by `lead` and its name (or `fallback`), and found. */
  lemma {:induction false} TokenReplaced(prefix: string, id: string, y: string, names: map<string, string>, lead: string, fallback: string)
    requires IsId(id)
    ensures Substitute(prefix, prefix + id + ">" + y, names, lead, fallback)
            == lead + (if id in names then names[id] else fallback) + Substitute(prefix, y, names, lead, fallback)
    ensures FindAll(prefix, prefix + id + ">" + y) == [id] + FindAll(prefix, y)
  {
    SegmentsToken(prefix, id, y);
    var segs := [Token(id)] + Segments(prefix, y);
    assert segs[1..] == Segments(prefix, y);
  }

  /** Text without `<` holds no token: substitution leaves it as it is. */
  lemma {:induction false} NoAngleUnchanged(prefix: string, s: string, names: map<string, string>, lead: string, fallback: string)
    requires OpensWithAngle(prefix)
    requires '<' !in s
    ensures Substitute(prefix, s, names, lead, fallback) == s
    ensures FindAll(prefix, s) == []
  {
    PlainTextUnchanged(prefix, s, "", names, lead, fallback);
    assert s + "" == s;
  }

  lemma {:induction false} RenderHasNoAngle(segs: seq<Segment>, names: map<string, string>, lead: string, fallback: string)
    requires forall seg :: seg in segs && seg.Plain? ==> seg.c != '<'
    requires '<' !in lead && '<' !in fallback
    requires forall id :: id in names ==> '<' !in names[id]
    ensures '<' !in Render(segs, names, lead, fallback)
    decreases |segs|
  {
    if |segs| > 0 {
      assert segs[0] in segs;
      RenderHasNoAngle(segs[1..], names, lead, fallback);
    }
  }

  /** Substitution is idempotent when neither the names nor the text around the
      tokens contain `<`: the result holds no token left to rewrite. */
  lemma {:induction false} SubstituteIdempotent(prefix: string, s: string, names: map<string, string>, lead: string, fallback: string)
    requires OpensWithAngle(prefix)
    requires forall seg :: seg in Segments(prefix, s) && seg.Plain? ==> seg.c != '<'
    requires '<' !in lead && '<' !in fallback
    requires forall id :: id in names ==> '<' !in names[id]
    ensures var once := Substitute(prefix, s, names, lead, fallback);
            Substitute(prefix, once, names, lead, fallback) == once
  {
    RenderHasNoAngle(Segments(prefix, s), names, lead, fallback);
    NoAngleUnchanged(prefix, Substitute(prefix, s, names, lead, fallback), names, lead, fallback);
  }

  /** How message text is rewritten before it is shown (activity.py): user
      mentions become `@` and the cached handle (`@user` when unknown); then
      user-group mentions become the cached, already `@`-prefixed handle
      (`@team` when unknown). */
  function RewriteMentions(text: string, users: map<string, string>, usergroups: map<string, string>): (r: string)
    ensures '<' !in text ==> r == text
  {
    var withUsers := Substitute(UserPrefix, text, users, "@", "user");
    Substitute(UsergroupPrefix, withUsers, usergroups, "", "@team")
  }

  /** A `<` that starts no token is kept as a plain character. */
  lemma {:induction false} StrayAngleKept(prefix: string, s: string, names: map<string, string>, lead: string, fallback: string)
    requires |s| > 0 && s[0] == '<'
    requires TokenAt(prefix, s) == None
    ensures Substitute(prefix, s, names, lead, fallback) == "<" + Substitute(prefix, s[1..], names, lead, fallback)
    ensures FindAll(prefix, s) == FindAll(prefix, s[1..])
  {
    var rest := Segments(prefix, s[1..]);
    assert Segments(prefix, s) == [Plain('<')] + rest;
    assert ([Plain('<')] + rest)[1..] == rest;
  }

  /** A user mention does not match a user-group token: the pass over user
      mentions leaves `<!subteam^ID>` as it is. */
  lemma {:induction false} UserPassKeepsUsergroupToken(id: string, y: string, names: map<string, string>)
    requires IsId(id)
    requires '<' !in y
    ensures Substitute(UserPrefix, UsergroupPrefix + id + ">" + y, names, "@", "user") == UsergroupPrefix + id + ">" + y
  {
    var s := UsergroupPrefix + id + ">" + y;
    assert s[1] == '!';
    assert !(UserPrefix <= s);
    StrayAngleKept(UserPrefix, s, names, "@", "user");
    assert s == "<" + s[1..];
    NoAngleUnchanged(UserPrefix, s[1..], names, "@", "user");
  }

  /** Plain text followed by one token: the text is kept, the token replaced. */
  lemma {:induction false} PlainThenToken(prefix: string, x: string, id: string, names: map<string, string>, lead: string, fallback: string)
    requires OpensWithAngle(prefix)
    requires IsId(id)
    requires '<' !in x
    ensures Substitute(prefix, x + (prefix + id + ">"), names, lead, fallback)
            == x + (lead + (if id in names then names[id] else fallback))
  {
    PlainTextUnchanged(prefix, x, prefix + id + ">", names, lead, fallback);
    assert prefix + id + ">" == prefix + id + ">" + "";
    TokenReplaced(prefix, id, "", names, lead, fallback);
    NoAngleUnchanged(prefix, "", names, lead, fallback);
  }

  /** The user pass over a user mention, plain text and a user-group
      mention: only the user mention changes. */
  lemma {:induction false} UserPassOverMixed(u: string, middle: string, g: string, users: map<string, string>)
    requires IsId(u) && IsId(g)
    requires '<' !in middle
    ensures Substitute(UserPrefix, UserPrefix + u + ">" + (middle + (UsergroupPrefix + g + ">")), users, "@", "user")
            == "@" + (if u in users then users[u] else "user") + (middle + (UsergroupPrefix + g + ">"))
  {
    var tail := UsergroupPrefix + g + ">";
    assert tail + "" == tail;
    UserPassKeepsUsergroupToken(g, "", users);
    PlainTextUnchanged(UserPrefix, middle, tail, users, "@", "user");
    TokenReplaced(UserPrefix, u, middle + tail, users, "@", "user");
  }

  /** A user mention, plain text, then a user-group mention: the user token
      becomes `@` and its handle (`@user` when unknown), the group token its
      cached handle or `@team`, and the text between them is kept. With `U123`
      named `alice` and `S456` named `@eng`, `<@U123> please see <!subteam^S456>`
      reads `@alice please see @eng`. */
  lemma {:induction false} RewriteUserThenUsergroup(u: string, middle: string, g: string, users: map<string, string>, usergroups: map<string, string>)
    requires IsId(u) && IsId(g)
    requires '<' !in middle
    requires u in users ==> '<' !in users[u]
    ensures RewriteMentions(UserPrefix + u + ">" + middle + UsergroupPrefix + g + ">", users, usergroups)
            == "@" + Lookup(users, u, "user") + middle + Lookup(usergroups, g, "@team")
  {
    var pre := "@" + Lookup(users, u, "user") + middle;
    UserPassOfMixedText(u, middle, g, users);
    NoAngleJoin(Lookup(users, u, "user"), middle);
    PlainThenToken(UsergroupPrefix, pre, g, usergroups, "", "@team");
    assert "" + Lookup(usergroups, g, "@team") == Lookup(usergroups, g, "@team");
  }

  /** The user pass over a user mention, text and a user-group mention. */
  lemma UserPassOfMixedText(u: string, middle: string, g: string, users: map<string, string>)
    requires IsId(u) && IsId(g)
    requires '<' !in middle
    ensures Substitute(UserPrefix, UserPrefix + u + ">" + middle + UsergroupPrefix + g + ">", users, "@", "user")
            == "@" + Lookup(users, u, "user") + middle + (UsergroupPrefix + g + ">")
  {
    var tail := UsergroupPrefix + g + ">";
    assert UserPrefix + u + ">" + middle + UsergroupPrefix + g + ">" == UserPrefix + u + ">" + (middle + tail);
    UserPassOverMixed(u, middle, g, users);
    assert "@" + Lookup(users, u, "user") + (middle + tail) == "@" + Lookup(users, u, "user") + middle + tail;
  }

  /** `@`, a handle free of `<` and text free of `<` join into text free of `<`. */
  lemma NoAngleJoin(name: string, middle: string)
    requires '<' !in name && '<' !in middle
    ensures '<' !in "@" + name + middle
  {
    var s := "@" + name + middle;
    forall i | 0 <= i < |s|
      ensures s[i] != '<'
    {
      if i == 0 {
      } else if i < 1 + |name| {
        assert s[i] == name[i - 1];
      } else {
        assert s[i] == middle[i - 1 - |name|];
      }
    }
  }

  /** The labelled form `<!subteam^ID|label>` is not a token of the pattern:
      substitution leaves it as it is and finds no id in it. */
  lemma {:induction false} LabelledUsergroupNotRewritten(g: string, handle: string, usergroups: map<string, string>)
    requires IsId(g)
    requires '<' !in handle
    ensures var s := UsergroupPrefix + g + "|" + handle + ">";
            && Substitute(UsergroupPrefix, s, usergroups, "", "@team") == s
            && FindAll(UsergroupPrefix, s) == []
  {
    var s := UsergroupPrefix + g + "|" + handle + ">";
    assert UsergroupPrefix <= s;
    var rest := s[|UsergroupPrefix|..];
    assert rest == g + ("|" + handle + ">");
    IdRunStopsAtEnd(g, "|" + handle + ">");
    assert rest[|g|] == '|';
    assert TokenAt(UsergroupPrefix, s) == None;
    StrayAngleKept(UsergroupPrefix, s, usergroups, "", "@team");
    assert s[1..] == UsergroupPrefix[1..] + g + "|" + handle + ">";
    NoAngleUnchanged(UsergroupPrefix, s[1..], usergroups, "", "@team");
    assert s == "<" + s[1..];
  }

  /** The first pass over `<` followed by a user mention and `>`: the stray
      characters stay and the mention is replaced. */
  lemma {:induction false} StrayAroundMention(u: string, names: map<string, string>)
    requires IsId(u) && u in names
    ensures Substitute(UserPrefix, "<" + UserPrefix + u + ">>", names, "@", "user") == "<@" + names[u] + ">"
  {
    var s := "<" + UserPrefix + u + ">>";
    assert s[1] == '<';
    assert !(UserPrefix <= s);
    StrayAngleKept(UserPrefix, s, names, "@", "user");
    assert s[1..] == UserPrefix + u + ">" + ">";
    TokenReplaced(UserPrefix, u, ">", names, "@", "user");
    NoAngleUnchanged(UserPrefix, ">", names, "@", "user");
  }

  /** Without the side conditions of `SubstituteIdempotent` a second pass can
      change the text: a stray `<` before a mention whose handle is itself an
      unknown id-shaped word (`<<@U1>>` with `U1` named `ABC`) forms a new
      token, `<@ABC>`, which a second pass turns into `@user`. */
  lemma {:induction false} SubstituteNotIdempotentInGeneral(u: string, names: map<string, string>)
    requires IsId(u) && u in names && IsId(names[u]) && names[u] !in names
    ensures var once := Substitute(UserPrefix, "<" + UserPrefix + u + ">>", names, "@", "user");
            && once == UserPrefix + names[u] + ">"
            && Substitute(UserPrefix, once, names, "@", "user") == "@user"
  {
    var n := names[u];
    StrayAroundMention(u, names);
    assert "<@" + n + ">" == UserPrefix + n + ">" + "";
    TokenReplaced(UserPrefix, n, "", names, "@", "user");
    NoAngleUnchanged(UserPrefix, "", names, "@", "user");
  }

  /** A piece of a message text: text holding no `<`, a user mention or a
      user-group mention. */
  datatype Piece = Words(s: string) | UserMention(uid: string) | GroupMention(gid: string)

  predicate PieceOk(p: Piece) {
    match p
    case Words(s) => '<' !in s
    case UserMention(u) => IsId(u)
    case GroupMention(g) => IsId(g)
  }

  /** A text made of such pieces: every `<` in it opens a mention. */
  predicate WellFormed(ps: seq<Piece>) {
    forall i :: 0 <= i < |ps| ==> PieceOk(ps[i])
  }

  /** The characters a piece stands for. */
  function PieceText(p: Piece): string {
    match p
    case Words(s) => s
    case UserMention(u) => UserPrefix + u + ">"
    case GroupMention(g) => UsergroupPrefix + g + ">"
  }

  /** The text spelled by a list of pieces. */
  function Spell(ps: seq<Piece>): string {
    if |ps| == 0 then "" else PieceText(ps[0]) + Spell(ps[1..])
  }

  /** How a piece is shown: text as it is, a user mention as `@` and the
      handle (`@user` when unknown), a group mention as its cached handle
      (`@team` when unknown). */
  function Shown(p: Piece, users: map<string, string>, usergroups: map<string, string>): string {
    match p
    case Words(s) => s
    case UserMention(u) => "@" + Lookup(users, u, "user")
    case GroupMention(g) => Lookup(usergroups, g, "@team")
  }

  /** The pieces shown one after the other. */
  function ShownAll(ps: seq<Piece>, users: map<string, string>, usergroups: map<string, string>): string {
    if |ps| == 0 then "" else Shown(ps[0], users, usergroups) + ShownAll(ps[1..], users, usergroups)
  }

  /** The pieces once the user pass has run: each user mention is now text. */
  function AfterUserPass(ps: seq<Piece>, users: map<string, string>): seq<Piece> {
    if |ps| == 0 then []
    else
      (match ps[0]
       case UserMention(u) => [Words("@" + Lookup(users, u, "user"))]
       case _ => [ps[0]])
      + AfterUserPass(ps[1..], users)
  }

  /** The user pass skips a user-group mention whole. */
  lemma GroupMentionSkippedByUserPass(g: string, y: string, users: map<string, string>)
    requires IsId(g)
    ensures Substitute(UserPrefix, UsergroupPrefix + g + ">" + y, users, "@", "user")
            == UsergroupPrefix + g + ">" + Substitute(UserPrefix, y, users, "@", "user")
  {
    var s := UsergroupPrefix + g + ">" + y;
    assert s[1] == '!';
    assert !(UserPrefix <= s);
    StrayAngleKept(UserPrefix, s, users, "@", "user");
    var body := UsergroupPrefix[1..] + g + ">";
    assert s[1..] == body + y;
    assert '<' !in body;
    PlainTextUnchanged(UserPrefix, body, y, users, "@", "user");
  }

  /** The user pass over a well-formed text rewrites exactly its user mentions. */
  lemma {:induction false} UserPassPieces(ps: seq<Piece>, users: map<string, string>)
    requires WellFormed(ps)
    ensures Substitute(UserPrefix, Spell(ps), users, "@", "user") == Spell(AfterUserPass(ps, users))
    decreases |ps|
  {
    if |ps| > 0 {
      var rest := ps[1..];
      assert WellFormed(rest) by {
        forall i | 0 <= i < |rest| ensures PieceOk(rest[i]) { assert rest[i] == ps[i + 1]; }
      }
      UserPassPieces(rest, users);
      assert PieceOk(ps[0]);
      var y := Spell(rest);
      var after := AfterUserPass(ps, users);
      assert after[1..] == AfterUserPass(rest, users);
      match ps[0]
      case Words(s) =>
        PlainTextUnchanged(UserPrefix, s, y, users, "@", "user");
      case UserMention(u) =>
        TokenReplaced(UserPrefix, u, y, users, "@", "user");
      case GroupMention(g) =>
        GroupMentionSkippedByUserPass(g, y, users);
    }
  }

  /** After the user pass the pieces are still well formed, when no handle
      holds a `<`, and none of them is a user mention. */
  lemma {:induction false} AfterUserPassShape(ps: seq<Piece>, users: map<string, string>)
    requires WellFormed(ps)
    requires forall u :: u in users ==> '<' !in users[u]
    ensures WellFormed(AfterUserPass(ps, users))
    ensures forall i :: 0 <= i < |AfterUserPass(ps, users)| ==> !AfterUserPass(ps, users)[i].UserMention?
    ensures forall usergroups: map<string, string> ::
              ShownAll(AfterUserPass(ps, users), users, usergroups) == ShownAll(ps, users, usergroups)
    decreases |ps|
  {
    if |ps| > 0 {
      var rest := ps[1..];
      assert WellFormed(rest) by {
        forall i | 0 <= i < |rest| ensures PieceOk(rest[i]) { assert rest[i] == ps[i + 1]; }
      }
      AfterUserPassShape(rest, users);
      assert PieceOk(ps[0]);
      var after := AfterUserPass(ps, users);
      assert after[1..] == AfterUserPass(rest, users);
      if ps[0].UserMention? {
        var u := ps[0].uid;
        assert '<' !in "@" + Lookup(users, u, "user") by {
          if u in users { assert '<' !in users[u]; }
        }
      }
      forall i | 0 <= i < |after|
        ensures PieceOk(after[i]) && !after[i].UserMention?
      {
        if i > 0 {
          assert after[i] == AfterUserPass(rest, users)[i - 1];
        }
      }
    }
  }

  /** The user-group pass over a well-formed text without user mentions shows
      every piece. */
  lemma {:induction false} GroupPassPieces(qs: seq<Piece>, users: map<string, string>, usergroups: map<string, string>)
    requires WellFormed(qs)
    requires forall i :: 0 <= i < |qs| ==> !qs[i].UserMention?
    ensures Substitute(UsergroupPrefix, Spell(qs), usergroups, "", "@team") == ShownAll(qs, users, usergroups)
    decreases |qs|
  {
    if |qs| > 0 {
      var rest := qs[1..];
      assert WellFormed(rest) by {
        forall i | 0 <= i < |rest| ensures PieceOk(rest[i]) { assert rest[i] == qs[i + 1]; }
      }
      assert forall i :: 0 <= i < |rest| ==> rest[i] == qs[i + 1];
      GroupPassPieces(rest, users, usergroups);
      assert PieceOk(qs[0]) && !qs[0].UserMention?;
      var y := Spell(rest);
      match qs[0]
      case Words(s) =>
        PlainTextUnchanged(UsergroupPrefix, s, y, usergroups, "", "@team");
      case GroupMention(g) =>
        TokenReplaced(UsergroupPrefix, g, y, usergroups, "", "@team");
        assert "" + Lookup(usergroups, g, "@team") == Lookup(usergroups, g, "@team");
    }
  }

  /** The rewrite of a text made of plain words and mentions is each piece
      shown in turn, when no user handle holds a `<`. */
  lemma RewritePieces(ps: seq<Piece>, users: map<string, string>, usergroups: map<string, string>)
    requires WellFormed(ps)
    requires forall u :: u in users ==> '<' !in users[u]
    ensures RewriteMentions(Spell(ps), users, usergroups) == ShownAll(ps, users, usergroups)
  {
    UserPassPieces(ps, users);
    AfterUserPassShape(ps, users);
    GroupPassPieces(AfterUserPass(ps, users), users, usergroups);
  }

  /** Showing the pieces leaves no `<` when no handle holds one. */
  lemma {:induction false} ShownAllNoAngle(ps: seq<Piece>, users: map<string, string>, usergroups: map<string, string>)
    requires WellFormed(ps)
    requires forall u :: u in users ==> '<' !in users[u]
    requires forall g :: g in usergroups ==> '<' !in usergroups[g]
    ensures '<' !in ShownAll(ps, users, usergroups)
    decreases |ps|
  {
    if |ps| > 0 {
      var rest := ps[1..];
      assert WellFormed(rest) by {
        forall i | 0 <= i < |rest| ensures PieceOk(rest[i]) { assert rest[i] == ps[i + 1]; }
      }
      ShownAllNoAngle(rest, users, usergroups);
      assert PieceOk(ps[0]);
      match ps[0]
      case Words(s) =>
      case UserMention(u) =>
        if u in users { assert '<' !in users[u]; }
      case GroupMention(g) =>
        if g in usergroups { assert '<' !in usergroups[g]; }
    }
  }

  /** The two-pass rewrite is idempotent on a text whose every `<` opens a
      mention, when no handle holds a `<`: rewriting the result again changes
      nothing. */
  lemma RewriteIdempotent(ps: seq<Piece>, users: map<string, string>, usergroups: map<string, string>)
    requires WellFormed(ps)
    requires forall u :: u in users ==> '<' !in users[u]
    requires forall g :: g in usergroups ==> '<' !in usergroups[g]
    ensures var once := RewriteMentions(Spell(ps), users, usergroups);
            RewriteMentions(once, users, usergroups) == once
  {
    RewritePieces(ps, users, usergroups);
    var once := ShownAll(ps, users, usergroups);
    ShownAllNoAngle(ps, users, usergroups);
    NoAngleUnchanged(UserPrefix, once, users, "@", "user");
    NoAngleUnchanged(UsergroupPrefix, once, usergroups, "", "@team");
  }
}
