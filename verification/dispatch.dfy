/** The `messageCreate` handler of src/index.js: for each inbound message
    it decides whether the message belongs to a running prompt, is ignored,
    is refused by the command's rules, meets its cooldown, or runs the
    command, and then carries the decision out. The decision is a function
    of the message, the resolved prefixes and the command table; carrying
    it out feeds the prompt or records what is sent. */
module Dispatch {
  import opened Base
  import opened Utils
  import Prompts
  import Cooldowns
  import Loader
  import Args

  /** The handler options that the decision reads. */
  datatype Settings = Settings(allowBots: bool, defaultPrefix: bool, botId: string,
                               restrictedGuilds: seq<string>, props: Loader.CustomProps)

  // ---------------------------------------------------------------------
  // Prefixes

  /** The string items of an array, in order. */
  function StringItems(items: seq<Value>): (r: seq<string>)
    ensures forall x :: x in r <==> Str(x) in items
    ensures |r| <= |items|
  {
    if items == [] then []
    else
      var rest := StringItems(items[1..]);
      assert forall v :: v in items <==> v == items[0] || v in items[1..];
      if items[0].Str? then [items[0].s] + rest else rest
  }

  /** What `determinePrefix` resolved to, as a list with the non-strings
      dropped. */
  function PrefixStrings(v: Value): (r: seq<string>)
    ensures v.Arr? ==> forall x :: x in r <==> Str(x) in v.items
    ensures v.Str? ==> r == [v.s]
    ensures !v.Arr? && !v.Str? ==> r == []
  {
    if v.Arr? then StringItems(v.items) else if v.Str? then [v.s] else []
  }

  function EscapeAll(ps: seq<string>): (r: seq<string>)
    ensures |r| == |ps|
    ensures forall i :: 0 <= i < |ps| ==> r[i] == EscapeRegExpChars(ps[i])
  {
    if ps == [] then [] else [EscapeRegExpChars(ps[0])] + EscapeAll(ps[1..])
  }

  function UnescapeAll(ps: seq<string>): (r: seq<string>)
    ensures |r| == |ps|
    ensures forall i :: 0 <= i < |ps| ==> r[i] == Unescape(ps[i])
  {
    if ps == [] then [] else [Unescape(ps[0])] + UnescapeAll(ps[1..])
  }

  function Mentions(botId: string): seq<string> {
    ["<@" + botId + ">", "<@!" + botId + ">"]
  }

  /** The alternatives of the prefix regex: the escaped prefixes and, with
      `defaultPrefix`, the two mention forms after them. No prefix at all
      leaves no alternative and the message is ignored. */
  function Pattern(s: Settings, prefixes: Value): seq<string> {
    var ps := EscapeAll(PrefixStrings(prefixes));
    if ps == [] then [] else if s.defaultPrefix then ps + Mentions(s.botId) else ps
  }

  /** The text each alternative matches. */
  function Literals(s: Settings, prefixes: Value): seq<string> {
    UnescapeAll(Pattern(s, prefixes))
  }

  lemma {:induction false} UnescapePlain(t: string)
    requires '\\' !in t
    ensures Unescape(t) == t
  {
    if t != [] {
      UnescapePlain(t[1..]);
    }
  }

  /** The alternatives match the string prefixes themselves, in their
      order, followed by the two mentions when `defaultPrefix` is set. */
  lemma LiteralsArePrefixes(s: Settings, prefixes: Value)
    requires '\\' !in s.botId
    ensures var ps := PrefixStrings(prefixes);
            Literals(s, prefixes) == if ps == [] then []
                                     else if s.defaultPrefix then ps + Mentions(s.botId) else ps
  {
    var ps := PrefixStrings(prefixes);
    var pat := Pattern(s, prefixes);
    var lits := Literals(s, prefixes);
    forall i | 0 <= i < |ps| ensures Unescape(EscapeRegExpChars(ps[i])) == ps[i] {
      UnescapeEscape(ps[i]);
    }
    if ps != [] && s.defaultPrefix {
      var m := Mentions(s.botId);
      assert '\\' !in m[0] && '\\' !in m[1];
      UnescapePlain(m[0]);
      UnescapePlain(m[1]);
      assert pat[|ps|] == m[0] && pat[|ps| + 1] == m[1];
      assert lits == ps + m;
    } else if ps != [] {
      assert lits == ps;
    }
  }

  predicate IsPrefix(p: string, t: string) {
    |p| <= |t| && t[..|p|] == p
  }

  /** The first alternative, from index `i` on, that starts `t`. */
  function FirstStarting(lits: seq<string>, t: string, i: nat): (r: Option<string>)
    ensures r.Some? ==> exists j :: i <= j < |lits| && lits[j] == r.value && IsPrefix(r.value, t)
                                    && forall l :: i <= l < j ==> !IsPrefix(lits[l], t)
    ensures r.None? ==> forall j :: i <= j < |lits| ==> !IsPrefix(lits[j], t)
    decreases |lits| - i
  {
    if i >= |lits| then None
    else if IsPrefix(lits[i], t) then Some(lits[i])
    else FirstStarting(lits, t, i + 1)
  }

  /** The prefix a message is taken to start with: the first alternative
      that starts the content. */
  function PrefixMatch(lits: seq<string>, content: string): (r: Option<string>)
    ensures r.Some? ==> IsPrefix(r.value, content) && r.value in lits
    ensures r.None? ==> forall j :: 0 <= j < |lits| ==> !IsPrefix(lits[j], content)
  {
    FirstStarting(lits, content, 0)
  }

  /** `content.match(new RegExp('^' + alternatives.join('|')))` as
      written: `^` binds to the first alternative only, so the search tries
      every alternative at position 0 and the others at every later
      position. */
  function SearchFrom(lits: seq<string>, content: string, k: nat): (r: Option<string>)
    requires k <= |content|
    ensures r.Some? ==> r.value in lits && |r.value| <= |content|
    decreases |content| - k
  {
    match FirstStarting(lits, content[k..], if k == 0 then 0 else 1)
    case Some(p) => Some(p)
    case None => if k < |content| then SearchFrom(lits, content, k + 1) else None
  }

  function PrefixMatchAsWritten(lits: seq<string>, content: string): (r: Option<string>)
    ensures r.Some? ==> r.value in lits && |r.value| <= |content|
  {
    SearchFrom(lits, content, 0)
  }

  /** Where some alternative starts the content, the regex as written
      finds the same prefix as the anchored match. */
  lemma AsWrittenAgreesAtStart(lits: seq<string>, content: string)
    requires PrefixMatch(lits, content).Some?
    ensures PrefixMatchAsWritten(lits, content) == PrefixMatch(lits, content)
  {
    assert content[0..] == content;
  }

  /** Alternatives after the first that all begin with '<', as the
      mentions do. */
  predicate LaterStartAngle(lits: seq<string>) {
    forall j :: 1 <= j < |lits| ==> |lits[j]| > 0 && lits[j][0] == '<'
  }

  /** At a position that does not hold '<', no later alternative starts. */
  lemma NoLaterAt(lits: seq<string>, t: string)
    requires LaterStartAngle(lits)
    requires t != [] && t[0] != '<'
    ensures FirstStarting(lits, t, 1) == None
  {
    forall j | 1 <= j < |lits| ensures !IsPrefix(lits[j], t) {
      assert lits[j][0] == '<';
    }
  }

  /** The search walks over text without '<' up to the mention that
      follows it. */
  lemma {:induction false} SearchReaches(lits: seq<string>, junk: string, mention: string, k: nat)
    requires |lits| >= 2 && lits[1] == mention && LaterStartAngle(lits)
    requires '<' !in junk && 1 <= k <= |junk|
    ensures SearchFrom(lits, junk + mention, k) == Some(mention)
    decreases |junk| - k
  {
    var content := junk + mention;
    if k == |junk| {
      assert content[k..] == mention;
      assert IsPrefix(lits[1], mention);
    } else {
      assert content[k..][0] == junk[k];
      NoLaterAt(lits, content[k..]);
      SearchReaches(lits, junk, mention, k + 1);
    }
  }

  /** A mention further into a message is still found: text without '<'
      that the first prefix does not start, followed by the mention, is
      no prefixed message, yet the regex as written matches the mention. */
  lemma MentionInsideMatches(lits: seq<string>, junk: string, mention: string)
    requires |lits| >= 2 && lits[1] == mention && LaterStartAngle(lits)
    requires '<' !in junk && junk != []
    requires !IsPrefix(lits[0], junk + mention)
    ensures PrefixMatch(lits, junk + mention) == None
    ensures PrefixMatchAsWritten(lits, junk + mention) == Some(mention)
  {
    var content := junk + mention;
    assert content[0] == junk[0];
    NoLaterAt(lits, content);
    assert content[0..] == content;
    SearchReaches(lits, junk, mention, 1);
  }

  /** With the prefix '!', a message made of as many letters as the
      mention is long, then 'ping ', then the mention, starts with no
      prefix; the regex as written still matches the mention, and the text
      cut after the mention's length from the start is 'ping' and the
      mention. For the bot id '1' that is the message 'abcdping <@1>'. */
  lemma MentionInsideExample(botId: string)
    requires '<' !in botId
    ensures var mention := Mentions(botId)[0];
            var content := seq(|mention|, _ => 'a') + "ping " + mention;
            PrefixMatch(["!"] + Mentions(botId), content) == None
            && PrefixMatchAsWritten(["!"] + Mentions(botId), content) == Some(mention)
            && Trim(content[|mention|..]) == "ping " + mention
  {
    var lits := ["!"] + Mentions(botId);
    var mention := Mentions(botId)[0];
    var filler := seq(|mention|, _ => 'a');
    var junk := filler + "ping ";
    var content := filler + "ping " + mention;
    assert content == junk + mention;
    assert lits[1] == mention && lits[2] == Mentions(botId)[1];
    assert lits[1][0] == '<' && lits[2][0] == '<';
    assert '<' !in junk;
    assert content[..1][0] == 'a';
    MentionInsideMatches(lits, junk, mention);
    CutAfterFiller(filler, mention);
  }

  /** Cutting a filler of the mention's length leaves the rest untouched by
      the trim. */
  lemma CutAfterFiller(filler: string, mention: string)
    requires |filler| == |mention| && mention != [] && mention[|mention| - 1] == '>'
    ensures Trim((filler + "ping " + mention)[|mention|..]) == "ping " + mention
  {
    var cut := (filler + "ping " + mention)[|mention|..];
    assert cut == "ping " + mention;
    assert TrimStart(cut) == cut;
    assert cut[|cut| - 1] == '>';
    assert TrimEnd(cut) == cut;
  }

  // ---------------------------------------------------------------------
  // Splitting

  predicate NoSpace(t: string) {
    forall i :: 0 <= i < |t| ==> !IsSpace(t[i])
  }

  /** The length of the leading run of non-space characters. */
  function WordLength(t: string): (n: nat)
    ensures n <= |t| && NoSpace(t[..n]) && (n < |t| ==> IsSpace(t[n]))
  {
    if t == [] || IsSpace(t[0]) then 0
    else
      var n := WordLength(t[1..]) + 1;
      assert t[..n] == [t[0]] + t[1..][..n - 1];
      n
  }

  /** `t.split(/\s+/g)`: the pieces between the runs of white space, with
      an empty piece before leading and after trailing white space. */
  function SplitWs(t: string): (r: seq<string>)
    ensures |r| > 0 && IsPrefix(r[0], t)
    ensures forall i :: 0 <= i < |r| ==> NoSpace(r[i])
    decreases |t|
  {
    var n := WordLength(t);
    if n == |t| then
      assert t[..n] == t;
      [t]
    else [t[..n]] + SplitWs(TrimStart(t[n + 1..]))
  }

  function JoinSpaced(ws: seq<string>): string
    requires |ws| > 0
  {
    JoinWith(ws, ' ')
  }

  /** Splitting undoes a single-space join of non-empty words, so the
      first piece of a trimmed text is its first word. */
  lemma {:induction false} SplitJoinWords(ws: seq<string>)
    requires |ws| > 0
    requires forall i :: 0 <= i < |ws| ==> ws[i] != [] && NoSpace(ws[i])
    ensures SplitWs(JoinSpaced(ws)) == ws
    decreases |ws|
  {
    var w := ws[0];
    WordOf(w, if |ws| == 1 then "" else [' '] + JoinSpaced(ws[1..]));
    if |ws| == 1 {
      assert w + "" == w;
    } else {
      var rest := JoinSpaced(ws[1..]);
      var t := w + [' '] + rest;
      assert t == w + ([' '] + rest);
      assert t[|w| + 1..] == rest;
      assert forall i :: 0 <= i < |ws[1..]| ==> ws[1..][i] == ws[i + 1];
      SplitJoinWords(ws[1..]);
      assert rest[0] == ws[1][0] by {
        JoinStartsWithFirst(ws[1..]);
      }
      assert TrimStart(rest) == rest;
      assert t[..|w|] == w;
      assert JoinSpaced(ws) == t;
      assert SplitWs(t) == [w] + SplitWs(rest);
      assert [w] + ws[1..] == ws;
    }
  }

  lemma {:induction false} JoinStartsWithFirst(ws: seq<string>)
    requires |ws| > 0 && ws[0] != []
    ensures |JoinSpaced(ws)| > 0 && JoinSpaced(ws)[0] == ws[0][0]
  {
  }

  /** The run of non-space characters in front of a space or the end. */
  lemma {:induction false} WordOf(w: string, rest: string)
    requires NoSpace(w)
    requires rest == [] || IsSpace(rest[0])
    ensures WordLength(w + rest) == |w|
    decreases |w|
  {
    if w != [] {
      assert (w + rest)[1..] == w[1..] + rest;
      WordOf(w[1..], rest);
    }
  }

  // ---------------------------------------------------------------------
  // Finding the command

  /** A property read `v[k]`: undefined and null throw, a primitive has
      none of the properties read here. */
  function Prop(v: Value, k: string): (r: Result<Value, string>)
    ensures r.Err? <==> v.Undefined? || v.Null?
    ensures HasProperties(v) ==> r == Ok(Get(v, k))
  {
    if v.Undefined? then Err("TypeError: Cannot read properties of undefined (reading '" + k + "')")
    else if v.Null? then Err("TypeError: Cannot read properties of null (reading '" + k + "')")
    else if HasProperties(v) then Ok(Get(v, k))
    else Ok(Undefined)
  }

  predicate OccursAt(x: string, t: string, i: int) {
    0 <= i <= |t| - |x| && t[i..i + |x|] == x
  }

  predicate IsSubstring(x: string, t: string) {
    exists i :: 0 <= i <= |t| && OccursAt(x, t, i)
  }

  /** `v.includes(x)`: membership in an array, a substring of a string,
      and a TypeError on anything else. `callee` is the source text of the
      expression that gives `v`, which the engine's message names. */
  function Includes(v: Value, x: string, callee: string): (r: Result<bool, string>)
    ensures v.Arr? ==> r == Ok(Str(x) in v.items)
    ensures v.Str? ==> r == Ok(IsSubstring(x, v.s))
    ensures r.Ok? <==> v.Arr? || v.Str?
  {
    if v.Arr? then Ok(Str(x) in v.items)
    else if v.Str? then Ok(IsSubstring(x, v.s))
    else if v.Undefined? || v.Null? then Err("TypeError: Cannot read properties of " + (if v.Null? then "null" else "undefined") + " (reading 'includes')")
    else Err("TypeError: " + callee + ".includes is not a function")
  }

  /** Whether the command's aliases include `alias`. */
  function AliasTest(cmd: Value, alias: string, props: Loader.CustomProps): Result<bool, string> {
    match Walk(cmd, Segments(props.aliases))
    case Err(e) => Err(e)
    case Ok(aliases) => Includes(aliases, alias, "getObjVal(...)")
  }

  /** Whether `alias` names the command: its id is exactly that string,
      or its aliases include it. */
  function Names(cmd: Value, alias: string, props: Loader.CustomProps): Result<bool, string> {
    match Walk(cmd, Segments(props.id))
    case Err(e) => Err(e)
    case Ok(id) => if id == Str(alias) then Ok(true) else AliasTest(cmd, alias, props)
  }

  /** `commands.find(...)` in table order; an exception thrown by the test
      ends the handler. */
  function FindCommand(t: Loader.Table, alias: string, props: Loader.CustomProps): (r: Result<Option<Value>, string>)
    ensures r == Ok(None) <==> forall i :: 0 <= i < |t| ==> Names(t[i].1, alias, props) == Ok(false)
    ensures r.Ok? && r.value.Some? ==>
              exists i :: 0 <= i < |t| && t[i].1 == r.value.value && Names(t[i].1, alias, props) == Ok(true)
                          && forall j :: 0 <= j < i ==> Names(t[j].1, alias, props) == Ok(false)
    ensures r.Err? ==>
              exists i :: 0 <= i < |t| && Names(t[i].1, alias, props) == Err(r.error)
                          && forall j :: 0 <= j < i ==> Names(t[j].1, alias, props) == Ok(false)
  {
    FindFrom(t, 0, alias, props)
  }

  /** The search from entry `from` on. */
  function FindFrom(t: Loader.Table, from: nat, alias: string, props: Loader.CustomProps): (r: Result<Option<Value>, string>)
    requires from <= |t|
    ensures r == Ok(None) <==> forall i :: from <= i < |t| ==> Names(t[i].1, alias, props) == Ok(false)
    ensures r.Ok? && r.value.Some? ==>
              exists i :: from <= i < |t| && t[i].1 == r.value.value && Names(t[i].1, alias, props) == Ok(true)
                          && forall j :: from <= j < i ==> Names(t[j].1, alias, props) == Ok(false)
    ensures r.Err? ==>
              exists i :: from <= i < |t| && Names(t[i].1, alias, props) == Err(r.error)
                          && forall j :: from <= j < i ==> Names(t[j].1, alias, props) == Ok(false)
    decreases |t| - from
  {
    if from == |t| then Ok(None)
    else match Names(t[from].1, alias, props)
      case Err(e) => Err(e)
      case Ok(true) => Ok(Some(t[from].1))
      case Ok(false) => FindFrom(t, from + 1, alias, props)
  }

  /** The table key is the lower-cased id but the test compares the
      record's own id, so a command whose id has an upper-case letter is
      not found by its id. */
  lemma MixedCaseIdNotNamed(cmd: Value, id: string, alias: string, props: Loader.CustomProps)
    requires Walk(cmd, Segments(props.id)) == Ok(Str(id)) && Lower(id) != id
    requires Lower(alias) == alias
    ensures Names(cmd, alias, props) == AliasTest(cmd, alias, props)
  {
  }

  // ---------------------------------------------------------------------
  // canUse

  /** Some role id of the member is included in `roles`; the first
      failing `includes` throws. */
  function SomeRole(roles: Value, memberRoles: seq<string>): (r: Result<bool, string>)
    ensures memberRoles == [] ==> r == Ok(false)
    ensures roles.Arr? ==> r == Ok(exists i :: 0 <= i < |memberRoles| && Str(memberRoles[i]) in roles.items)
  {
    if memberRoles == [] then Ok(false)
    else match Includes(roles, memberRoles[0], "rules.roles")
      case Err(e) => Err(e)
      case Ok(true) => Ok(true)
      case Ok(false) =>
        var r := SomeRole(roles, memberRoles[1..]);
        assert roles.Arr? ==> (r == Ok(exists i :: 0 <= i < |memberRoles| && Str(memberRoles[i]) in roles.items)) by {
          if roles.Arr? {
            assert forall i :: 1 <= i < |memberRoles| ==> memberRoles[i] == memberRoles[1..][i - 1];
            if exists i :: 0 <= i < |memberRoles[1..]| && Str(memberRoles[1..][i]) in roles.items {
              var i :| 0 <= i < |memberRoles[1..]| && Str(memberRoles[1..][i]) in roles.items;
              assert Str(memberRoles[i + 1]) in roles.items;
            }
          }
        }
        r
  }

  /** `canUse(rules, message)`. */
  function CanUse(rules: Value, m: Message): (r: Result<bool, string>)
    ensures r.Ok? && HasProperties(rules) && !Truthy(Get(rules, "users")) && !Truthy(Get(rules, "roles")) ==> r.value
  {
    match Prop(rules, "users")
    case Err(e) => Err(e)
    case Ok(users) =>
      match Prop(rules, "roles")
      case Err(e) => Err(e)
      case Ok(roles) =>
        if !Truthy(users) && !Truthy(roles) then Ok(true)
        else
          var byUser: Result<bool, string> := if Truthy(users) then Includes(users, m.authorId, "rules.users") else Ok(false);
          if byUser.Err? then Err(byUser.error)
          else if byUser.value then Ok(true)
          else if Truthy(roles) && m.memberRoles.Some? then SomeRole(roles, m.memberRoles.value)
          else Ok(false)
  }

  /** The rule as lists of ids: it holds exactly when it names neither
      users nor roles, or the author is listed, or the author's member
      holds a listed role. */
  lemma CanUseLists(users: seq<Value>, roles: seq<Value>, cls: string, m: Message)
    ensures var rules := Obj(map["users" := Arr(users, map[]), "roles" := Arr(roles, map[])], cls);
            CanUse(rules, m)
            == Ok(Str(m.authorId) in users
                  || (m.memberRoles.Some? && exists i :: 0 <= i < |m.memberRoles.value| && Str(m.memberRoles.value[i]) in roles))
  {
  }

  /** An empty user list is truthy: with no roles named, it refuses
      everyone. */
  lemma EmptyUsersRefuse(cls: string, m: Message)
    ensures CanUse(Obj(map["users" := Arr([], map[])], cls), m) == Ok(false)
  {
    assert Get(Obj(map["users" := Arr([], map[])], cls), "roles") == Undefined;
  }

  /** What a refusal does: a function `cant` is called with the message,
      anything else is sent to the channel. */
  function Cant(rules: Value, m: Message): (r: Result<seq<Effect>, string>)
    ensures r.Ok? ==> |r.value| == 1
    ensures HasProperties(rules) && Get(rules, "cant").Func? ==> r == Ok([Callback(Get(rules, "cant").name, m.id)])
    ensures HasProperties(rules) && Get(rules, "cant").Str? ==> r == Ok([Send(m.channelId, Some(Get(rules, "cant").s))])
  {
    match Prop(rules, "cant")
    case Err(e) => Err(e)
    case Ok(cant) =>
      if cant.Func? then Ok([Callback(cant.name, m.id)])
      else Ok([Send(m.channelId, if cant.Str? then Some(cant.s) else None)])
  }

  // ---------------------------------------------------------------------
  // Channel and cooldown gates

  predicate OutsideGuilds(s: Settings, m: Message) {
    m.guildId.Some? && |s.restrictedGuilds| > 0 && m.guildId.value !in s.restrictedGuilds
  }

  /** The channel gate as written: 'TEXT' asks for a text channel and any
      other value must equal the channel type. */
  predicate BlockedAsWritten(s: Settings, m: Message, channels: Value) {
    OutsideGuilds(s, m)
    || (if channels == Str("TEXT") then !m.channelIsText else Str(m.channelType) != channels)
  }

  /** No channel has the type 'ANY', so as written a command with the
      default channels never gets past the gate. */
  lemma AnyBlockedAsWritten(s: Settings, m: Message)
    requires m.channelType != "ANY"
    ensures BlockedAsWritten(s, m, Str("ANY"))
  {
  }

  /** The channel gate with 'ANY' admitting every channel. */
  predicate Blocked(s: Settings, m: Message, channels: Value) {
    OutsideGuilds(s, m)
    || (channels != Str("ANY")
        && if channels == Str("TEXT") then !m.channelIsText else Str(m.channelType) != channels)
  }

  /** The two gates differ only on 'ANY', which passes every message from
      an admitted guild. */
  lemma BlockedAgrees(s: Settings, m: Message, channels: Value)
    ensures channels != Str("ANY") ==> (Blocked(s, m, channels) <==> BlockedAsWritten(s, m, channels))
    ensures Blocked(s, m, Str("ANY")) <==> OutsideGuilds(s, m)
    ensures Blocked(s, m, Str("TEXT")) <==> OutsideGuilds(s, m) || !m.channelIsText
  {
  }

  /** The `handle` property of a cooldown as the notifier it stands for. */
  function NotifierOf(v: Value): (r: Cooldowns.Notifier)
    ensures Cooldowns.Active(r) <==> Truthy(v)
    ensures r.NoticeFn? <==> v.Func?
  {
    if !Truthy(v) then Cooldowns.NoNotifier
    else if v.Func? then Cooldowns.NoticeFn(v.name)
    else if v.Str? then Cooldowns.NoticeText(v.s)
    else Cooldowns.NoticeOther
  }

  const NotACooldown := "TypeError: command.cooldown.onCooldown is not a function"

  /** A value made by the `Cooldown` constructor, so `onCooldown` exists. */
  predicate IsCooldown(v: Value) {
    v.Obj? && v.cls == "Cooldown"
  }

  /** `command.cooldown && command.cooldown.onCooldown(id)` and, when it
      holds, `command.cooldown.handle(message)`: `None` lets the message
      through. A cooldown is seen through its properties: `cache` holds
      the cooled-down ids and `handle` the constructor's own property.
      The property is read as `cooldown` whatever the configured location
      is, and a record whose cooldown `load` replaced by `true` throws. */
  function CooldownGate(cmd: Value, m: Message): (r: Result<Option<seq<Effect>>, string>)
    requires HasProperties(cmd)
    ensures !Truthy(Get(cmd, "cooldown")) ==> r == Ok(None)
    ensures Truthy(Get(cmd, "cooldown")) && !IsCooldown(Get(cmd, "cooldown")) ==> r == Err(NotACooldown)
    ensures IsCooldown(Get(cmd, "cooldown")) ==>
              var cache := Get(Get(cmd, "cooldown"), "cache");
              var handle := Get(Get(cmd, "cooldown"), "handle");
              (!HasProperties(cache) ==> r == Err(InOperatorError))
              && (HasProperties(cache) && !Has(cache, m.authorId) ==> r == Ok(None))
              && (HasProperties(cache) && Has(cache, m.authorId) ==>
                    (r.Ok? <==> handle.Func?) && (r.Ok? ==> r.value == Some([Callback(handle.name, m.id)])))
  {
    var c := Get(cmd, "cooldown");
    if !Truthy(c) then Ok(None)
    else if !IsCooldown(c) then Err(NotACooldown)
    else
      var cache := Get(c, "cache");
      if !HasProperties(cache) then Err(InOperatorError)
      else if !Has(cache, m.authorId) then Ok(None)
      else match Cooldowns.OwnHandle(NotifierOf(Get(c, "handle")), m)
        case Err(e) => Err(e)
        case Ok(effects) => Ok(Some(effects))
  }

  // ---------------------------------------------------------------------
  // The decision

  /** What the handler hands to the command: `cut` and `args` exclude the
      alias. */
  datatype Invocation = Invocation(prefixUsed: string, aliasUsed: string, cut: string, args: seq<string>,
                                   command: Value)

  datatype Decision =
    | Ignore
    | ToPrompt
    | Denied(effects: seq<Effect>)
    | CoolingDown(effects: seq<Effect>)
    | Run(invocation: Invocation)
    | Fail(error: string)

  /** The prefix used, the trimmed text after it and its tokens; `None`
      when the message has no prefix or nothing after it. */
  function Parsed(s: Settings, m: Message, prefixes: Value): (r: Option<(string, string, seq<string>)>)
    ensures r.Some? ==> var (p, cut, args) := r.value;
                        IsPrefix(p, m.content) && p in Literals(s, prefixes)
                        && cut == Trim(m.content[|p|..]) && args == SplitWs(cut) && args[0] != ""
  {
    var lits := Literals(s, prefixes);
    match PrefixMatch(lits, m.content)
    case None => None
    case Some(p) =>
      var cut := Trim(m.content[|p|..]);
      var args := SplitWs(cut);
      if args[0] == "" then None else Some((p, cut, args))
  }

  /** The rules at the `canUse` location let the author use the command. */
  predicate RulesAllow(s: Settings, m: Message, cmd: Value) {
    var rules := Walk(cmd, Segments(s.props.canUse));
    rules.Ok? && CanUse(rules.value, m) == Ok(true)
  }

  /** The channels value at its location can be read and does not block
      the message. */
  predicate ChannelAdmits(s: Settings, m: Message, cmd: Value) {
    var channels := Walk(cmd, Segments(s.props.channels));
    channels.Ok? && !Blocked(s, m, channels.value)
  }

  /** The gates after the command is found, in order: the rules, the
      channel, the cooldown. `None` lets the message through. A refusal
      by the rules sends `cant`; a blocked channel or guild is ignored
      silently; a cooled-down author gets what the cooldown's `handle`
      does; any error on the way fails the message. A primitive command
      reads its `cooldown` as undefined, so that gate lets it through. */
  function Gates(s: Settings, m: Message, cmd: Value): (r: Option<Decision>)
    ensures r.Some? ==> !r.value.ToPrompt? && !r.value.Run?
  {
    match Walk(cmd, Segments(s.props.canUse))
    case Err(e) => Some(Fail(e))
    case Ok(rules) =>
      match CanUse(rules, m)
      case Err(e) => Some(Fail(e))
      case Ok(false) =>
        Some(match Cant(rules, m)
             case Err(e) => Fail(e)
             case Ok(effects) => Denied(effects))
      case Ok(true) =>
        match Walk(cmd, Segments(s.props.channels))
        case Err(e) => Some(Fail(e))
        case Ok(channels) =>
          if Blocked(s, m, channels) then Some(Ignore)
          else if !HasProperties(cmd) then None
          else match CooldownGate(cmd, m)
            case Err(e) => Some(Fail(e))
            case Ok(Some(effects)) => Some(CoolingDown(effects))
            case Ok(None) => None
  }

  /** Each outcome of the gates, and exactly when it happens. */
  lemma GatesCases(s: Settings, m: Message, cmd: Value)
    ensures var r := Gates(s, m, cmd);
            var rules := Walk(cmd, Segments(s.props.canUse));
            (r.Some? && r.value.Denied?) <==>
              rules.Ok? && CanUse(rules.value, m) == Ok(false) && Cant(rules.value, m).Ok?
    ensures var r := Gates(s, m, cmd);
            r.Some? && r.value.Denied? ==> r.value.effects == Cant(Walk(cmd, Segments(s.props.canUse)).value, m).value
    ensures var channels := Walk(cmd, Segments(s.props.channels));
            Gates(s, m, cmd) == Some(Ignore) <==> RulesAllow(s, m, cmd) && channels.Ok? && Blocked(s, m, channels.value)
    ensures var r := Gates(s, m, cmd);
            (r.Some? && r.value.CoolingDown?) <==>
              RulesAllow(s, m, cmd) && ChannelAdmits(s, m, cmd) && HasProperties(cmd)
              && CooldownGate(cmd, m).Ok? && CooldownGate(cmd, m).value.Some?
    ensures var r := Gates(s, m, cmd);
            r.Some? && r.value.CoolingDown? ==> r.value.effects == CooldownGate(cmd, m).value.value
    ensures Gates(s, m, cmd).None? <==>
              RulesAllow(s, m, cmd) && ChannelAdmits(s, m, cmd) && HasProperties(cmd) && CooldownGate(cmd, m) == Ok(None)
  {
  }

  /** The steps after the prefix: find the command by the lower-cased
      first token, pass the gates, and hand over the rest. The source cuts
      `aliasUsed.length` UTF-16 code units off the text; lower-casing keeps
      that length, so the cut ends exactly after the first token. */
  function Route(s: Settings, m: Message, p: string, cut: string, args: seq<string>, commands: Loader.Table): (r: Decision)
    requires args == SplitWs(cut) && args[0] != ""
    ensures r != ToPrompt
    ensures var found := FindCommand(commands, Lower(args[0]), s.props);
            (found.Err? ==> r == Fail(found.error))
            && (found == Ok(None) ==> r == Ignore)
            && (found.Ok? && found.value.Some? ==>
                  (r.Run? <==> Gates(s, m, found.value.value).None?)
                  && (Gates(s, m, found.value.value).Some? ==> r == Gates(s, m, found.value.value).value))
    ensures r.Run? ==>
              var inv := r.invocation;
              inv.prefixUsed == p && inv.aliasUsed == Lower(args[0]) && inv.args == args[1..]
              && FindCommand(commands, inv.aliasUsed, s.props) == Ok(Some(inv.command))
              && Gates(s, m, inv.command).None?
              && IsPrefix(args[0], cut) && |inv.aliasUsed| == |args[0]|
              && Utf16Length(cut[..|inv.aliasUsed|]) == Utf16Length(inv.aliasUsed)
              && inv.cut == Trim(cut[|inv.aliasUsed|..])
              && exists i :: 0 <= i < |commands| && commands[i].1 == inv.command
  {
    var alias := Lower(args[0]);
    match FindCommand(commands, alias, s.props)
    case Err(e) => Fail(e)
    case Ok(None) => Ignore
    case Ok(Some(cmd)) =>
      match Gates(s, m, cmd)
      case Some(d) => assert d != ToPrompt; d
      case None =>
        assert IsPrefix(args[0], cut);
        LowerKeepsUtf16Length(args[0]);
        Run(Invocation(p, alias, Trim(cut[|alias|..]), args[1..], cmd))
  }

  /** The decision for one message. `hasPrompt` says whether the author
      has a registered prompt in the message's channel. A bot (unless bots
      are allowed) is ignored before anything else; a pending prompt takes
      the message next; then the prefix, the command and the gates. */
  function Decide(s: Settings, m: Message, hasPrompt: bool, prefixes: Value, commands: Loader.Table): (r: Decision)
    ensures m.authorIsBot && !s.allowBots ==> r == Ignore
    ensures r == ToPrompt <==> hasPrompt && !(m.authorIsBot && !s.allowBots)
    ensures PrefixStrings(prefixes) == [] ==> r == Ignore || r == ToPrompt
    ensures r.Run? ==>
              var inv := r.invocation;
              IsPrefix(inv.prefixUsed, m.content) && inv.aliasUsed != "" && Lower(inv.aliasUsed) == inv.aliasUsed
              && exists i :: 0 <= i < |commands| && commands[i].1 == inv.command
  {
    if m.authorIsBot && !s.allowBots then Ignore
    else if hasPrompt then ToPrompt
    else match Parsed(s, m, prefixes)
      case None => Ignore
      case Some((p, cut, args)) =>
        var r := Route(s, m, p, cut, args, commands);
        Loader.LowerIdempotent(args[0]);
        r
  }

  /** How the decision follows from its steps: without a prefix nothing
      happens; a command runs only when it is the one the lower-cased first
      token finds and every gate lets the message through; a refusal or a
      cooldown comes from the gates of that same command. */
  lemma DecideSteps(s: Settings, m: Message, hasPrompt: bool, prefixes: Value, commands: Loader.Table)
    ensures var r := Decide(s, m, hasPrompt, prefixes, commands);
            !(m.authorIsBot && !s.allowBots) && !hasPrompt && Parsed(s, m, prefixes).None? ==> r == Ignore
    ensures var r := Decide(s, m, hasPrompt, prefixes, commands);
            r.Run? ==>
              var inv := r.invocation;
              Parsed(s, m, prefixes).Some? && Parsed(s, m, prefixes).value.0 == inv.prefixUsed
              && inv.aliasUsed == Lower(Parsed(s, m, prefixes).value.2[0])
              && FindCommand(commands, inv.aliasUsed, s.props) == Ok(Some(inv.command))
              && Gates(s, m, inv.command).None?
              && inv.cut == Trim(Parsed(s, m, prefixes).value.1[|inv.aliasUsed|..])
    ensures var r := Decide(s, m, hasPrompt, prefixes, commands);
            r.Denied? || r.CoolingDown? ==>
              Parsed(s, m, prefixes).Some?
              && var found := FindCommand(commands, Lower(Parsed(s, m, prefixes).value.2[0]), s.props);
                 found.Ok? && found.value.Some? && Gates(s, m, found.value.value) == Some(r)
  {
  }

  /** A refusal by the rules comes before the channel gate: the channels
      value is not even read. */
  lemma CantBeforeChannels(s: Settings, m: Message, cmd: Value, rules: Value)
    requires Walk(cmd, Segments(s.props.canUse)) == Ok(rules)
    requires CanUse(rules, m) == Ok(false)
    ensures Gates(s, m, cmd) == Some(match Cant(rules, m) case Err(e) => Fail(e) case Ok(effects) => Denied(effects))
  {
  }

  predicate Words(ws: seq<string>) {
    |ws| > 0 && forall i :: 0 <= i < |ws| ==> ws[i] != [] && NoSpace(ws[i])
  }

  lemma {:induction false} JoinEndsWithLast(ws: seq<string>)
    requires Words(ws)
    ensures var j := JoinSpaced(ws); |j| > 0 && j[|j| - 1] == ws[|ws| - 1][|ws[|ws| - 1]| - 1]
    decreases |ws|
  {
    if |ws| > 1 {
      assert Words(ws[1..]) by {
        assert forall i :: 0 <= i < |ws[1..]| ==> ws[1..][i] == ws[i + 1];
      }
      JoinEndsWithLast(ws[1..]);
    }
  }

  /** Words joined by single spaces have nothing to trim. */
  lemma JoinTrimmed(ws: seq<string>)
    requires Words(ws)
    ensures TrimStart(JoinSpaced(ws)) == JoinSpaced(ws) && TrimEnd(JoinSpaced(ws)) == JoinSpaced(ws)
  {
    var j := JoinSpaced(ws);
    JoinStartsWithFirst(ws);
    JoinEndsWithLast(ws);
    assert ws[0][0] == ws[0][..1][0];
    assert !IsSpace(j[0]) && !IsSpace(j[|j| - 1]);
  }

  lemma WordsTail(ws: seq<string>)
    requires Words(ws) && |ws| > 1
    ensures Words(ws[1..])
  {
    assert forall i :: 0 <= i < |ws[1..]| ==> ws[1..][i] == ws[i + 1];
  }

  /** Once the first word is shifted off, the trimmed rest is the join of
      the other words. */
  lemma ShiftedCut(ws: seq<string>)
    requires Words(ws) && |ws| > 1
    ensures Trim(JoinSpaced(ws)[|ws[0]|..]) == JoinSpaced(ws[1..])
  {
    var rest := JoinSpaced(ws[1..]);
    var cut := JoinSpaced(ws);
    assert cut == ws[0] + [' '] + rest;
    assert cut[|ws[0]|..] == [' '] + rest;
    WordsTail(ws);
    JoinTrimmed(ws[1..]);
    assert ([' '] + rest)[1..] == rest;
    assert TrimStart([' '] + rest) == TrimStart(rest);
  }

  /** A message of a prefix followed by words split by single spaces: the
      prefix is used and the words are the tokens. */
  lemma PrefixedWords(s: Settings, m: Message, p: string, ws: seq<string>)
    requires '\\' !in s.botId
    requires Words(ws) && m.content == p + JoinSpaced(ws)
    ensures Parsed(s, m, Str(p)) == Some((p, JoinSpaced(ws), ws))
  {
    LiteralsArePrefixes(s, Str(p));
    var lits := Literals(s, Str(p));
    assert lits[0] == p;
    assert m.content[..|p|] == p;
    assert PrefixMatch(lits, m.content) == Some(p);
    var cut := JoinSpaced(ws);
    assert m.content[|p|..] == cut;
    JoinTrimmed(ws);
    SplitJoinWords(ws);
  }

  /** The example of a ban command: with the prefix '!', the message
      '!ban @u spamming' has the tokens 'ban', '@u' and 'spamming' (the
      first, already lower case, is the alias), and once the alias is
      shifted off the command sees the cut '@u spamming' and the arguments
      '@u' and 'spamming'. */
  lemma BanExample(s: Settings, m: Message)
    requires m.content == "!ban @u spamming"
    requires '\\' !in s.botId
    ensures var ws := ["ban", "@u", "spamming"];
            Parsed(s, m, Str("!")) == Some(("!", "ban @u spamming", ws))
            && ws[1..] == ["@u", "spamming"] && Trim(JoinSpaced(ws)[|ws[0]|..]) == "@u spamming"
  {
    var ws := ["ban", "@u", "spamming"];
    BanWords();
    assert m.content == "!" + JoinSpaced(ws);
    PrefixedWords(s, m, "!", ws);
    ShiftedCut(ws);
  }

  lemma BanWords()
    ensures var ws := ["ban", "@u", "spamming"];
            Words(ws) && JoinSpaced(ws) == "ban @u spamming" && JoinSpaced(ws[1..]) == "@u spamming"
  {
    var ws := ["ban", "@u", "spamming"];
    assert ws[1..] == ["@u", "spamming"];
    assert JoinSpaced(["spamming"]) == "spamming";
    assert JoinSpaced(ws[1..]) == "@u spamming";
    assert JoinSpaced(ws) == "ban " + JoinSpaced(ws[1..]);
  }

  // ---------------------------------------------------------------------
  // Running the command

  /** What `call.args` becomes. */
  datatype CallArgs = Tokens(tokens: seq<string>) | Resolved(values: map<string, Value>)

  /** The exec location holds a function. */
  predicate ExecIsFunction(cmd: Value, props: Loader.CustomProps) {
    var e := Walk(cmd, Segments(props.exec));
    e.Ok? && e.value.Func?
  }

  /** `command.arguments`: read at that key whatever the configured
      locations are. */
  function ArgumentsValue(cmd: Value): Value {
    if HasProperties(cmd) then Get(cmd, "arguments") else Undefined
  }

  const GetAllNotFunction := "TypeError: command.arguments.getAll is not a function"

  /** The arguments of the call: the tokens when the command's `arguments`
      is falsy, else what that `Arguments` instance's `getAll` resolves; any
      other truthy value has no `getAll`, so the call throws. `instance`
      gives the definitions and splitter an `Arguments` object holds. */
  function CallArgsOf(inv: Invocation, props: Loader.CustomProps, instance: Value -> Args.Arguments,
                      look: Args.Lookup, ask: (nat, string) -> Args.Reply): (r: Result<CallArgs, string>)
    ensures !Truthy(ArgumentsValue(inv.command)) ==> r == Ok(Tokens(inv.args))
    ensures Truthy(ArgumentsValue(inv.command)) && !IsArguments(ArgumentsValue(inv.command)) ==> r == Err(GetAllNotFunction)
    ensures IsArguments(ArgumentsValue(inv.command)) ==>
              var a := instance(ArgumentsValue(inv.command));
              var got := Args.GetAllFrom(a.definitions, 0, 0, Args.Split(a.splitter, inv.cut), map[],
                                         Args.CallInfo(inv.cut, IdText(inv.command)), look, ask);
              (r.Ok? <==> got.Ok?) && (r.Ok? ==> r.value == Resolved(got.value))
  {
    var held := ArgumentsValue(inv.command);
    if !Truthy(held) then Ok(Tokens(inv.args))
    else if !IsArguments(held) then Err(GetAllNotFunction)
    else
      var a := instance(held);
      match Args.GetAllFrom(a.definitions, 0, 0, Args.Split(a.splitter, inv.cut), map[],
                            Args.CallInfo(inv.cut, IdText(inv.command)), look, ask)
      case Err(e) => Err(e)
      case Ok(vs) => Ok(Resolved(vs))
  }

  /** A value made by the `Arguments` constructor. */
  predicate IsArguments(v: Value) {
    v.Obj? && v.cls == "Arguments"
  }

  /** The `try` block: the arguments are set, then the exec function is
      called; an error on the way, or one the exec function throws (the
      `throws` flag), goes to `onError`. */
  function Execute(inv: Invocation, m: Message, props: Loader.CustomProps, instance: Value -> Args.Arguments,
                   look: Args.Lookup, ask: (nat, string) -> Args.Reply, throws: bool): (r: (Option<CallArgs>, seq<Effect>))
    ensures !Truthy(ArgumentsValue(inv.command)) ==> r.0 == Some(Tokens(inv.args))
    ensures r.0.None? || !ExecIsFunction(inv.command, props) ==> r.1 == [Callback("onError", m.id)]
    ensures r.0.Some? && ExecIsFunction(inv.command, props) ==>
              var name := Walk(inv.command, Segments(props.exec)).value.name;
              r.1 == if throws then [Callback(name, m.id), Callback("onError", m.id)] else [Callback(name, m.id)]
  {
    var args := CallArgsOf(inv, props, instance, look, ask);
    if args.Err? then (None, [Callback("onError", m.id)])
    else
      var exec := Walk(inv.command, Segments(props.exec));
      if exec.Ok? && exec.value.Func? then
        var called := [Callback(exec.value.name, m.id)];
        (Some(args.value), if throws then called + [Callback("onError", m.id)] else called)
      else (Some(args.value), [Callback("onError", m.id)])
  }

  /** The id `getAll` reports in its errors, `${call.command.id}`: the
      record's own `id` property converted to text, wherever the id is
      configured to live, so a record without one reports "undefined". */
  function IdText(cmd: Value): (r: string)
    ensures !HasProperties(cmd) || !Has(cmd, "id") ==> r == "undefined"
    ensures HasProperties(cmd) && Get(cmd, "id").Str? ==> r == Get(cmd, "id").s
  {
    if HasProperties(cmd) then JsText(Get(cmd, "id")) else "undefined"
  }

  /** A non-text id is converted as a template literal converts it. */
  lemma IdTextConverts()
    ensures IdText(Obj(map["id" := Num(7)], "")) == "7"
    ensures IdText(Obj(map["id" := Num(-7)], "")) == "-7"
    ensures IdText(Obj(map["id" := Arr([Str("a"), Null, Str("b")], map[])], "")) == "a,,b"
  {
  }

  /** With the id configured at `name`, the record is found under its name
      but the argument errors still name the `id` property, here absent. */
  lemma CustomIdLocationReportsUndefined(props: Loader.CustomProps)
    requires props.id == "name"
    ensures var cmd := Obj(map["name" := Str("ping")], "");
            Walk(cmd, Segments(props.id)) == Ok(Str("ping")) && IdText(cmd) == "undefined"
  {
    var cmd := Obj(map["name" := Str("ping")], "");
    Utils.PlainPathSegments("name");
  }

  predicate Owned(h: Prompts.Handler)
    reads h, h.prompts
  {
    forall i :: 0 <= i < |h.prompts| ==> h.prompts[i].handler == h
  }

  /** Runs the command of a `Run` decision. */
  method RunCommand(h: Prompts.Handler, inv: Invocation, m: Message, props: Loader.CustomProps,
                    instance: Value -> Args.Arguments, look: Args.Lookup, ask: (nat, string) -> Args.Reply,
                    throws: bool) returns (args: Option<CallArgs>)
    modifies h
    ensures h.prompts == old(h.prompts)
    ensures var e := Execute(inv, m, props, instance, look, ask, throws);
            args == e.0 && h.outbox == old(h.outbox) + e.1
  {
    var resolved: Result<CallArgs, string> := Ok(Tokens(inv.args));
    var held := ArgumentsValue(inv.command);
    if Truthy(held) && !IsArguments(held) {
      resolved := Err(GetAllNotFunction);
    } else if IsArguments(held) {
      var a := instance(held);
      var r := Args.GetAll(a, Args.CallInfo(inv.cut, IdText(inv.command)), look, ask);
      resolved := if r.Ok? then Ok(Resolved(r.value)) else Err(r.error);
    }
    assert resolved == CallArgsOf(inv, props, instance, look, ask);
    if resolved.Err? {
      args := None;
      h.outbox := h.outbox + [Callback("onError", m.id)];
      return;
    }
    args := Some(resolved.value);
    var exec := GetObjVal(inv.command, props.exec);
    if exec.Ok? && exec.value.Func? {
      var called := [Callback(exec.value.name, m.id)];
      if throws {
        called := called + [Callback("onError", m.id)];
      }
      h.outbox := h.outbox + called;
    } else {
      h.outbox := h.outbox + [Callback("onError", m.id)];
    }
  }

  /** The handler for one message: a message for a running prompt goes to
      that prompt's `addInput` and nothing else happens; any other message
      leaves the prompts alone and records what its decision sends. */
  method OnMessage(h: Prompts.Handler, s: Settings, m: Message, prefixes: Value, commands: Loader.Table,
                   instance: Value -> Args.Arguments, look: Args.Lookup, ask: (nat, string) -> Args.Reply,
                   throws: bool) returns (d: Decision, args: Option<CallArgs>)
    requires Owned(h)
    modifies h, h.prompts
    ensures d == Decide(s, m, old(h.Find(m.authorId, m.channelId)).Some?, prefixes, commands)
    ensures d == ToPrompt ==>
              var p := old(h.Find(m.authorId, m.channelId)).value;
              var st := Prompts.AddInputStep(old(p.State()), p.options, p.channel, m);
              p.State() == st.state && h.outbox == old(h.outbox) + st.effects
    ensures d == ToPrompt ==>
              var p := old(h.Find(m.authorId, m.channelId)).value;
              h.prompts == (if p.State().ended && !old(p.State()).ended then Prompts.WithoutUser(old(h.prompts), p.user) else old(h.prompts))
              && forall q :: q in old(h.prompts) && q != p ==> q.State() == old(q.State())
    ensures d != ToPrompt ==> h.prompts == old(h.prompts) && forall q :: q in h.prompts ==> q.State() == old(q.State())
    ensures d.Denied? || d.CoolingDown? ==> h.outbox == old(h.outbox) + d.effects
    ensures d.Run? ==> var e := Execute(d.invocation, m, s.props, instance, look, ask, throws);
                       args == e.0 && h.outbox == old(h.outbox) + e.1
    ensures !(d.Denied? || d.CoolingDown? || d.Run? || d == ToPrompt) ==> h.outbox == old(h.outbox)
  {
    args := None;
    var found := h.Find(m.authorId, m.channelId);
    d := Decide(s, m, found.Some?, prefixes, commands);
    if d == ToPrompt {
      var p := found.value;
      p.AddInput(m);
      return;
    }
    args := Act(h, d, m, s.props, instance, look, ask, throws);
  }

  /** What a decision other than `ToPrompt` does: a refusal or a cooldown
      sends its effects, a `Run` runs the command, and the rest do
      nothing. */
  method Act(h: Prompts.Handler, d: Decision, m: Message, props: Loader.CustomProps,
             instance: Value -> Args.Arguments, look: Args.Lookup, ask: (nat, string) -> Args.Reply,
             throws: bool) returns (args: Option<CallArgs>)
    modifies h
    ensures h.prompts == old(h.prompts)
    ensures d.Denied? || d.CoolingDown? ==> args.None? && h.outbox == old(h.outbox) + d.effects
    ensures d.Run? ==> var e := Execute(d.invocation, m, props, instance, look, ask, throws);
                       args == e.0 && h.outbox == old(h.outbox) + e.1
    ensures !(d.Denied? || d.CoolingDown? || d.Run?) ==> args.None? && h.outbox == old(h.outbox)
  {
    args := None;
    if d.Denied? || d.CoolingDown? {
      h.outbox := h.outbox + d.effects;
    } else if d.Run? {
      args := RunCommand(h, d.invocation, m, props, instance, look, ask, throws);
    }
  }
}
