/** The earlier version of the library, the single file index.js: its
    `Prompt` (synchronous, with no `matchUntil`), the normalisation of the
    options in `Call#prompt`, and the message handler, whose registry of
    prompts is a map keyed by the user's id and whose channel gate knows
    'dm', 'guild' and anything else. */
module Legacy {
  import opened Base
  import opened Utils
  import opened Prompts
  import Calls
  import Dispatch
  import Loader

  // ---------------------------------------------------------------------
  // Options

  /** The options as supplied; `None` is an absent key. A supplied
      `correct` is a function, given as the sends it makes. */
  datatype LegacyRaw = LegacyRaw(
    time: Option<int>,
    messages: Option<int>,
    attempts: Option<int>,
    cancellable: Option<bool>,
    autoRespond: Option<bool>,
    invisible: Option<bool>,
    filter: Option<Calls.RawFilter>,
    correct: Option<Message -> seq<Effect>>,
    channel: Option<string>)

  datatype LegacyOptions = LegacyOptions(
    time: int,
    messages: int,
    attempts: int,
    cancellable: bool,
    autoRespond: bool,
    invisible: bool,
    filter: Message -> bool,
    correct: Message -> seq<Effect>)

  /** The filter `Call#prompt` installs: a regular expression tests the
      content, an array must include the lower-cased content, and anything
      else, a function included, becomes the constant `!!filter`. */
  function LegacyFilterOf(f: Calls.RawFilter): (r: Message -> bool)
    ensures f.Predicate? ==> forall m :: r(m)
  {
    match f
    case Pattern(test) => (m: Message) => test(m.content)
    case LiteralList(items) => (m: Message) => Lower(m.content) in items
    case MaxLength(n) => (m: Message) => n != 0
    case Predicate(_) => (m: Message) => true
  }

  /** What each kind of filter accepts. */
  lemma LegacyFilterCases(f: Calls.RawFilter, m: Message)
    ensures f.Pattern? ==> (LegacyFilterOf(f)(m) <==> f.test(m.content))
    ensures f.LiteralList? ==> (LegacyFilterOf(f)(m) <==> exists i :: 0 <= i < |f.items| && f.items[i] == Lower(m.content))
    ensures f.MaxLength? ==> (LegacyFilterOf(f)(m) <==> f.n != 0)
    ensures f.Predicate? ==> LegacyFilterOf(f)(m)
  {
  }

  /** `t` has a letter that lower-casing changes. */
  predicate HasUpper(t: string) {
    Lower(t) != t
  }

  /** The list is not lower-cased, so an item with an upper-case letter
      accepts no message. */
  lemma UpperItemNeverAccepts(items: seq<string>, m: Message)
    requires forall i :: 0 <= i < |items| ==> HasUpper(items[i])
    ensures !LegacyFilterOf(Calls.LiteralList(items))(m)
  {
    Loader.LowerIdempotent(m.content);
  }

  /** `defaults(options, promptOptionsDefaults)` followed by the filter
      normalisation. */
  function FillLegacy(raw: LegacyRaw): (r: LegacyOptions)
    ensures r.time == raw.time.GetOr(180000) && r.messages == raw.messages.GetOr(1)
    ensures r.attempts == raw.attempts.GetOr(10)
    ensures r.cancellable == raw.cancellable.GetOr(true) && r.autoRespond == raw.autoRespond.GetOr(true)
    ensures r.invisible == raw.invisible.GetOr(false)
    ensures raw.filter.None? ==> forall m :: r.filter(m)
    ensures raw.correct.None? ==> forall m :: r.correct(m) == []
    ensures raw.filter.Some? ==> r.filter == LegacyFilterOf(raw.filter.value)
    ensures raw.correct.Some? ==> r.correct == raw.correct.value
  {
    LegacyOptions(
      raw.time.GetOr(180000),
      raw.messages.GetOr(1),
      raw.attempts.GetOr(10),
      raw.cancellable.GetOr(true),
      raw.autoRespond.GetOr(true),
      raw.invisible.GetOr(false),
      LegacyFilterOf(raw.filter.GetOr(Calls.Predicate(_ => true))),
      raw.correct.GetOr(_ => []))
  }

  /** The options of the current `Prompt` that behave the same: no
      `matchUntil`, so `addLastMatch` plays no part. */
  function AsOptions(o: LegacyOptions): (r: Options)
    ensures r.matchUntil.None? && r.filter == o.filter && r.correct == o.correct
    ensures r.messages == o.messages && r.attempts == o.attempts
    ensures r.cancellable == o.cancellable && r.autoRespond == o.autoRespond
  {
    Options(o.time, o.messages, o.attempts, o.cancellable, o.autoRespond, false, o.filter, o.correct, None)
  }

  // ---------------------------------------------------------------------
  // addInput on the state

  /** The legacy `addInput(message)`: after the attempt is counted and the
      cancel check, a passing message is stored by id and a failing one is
      corrected, and in both cases enough values end the prompt with
      success before the attempts limit is looked at. */
  function LegacyAddInputStep(s: PromptState, o: LegacyOptions, channel: string, m: Message): Step {
    if s.ended then Step(s, [])
    else
      var s1 := s.(attempts := s.attempts + 1);
      if o.cancellable && Lower(m.content) == "cancel" then EndStep(s1, channel, o.autoRespond, Cancelled)
      else if o.filter(m) then LegacyLimits(s1.(values := Store(s1.values, m)), o, channel, [])
      else LegacyLimits(s1, o, channel, o.correct(m))
  }

  /** The checks closing the legacy `addInput`, after the sends `sent`. */
  function LegacyLimits(s: PromptState, o: LegacyOptions, channel: string, sent: seq<Effect>): (r: Step)
    ensures r.state.attempts == s.attempts && r.state.values == s.values
    ensures |r.effects| >= |sent| && r.effects[..|sent|] == sent
    ensures r.state.ended <==> s.ended || |s.values| >= o.messages || (o.attempts > 0 && s.attempts >= o.attempts)
  {
    var e :=
      if |s.values| >= o.messages then EndStep(s, channel, o.autoRespond, Success)
      else if o.attempts > 0 && s.attempts >= o.attempts then EndStep(s, channel, o.autoRespond, Attempts)
      else Step(s, []);
    Step(e.state, sent + e.effects)
  }

  /** The legacy step is the current one without `matchUntil`, so every
      property proved of the current step holds of the legacy one. */
  lemma LegacyMatchesCurrent(s: PromptState, o: LegacyOptions, channel: string, m: Message)
    ensures LegacyAddInputStep(s, o, channel, m) == AddInputStep(s, AsOptions(o), channel, m)
  {
    var opts := AsOptions(o);
    if !s.ended && !(o.cancellable && Lower(m.content) == "cancel") {
      var s1 := s.(attempts := s.attempts + 1);
      if o.filter(m) {
        var s2 := s1.(values := Store(s1.values, m));
        var e := AfterInput(s2, opts, channel, []);
        assert [] + e.effects == e.effects;
        assert LegacyLimits(s2, o, channel, []) == e;
      } else {
        assert LegacyLimits(s1, o, channel, o.correct(m)) == AfterInput(s1, opts, channel, o.correct(m));
      }
    }
  }

  /** The legacy step keeps the state coherent. */
  lemma LegacyKeepsCoherent(s: PromptState, o: LegacyOptions, channel: string, m: Message)
    requires Coherent(s)
    ensures Coherent(LegacyAddInputStep(s, o, channel, m).state)
    ensures !s.ended ==> LegacyAddInputStep(s, o, channel, m).state.attempts == s.attempts + 1
  {
    LegacyMatchesCurrent(s, o, channel, m);
    StepsKeepCoherent(s, AsOptions(o), channel, m, Success);
    if !s.ended {
      AddInputCountsAttempt(s, AsOptions(o), channel, m);
    }
  }

  // ---------------------------------------------------------------------
  // The registry and the prompt

  /** `handler.prompts`: at most one prompt per user id, the latest one
      set, whatever its channel; and the sends made so far. */
  class LegacyHandler {
    var prompts: map<string, LegacyPrompt>
    var outbox: seq<Effect>

    constructor()
      ensures prompts == map[] && outbox == []
    {
      prompts := map[];
      outbox := [];
    }

    /** Every registered prompt belongs to this handler and is filed under
        its user's id. */
    predicate Owns()
      reads this, prompts.Values
    {
      forall u :: u in prompts ==> prompts[u].handler == this && prompts[u].user == u
    }
  }

  class LegacyPrompt {
    const user: string
    const channel: string
    const options: LegacyOptions
    const handler: LegacyHandler
    var ended: bool
    var attempts: int
    var values: seq<Message>
    var outcome: Outcome

    /** A new prompt; the caller arms the timer when `Timed()`. The
        `invisible` property the handler reads is never set on it. */
    constructor(user: string, channel: string, options: LegacyOptions, handler: LegacyHandler)
      ensures this.user == user && this.channel == channel
      ensures this.options == options && this.handler == handler
      ensures State() == Fresh
    {
      this.user := user;
      this.channel := channel;
      this.options := options;
      this.handler := handler;
      ended := false;
      attempts := 0;
      values := [];
      outcome := Pending;
    }

    function State(): PromptState
      reads this
    {
      PromptState(ended, attempts, values, outcome)
    }

    /** `options.time > 0 && options.time < Infinity` */
    predicate Timed() {
      options.time > 0
    }

    /** `end(reason)`: acts once, deleting whatever the registry holds
        under the user's id, which may be a newer prompt of the user. */
    method End(reason: Reason)
      modifies this, handler
      ensures var st := EndStep(old(State()), channel, options.autoRespond, reason);
              State() == st.state && handler.outbox == old(handler.outbox) + st.effects
      ensures handler.prompts == if old(ended) then old(handler.prompts) else old(handler.prompts) - {user}
    {
      if ended {
        return;
      }
      ended := true;
      handler.prompts := handler.prompts - {user};
      if options.autoRespond {
        if reason == Time || reason == Cancelled {
          handler.outbox := handler.outbox + [Send(channel, Some("Cancelled prompt."))];
        }
        if reason == Attempts {
          handler.outbox := handler.outbox + [Send(channel, Some("Too many attempts."))];
        }
      }
      outcome := Settle(reason, values);
    }

    /** The timer firing. */
    method Expire()
      requires Timed()
      modifies this, handler
      ensures var st := EndStep(old(State()), channel, options.autoRespond, Time);
              State() == st.state && handler.outbox == old(handler.outbox) + st.effects
      ensures handler.prompts == if old(ended) then old(handler.prompts) else old(handler.prompts) - {user}
    {
      End(Time);
    }

    /** `addInput(message)`. */
    method AddInput(m: Message)
      modifies this, handler
      ensures var st := LegacyAddInputStep(old(State()), options, channel, m);
              State() == st.state && handler.outbox == old(handler.outbox) + st.effects
      ensures handler.prompts == if ended && !old(ended) then old(handler.prompts) - {user} else old(handler.prompts)
    {
      if ended {
        return;
      }
      ghost var s0 := State();
      ghost var o0 := handler.outbox;
      attempts := attempts + 1;
      ghost var s1 := State();
      assert s1 == s0.(attempts := s0.attempts + 1);
      if options.cancellable && Lower(m.content) == "cancel" {
        assert LegacyAddInputStep(s0, options, channel, m) == EndStep(s1, channel, options.autoRespond, Cancelled);
        End(Cancelled);
        return;
      }
      var sent: seq<Effect> := [];
      if options.filter(m) {
        values := Store(values, m);
        assert LegacyAddInputStep(s0, options, channel, m) == LegacyLimits(State(), options, channel, []);
      } else {
        sent := options.correct(m);
        handler.outbox := handler.outbox + sent;
        assert LegacyAddInputStep(s0, options, channel, m) == LegacyLimits(State(), options, channel, sent);
      }
      assert handler.outbox[..|handler.outbox| - |sent|] == o0;
      CheckLimits(sent);
    }

    /** The limit checks, once `sent` has gone out. */
    method CheckLimits(ghost sent: seq<Effect>)
      requires !ended && |handler.outbox| >= |sent| && handler.outbox[|handler.outbox| - |sent|..] == sent
      modifies this, handler
      ensures var st := LegacyLimits(old(State()), options, channel, sent);
              State() == st.state
              && handler.outbox == old(handler.outbox)[..|old(handler.outbox)| - |sent|] + st.effects
      ensures handler.prompts == if ended then old(handler.prompts) - {user} else old(handler.prompts)
    {
      ghost var before := handler.outbox;
      assert before == before[..|before| - |sent|] + sent;
      if |values| >= options.messages {
        End(Success);
      } else if options.attempts > 0 && attempts >= options.attempts {
        End(Attempts);
      }
    }
  }

  /** `Call#prompt(msg, options)`. The trigger `msg` is sent when it is a
      non-empty text and the send is awaited; `sendError` is the error a
      failed send rejects with, and then nothing is registered. Otherwise
      the new prompt is set under the author's id, replacing any prompt of
      the author in any channel. */
  method LegacyCallPrompt(h: LegacyHandler, invoking: Message, msg: Option<string>, raw: LegacyRaw,
                          sendError: Option<string>) returns (r: Result<LegacyPrompt, string>)
    modifies h
    ensures var channel := raw.channel.GetOr(invoking.channelId);
            var sends := Calls.SendsTrigger(msg);
            h.outbox == old(h.outbox) + (if sends then [Send(channel, msg)] else [])
            && (sends && sendError.Some? ==> r == Err(sendError.value) && h.prompts == old(h.prompts))
            && (r.Ok? ==> fresh(r.value) && h.prompts == old(h.prompts)[invoking.authorId := r.value]
                          && r.value.user == invoking.authorId && r.value.channel == channel
                          && r.value.options == FillLegacy(raw) && r.value.State() == Fresh
                          && r.value.handler == h)
            && (r.Err? ==> h.prompts == old(h.prompts))
            && (!(sends && sendError.Some?) ==> r.Ok?)
  {
    var options := FillLegacy(raw);
    var channel := raw.channel.GetOr(invoking.channelId);
    if Calls.SendsTrigger(msg) {
      h.outbox := h.outbox + [Send(channel, msg)];
      if sendError.Some? {
        return Err(sendError.value);
      }
    }
    var p := new LegacyPrompt(invoking.authorId, channel, options, h);
    h.prompts := h.prompts[invoking.authorId := p];
    return Ok(p);
  }

  // ---------------------------------------------------------------------
  // The message handler

  /** The legacy channel gate: 'dm' asks for a DM channel, 'guild' for a
      guild text channel, and any other value lets every channel through. */
  predicate LegacyBlocked(s: Dispatch.Settings, m: Message, channels: Value) {
    Dispatch.OutsideGuilds(s, m)
    || (channels == Str("dm") && m.channelType != "dm")
    || (channels == Str("guild") && m.channelType != "text")
  }

  lemma LegacyGateCases(s: Dispatch.Settings, m: Message, channels: Value)
    requires !Dispatch.OutsideGuilds(s, m)
    ensures channels == Str("dm") ==> (LegacyBlocked(s, m, channels) <==> m.channelType != "dm")
    ensures channels == Str("guild") ==> (LegacyBlocked(s, m, channels) <==> m.channelType != "text")
    ensures channels != Str("dm") && channels != Str("guild") ==> !LegacyBlocked(s, m, channels)
  {
  }

  /** A parsed message: the command it names, then the legacy gate. */
  function LegacyRoute(s: Dispatch.Settings, m: Message, p: string, cut: string, args: seq<string>,
                       commands: Loader.Table): (r: Dispatch.Decision)
    requires args == Dispatch.SplitWs(cut) && args[0] != ""
    ensures r != Dispatch.ToPrompt && !r.Denied? && !r.CoolingDown?
    ensures var found := Dispatch.FindCommand(commands, Lower(args[0]), s.props);
            (found.Err? ==> r == Dispatch.Fail(found.error))
            && (found == Ok(None) ==> r == Dispatch.Ignore)
    ensures r.Run? ==>
              var inv := r.invocation;
              var channels := Walk(inv.command, Segments(s.props.channels));
              inv.prefixUsed == p && inv.aliasUsed == Lower(args[0]) && inv.args == args[1..]
              && Dispatch.FindCommand(commands, inv.aliasUsed, s.props) == Ok(Some(inv.command))
              && channels.Ok? && !LegacyBlocked(s, m, channels.value)
              && Dispatch.IsPrefix(args[0], cut) && inv.cut == Trim(cut[|inv.aliasUsed|..])
              && exists i :: 0 <= i < |commands| && commands[i].1 == inv.command
    ensures var found := Dispatch.FindCommand(commands, Lower(args[0]), s.props);
            found.Ok? && found.value.Some? && !r.Run? && !r.Fail? ==>
              var channels := Walk(found.value.value, Segments(s.props.channels));
              channels.Ok? && LegacyBlocked(s, m, channels.value)
    ensures var found := Dispatch.FindCommand(commands, Lower(args[0]), s.props);
            found.Ok? && found.value.Some? ==>
              var channels := Walk(found.value.value, Segments(s.props.channels));
              (channels.Err? ==> r == Dispatch.Fail(channels.error))
              && (channels.Ok? ==> (r.Run? <==> !LegacyBlocked(s, m, channels.value)))
  {
    var alias := Lower(args[0]);
    match Dispatch.FindCommand(commands, alias, s.props)
    case Err(e) => Dispatch.Fail(e)
    case Ok(None) => Dispatch.Ignore
    case Ok(Some(cmd)) =>
      match Walk(cmd, Segments(s.props.channels))
      case Err(e) => Dispatch.Fail(e)
      case Ok(channels) =>
        if LegacyBlocked(s, m, channels) then Dispatch.Ignore
        else
          assert |alias| <= |cut| by {
            assert Dispatch.IsPrefix(args[0], cut);
          }
          Dispatch.Run(Dispatch.Invocation(p, alias, Trim(cut[|alias|..]), args[1..], cmd))
  }

  /** The decision for one message. `promptChannel` is the channel of the
      prompt registered under the author's id, if any: the message goes to
      it exactly when the channels agree (the prompt's `invisible` property
      is never set, so it never holds the message back). There are no
      rules and no cooldowns. */
  function LegacyDecide(s: Dispatch.Settings, m: Message, promptChannel: Option<string>, prefixes: Value,
                        commands: Loader.Table): (r: Dispatch.Decision)
    ensures m.authorIsBot && !s.allowBots ==> r == Dispatch.Ignore
    ensures r == Dispatch.ToPrompt <==> !(m.authorIsBot && !s.allowBots) && promptChannel == Some(m.channelId)
    ensures !r.Denied? && !r.CoolingDown?
    ensures Dispatch.PrefixStrings(prefixes) == [] ==> r == Dispatch.Ignore || r == Dispatch.ToPrompt
    ensures r.Run? ==>
              var inv := r.invocation;
              Dispatch.IsPrefix(inv.prefixUsed, m.content) && inv.aliasUsed != "" && Lower(inv.aliasUsed) == inv.aliasUsed
              && exists i :: 0 <= i < |commands| && commands[i].1 == inv.command
  {
    if m.authorIsBot && !s.allowBots then Dispatch.Ignore
    else if promptChannel == Some(m.channelId) then Dispatch.ToPrompt
    else match Dispatch.Parsed(s, m, prefixes)
      case None => Dispatch.Ignore
      case Some((p, cut, args)) =>
        var r := LegacyRoute(s, m, p, cut, args, commands);
        Loader.LowerIdempotent(args[0]);
        r
  }

  /** How the legacy decision follows from its steps: without a prefix
      nothing happens, and a command runs only when it is the one the
      lower-cased first token finds and its channel gate admits the
      message. */
  lemma LegacyDecideSteps(s: Dispatch.Settings, m: Message, promptChannel: Option<string>, prefixes: Value,
                          commands: Loader.Table)
    ensures var r := LegacyDecide(s, m, promptChannel, prefixes, commands);
            (!(m.authorIsBot && !s.allowBots) && promptChannel != Some(m.channelId)
             && Dispatch.Parsed(s, m, prefixes).None?) ==> r == Dispatch.Ignore
    ensures var r := LegacyDecide(s, m, promptChannel, prefixes, commands);
            r.Run? ==>
              var inv := r.invocation;
              var channels := Walk(inv.command, Segments(s.props.channels));
              Dispatch.Parsed(s, m, prefixes).Some? && Dispatch.Parsed(s, m, prefixes).value.0 == inv.prefixUsed
              && inv.aliasUsed == Lower(Dispatch.Parsed(s, m, prefixes).value.2[0])
              && Dispatch.FindCommand(commands, inv.aliasUsed, s.props) == Ok(Some(inv.command))
              && channels.Ok? && !LegacyBlocked(s, m, channels.value)
    ensures var r := LegacyDecide(s, m, promptChannel, prefixes, commands);
            var parsed := Dispatch.Parsed(s, m, prefixes);
            (!(m.authorIsBot && !s.allowBots) && promptChannel != Some(m.channelId) && parsed.Some?) ==>
              var found := Dispatch.FindCommand(commands, Lower(parsed.value.2[0]), s.props);
              (found.Err? ==> r == Dispatch.Fail(found.error))
              && (found == Ok(None) ==> r == Dispatch.Ignore)
              && (found.Ok? && found.value.Some? ==>
                    var channels := Walk(found.value.value, Segments(s.props.channels));
                    (channels.Err? ==> r == Dispatch.Fail(channels.error))
                    && (channels.Ok? ==> (r.Run? <==> !LegacyBlocked(s, m, channels.value))))
  {
  }

  /** The `try` block: the exec function is called synchronously with the
      call; a missing or non-function exec, or an exception it throws (the
      `throws` flag), goes to `onError`. */
  function LegacyExecute(inv: Dispatch.Invocation, m: Message, props: Loader.CustomProps, throws: bool): (r: seq<Effect>)
    ensures !Dispatch.ExecIsFunction(inv.command, props) ==> r == [Callback("onError", m.id)]
    ensures Dispatch.ExecIsFunction(inv.command, props) ==>
              |r| >= 1 && r[0] == Callback(Walk(inv.command, Segments(props.exec)).value.name, m.id)
              && (throws <==> |r| == 2) && (throws ==> r[1] == Callback("onError", m.id))
  {
    var exec := Walk(inv.command, Segments(props.exec));
    if exec.Ok? && exec.value.Func? then
      [Callback(exec.value.name, m.id)] + (if throws then [Callback("onError", m.id)] else [])
    else [Callback("onError", m.id)]
  }

  /** Runs the command of a `Run` decision. */
  method LegacyRun(h: LegacyHandler, inv: Dispatch.Invocation, m: Message, props: Loader.CustomProps, throws: bool)
    modifies h
    ensures h.outbox == old(h.outbox) + LegacyExecute(inv, m, props, throws)
    ensures h.prompts == old(h.prompts)
  {
    h.outbox := h.outbox + LegacyExecute(inv, m, props, throws);
  }

  /** The handler for one message: a message from the author of a prompt
      in the same channel goes to its `addInput`, whatever its options say
      about `invisible`; any other message leaves the prompts alone. */
  method LegacyOnMessage(h: LegacyHandler, s: Dispatch.Settings, m: Message, prefixes: Value,
                         commands: Loader.Table, throws: bool) returns (d: Dispatch.Decision)
    requires h.Owns()
    modifies h, h.prompts.Values
    ensures var pc := if m.authorId in old(h.prompts) then Some(old(h.prompts)[m.authorId].channel) else None;
            d == LegacyDecide(s, m, pc, prefixes, commands)
    ensures d == Dispatch.ToPrompt ==>
              var p := old(h.prompts)[m.authorId];
              var st := LegacyAddInputStep(old(p.State()), p.options, p.channel, m);
              p.State() == st.state && h.outbox == old(h.outbox) + st.effects
    ensures d == Dispatch.ToPrompt ==>
              var p := old(h.prompts)[m.authorId];
              h.prompts == (if p.State().ended && !old(p.State()).ended then old(h.prompts) - {m.authorId} else old(h.prompts))
              && OthersKept(old(h.prompts), m.authorId)
    ensures d != Dispatch.ToPrompt ==>
              h.prompts == old(h.prompts) && forall u :: u in h.prompts ==> h.prompts[u].State() == old(h.prompts[u].State())
    ensures d.Run? ==> h.outbox == old(h.outbox) + LegacyExecute(d.invocation, m, s.props, throws)
    ensures !d.Run? && d != Dispatch.ToPrompt ==> h.outbox == old(h.outbox)
  {
    var pc := PromptChannel(h, m);
    d := LegacyDecide(s, m, pc, prefixes, commands);
    if d == Dispatch.ToPrompt {
      Deliver(h, m);
      return;
    }
    LegacyAct(h, d, m, s.props, throws);
  }

  /** The channel of the prompt registered under the author's id. */
  method PromptChannel(h: LegacyHandler, m: Message) returns (pc: Option<string>)
    ensures pc == if m.authorId in h.prompts then Some(h.prompts[m.authorId].channel) else None
  {
    pc := None;
    if m.authorId in h.prompts {
      pc := Some(h.prompts[m.authorId].channel);
    }
  }

  /** What a decision other than `ToPrompt` does: a run runs the command,
      and the rest send nothing. */
  method LegacyAct(h: LegacyHandler, d: Dispatch.Decision, m: Message, props: Loader.CustomProps, throws: bool)
    modifies h
    ensures h.prompts == old(h.prompts)
    ensures d.Run? ==> h.outbox == old(h.outbox) + LegacyExecute(d.invocation, m, props, throws)
    ensures !d.Run? ==> h.outbox == old(h.outbox)
  {
    if d.Run? {
      LegacyRun(h, d.invocation, m, props, throws);
    }
  }

  /** Every prompt registered before, other than `user`'s, has the state
      it had. */
  twostate predicate OthersKept(before: map<string, LegacyPrompt>, user: string)
    reads before.Values
  {
    forall u :: u in before && u != user ==> before[u].State() == old(before[u].State())
  }

  /** A message for the author's prompt: it goes to that prompt's
      `addInput`, which deletes the author's entry when it ends the prompt,
      and every other prompt is left alone. */
  method Deliver(h: LegacyHandler, m: Message)
    requires h.Owns() && m.authorId in h.prompts
    modifies h, h.prompts.Values
    ensures var p := old(h.prompts)[m.authorId];
            var st := LegacyAddInputStep(old(p.State()), p.options, p.channel, m);
            p.State() == st.state && h.outbox == old(h.outbox) + st.effects
    ensures var p := old(h.prompts)[m.authorId];
            h.prompts == (if p.State().ended && !old(p.State()).ended then old(h.prompts) - {m.authorId} else old(h.prompts))
            && OthersKept(old(h.prompts), m.authorId)
  {
    var p := h.prompts[m.authorId];
    p.AddInput(m);
  }
}
