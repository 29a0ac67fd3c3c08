/** Prompt registration, from src/structures/Call.js: `Call.prompt` checks
    the channel and the (user, channel) uniqueness of the registry, fills in
    the handler's default prompt options, turns the supplied `filter` and
    `correct` into functions, sends the trigger message and registers the
    prompt once the trigger has gone out. */
module Calls {
  import opened Base
  import opened Prompts

  /** The kinds of `filter` a caller may supply. A regular expression is
      reduced to its `test` on the content. */
  datatype RawFilter =
    | Pattern(test: string -> bool)
    | LiteralList(items: seq<string>)
    | MaxLength(n: int)
    | Predicate(f: Message -> bool)

  /** The kinds of `correct`: a text to send back, or a function whose
      return value is sent back (`None` standing for `undefined`). */
  datatype RawCorrect =
    | CorrectText(text: string)
    | CorrectFn(reply: Message -> Option<string>)

  /** The prompt options as supplied: `None` is an absent key. `channel` is
      only read by the instance form of `prompt`. */
  datatype RawOptions = RawOptions(
    time: Option<int>,
    messages: Option<int>,
    attempts: Option<int>,
    cancellable: Option<bool>,
    autoRespond: Option<bool>,
    addLastMatch: Option<bool>,
    filter: Option<RawFilter>,
    correct: Option<RawCorrect>,
    formatCorrect: Option<Option<string> -> Option<string>>,
    formatTrigger: Option<Option<string> -> Option<string>>,
    matchUntil: Option<Message -> bool>,
    channel: Option<string>)

  /** The options once the defaults are in. */
  datatype Filled = Filled(
    time: int,
    messages: int,
    attempts: int,
    cancellable: bool,
    autoRespond: bool,
    addLastMatch: bool,
    filter: RawFilter,
    correct: RawCorrect,
    formatCorrect: Option<string> -> Option<string>,
    formatTrigger: Option<string> -> Option<string>,
    matchUntil: Option<Message -> bool>,
    channel: Option<string>)

  // The handler's default prompt options.
  const DefaultTime := 180000
  const DefaultMessages := 1
  const DefaultAttempts := 10
  const DefaultFilter := Predicate(_ => true)
  const DefaultCorrect := CorrectFn(_ => None)
  const Identity: Option<string> -> Option<string> := x => x

  /** `defaults(options, promptOptionsDefaults)`: every absent key takes
      the handler default, every supplied one is kept. */
  function Fill(raw: RawOptions): (r: Filled)
    ensures r.time == raw.time.GetOr(180000)
    ensures r.messages == raw.messages.GetOr(1)
    ensures r.attempts == raw.attempts.GetOr(10)
    ensures r.cancellable == raw.cancellable.GetOr(true)
    ensures r.autoRespond == raw.autoRespond.GetOr(true)
    ensures r.addLastMatch == raw.addLastMatch.GetOr(false)
    ensures raw.filter.Some? ==> r.filter == raw.filter.value
    ensures raw.correct.Some? ==> r.correct == raw.correct.value
    ensures raw.filter.None? ==> r.filter == DefaultFilter
    ensures raw.correct.None? ==> r.correct == DefaultCorrect
    ensures raw.formatCorrect.Some? ==> r.formatCorrect == raw.formatCorrect.value
    ensures raw.formatTrigger.Some? ==> r.formatTrigger == raw.formatTrigger.value
    ensures raw.formatCorrect.None? ==> forall x :: r.formatCorrect(x) == x
    ensures raw.formatTrigger.None? ==> forall x :: r.formatTrigger(x) == x
    ensures r.matchUntil == raw.matchUntil && r.channel == raw.channel
  {
    Filled(
      raw.time.GetOr(DefaultTime),
      raw.messages.GetOr(DefaultMessages),
      raw.attempts.GetOr(DefaultAttempts),
      raw.cancellable.GetOr(true),
      raw.autoRespond.GetOr(true),
      raw.addLastMatch.GetOr(false),
      raw.filter.GetOr(DefaultFilter),
      raw.correct.GetOr(DefaultCorrect),
      raw.formatCorrect.GetOr(Identity),
      raw.formatTrigger.GetOr(Identity),
      raw.matchUntil,
      raw.channel)
  }

  /** Filled options written back as options in which every key is present. */
  function Supplied(f: Filled): (r: RawOptions)
    ensures r.time.Some? && r.filter.Some? && r.correct.Some? && r.formatTrigger.Some?
  {
    RawOptions(Some(f.time), Some(f.messages), Some(f.attempts), Some(f.cancellable), Some(f.autoRespond),
               Some(f.addLastMatch), Some(f.filter), Some(f.correct), Some(f.formatCorrect),
               Some(f.formatTrigger), f.matchUntil, f.channel)
  }

  /** Filling never overwrites a supplied key, so filling again changes
      nothing. */
  lemma FillIdempotent(raw: RawOptions)
    ensures Fill(Supplied(Fill(raw))) == Fill(raw)
    ensures forall f: Filled :: Fill(Supplied(f)) == f
  {
  }

  /** A filter with no `filter` key accepts every message, and with no
      `correct` key a rejected message is answered by sending `undefined`. */
  lemma DefaultsAcceptAll(raw: RawOptions, m: Message)
    requires raw.filter.None? && raw.correct.None? && raw.formatCorrect.None?
    ensures Normalise(Fill(raw)).filter(m)
    ensures Normalise(Fill(raw)).correct(m) == [Send(m.channelId, None)]
  {
  }

  /** The filter a prompt runs, for each kind of supplied filter. */
  function FilterOf(f: RawFilter): (r: Message -> bool)
    ensures f.Predicate? ==> r == f.f
  {
    match f
    case Pattern(test) => (m: Message) => test(m.content)
    case LiteralList(items) => (m: Message) => Lower(m.content) in LowerAll(items)
    case MaxLength(n) => (m: Message) => 0 < Utf16Length(m.content) <= n
    case Predicate(p) => p
  }

  /** What each kind of filter accepts: a pattern tests the content; a list
      accepts content equal to one of its items ignoring case; a number `n`
      accepts non-empty content of at most `n` UTF-16 code units. */
  lemma FilterCases(f: RawFilter, m: Message)
    ensures f.Pattern? ==> (FilterOf(f)(m) <==> f.test(m.content))
    ensures f.LiteralList? ==>
              (FilterOf(f)(m) <==> exists i :: 0 <= i < |f.items| && Lower(f.items[i]) == Lower(m.content))
    ensures f.MaxLength? ==> (FilterOf(f)(m) <==> m.content != [] && Utf16Length(m.content) <= f.n)
    ensures f.Predicate? ==> FilterOf(f)(m) == f.f(m)
  {
    if f.LiteralList? {
      var low := LowerAll(f.items);
      if Lower(m.content) in low {
        var i :| 0 <= i < |low| && low[i] == Lower(m.content);
        assert Lower(f.items[i]) == Lower(m.content);
      }
    }
  }

  /** A list filter ignores case on both sides. */
  lemma ListFilterIgnoresCase(items: seq<string>, m: Message, n: Message)
    requires Lower(m.content) == Lower(n.content)
    ensures FilterOf(LiteralList(items))(m) == FilterOf(LiteralList(items))(n)
  {
  }

  /** Case is ignored beyond ASCII: "ÉTÉ" matches the item "Été". */
  lemma ListFilterAccents(m: Message)
    requires m.content == "\U{00C9}T\U{00C9}"
    ensures FilterOf(LiteralList(["\U{00C9}t\U{00E9}"]))(m)
  {
    LowerAt(m.content);
    LowerAt("\U{00C9}t\U{00E9}");
    assert Lower(m.content) == "\U{00E9}t\U{00E9}";
    assert Lower("\U{00C9}t\U{00E9}") == "\U{00E9}t\U{00E9}";
    assert LowerAll(["\U{00C9}t\U{00E9}"])[0] == "\U{00E9}t\U{00E9}";
  }

  /** The length limit counts UTF-16 code units: one emoji outside the
      Basic Multilingual Plane is two of them, so it fails a limit of 1. */
  lemma MaxLengthCountsCodeUnits(m: Message)
    requires m.content == "\U{1F600}"
    ensures !FilterOf(MaxLength(1))(m)
    ensures FilterOf(MaxLength(2))(m)
  {
    assert Utf16Length(m.content) == 2;
  }

  /** The `correct` a prompt runs: it sends, to the channel of the rejected
      message, the supplied text or the function's result, each passed
      through `formatCorrect`. */
  function CorrectOf(c: RawCorrect, formatCorrect: Option<string> -> Option<string>): (r: Message -> seq<Effect>)
    ensures forall m :: |r(m)| == 1 && r(m)[0].Send? && r(m)[0].channel == m.channelId
  {
    match c
    case CorrectText(text) => (m: Message) => [Send(m.channelId, formatCorrect(Some(text)))]
    case CorrectFn(reply) => (m: Message) => [Send(m.channelId, formatCorrect(reply(m)))]
  }

  /** A text `correct` sends the same formatted text whatever the message. */
  lemma CorrectTextConstant(text: string, fc: Option<string> -> Option<string>, m: Message, n: Message)
    ensures CorrectOf(CorrectText(text), fc)(m)[0].content == CorrectOf(CorrectText(text), fc)(n)[0].content == fc(Some(text))
  {
  }

  /** The options the prompt is constructed with. */
  function Normalise(f: Filled): (o: Options)
    ensures o.time == f.time && o.messages == f.messages && o.attempts == f.attempts
    ensures o.cancellable == f.cancellable && o.autoRespond == f.autoRespond && o.addLastMatch == f.addLastMatch
    ensures o.matchUntil == f.matchUntil
    ensures forall m :: o.filter(m) == FilterOf(f.filter)(m)
    ensures forall m :: o.correct(m) == CorrectOf(f.correct, f.formatCorrect)(m)
  {
    Options(f.time, f.messages, f.attempts, f.cancellable, f.autoRespond, f.addLastMatch,
            FilterOf(f.filter), CorrectOf(f.correct, f.formatCorrect), f.matchUntil)
  }

  const InvalidChannel := "Invalid channel provided."
  const AlreadyRunning := "Prompt ended: User already has a current prompt in this channel"
  const AlreadyRunningNotice := "You already have a currently running prompt in this channel. Finish or cancel that prompt before running another"

  /** `if (message)`: the formatted trigger is sent only when it is a
      non-empty string. */
  predicate SendsTrigger(trigger: Option<string>) {
    trigger.Some? && trigger.value != ""
  }

  /** Static `Call.prompt` for `user` in `channel` (`None` for a missing
      channel). `triggerFails` says whether the trigger send is rejected.
      The result is the new prompt, whose outcome is the returned promise,
      or the error the call fails with. */
  method Register(h: Handler, message: Option<string>, user: string, channel: Option<string>,
                  raw: RawOptions, triggerFails: bool)
    returns (r: Result<Prompt, string>)
    modifies h
    ensures channel.None? ==> r == Err(InvalidChannel) && h.prompts == old(h.prompts) && h.outbox == old(h.outbox)
    ensures channel.Some? && old(h.Find(user, channel.value)).Some? ==>
              r == Err(AlreadyRunning) && h.prompts == old(h.prompts)
              && h.outbox == old(h.outbox) + [Send(channel.value, Some(AlreadyRunningNotice))]
    ensures channel.Some? && old(h.Find(user, channel.value)).None? ==>
              r.Ok? && fresh(r.value) && r.value.handler == h
              && r.value.user == user && r.value.channel == channel.value
              && r.value.options == Normalise(Fill(raw))
    ensures r.Ok? ==>
              var p := r.value;
              var trigger := Fill(raw).formatTrigger(message);
              var sent := if SendsTrigger(trigger) then [Send(p.channel, trigger)] else [];
              if SendsTrigger(trigger) && triggerFails then
                var e := EndStep(Fresh, p.channel, p.options.autoRespond, TriggerFailed);
                p.State() == e.state && h.outbox == old(h.outbox) + sent + e.effects
                && h.prompts == WithoutUser(old(h.prompts), user)
              else
                p.State() == Fresh && h.outbox == old(h.outbox) + sent
                && h.prompts == old(h.prompts) + [p]
    ensures old(h.Valid()) ==> h.Valid()
  {
    if channel.None? {
      return Err(InvalidChannel);
    }
    var target := channel.value;
    if h.Find(user, target).Some? {
      h.outbox := h.outbox + [Send(target, Some(AlreadyRunningNotice))];
      return Err(AlreadyRunning);
    }
    var filled := Fill(raw);
    var p := new Prompt(user, target, Normalise(filled), h);
    var trigger := filled.formatTrigger(message);
    if SendsTrigger(trigger) {
      h.outbox := h.outbox + [Send(target, trigger)];
      if triggerFails {
        p.End(TriggerFailed);
        return Ok(p);
      }
    }
    h.Add(p);
    return Ok(p);
  }

  /** The trigger failure path in terms of the promise: it is rejected
      with 'Prompt ended: trigger message failed to send'. */
  lemma TriggerFailureRejects(autoRespond: bool, channel: string)
    ensures var e := EndStep(Fresh, channel, autoRespond, TriggerFailed);
            e.state.ended && e.effects == []
            && e.state.outcome == Rejected("Prompt ended: trigger message failed to send")
  {
    assert "Prompt ended: " + ReasonText(TriggerFailed) == "Prompt ended: trigger message failed to send";
  }

  /** The instance form `call.prompt(message, options)`: the invoking
      author is the user, and the channel is `options.channel` when given,
      else the invoking message's channel, so the call never fails with an
      invalid channel. */
  method CallPrompt(h: Handler, invoking: Message, message: Option<string>, raw: RawOptions, triggerFails: bool)
    returns (r: Result<Prompt, string>)
    modifies h
    ensures r.Err? ==> r.error == AlreadyRunning
    ensures var target := raw.channel.GetOr(invoking.channelId);
            old(h.Find(invoking.authorId, target)).Some? ==>
              r == Err(AlreadyRunning) && h.prompts == old(h.prompts)
              && h.outbox == old(h.outbox) + [Send(target, Some(AlreadyRunningNotice))]
    ensures var target := raw.channel.GetOr(invoking.channelId);
            old(h.Find(invoking.authorId, target)).None? ==>
              r.Ok? && fresh(r.value) && r.value.handler == h
              && r.value.user == invoking.authorId && r.value.channel == target
              && r.value.options == Normalise(Fill(raw))
    ensures r.Ok? ==>
              var p := r.value;
              var trigger := Fill(raw).formatTrigger(message);
              var sent := if SendsTrigger(trigger) then [Send(p.channel, trigger)] else [];
              if SendsTrigger(trigger) && triggerFails then
                var e := EndStep(Fresh, p.channel, p.options.autoRespond, TriggerFailed);
                p.State() == e.state && h.outbox == old(h.outbox) + sent + e.effects
                && h.prompts == WithoutUser(old(h.prompts), invoking.authorId)
              else
                p.State() == Fresh && h.outbox == old(h.outbox) + sent
                && h.prompts == old(h.prompts) + [p]
    ensures old(h.Valid()) ==> h.Valid()
  {
    r := Register(h, message, invoking.authorId, Some(raw.channel.GetOr(invoking.channelId)), raw, triggerFails);
  }
}
