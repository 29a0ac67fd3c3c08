/** The prompt state machine of src/structures/Prompt.js: a prompt collects
    the replies of one user in one channel until it has enough, is
    cancelled, runs out of attempts or times out, and then settles its
    promise exactly once. The pure step functions say what one call of
    `addInput` or `end` does; the classes apply them to the prompt's fields,
    the handler's registry of running prompts and the outbox of sends. */
module Prompts {
  import opened Base

  /** Why a prompt ended. */
  datatype Reason = Success | Cancelled | Time | Attempts | TriggerFailed

  function ReasonText(r: Reason): (t: string)
    ensures |t| > 0
  {
    match r
    case Success => "success"
    case Cancelled => "cancelled"
    case Time => "time"
    case Attempts => "attempts"
    case TriggerFailed => "trigger message failed to send"
  }

  /** What a successful prompt resolves with: the first collected message
      (absent when none was collected), or the whole collection. */
  datatype Resolution = One(first: Option<Message>) | Many(all: seq<Message>)

  /** The prompt's promise. */
  datatype Outcome = Pending | Resolved(value: Resolution) | Rejected(error: string)

  /** The options a running prompt consults, after `Call.prompt` has filled
      in the defaults and normalised `filter` and `correct`. A time of 0
      stands for "no time limit" and an attempts limit of 0 for "unlimited"
      (the source treats `Infinity` the same way). `correct` gives the sends
      it performs for a rejected message. */
  datatype Options = Options(
    time: int,
    messages: int,
    attempts: int,
    cancellable: bool,
    autoRespond: bool,
    addLastMatch: bool,
    filter: Message -> bool,
    correct: Message -> seq<Effect>,
    matchUntil: Option<Message -> bool>)

  // ---------------------------------------------------------------------
  // The collected values: a Collection keyed by message id

  predicate DistinctIds(vs: seq<Message>) {
    forall i, j :: 0 <= i < j < |vs| ==> vs[i].id != vs[j].id
  }

  /** Position of the message stored under `id`. */
  function FindId(vs: seq<Message>, id: string): (r: Option<nat>)
    ensures r.Some? ==> r.value < |vs| && vs[r.value].id == id
    ensures r.None? ==> forall i :: 0 <= i < |vs| ==> vs[i].id != id
  {
    if vs == [] then None
    else if vs[|vs| - 1].id == id then Some(|vs| - 1)
    else FindId(vs[..|vs| - 1], id)
  }

  /** `values.set(m.id, m)`: a key already present keeps its position and
      gets the new message; a new key goes at the end. */
  function Store(vs: seq<Message>, m: Message): seq<Message> {
    match FindId(vs, m.id)
    case Some(i) => vs[i := m]
    case None => vs + [m]
  }

  /** Storing keeps one entry per id, holds `m` afterwards, grows the
      collection only for a new id, and keeps every other entry. */
  lemma StoreById(vs: seq<Message>, m: Message)
    requires DistinctIds(vs)
    ensures var r := Store(vs, m);
            DistinctIds(r)
            && m in r
            && |r| == (if exists i :: 0 <= i < |vs| && vs[i].id == m.id then |vs| else |vs| + 1)
            && forall i :: 0 <= i < |vs| && vs[i].id != m.id ==> vs[i] in r
  {
    var r := Store(vs, m);
    match FindId(vs, m.id)
    case Some(i) =>
      assert r[i] == m;
      forall j | 0 <= j < |vs| && vs[j].id != m.id
        ensures vs[j] in r
      {
        assert r[j] == vs[j];
      }
    case None =>
      assert r[|vs|] == m;
      forall j | 0 <= j < |vs|
        ensures vs[j] in r
      {
        assert r[j] == vs[j];
      }
  }

  // ---------------------------------------------------------------------
  // One call of end / addInput on the prompt's state

  datatype PromptState = PromptState(ended: bool, attempts: int, values: seq<Message>, outcome: Outcome)

  /** The state of a prompt that was just constructed. */
  const Fresh := PromptState(false, 0, [], Pending)

  /** The state invariant: the prompt has ended exactly when its promise
      is settled, and it holds one value per message id. */
  predicate Coherent(s: PromptState) {
    (s.ended <==> !s.outcome.Pending?) && DistinctIds(s.values)
  }

  /** The new state and the sends of one call. */
  datatype Step = Step(state: PromptState, effects: seq<Effect>)

  /** How `end` settles the promise. */
  function Settle(reason: Reason, vs: seq<Message>): (r: Outcome)
    ensures !r.Pending?
    ensures r.Rejected? <==> reason != Success
  {
    if reason != Success then Rejected("Prompt ended: " + ReasonText(reason))
    else if |vs| > 1 then Resolved(Many(vs))
    else Resolved(One(if vs == [] then None else Some(vs[0])))
  }

  /** The automatic replies of `end`. */
  function Notices(reason: Reason, channel: string, autoRespond: bool): seq<Effect> {
    if !autoRespond then []
    else if reason == Time || reason == Cancelled then [Send(channel, Some("Cancelled prompt."))]
    else if reason == Attempts then [Send(channel, Some("Too many attempts."))]
    else []
  }

  /** `end(reason)`: nothing once ended; otherwise it marks the prompt
      ended, sends the automatic reply and settles the promise. */
  function EndStep(s: PromptState, channel: string, autoRespond: bool, reason: Reason): (r: Step)
    ensures r.state.ended && r.state.attempts == s.attempts && r.state.values == s.values
    ensures s.ended ==> r == Step(s, [])
  {
    if s.ended then Step(s, [])
    else Step(PromptState(true, s.attempts, s.values, Settle(reason, s.values)), Notices(reason, channel, autoRespond))
  }

  /** The checks after a message was stored or corrected: enough values end
      the prompt with success, and only then is the attempts limit (if
      positive) looked at. */
  function AfterInput(s: PromptState, o: Options, channel: string, sent: seq<Effect>): Step {
    if |s.values| >= o.messages then
      var e := EndStep(s, channel, o.autoRespond, Success);
      Step(e.state, sent + e.effects)
    else if o.attempts > 0 && s.attempts >= o.attempts then
      var e := EndStep(s, channel, o.autoRespond, Attempts);
      Step(e.state, sent + e.effects)
    else Step(s, sent)
  }

  predicate IsCancel(o: Options, m: Message) {
    o.cancellable && Lower(m.content) == "cancel"
  }

  /** What `addInput(m)` does once the attempt is counted. */
  function Counted(s1: PromptState, o: Options, channel: string, m: Message): Step {
    if IsCancel(o, m) then EndStep(s1, channel, o.autoRespond, Cancelled)
    else if o.filter(m) then
      if o.matchUntil.Some? && o.matchUntil.value(m) then
        var s2 := if o.addLastMatch then s1.(values := Store(s1.values, m)) else s1;
        EndStep(s2, channel, o.autoRespond, Success)
      else AfterInput(s1.(values := Store(s1.values, m)), o, channel, [])
    else AfterInput(s1, o, channel, o.correct(m))
  }

  /** `addInput(m)`. */
  function AddInputStep(s: PromptState, o: Options, channel: string, m: Message): (r: Step)
    ensures s.ended ==> r == Step(s, [])
    ensures !s.ended ==> r.state.attempts == s.attempts + 1
    ensures r.state.values == s.values || r.state.values == Store(s.values, m)
  {
    if s.ended then Step(s, [])
    else Counted(s.(attempts := s.attempts + 1), o, channel, m)
  }

  /** A call of `end` acts at most once: on an ended prompt it changes
      nothing and sends nothing; on a live one it ends the prompt, keeps the
      attempts and values, and settles the promise. */
  lemma EndActsOnce(s: PromptState, channel: string, autoRespond: bool, reason: Reason, later: Reason)
    ensures var r := EndStep(s, channel, autoRespond, reason);
            r.state.ended
            && (s.ended ==> r == Step(s, []))
            && (!s.ended ==> r.state == PromptState(true, s.attempts, s.values, Settle(reason, s.values))
                             && r.effects == Notices(reason, channel, autoRespond))
            && EndStep(r.state, channel, autoRespond, later) == Step(r.state, [])
  {
  }

  /** How the promise is settled: a non-success reason rejects with
      'Prompt ended: ' and the reason; success resolves with the whole
      collection when it holds more than one message, else with its first
      (possibly absent) message. The automatic replies are 'Cancelled
      prompt.' for time and cancel and 'Too many attempts.' for attempts. */
  lemma SettleCases(reason: Reason, vs: seq<Message>, channel: string)
    ensures reason != Success ==> Settle(reason, vs).Rejected? && Settle(reason, vs).error == "Prompt ended: " + ReasonText(reason)
    ensures reason == Success && |vs| > 1 ==> Settle(reason, vs) == Resolved(Many(vs))
    ensures reason == Success && |vs| == 1 ==> Settle(reason, vs) == Resolved(One(Some(vs[0])))
    ensures reason == Success && vs == [] ==> Settle(reason, vs) == Resolved(One(None))
    ensures Notices(Time, channel, true) == Notices(Cancelled, channel, true) == [Send(channel, Some("Cancelled prompt."))]
    ensures Notices(Attempts, channel, true) == [Send(channel, Some("Too many attempts."))]
    ensures Notices(Success, channel, true) == Notices(TriggerFailed, channel, true) == []
    ensures Notices(reason, channel, false) == []
  {
  }

  /** On an ended prompt `addInput` changes nothing and sends nothing. */
  lemma AddInputAfterEnd(s: PromptState, o: Options, channel: string, m: Message)
    requires s.ended
    ensures AddInputStep(s, o, channel, m) == Step(s, [])
  {
  }

  /** Every call on a live prompt counts one attempt, whatever the message
      (cancel and filter-failing input included); values are only ever
      added to, by storing `m`. */
  lemma AddInputCountsAttempt(s: PromptState, o: Options, channel: string, m: Message)
    requires !s.ended
    ensures var r := AddInputStep(s, o, channel, m).state;
            r.attempts == s.attempts + 1
            && (r.values == s.values || r.values == Store(s.values, m))
  {
  }

  /** Cancel: the prompt ends with 'cancelled' before the filter is
      consulted, and keeps its values. */
  lemma AddInputCancel(s: PromptState, o: Options, channel: string, m: Message)
    requires !s.ended && o.cancellable && Lower(m.content) == "cancel"
    ensures var r := AddInputStep(s, o, channel, m);
            r.state == PromptState(true, s.attempts + 1, s.values, Rejected("Prompt ended: cancelled"))
            && r.effects == (if o.autoRespond then [Send(channel, Some("Cancelled prompt."))] else [])
  {
    assert "Prompt ended: " + ReasonText(Cancelled) == "Prompt ended: cancelled";
  }

  /** Filter-passing input without a `matchUntil` hit is stored under its
      id; the prompt then ends with success exactly when it holds enough
      values, and otherwise with 'attempts' exactly when a positive limit is
      reached. */
  lemma AddInputAccepted(s: PromptState, o: Options, channel: string, m: Message)
    requires !s.ended && !IsCancel(o, m) && o.filter(m)
    requires !(o.matchUntil.Some? && o.matchUntil.value(m))
    ensures var r := AddInputStep(s, o, channel, m).state;
            var vs := Store(s.values, m);
            r.values == vs && r.attempts == s.attempts + 1
            && (|vs| >= o.messages ==> r.outcome == Settle(Success, vs))
            && (|vs| < o.messages && o.attempts > 0 && s.attempts + 1 >= o.attempts
                ==> r.outcome == Rejected("Prompt ended: attempts"))
            && (r.ended <==> |vs| >= o.messages || (o.attempts > 0 && s.attempts + 1 >= o.attempts))
  {
  }

  /** A `matchUntil` hit ends the prompt with success; the message is
      stored only with `addLastMatch`. */
  lemma AddInputMatchUntil(s: PromptState, o: Options, channel: string, m: Message)
    requires !s.ended && !IsCancel(o, m) && o.filter(m)
    requires o.matchUntil.Some? && o.matchUntil.value(m)
    ensures var r := AddInputStep(s, o, channel, m);
            var vs := if o.addLastMatch then Store(s.values, m) else s.values;
            r.state == PromptState(true, s.attempts + 1, vs, Settle(Success, vs)) && r.effects == []
  {
  }

  /** Filter-failing input is handed to `correct`, whose sends come first,
      and the values are unchanged. */
  lemma AddInputRejected(s: PromptState, o: Options, channel: string, m: Message)
    requires !s.ended && !IsCancel(o, m) && !o.filter(m)
    ensures var r := AddInputStep(s, o, channel, m);
            r.state.values == s.values
            && |o.correct(m)| <= |r.effects| && r.effects[..|o.correct(m)|] == o.correct(m)
            && (|s.values| >= o.messages ==> r.state.outcome == Settle(Success, s.values))
  {
  }

  /** A prompt that is still live after a call holds fewer values than it
      needs and, under a positive limit, has attempts left. */
  lemma LiveAfterInput(s: PromptState, o: Options, channel: string, m: Message)
    requires !s.ended
    ensures var r := AddInputStep(s, o, channel, m).state;
            !r.ended ==> |r.values| < o.messages && (o.attempts > 0 ==> r.attempts < o.attempts)
  {
  }

  /** Both calls keep the state invariant. */
  lemma StepsKeepCoherent(s: PromptState, o: Options, channel: string, m: Message, reason: Reason)
    requires Coherent(s)
    ensures Coherent(EndStep(s, channel, o.autoRespond, reason).state)
    ensures Coherent(AddInputStep(s, o, channel, m).state)
  {
    EndKeepsCoherent(s, channel, o.autoRespond, reason);
    if !s.ended {
      StoreById(s.values, m);
      var s1 := s.(attempts := s.attempts + 1);
      var s2 := s1.(values := Store(s1.values, m));
      EndKeepsCoherent(s1, channel, o.autoRespond, Cancelled);
      EndKeepsCoherent(s1, channel, o.autoRespond, Success);
      EndKeepsCoherent(s2, channel, o.autoRespond, Success);
      AfterInputKeepsCoherent(s1, o, channel, o.correct(m));
      AfterInputKeepsCoherent(s2, o, channel, []);
    }
  }

  lemma EndKeepsCoherent(s: PromptState, channel: string, autoRespond: bool, reason: Reason)
    requires Coherent(s)
    ensures Coherent(EndStep(s, channel, autoRespond, reason).state)
  {
  }

  lemma AfterInputKeepsCoherent(s: PromptState, o: Options, channel: string, sent: seq<Effect>)
    requires Coherent(s)
    ensures Coherent(AfterInput(s, o, channel, sent).state)
  {
    EndKeepsCoherent(s, channel, o.autoRespond, Success);
    EndKeepsCoherent(s, channel, o.autoRespond, Attempts);
  }

  /** What can happen to a prompt: a message routed to it, or an `end`
      call (from the timer, from a cancel by the developer, or from a
      failed trigger send). */
  datatype Event = Input(m: Message) | EndCall(reason: Reason)

  /** The state after a sequence of events, and all sends on the way. */
  function Run(s: PromptState, o: Options, channel: string, evs: seq<Event>): Step
    decreases |evs|
  {
    if evs == [] then Step(s, [])
    else
      var first := match evs[0]
        case Input(m) => AddInputStep(s, o, channel, m)
        case EndCall(r) => EndStep(s, channel, o.autoRespond, r);
      var rest := Run(first.state, o, channel, evs[1..]);
      Step(rest.state, first.effects + rest.effects)
  }

  /** Any sequence of events keeps the invariant, and `ended` never goes
      back to false. */
  lemma {:induction false} RunKeepsCoherent(s: PromptState, o: Options, channel: string, evs: seq<Event>)
    requires Coherent(s)
    ensures Coherent(Run(s, o, channel, evs).state)
    ensures s.ended ==> Run(s, o, channel, evs).state.ended
    decreases |evs|
  {
    if evs != [] {
      var m := if evs[0].Input? then evs[0].m else Message("", "", false, "", "", false, None, None, "");
      var reason := if evs[0].EndCall? then evs[0].reason else Success;
      StepsKeepCoherent(s, o, channel, m, reason);
      var first := match evs[0]
        case Input(m) => AddInputStep(s, o, channel, m)
        case EndCall(r) => EndStep(s, channel, o.autoRespond, r);
      RunKeepsCoherent(first.state, o, channel, evs[1..]);
    }
  }

  /** Exactly-once settlement: once the promise is settled, no later event
      changes the state or sends anything. */
  lemma {:induction false} SettledStays(s: PromptState, o: Options, channel: string, evs: seq<Event>)
    requires Coherent(s) && !s.outcome.Pending?
    ensures Run(s, o, channel, evs) == Step(s, [])
    decreases |evs|
  {
    if evs != [] {
      SettledStays(s, o, channel, evs[1..]);
    }
  }

  /** A fresh prompt settles at the first event that ends it: the outcome
      after the whole run is the one reached at that point. */
  lemma {:induction false} SettledOnce(s: PromptState, o: Options, channel: string, evs: seq<Event>, k: nat)
    requires Coherent(s) && k <= |evs|
    requires !Run(s, o, channel, evs[..k]).state.outcome.Pending?
    ensures Run(s, o, channel, evs).state == Run(s, o, channel, evs[..k]).state
    decreases k
  {
    if k == 0 {
      assert evs[..0] == [];
      SettledStays(s, o, channel, evs);
    } else {
      var first := match evs[0]
        case Input(m) => AddInputStep(s, o, channel, m)
        case EndCall(r) => EndStep(s, channel, o.autoRespond, r);
      var m := if evs[0].Input? then evs[0].m else Message("", "", false, "", "", false, None, None, "");
      var reason := if evs[0].EndCall? then evs[0].reason else Success;
      StepsKeepCoherent(s, o, channel, m, reason);
      assert evs[..k][1..] == evs[1..][..k - 1];
      assert evs[..k][0] == evs[0];
      SettledOnce(first.state, o, channel, evs[1..], k - 1);
    }
  }

  // ---------------------------------------------------------------------
  // The objects

  /** Remove every registered prompt of `user`: `prompts.delete(user.id)`
      as it acts on a registry keyed by user id. */
  function WithoutUser(ps: seq<Prompt>, user: string): (r: seq<Prompt>)
    ensures forall i :: 0 <= i < |r| ==> r[i] in ps && r[i].user != user
    ensures forall i :: 0 <= i < |ps| && ps[i].user != user ==> ps[i] in r
    ensures |r| <= |ps|
  {
    if ps == [] then []
    else if ps[0].user == user then WithoutUser(ps[1..], user)
    else [ps[0]] + WithoutUser(ps[1..], user)
  }

  /** Keyed by user id, the delete also drops the user's prompts in other
      channels, which the array registry can hold: ending one prompt ends
      the registration of all of them. */
  lemma WithoutUserDropsOtherChannels(ps: seq<Prompt>, ending: Prompt, other: Prompt)
    requires ending in ps && other in ps && other.user == ending.user && other.channel != ending.channel
    ensures other !in WithoutUser(ps, ending.user) && ending !in WithoutUser(ps, ending.user)
  {
  }

  /** No two prompts of the same user in the same channel. */
  predicate UniqueKeys(ps: seq<Prompt>) {
    forall i, j :: 0 <= i < j < |ps| ==> !(ps[i].user == ps[j].user && ps[i].channel == ps[j].channel)
  }

  lemma {:induction false} WithoutUserUnique(ps: seq<Prompt>, user: string)
    requires UniqueKeys(ps)
    ensures UniqueKeys(WithoutUser(ps, user))
  {
    if ps != [] {
      assert UniqueKeys(ps[1..]);
      WithoutUserUnique(ps[1..], user);
      if ps[0].user != user {
        var t := WithoutUser(ps[1..], user);
        var r := [ps[0]] + t;
        forall j | 0 < j < |r|
          ensures !(r[0].user == r[j].user && r[0].channel == r[j].channel)
        {
          assert r[j] == t[j - 1] && t[j - 1] in ps[1..];
          var b :| 0 <= b < |ps[1..]| && ps[1..][b] == t[j - 1];
          assert r[j] == ps[b + 1];
        }
      }
    }
  }

  /** The handler's shared state: the registry of running prompts, in
      registration order, and the sends made so far. */
  class Handler {
    var prompts: seq<Prompt>
    var outbox: seq<Effect>

    constructor()
      ensures prompts == [] && outbox == []
    {
      prompts := [];
      outbox := [];
    }

    /** At most one registered prompt per (user, channel), and every
        registered prompt is still live. */
    predicate Valid()
      reads this, prompts
    {
      UniqueKeys(prompts) && forall i :: 0 <= i < |prompts| ==> !prompts[i].ended
    }

    /** The registered prompt of `user` in `channel`, if any. */
    function Find(user: string, channel: string): (r: Option<Prompt>)
      reads this
      ensures r.Some? ==> r.value in prompts && r.value.user == user && r.value.channel == channel
      ensures r.None? ==> forall i :: 0 <= i < |prompts| ==> !(prompts[i].user == user && prompts[i].channel == channel)
    {
      FindIn(prompts, user, channel)
    }

    /** Registers a live prompt whose user has none in its channel. */
    method Add(p: Prompt)
      requires !p.ended && Find(p.user, p.channel).None?
      modifies this
      ensures prompts == old(prompts) + [p] && outbox == old(outbox)
      ensures old(Valid()) ==> Valid()
    {
      ghost var wasValid := Valid();
      prompts := prompts + [p];
      assert wasValid ==> Valid() by {
        if wasValid {
          assert forall i :: 0 <= i < |prompts| - 1 ==> !(prompts[i].user == p.user && prompts[i].channel == p.channel);
        }
      }
    }
  }

  function FindIn(ps: seq<Prompt>, user: string, channel: string): (r: Option<Prompt>)
    ensures r.Some? ==> r.value in ps && r.value.user == user && r.value.channel == channel
    ensures r.None? ==> forall i :: 0 <= i < |ps| ==> !(ps[i].user == user && ps[i].channel == channel)
  {
    if ps == [] then None
    else if ps[0].user == user && ps[0].channel == channel then Some(ps[0])
    else FindIn(ps[1..], user, channel)
  }

  lemma RemovalKeepsValid(h: Handler, user: string)
    requires h.Valid()
    ensures var r := WithoutUser(h.prompts, user);
            UniqueKeys(r) && forall i :: 0 <= i < |r| ==> !r[i].ended
  {
    WithoutUserUnique(h.prompts, user);
  }

  class Prompt {
    const user: string
    const channel: string
    const options: Options
    const handler: Handler
    var ended: bool
    var attempts: int
    var values: seq<Message>
    var outcome: Outcome

    /** A new prompt; the caller arms the timer when `Timed()`. */
    constructor(user: string, channel: string, options: Options, handler: Handler)
      ensures this.user == user && this.channel == channel
      ensures this.options == options && this.handler == handler
      ensures State() == Fresh
    {
      this.user := user;
      this.channel := channel;
      this.options := options;
      this.handler := handler;
      ended := false;
      attempts := 0;
      values := [];
      outcome := Pending;
    }

    function State(): PromptState
      reads this
    {
      PromptState(ended, attempts, values, outcome)
    }

    /** The constructor arms a timer calling `end('time')` only for a
        positive time limit. */
    predicate Timed() {
      options.time > 0
    }

    /** `end(reason)`, with the registry removal done by user id. */
    method End(reason: Reason)
      modifies this, handler
      ensures var st := EndStep(old(State()), channel, options.autoRespond, reason);
              State() == st.state && handler.outbox == old(handler.outbox) + st.effects
      ensures handler.prompts == if old(ended) then old(handler.prompts) else WithoutUser(old(handler.prompts), user)
      ensures old(handler.Valid()) ==> handler.Valid()
    {
      if ended {
        return;
      }
      ghost var wasValid := handler.Valid();
      if wasValid {
        RemovalKeepsValid(handler, user);
      }
      var rest := WithoutUser(handler.prompts, user);
      assert forall i :: 0 <= i < |rest| ==> rest[i] != this;
      ended := true;
      outcome := Settle(reason, values);
      handler.prompts := rest;
      assert wasValid ==> handler.Valid();
      handler.outbox := handler.outbox + Notices(reason, channel, options.autoRespond);
    }

    /** The timer firing. */
    method Expire()
      requires Timed()
      modifies this, handler
      ensures var st := EndStep(old(State()), channel, options.autoRespond, Time);
              State() == st.state && handler.outbox == old(handler.outbox) + st.effects
      ensures handler.prompts == if old(ended) then old(handler.prompts) else WithoutUser(old(handler.prompts), user)
      ensures old(handler.Valid()) ==> handler.Valid()
    {
      End(Time);
    }

    /** `addInput(m)`. */
    method AddInput(m: Message)
      modifies this, handler
      ensures var st := AddInputStep(old(State()), options, channel, m);
              State() == st.state && handler.outbox == old(handler.outbox) + st.effects
      ensures handler.prompts == if ended && !old(ended) then WithoutUser(old(handler.prompts), user) else old(handler.prompts)
      ensures old(handler.Valid()) ==> handler.Valid()
    {
      if ended {
        return;
      }
      ghost var wasValid := handler.Valid();
      ghost var s0 := State();
      attempts := attempts + 1;
      assert wasValid ==> handler.Valid();
      assert State() == s0.(attempts := s0.attempts + 1);
      Handle(m);
      assert AddInputStep(s0, options, channel, m) == Counted(s0.(attempts := s0.attempts + 1), options, channel, m);
    }

    /** The part of `addInput` after the attempt is counted. */
    method Handle(m: Message)
      requires !ended
      modifies this, handler
      ensures var st := Counted(old(State()), options, channel, m);
              State() == st.state && handler.outbox == old(handler.outbox) + st.effects
      ensures handler.prompts == if ended then WithoutUser(old(handler.prompts), user) else old(handler.prompts)
      ensures old(handler.Valid()) ==> handler.Valid()
    {
      if options.cancellable && Lower(m.content) == "cancel" {
        End(Cancelled);
        return;
      }
      if options.filter(m) {
        Accept(m);
      } else {
        Reject(m);
      }
    }

    /** A message the filter refused: `correct` runs, then the limit
        checks. */
    method Reject(m: Message)
      requires !ended
      modifies this, handler
      ensures var st := AfterInput(old(State()), options, channel, options.correct(m));
              State() == st.state && handler.outbox == old(handler.outbox) + st.effects
      ensures handler.prompts == if ended then WithoutUser(old(handler.prompts), user) else old(handler.prompts)
      ensures old(handler.Valid()) ==> handler.Valid()
    {
      var sent := options.correct(m);
      Conclude(sent);
    }

    /** A message the filter accepted: stored, unless it meets
        `matchUntil` and `addLastMatch` is off, and the prompt ends with
        success on a `matchUntil` hit or else goes to the limit checks. */
    method Accept(m: Message)
      requires !ended && options.filter(m)
      modifies this, handler
      ensures var s1 := old(State());
              var st := if options.matchUntil.Some? && options.matchUntil.value(m) then
                          EndStep(if options.addLastMatch then s1.(values := Store(s1.values, m)) else s1,
                                  channel, options.autoRespond, Success)
                        else AfterInput(s1.(values := Store(s1.values, m)), options, channel, []);
              State() == st.state && handler.outbox == old(handler.outbox) + st.effects
      ensures handler.prompts == if ended then WithoutUser(old(handler.prompts), user) else old(handler.prompts)
      ensures old(handler.Valid()) ==> handler.Valid()
    {
      ghost var wasValid := handler.Valid();
      if options.matchUntil.Some? && options.matchUntil.value(m) {
        if options.addLastMatch {
          values := Store(values, m);
          assert wasValid ==> handler.Valid();
        }
        End(Success);
        return;
      }
      values := Store(values, m);
      assert wasValid ==> handler.Valid();
      Conclude([]);
    }

    /** The end of `addInput` once the message was stored or corrected:
        the sends `sent` of the correction go out, then the limit checks. */
    method Conclude(sent: seq<Effect>)
      requires !ended
      modifies this, handler
      ensures var st := AfterInput(old(State()), options, channel, sent);
              State() == st.state && handler.outbox == old(handler.outbox) + st.effects
      ensures handler.prompts == if ended then WithoutUser(old(handler.prompts), user) else old(handler.prompts)
      ensures old(handler.Valid()) ==> handler.Valid()
    {
      ghost var wasValid := handler.Valid();
      ghost var s0 := State();
      ghost var o0 := handler.outbox;
      handler.outbox := handler.outbox + sent;
      assert wasValid ==> handler.Valid();
      assert State() == s0;
      if |values| >= options.messages {
        ghost var e := EndStep(s0, channel, options.autoRespond, Success);
        assert AfterInput(s0, options, channel, sent) == Step(e.state, sent + e.effects);
        End(Success);
        assert o0 + sent + e.effects == o0 + (sent + e.effects);
      } else if options.attempts > 0 && attempts >= options.attempts {
        ghost var e := EndStep(s0, channel, options.autoRespond, Attempts);
        assert AfterInput(s0, options, channel, sent) == Step(e.state, sent + e.effects);
        End(Attempts);
        assert o0 + sent + e.effects == o0 + (sent + e.effects);
      } else {
        assert AfterInput(s0, options, channel, sent) == Step(s0, sent);
      }
    }
  }

  // ---------------------------------------------------------------------
  // `end` as written

  const DeleteTypeError := "TypeError: this.handler.prompts.delete is not a function"

  /** `end` as written: it sets `ended`, then calls `delete` on the
      registry, which is an array, so the call throws before the prompt is
      removed, before the automatic reply and before the promise is
      settled. The result is the new state and the exception. */
  function EndAsWritten(s: PromptState, registry: seq<Prompt>): (seq<Prompt>, PromptState, Option<string>) {
    if s.ended then (registry, s, None) else (registry, s.(ended := true), Some(DeleteTypeError))
  }

  /** What that does to a live prompt: it is ended, so every later input and
      `end` is ignored, but its promise stays pending for ever; and since the
      delete throws before changing anything, the registry still holds it
      and the handler keeps finding it for its user and channel. */
  lemma EndAsWrittenStrands(s: PromptState, o: Options, channel: string, evs: seq<Event>,
                            registry: seq<Prompt>, p: Prompt)
    requires !s.ended && s.outcome == Pending
    requires p in registry && UniqueKeys(registry)
    ensures var (after, t, thrown) := EndAsWritten(s, registry);
            thrown == Some(DeleteTypeError)
            && t.ended && t.outcome == Pending
            && Run(t, o, channel, evs).state.outcome == Pending
            && after == registry && FindIn(after, p.user, p.channel) == Some(p)
  {
    var t := EndAsWritten(s, registry).1;
    EndedStays(t, o, channel, evs);
    FoundIsUnique(registry, p);
  }

  /** Under unique keys a registered prompt is the one found for its keys. */
  lemma FoundIsUnique(ps: seq<Prompt>, p: Prompt)
    requires p in ps && UniqueKeys(ps)
    ensures FindIn(ps, p.user, p.channel) == Some(p)
  {
  }

  /** On an ended state no event changes anything. */
  lemma {:induction false} EndedStays(s: PromptState, o: Options, channel: string, evs: seq<Event>)
    requires s.ended
    ensures Run(s, o, channel, evs) == Step(s, [])
    decreases |evs|
  {
    if evs != [] {
      EndedStays(s, o, channel, evs[1..]);
    }
  }
}
