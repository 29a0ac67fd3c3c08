/** The per-command cooldown of src/structures/Cooldown.js: a cache from
    user id to the timer that ends the user's cooldown, a list of channels
    that were recently told about a cooldown, and calls into a store that
    mirrors the cache. Timers are opaque handles; the environment runs a
    timer by calling `DeleteUser` or `Release`. */
module Cooldowns {
  import opened Base

  /** What the store is asked to do. */
  datatype StoreCall = SetCall(id: string) | UpdateCall(id: string) | DeleteCall(id: string)

  /** What a timer does when it fires. */
  datatype TimerAction = ExpireUser(id: string) | ReleaseChannel(channel: string)

  /** The timer calls: `setTimeout` answers with the handle it is given
      here, `clearTimeout` cancels one. */
  datatype TimerCall = SetTimer(handle: nat, action: TimerAction, delay: int) | ClearTimer(handle: nat)

  /** The `handle` option: a falsy value, a text to send, a function
      (recorded by name), or any other truthy value. */
  datatype Notifier = NoNotifier | NoticeText(text: string) | NoticeFn(name: string) | NoticeOther

  /** `this.handle` is truthy: the empty text is as falsy as no option. */
  predicate Active(n: Notifier) {
    !n.NoNotifier? && n != NoticeText("")
  }

  const MaxTimerLength := 2147483647

  const LengthError := "TypeError: Provided length is either less than 100 milliseconds or greater than the maximum positive value for a 32-bit signed binary integer without a retrieving or safe timer function."

  /** The constructor's check: a length under 100 ms, or one a 32-bit timer
      cannot hold when the store has no getter and no timer of its own is
      supplied. */
  predicate LengthRejected(length: int, hasGetter: bool, customTimer: bool) {
    length < 100 || (length > MaxTimerLength && !hasGetter && !customTimer)
  }

  /** The boundaries of the check. */
  lemma LengthBounds(hasGetter: bool, customTimer: bool)
    ensures LengthRejected(99, hasGetter, customTimer) && !LengthRejected(100, hasGetter, customTimer)
    ensures !LengthRejected(MaxTimerLength, hasGetter, customTimer)
    ensures LengthRejected(MaxTimerLength + 1, hasGetter, customTimer) <==> !hasGetter && !customTimer
  {
  }

  predicate Distinct(s: seq<string>) {
    forall i, j :: 0 <= i < j < |s| ==> s[i] != s[j]
  }

  /** `indexOf`. */
  function IndexOf(s: seq<string>, x: string): (r: Option<nat>)
    ensures r.Some? ==> r.value < |s| && s[r.value] == x && forall i :: 0 <= i < r.value ==> s[i] != x
    ensures r.None? ==> x !in s
  {
    if s == [] then None
    else if s[0] == x then Some(0)
    else match IndexOf(s[1..], x)
      case None => None
      case Some(i) => Some(i + 1)
  }

  /** The cleanup: `splice(indexOf(x), 1)` when `x` is present. */
  function Released(s: seq<string>, x: string): (r: seq<string>)
    ensures |r| == if x in s then |s| - 1 else |s|
  {
    match IndexOf(s, x)
    case None => s
    case Some(i) => s[..i] + s[i + 1..]
  }

  /** The throttle on the list of notified channels: nothing for a falsy
      notifier or for a channel already in the list, else the channel is
      added, and told when the notifier is a text or a function. */
  function Throttle(notified: seq<string>, n: Notifier, m: Message): (seq<string>, seq<Effect>) {
    if !Active(n) || m.channelId in notified then (notified, [])
    else
      (notified + [m.channelId],
       match n
       case NoticeText(t) => [Send(m.channelId, Some(t))]
       case NoticeFn(name) => [Callback(name, m.id)]
       case _ => [])
  }

  /** The throttle never lists a channel twice, lists the message's channel
      afterwards when the notifier is truthy (even one it cannot send),
      tells a channel only through a text or a function, and tells it at
      most once until it is released. */
  lemma ThrottleKeepsDistinct(notified: seq<string>, n: Notifier, m: Message)
    requires Distinct(notified)
    ensures var (after, told) := Throttle(notified, n, m);
            Distinct(after)
            && (Active(n) ==> m.channelId in after)
            && (after != notified <==> Active(n) && m.channelId !in notified)
            && (told != [] <==> Active(n) && !n.NoticeOther? && m.channelId !in notified)
            && Throttle(after, n, m) == (after, [])
  {
  }

  /** An empty text is falsy, so nothing is listed; any other truthy value
      that is neither a text nor a function lists the channel and tells
      nobody. */
  lemma ThrottleOddNotifiers(notified: seq<string>, m: Message)
    ensures Throttle(notified, NoticeText(""), m) == (notified, [])
    ensures m.channelId !in notified ==> Throttle(notified, NoticeOther, m) == (notified + [m.channelId], [])
  {
  }

  /** Releasing removes exactly the released channel. */
  lemma ReleaseRemovesOnly(s: seq<string>, x: string)
    requires Distinct(s)
    ensures var r := Released(s, x);
            Distinct(r) && x !in r && forall y :: y != x ==> (y in r <==> y in s)
  {
    match IndexOf(s, x)
    case None =>
    case Some(i) =>
      var r := s[..i] + s[i + 1..];
      assert forall k :: 0 <= k < |r| ==> r[k] == if k < i then s[k] else s[k + 1];
      forall y | y != x && y in s
        ensures y in r
      {
        var k :| 0 <= k < |s| && s[k] == y;
        assert k != i;
        if k < i { assert r[k] == y; } else { assert r[k - 1] == y; }
      }
  }

  /** Telling a new channel and later releasing it gives the list back. */
  lemma {:induction false} ThrottleThenRelease(notified: seq<string>, n: Notifier, m: Message)
    requires Distinct(notified) && Active(n) && m.channelId !in notified
    ensures Released(Throttle(notified, n, m).0, m.channelId) == notified
  {
    var s := notified + [m.channelId];
    assert IndexOf(s, m.channelId) == Some(|notified|) by {
      var r := IndexOf(s, m.channelId);
      assert s[|notified|] == m.channelId;
      assert forall i :: 0 <= i < |notified| ==> s[i] != m.channelId;
    }
    assert s[..|notified|] == notified;
  }

  /** What `command.cooldown.handle(message)` runs: the constructor's own
      `handle` property hides the throttle, so a function option is called
      directly on every cooled-down message and any other option makes the
      call throw. */
  function OwnHandle(n: Notifier, m: Message): (r: Result<seq<Effect>, string>)
    ensures r.Ok? <==> n.NoticeFn?
    ensures n.NoticeFn? ==> r.value == [Callback(n.name, m.id)]
  {
    match n
    case NoticeFn(name) => Ok([Callback(name, m.id)])
    case _ => Err("TypeError: command.cooldown.handle is not a function")
  }

  /** Called on a message whose channel is already listed, the throttle
      stays silent while the own property still answers. */
  lemma OwnHandleBypassesThrottle(notified: seq<string>, name: string, m: Message)
    requires m.channelId in notified
    ensures Throttle(notified, NoticeFn(name), m).1 == []
    ensures OwnHandle(NoticeFn(name), m) == Ok([Callback(name, m.id)])
  {
  }

  class Cooldown {
    const length: int
    const notifier: Notifier
    const handleDelay: int
    /** What the store's `get` returns, when the store has one. */
    const getter: Option<map<string, nat>>
    var cache: map<string, nat>
    var handleCache: seq<string>
    var storeLog: seq<StoreCall>
    var timers: seq<TimerCall>
    var nextHandle: nat
    var sent: seq<Effect>

    predicate Valid()
      reads this
    {
      Distinct(handleCache)
    }

    /** The part of the constructor that runs when the length is accepted:
        empty caches, then `loadCache`. */
    constructor(length: int, notifier: Notifier, handleDelay: int, getter: Option<map<string, nat>>)
      ensures this.length == length && this.notifier == notifier
      ensures this.handleDelay == handleDelay && this.getter == getter
      ensures cache == (if getter.Some? then getter.value else map[])
      ensures handleCache == [] && storeLog == [] && timers == [] && sent == []
      ensures Valid()
    {
      this.length := length;
      this.notifier := notifier;
      this.handleDelay := handleDelay;
      this.getter := getter;
      cache := map[];
      handleCache := [];
      storeLog := [];
      timers := [];
      nextHandle := 0;
      sent := [];
      new;
      LoadCache();
    }

    /** `loadCache`: the store's contents replace the cache only when the
        store has a getter. */
    method LoadCache()
      modifies this
      ensures cache == if getter.Some? then getter.value else old(cache)
      ensures handleCache == old(handleCache) && storeLog == old(storeLog)
      ensures timers == old(timers) && nextHandle == old(nextHandle) && sent == old(sent)
    {
      if getter.None? {
        return;
      }
      cache := getter.value;
    }

    /** `onCooldown(id)` */
    predicate OnCooldown(id: string)
      reads this
    {
      id in cache
    }

    /** `addUser(id)`: an id already cooling down has its timer cleared and
        the store updated; a new one is set in the store. Either way the
        cache holds the new timer. */
    method AddUser(id: string)
      modifies this
      ensures cache == old(cache)[id := old(nextHandle)] && OnCooldown(id)
      ensures storeLog == old(storeLog) + [if old(OnCooldown(id)) then UpdateCall(id) else SetCall(id)]
      ensures timers == old(timers)
                        + (if old(OnCooldown(id)) then [ClearTimer(old(cache)[id])] else [])
                        + [SetTimer(old(nextHandle), ExpireUser(id), length)]
      ensures nextHandle == old(nextHandle) + 1
      ensures handleCache == old(handleCache) && sent == old(sent)
    {
      if OnCooldown(id) {
        timers := timers + [ClearTimer(cache[id])];
        storeLog := storeLog + [UpdateCall(id)];
      } else {
        storeLog := storeLog + [SetCall(id)];
      }
      var h := nextHandle;
      timers := timers + [SetTimer(h, ExpireUser(id), length)];
      nextHandle := nextHandle + 1;
      cache := cache[id := h];
    }

    /** `deleteUser(id)`: only `id` leaves the cache, and the store is told. */
    method DeleteUser(id: string)
      modifies this
      ensures cache == old(cache) - {id} && !OnCooldown(id)
      ensures forall other :: other != id ==> (OnCooldown(other) <==> old(OnCooldown(other)))
      ensures storeLog == old(storeLog) + [DeleteCall(id)]
      ensures handleCache == old(handleCache) && timers == old(timers)
      ensures nextHandle == old(nextHandle) && sent == old(sent)
    {
      cache := cache - {id};
      storeLog := storeLog + [DeleteCall(id)];
    }

    /** The throttle method of the prototype (shadowed by the `handle`
        property, so named differently here). */
    method Notice(m: Message)
      modifies this
      ensures handleCache == Throttle(old(handleCache), notifier, m).0
      ensures sent == old(sent) + Throttle(old(handleCache), notifier, m).1
      ensures timers == if handleCache == old(handleCache) then old(timers)
                        else old(timers) + [SetTimer(old(nextHandle), ReleaseChannel(m.channelId), handleDelay)]
      ensures nextHandle == if handleCache == old(handleCache) then old(nextHandle) else old(nextHandle) + 1
      ensures cache == old(cache) && storeLog == old(storeLog)
      ensures old(Valid()) ==> Valid()
    {
      if !Active(notifier) || m.channelId in handleCache {
        assert sent == sent + [];
        return;
      }
      if Valid() {
        ThrottleKeepsDistinct(handleCache, notifier, m);
      }
      handleCache := handleCache + [m.channelId];
      timers := timers + [SetTimer(nextHandle, ReleaseChannel(m.channelId), handleDelay)];
      nextHandle := nextHandle + 1;
      match notifier {
        case NoticeText(t) =>
          sent := sent + [Send(m.channelId, Some(t))];
        case NoticeFn(name) =>
          sent := sent + [Callback(name, m.id)];
        case NoticeOther =>
          assert sent == sent + [];
      }
    }

    /** The throttle's timer firing for `channel`. */
    method Release(channel: string)
      modifies this
      ensures handleCache == Released(old(handleCache), channel)
      ensures old(Valid()) ==> Valid() && channel !in handleCache
      ensures cache == old(cache) && storeLog == old(storeLog) && timers == old(timers) && sent == old(sent)
    {
      if Valid() {
        ReleaseRemovesOnly(handleCache, channel);
      }
      var index := IndexOf(handleCache, channel);
      if index.Some? {
        handleCache := handleCache[..index.value] + handleCache[index.value + 1..];
      }
    }
  }

  /** `new Cooldown(length, options)`: when the length is refused the
      expression evaluates to the TypeError object, not to a cooldown. */
  method NewCooldown(length: int, notifier: Notifier, handleDelay: int,
                     getter: Option<map<string, nat>>, customTimer: bool)
    returns (r: Result<Cooldown, string>)
    ensures r.Err? <==> LengthRejected(length, getter.Some?, customTimer)
    ensures r.Err? ==> r.error == LengthError
    ensures r.Ok? ==> fresh(r.value) && r.value.Valid() && r.value.length == length
                      && r.value.cache == (if getter.Some? then getter.value else map[])
  {
    if LengthRejected(length, getter.Some?, customTimer) {
      return Err(LengthError);
    }
    var c := new Cooldown(length, notifier, handleDelay, getter);
    return Ok(c);
  }
}
