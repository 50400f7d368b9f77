/**
 * The compose box's typing notifications: a rate limiter that announces
 * typing at most once per 4000 ms and withdraws the announcement 3000 ms
 * after the last keystroke, when the text is cleared, or before a send.
 *
 * `Date.now()` becomes a `now` parameter, the pending `setTimeout` a
 * deadline, its callback firing the `TimerFires` event, and the calls into the
 * SDK entries of a command log. The pure `After...` functions over a snapshot
 * of the state are the specification; the class `ServerCompose` updates its
 * fields step by step as the component updates its refs.
 */
module Compose {
  import opened Wrappers
  import opened Strings

  /** Delay after the last keystroke before typing is withdrawn. */
  const TypingTimeoutMs: int := 3000
  /** Minimum spacing of two typing announcements. */
  const TypingSendIntervalMs: int := 4000

  /** A call made into the SDK. */
  datatype Command =
    | StartTyping(channelId: string)
    | StopTyping(channelId: string)
    | SendMessage(channelId: string, content: string)

  /**
   * The component's state: the `content` state, the refs `lastTypingSentRef`
   * and `isTypingRef`, the deadline of the timer in `typingTimeoutRef`, and
   * the commands sent so far.
   */
  datatype ComposeState = ComposeState(
    content: string,
    lastTypingSent: int,
    isTyping: bool,
    typingTimeout: Option<int>,
    log: seq<Command>)

  function Initial(): ComposeState {
    ComposeState("", 0, false, None, [])
  }

  // ---------------------------------------------------------------------------
  // The specification

  /**
   * `stopTyping`: the pending timer is dropped; a stop is sent, and typing
   * cleared, only when typing was announced on a channel.
   */
  function AfterStopTyping(channel: Option<string>, s: ComposeState): (r: ComposeState)
    ensures r.typingTimeout.None?
    ensures r.content == s.content && r.lastTypingSent == s.lastTypingSent
    ensures r.log == s.log + (if channel.Some? && s.isTyping then [StopTyping(channel.value)] else [])
    ensures r.isTyping <==> s.isTyping && channel.None?
  {
    var s1 := s.(typingTimeout := None);
    if channel.Some? && s1.isTyping then s1.(log := s1.log + [StopTyping(channel.value)], isTyping := false)
    else s1
  }

  /**
   * `handleTyping`: without a channel nothing happens. Otherwise typing is
   * announced when more than 4000 ms have passed since the last announcement,
   * and in every case the stop-timer is restarted with a 3000 ms delay.
   */
  function AfterTyping(channel: Option<string>, s: ComposeState, now: int): (r: ComposeState)
    ensures channel.None? ==> r == s
    ensures channel.Some? ==> r.typingTimeout == Some(now + TypingTimeoutMs) && r.content == s.content
    ensures channel.Some? && now - s.lastTypingSent > TypingSendIntervalMs ==>
              r.log == s.log + [StartTyping(channel.value)] && r.lastTypingSent == now && r.isTyping
    ensures !(channel.Some? && now - s.lastTypingSent > TypingSendIntervalMs) ==>
              r.log == s.log && r.lastTypingSent == s.lastTypingSent && r.isTyping == s.isTyping
  {
    if channel.None? then s
    else
      var s1 := if now - s.lastTypingSent > TypingSendIntervalMs
                then s.(log := s.log + [StartTyping(channel.value)], lastTypingSent := now, isTyping := true)
                else s;
      s1.(typingTimeout := Some(now + TypingTimeoutMs))
  }

  /**
   * `handleChange`: the content becomes the new value; text that is not blank
   * counts as typing, blank text stops typing.
   */
  function AfterChange(channel: Option<string>, s: ComposeState, value: string, now: int): (r: ComposeState)
    ensures r.content == value
    ensures !IsBlank(value) ==> r == AfterTyping(channel, s.(content := value), now)
    ensures IsBlank(value) ==> r == AfterStopTyping(channel, s.(content := value))
  {
    TrimEmptyIffBlank(value);
    var s1 := s.(content := value);
    if Trim(value) != "" then AfterTyping(channel, s1, now) else AfterStopTyping(channel, s1)
  }

  /**
   * `handleSend`: nothing happens without a channel or with blank content.
   * Otherwise typing is stopped first, then the content is sent as it is, and
   * it is cleared only if the send succeeded.
   */
  function AfterSend(channel: Option<string>, s: ComposeState, sendSucceeds: bool): (r: ComposeState)
    ensures channel.None? || IsBlank(s.content) ==> r == s
    ensures channel.Some? && !IsBlank(s.content) ==>
              && r.log == AfterStopTyping(channel, s).log + [SendMessage(channel.value, s.content)]
              && !r.isTyping && r.typingTimeout.None? && r.lastTypingSent == s.lastTypingSent
              && r.content == (if sendSucceeds then "" else s.content)
  {
    TrimEmptyIffBlank(s.content);
    if channel.None? || Trim(s.content) == "" then s
    else
      var s1 := AfterStopTyping(channel, s);
      var s2 := s1.(log := s1.log + [SendMessage(channel.value, s.content)]);
      if sendSucceeds then s2.(content := "") else s2
  }

  /** The stop-timer's callback: when the pending timer is due, typing stops. */
  function AfterTimer(channel: Option<string>, s: ComposeState, now: int): (r: ComposeState)
    ensures s.typingTimeout.Some? && now >= s.typingTimeout.value ==> r == AfterStopTyping(channel, s)
    ensures !(s.typingTimeout.Some? && now >= s.typingTimeout.value) ==> r == s
  {
    if s.typingTimeout.Some? && now >= s.typingTimeout.value then AfterStopTyping(channel, s) else s
  }

  // ---------------------------------------------------------------------------
  // Invariants of the command log

  /** Whether the last typing command in the log is an announcement. */
  function Announced(log: seq<Command>): bool {
    if log == [] then false
    else match log[|log| - 1]
      case StartTyping(_) => true
      case StopTyping(_) => false
      case SendMessage(_, _) => Announced(log[..|log| - 1])
  }

  /** Every stop in the log withdraws an announcement that was still standing. */
  predicate StopsFollowStarts(log: seq<Command>) {
    log == [] ||
    (StopsFollowStarts(log[..|log| - 1]) &&
     (log[|log| - 1].StopTyping? ==> Announced(log[..|log| - 1])))
  }

  /** The number of announcements in the log. */
  function StartCount(log: seq<Command>): nat {
    if log == [] then 0
    else StartCount(log[..|log| - 1]) + (if log[|log| - 1].StartTyping? then 1 else 0)
  }

  /**
   * What every reachable state satisfies: typing and the timer exist only
   * with a channel, every command names that channel, `isTyping` says whether
   * the last typing command was an announcement, and no stop is sent twice.
   */
  predicate Consistent(channel: Option<string>, s: ComposeState) {
    && ((s.isTyping || s.typingTimeout.Some?) ==> channel.Some?)
    && (forall i | 0 <= i < |s.log| :: channel.Some? && s.log[i].channelId == channel.value)
    && s.isTyping == Announced(s.log)
    && StopsFollowStarts(s.log)
  }

  lemma AppendFacts(log: seq<Command>, c: Command)
    ensures (log + [c])[..|log|] == log && (log + [c])[|log|] == c
    ensures Announced(log + [c]) == (if c.SendMessage? then Announced(log) else c.StartTyping?)
    ensures StopsFollowStarts(log + [c]) == (StopsFollowStarts(log) && (c.StopTyping? ==> Announced(log)))
    ensures StartCount(log + [c]) == StartCount(log) + (if c.StartTyping? then 1 else 0)
  {
    assert (log + [c])[..|log|] == log;
  }

  lemma InitialConsistent(channel: Option<string>)
    ensures Consistent(channel, Initial())
  {
  }

  /** Stopping typing keeps the state consistent, and a second stop sends nothing. */
  lemma StopTypingStep(channel: Option<string>, s: ComposeState)
    requires Consistent(channel, s)
    ensures Consistent(channel, AfterStopTyping(channel, s))
    ensures AfterStopTyping(channel, AfterStopTyping(channel, s)) == AfterStopTyping(channel, s)
    ensures StartCount(AfterStopTyping(channel, s).log) == StartCount(s.log)
  {
    if channel.Some? && s.isTyping {
      AppendFacts(s.log, StopTyping(channel.value));
    }
  }

  /** Typing keeps the state consistent; it adds at most one announcement. */
  lemma TypingStep(channel: Option<string>, s: ComposeState, now: int)
    requires Consistent(channel, s)
    ensures Consistent(channel, AfterTyping(channel, s, now))
    ensures StartCount(AfterTyping(channel, s, now).log) ==
              StartCount(s.log) + (if channel.Some? && now - s.lastTypingSent > TypingSendIntervalMs then 1 else 0)
  {
    if channel.Some? && now - s.lastTypingSent > TypingSendIntervalMs {
      AppendFacts(s.log, StartTyping(channel.value));
    }
  }

  /** Sending keeps the state consistent and announces nothing. */
  lemma SendStep(channel: Option<string>, s: ComposeState, sendSucceeds: bool)
    requires Consistent(channel, s)
    ensures Consistent(channel, AfterSend(channel, s, sendSucceeds))
    ensures StartCount(AfterSend(channel, s, sendSucceeds).log) == StartCount(s.log)
  {
    if channel.Some? && !IsBlank(s.content) {
      StopTypingStep(channel, s);
      var s1 := AfterStopTyping(channel, s);
      AppendFacts(s1.log, SendMessage(channel.value, s.content));
    }
  }

  // ---------------------------------------------------------------------------
  // The component

  /** Each announcement came more than 4000 ms after the previous one (the first, after time 0). */
  predicate StartsSpaced(times: seq<int>) {
    && (|times| > 0 ==> times[0] > TypingSendIntervalMs)
    && (forall k | 0 < k < |times| :: times[k] - times[k - 1] > TypingSendIntervalMs)
  }

  function LastStart(times: seq<int>): int {
    if times == [] then 0 else times[|times| - 1]
  }

  /** An announcement more than 4000 ms after the previous one keeps the spacing. */
  lemma SpacedExtend(times: seq<int>, now: int)
    requires StartsSpaced(times)
    requires now - LastStart(times) > TypingSendIntervalMs
    ensures StartsSpaced(times + [now]) && LastStart(times + [now]) == now
  {
    var t := times + [now];
    assert t[|times|] == now;
    forall k | 0 < k < |t|
      ensures t[k] - t[k - 1] > TypingSendIntervalMs
    {
      assert t[k - 1] == times[k - 1];
      if k < |times| {
        assert t[k] == times[k];
      }
    }
  }

  /**
   * `ServerCompose` for one channel prop. The ghost field `startTimes` records
   * when each announcement was sent.
   */
  class ServerCompose {
    const channel: Option<string>
    var content: string
    var lastTypingSent: int
    var isTyping: bool
    var typingTimeout: Option<int>
    var log: seq<Command>
    ghost var startTimes: seq<int>

    function State(): ComposeState
      reads this
    {
      ComposeState(content, lastTypingSent, isTyping, typingTimeout, log)
    }

    ghost predicate Valid()
      reads this
    {
      && Consistent(channel, State())
      && StartsSpaced(startTimes)
      && lastTypingSent == LastStart(startTimes)
      && StartCount(log) == |startTimes|
    }

    constructor (channel: Option<string>)
      ensures Valid()
      ensures this.channel == channel && State() == Initial() && startTimes == []
    {
      this.channel := channel;
      content := "";
      lastTypingSent := 0;
      isTyping := false;
      typingTimeout := None;
      log := [];
      startTimes := [];
    }

    method StopTyping()
      requires Valid()
      modifies this
      ensures Valid()
      ensures State() == AfterStopTyping(channel, old(State())) && startTimes == old(startTimes)
    {
      StopTypingStep(channel, State());
      if typingTimeout.Some? {
        typingTimeout := None;
      }
      if channel.Some? && isTyping {
        log := log + [Command.StopTyping(channel.value)];
        isTyping := false;
      }
    }

    method HandleTyping(now: int)
      requires Valid()
      modifies this
      ensures Valid()
      ensures State() == AfterTyping(channel, old(State()), now)
      ensures startTimes == old(startTimes)
                + (if channel.Some? && now - old(lastTypingSent) > TypingSendIntervalMs then [now] else [])
    {
      if channel.None? {
        return;
      }
      TypingStep(channel, State(), now);
      if now - lastTypingSent > TypingSendIntervalMs {
        SpacedExtend(startTimes, now);
        startTimes := startTimes + [now];
        log := log + [StartTyping(channel.value)];
        lastTypingSent := now;
        isTyping := true;
      }
      typingTimeout := Some(now + TypingTimeoutMs);
    }

    method HandleSend(sendSucceeds: bool)
      requires Valid()
      modifies this
      ensures Valid()
      ensures State() == AfterSend(channel, old(State()), sendSucceeds) && startTimes == old(startTimes)
    {
      TrimEmptyIffBlank(content);
      if channel.None? || Trim(content) == "" {
        return;
      }
      StopTyping();
      SendContent(sendSucceeds);
    }

    /** The `try` block of `handleSend`, once typing has been stopped. */
    method SendContent(sendSucceeds: bool)
      requires Valid() && channel.Some? && !isTyping
      modifies this
      ensures Valid()
      ensures State() == old(State()).(log := old(log) + [SendMessage(channel.value, old(content))],
                                       content := if sendSucceeds then "" else old(content))
      ensures startTimes == old(startTimes)
    {
      AppendFacts(log, SendMessage(channel.value, content));
      log := log + [SendMessage(channel.value, content)];
      if sendSucceeds {
        content := "";
      }
    }

    method HandleChange(value: string, now: int)
      requires Valid()
      modifies this
      ensures Valid()
      ensures State() == AfterChange(channel, old(State()), value, now)
      ensures startTimes == old(startTimes)
                + (if !IsBlank(value) && channel.Some? && now - old(lastTypingSent) > TypingSendIntervalMs then [now] else [])
    {
      TrimEmptyIffBlank(value);
      SetContent(value);
      if Trim(value) != "" {
        HandleTyping(now);
      } else {
        StopTyping();
      }
    }

    /** `setContent`: the text changes and nothing else. */
    method SetContent(value: string)
      requires Valid()
      modifies this
      ensures Valid()
      ensures State() == old(State()).(content := value) && startTimes == old(startTimes)
    {
      content := value;
    }

    method TimerFires(now: int)
      requires Valid()
      modifies this
      ensures Valid()
      ensures State() == AfterTimer(channel, old(State()), now) && startTimes == old(startTimes)
    {
      if typingTimeout.Some? && now >= typingTimeout.value {
        StopTyping();
      }
    }
  }
}
