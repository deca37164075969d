/** The typing signal end to end: the composer's throttled heartbeat
    (apps/web/src/features/room/hooks/useComposingSignal.ts), a delaying channel, and the peer's
    indicator with its safety timer (apps/web/src/features/room/hooks/useRoomSocket.ts). Times are
    whole milliseconds. */
module Typing {
  import opened Common

  const IDLE_MS: nat := 2500
  const HEARTBEAT_MS: nat := 3000
  const TYPING_SAFETY_TIMEOUT_MS: nat := 6000

  /** One call of `onChange`. */
  datatype Frame = Frame(at: nat, on: bool)

  /** `idleAt` is when the armed idle timer is due; `emitted` is every call of `onChange`. */
  datatype Signal = Signal(active: bool, lastEmit: nat, idleAt: Option<nat>, emitted: seq<Frame>)

  function Stopped(s: Signal, now: nat): Signal {
    Signal(false, s.lastEmit, None, if s.active then s.emitted + [Frame(now, false)] else s.emitted)
  }

  function Notified(s: Signal, now: nat): Signal {
    if !s.active || now - s.lastEmit >= HEARTBEAT_MS
    then Signal(true, now, Some(now + IDLE_MS), s.emitted + [Frame(now, true)])
    else s.(idleAt := Some(now + IDLE_MS))
  }

  /** `timers` holds when each peer's safety timer is due, `typing` the label shown for it. */
  datatype Peers = Peers(timers: map<Id, nat>, typing: map<Id, string>)

  function DropTyping(p: Peers, key: Id): Peers {
    Peers(p.timers - {key}, p.typing - {key})
  }

  function OnTypingState(p: Peers, key: Id, name: string, on: bool, now: nat): Peers {
    if on then Peers(p.timers[key := now + TYPING_SAFETY_TIMEOUT_MS], p.typing[key := name])
    else DropTyping(p, key)
  }

  class ComposingSignal {
    var active: bool
    var lastEmit: nat
    var idleTimer: Option<nat>
    var emitted: seq<Frame>

    function View(): Signal
      reads this
    {
      Signal(active, lastEmit, idleTimer, emitted)
    }

    constructor ()
      ensures View() == Signal(false, 0, None, [])
    {
      active, lastEmit, idleTimer, emitted := false, 0, None, [];
    }

    /** Also what the idle timer and unmounting run. */
    method Stop(now: nat)
      modifies this
      ensures View() == Stopped(old(View()), now)
    {
      if idleTimer.Some? {
        idleTimer := None;
      }
      if active {
        active := false;
        emitted := emitted + [Frame(now, false)];
      }
    }

    method Notify(now: nat)
      modifies this
      ensures View() == Notified(old(View()), now)
    {
      if !active {
        active := true;
        lastEmit := now;
        emitted := emitted + [Frame(now, true)];
      } else if now - lastEmit >= HEARTBEAT_MS {
        lastEmit := now;
        emitted := emitted + [Frame(now, true)];
      }
      idleTimer := Some(now + IDLE_MS);
    }
  }

  class TypingIndicators {
    var timers: map<Id, nat>
    var typing: map<Id, string>

    function View(): Peers
      reads this
    {
      Peers(timers, typing)
    }

    constructor ()
      ensures View() == Peers(map[], map[])
    {
      timers, typing := map[], map[];
    }

    /** The one way out: a stop, an arriving message and the safety timer all come here. */
    method Drop(key: Id)
      modifies this
      ensures View() == DropTyping(old(View()), key)
    {
      if key in timers {
        timers := timers - {key};
      }
      if key in typing {
        typing := typing - {key};
      }
    }

    method OnState(key: Id, name: string, on: bool, now: nat)
      modifies this
      ensures View() == OnTypingState(old(View()), key, name, on, now)
    {
      if !on {
        Drop(key);
        return;
      }
      timers := timers[key := now + TYPING_SAFETY_TIMEOUT_MS];
      typing := typing[key := name];
    }
  }

  /** One connection carries `me`'s frames in order, each after at least `latency` and at most
      `latency + jitter` milliseconds. */
  datatype Link = Link(me: Id, name: string, latency: nat, jitter: nat)

  /** `lastKey` is the last keystroke; the first `arrived` emitted frames left the channel; `litAt` is
      when the last `true` about each peer was received. */
  datatype World = World(now: nat, lastKey: nat, signal: Signal, arrived: nat, peers: Peers, litAt: map<Id, nat>)

  /** `Other` is any event about another peer: a message of theirs drops the indicator just as a
      stop does. `Lose` is a frame that never arrives. */
  datatype Action =
    | Keystroke | Send | IdleTimeout | Wait(ms: nat)
    | Arrive | Lose | SafetyTimeout(key: Id) | Other(key: Id, name: string, on: bool)

  const START: World := World(0, 0, Signal(false, 0, None, []), 0, Peers(map[], map[]), map[])

  /** Time never passes a due timer or a frame's last moment: both are served on time. */
  ghost predicate MayWait(link: Link, w: World, ms: nat) {
    && (w.signal.idleAt.Some? ==> w.now + ms <= w.signal.idleAt.value)
    && (w.arrived < |w.signal.emitted| ==> w.now + ms <= w.signal.emitted[w.arrived].at + link.latency + link.jitter)
    && (forall key | key in w.peers.timers :: w.now + ms <= w.peers.timers[key])
  }

  function Receive(w: World, key: Id, name: string, on: bool): World {
    w.(peers := OnTypingState(w.peers, key, name, on, w.now),
       litAt := if on then w.litAt[key := w.now] else w.litAt)
  }

  /** A choice that is not possible in a state changes nothing. */
  ghost function Step(link: Link, w: World, a: Action): World {
    match a
    case Keystroke => w.(signal := Notified(w.signal, w.now), lastKey := w.now)
    case Send => w.(signal := Stopped(w.signal, w.now))
    case IdleTimeout => if w.signal.idleAt == Some(w.now) then w.(signal := Stopped(w.signal, w.now)) else w
    case Wait(ms) => if MayWait(link, w, ms) then w.(now := w.now + ms) else w
    case Arrive =>
      if w.arrived < |w.signal.emitted| && w.now >= w.signal.emitted[w.arrived].at + link.latency then
        Receive(w.(arrived := w.arrived + 1), link.me, link.name, w.signal.emitted[w.arrived].on)
      else w
    case Lose => if w.arrived < |w.signal.emitted| then w.(arrived := w.arrived + 1) else w
    case SafetyTimeout(key) =>
      if key in w.peers.timers && w.peers.timers[key] == w.now then w.(peers := DropTyping(w.peers, key)) else w
    case Other(key, name, on) =>
      if key != link.me then Receive(w, key, name, on) else w
  }

  ghost function RunFrom(link: Link, w: World, actions: seq<Action>): World {
    if actions == [] then w
    else Step(link, RunFrom(link, w, actions[..|actions| - 1]), actions[|actions| - 1])
  }

  ghost predicate Lossless(actions: seq<Action>) {
    Lose !in actions
  }

  /** What the emitted frames look like: in order, starting with `true`; `true` frames of a burst
      are at least a heartbeat apart and none is left alone for heartbeat plus idle. */
  ghost predicate FramesOk(frames: seq<Frame>, now: nat) {
    && (forall i :: 0 <= i < |frames| ==> frames[i].at <= now)
    && (forall i, j :: 0 <= i < j < |frames| ==> frames[i].at <= frames[j].at)
    && (|frames| > 0 ==> frames[0].on)
    && (forall i :: 0 < i < |frames| ==> FollowsOk(frames[i - 1], frames[i]))
  }

  ghost predicate FollowsOk(before: Frame, after: Frame) {
    && (!before.on ==> after.on)
    && (before.on && after.on ==> after.at - before.at >= HEARTBEAT_MS)
    && (before.on ==> after.at - before.at < HEARTBEAT_MS + IDLE_MS)
  }

  ghost predicate SignalOk(s: Signal, lastKey: nat, now: nat) {
    && FramesOk(s.emitted, now)
    && lastKey <= now
    && s.active == s.idleAt.Some?
    && s.active == (s.emitted != [] && s.emitted[|s.emitted| - 1].on)
    && (s.active ==>
          && s.emitted[|s.emitted| - 1].at == s.lastEmit <= lastKey
          && lastKey - s.lastEmit < HEARTBEAT_MS
          && s.idleAt.value == lastKey + IDLE_MS
          && now <= s.idleAt.value)
    && (s.emitted != [] && !s.active ==> s.emitted[|s.emitted| - 1].at <= lastKey + IDLE_MS)
  }

  ghost predicate PeersOk(p: Peers, litAt: map<Id, nat>, now: nat) {
    && p.timers.Keys == p.typing.Keys
    && forall key | key in p.timers ::
         key in litAt && now <= p.timers[key] == litAt[key] + TYPING_SAFETY_TIMEOUT_MS
  }

  ghost predicate ChannelOk(link: Link, w: World) {
    && w.arrived <= |w.signal.emitted|
    && (w.arrived < |w.signal.emitted| ==> w.now <= w.signal.emitted[w.arrived].at + link.latency + link.jitter)
  }

  ghost predicate Ok(link: Link, w: World) {
    && SignalOk(w.signal, w.lastKey, w.now)
    && PeersOk(w.peers, w.litAt, w.now)
    && ChannelOk(link, w)
  }

  lemma NotifyKeepsOk(s: Signal, lastKey: nat, now: nat)
    requires SignalOk(s, lastKey, now)
    ensures SignalOk(Notified(s, now), now, now)
  {
  }

  lemma StopKeepsOk(s: Signal, lastKey: nat, now: nat)
    requires SignalOk(s, lastKey, now)
    ensures SignalOk(Stopped(s, now), lastKey, now)
  {
  }

  lemma StepKeepsSignalOk(link: Link, w: World, a: Action)
    requires SignalOk(w.signal, w.lastKey, w.now)
    ensures var w' := Step(link, w, a); SignalOk(w'.signal, w'.lastKey, w'.now)
  {
    hide Notified, Stopped, Receive, DropTyping;
    match a
    case Keystroke => NotifyKeepsOk(w.signal, w.lastKey, w.now);
    case Send => StopKeepsOk(w.signal, w.lastKey, w.now);
    case IdleTimeout => StopKeepsOk(w.signal, w.lastKey, w.now);
    case Arrive =>
      ReceivingIsAboutPeers(w.(arrived := w.arrived + 1), link.me, link.name,
                            w.arrived < |w.signal.emitted| && w.signal.emitted[w.arrived].on);
    case Other(key, name, on) => ReceivingIsAboutPeers(w, key, name, on);
    case _ =>
  }

  lemma ReceivingIsAboutPeers(w: World, key: Id, name: string, on: bool)
    ensures Receive(w, key, name, on) == w.(peers := Receive(w, key, name, on).peers, litAt := Receive(w, key, name, on).litAt)
  {
    hide OnTypingState;
  }

  lemma StepKeepsPeersOk(link: Link, w: World, a: Action)
    requires PeersOk(w.peers, w.litAt, w.now)
    ensures var w' := Step(link, w, a); PeersOk(w'.peers, w'.litAt, w'.now)
  {
    hide Notified, Stopped;
  }

  lemma StepKeepsChannelOk(link: Link, w: World, a: Action)
    requires SignalOk(w.signal, w.lastKey, w.now) && ChannelOk(link, w)
    ensures ChannelOk(link, Step(link, w, a))
  {
    hide OnTypingState, DropTyping, FollowsOk;
  }

  lemma StepKeepsOk(link: Link, w: World, a: Action)
    requires Ok(link, w)
    ensures Ok(link, Step(link, w, a))
  {
    hide Step, SignalOk, PeersOk, ChannelOk;
    StepKeepsSignalOk(link, w, a);
    StepKeepsPeersOk(link, w, a);
    StepKeepsChannelOk(link, w, a);
  }

  lemma {:induction false} RunKeepsOk(link: Link, w: World, actions: seq<Action>)
    requires Ok(link, w)
    ensures Ok(link, RunFrom(link, w, actions))
  {
    if actions != [] {
      RunKeepsOk(link, w, actions[..|actions| - 1]);
      StepKeepsOk(link, RunFrom(link, w, actions[..|actions| - 1]), actions[|actions| - 1]);
    }
  }

  /** Over every run: within a burst `true` frames are a heartbeat apart, a silence after a `true` is
      shorter than heartbeat plus idle, and the composer goes quiet at the latest an idle period
      after the last keystroke. */
  lemma ComposerIsThrottledAndPrompt(link: Link, actions: seq<Action>)
    ensures var w := RunFrom(link, START, actions);
            var frames := w.signal.emitted;
            && (forall i :: 0 < i < |frames| ==> FollowsOk(frames[i - 1], frames[i]))
            && (w.signal.active <==> frames != [] && frames[|frames| - 1].on)
            && (w.signal.active ==> w.now - w.signal.lastEmit < HEARTBEAT_MS + IDLE_MS < TYPING_SAFETY_TIMEOUT_MS)
            && (w.signal.active ==> w.now <= w.lastKey + IDLE_MS)
  {
    RunKeepsOk(link, START, actions);
  }

  /** What the peer shows is what the last frame out of the channel said. */
  ghost predicate Faithful(link: Link, w: World) {
    var said := w.arrived > 0 && w.arrived <= |w.signal.emitted| && w.signal.emitted[w.arrived - 1].on;
    && (said ==>
          && link.me in w.peers.timers
          && w.peers.timers[link.me] >= w.signal.emitted[w.arrived - 1].at + link.latency + TYPING_SAFETY_TIMEOUT_MS)
    && (!said ==> link.me !in w.peers.timers)
  }

  lemma SafetyTimerIsNeverDue(link: Link, w: World)
    requires Ok(link, w) && Faithful(link, w) && link.jitter <= 500
    ensures link.me in w.peers.timers ==> w.now < w.peers.timers[link.me]
  {
  }

  lemma StepKeepsFaithful(link: Link, w: World, a: Action)
    requires Ok(link, w) && Faithful(link, w) && link.jitter <= 500 && !a.Lose?
    ensures Faithful(link, Step(link, w, a))
  {
    SafetyTimerIsNeverDue(link, w);
  }

  lemma {:induction false} RunKeepsFaithful(link: Link, actions: seq<Action>)
    requires Lossless(actions) && link.jitter <= 500
    ensures Faithful(link, RunFrom(link, START, actions))
  {
    if actions != [] {
      var init := actions[..|actions| - 1];
      RunKeepsFaithful(link, init);
      RunKeepsOk(link, START, init);
      StepKeepsFaithful(link, RunFrom(link, START, init), actions[|actions| - 1]);
    }
  }

  /** The composer is still active, its last frame to reach the peer said so, yet the indicator is
      off. */
  ghost predicate Lapsed(link: Link, w: World) {
    && w.signal.active
    && 0 < w.arrived <= |w.signal.emitted|
    && w.signal.emitted[w.arrived - 1].on
    && link.me !in w.peers.typing
  }

  ghost predicate CanLapse(jitter: nat) {
    exists link: Link, actions: seq<Action> :: CanLapseBy(link, jitter, actions)
  }

  ghost predicate CanLapseBy(link: Link, jitter: nat, actions: seq<Action>) {
    link.jitter == jitter && Lossless(actions) && Lapsed(link, RunFrom(link, START, actions))
  }

  lemma Unfold(link: Link, w: World, actions: seq<Action>, a: Action)
    ensures RunFrom(link, w, actions + [a]) == Step(link, RunFrom(link, w, actions), a)
  {
  }

  /** A burst whose last keystroke comes just before the first heartbeat is due. */
  const BURST: seq<Action> := [Keystroke, Arrive, Wait(1500), Keystroke, Wait(1499), Keystroke]

  lemma BurstRun(link: Link)
    requires link.latency == 0
    ensures RunFrom(link, START, BURST)
            == World(2999, 2999, Signal(true, 0, Some(5499), [Frame(0, true)]), 1,
                     Peers(map[link.me := 6000], map[link.me := link.name]), map[link.me := 0])
  {
    var a2 := [] + [Keystroke] + [Arrive];
    var a4 := a2 + [Wait(1500)] + [Keystroke];
    Unfold(link, START, [], Keystroke);
    Unfold(link, START, [Keystroke], Arrive);
    var w := RunFrom(link, START, a2);
    assert w.peers == Peers(map[link.me := 6000], map[link.me := link.name]) && w.litAt == map[link.me := 0];
    Unfold(link, START, a2, Wait(1500));
    Unfold(link, START, a2 + [Wait(1500)], Keystroke);
    Unfold(link, START, a4, Wait(1499));
    Unfold(link, START, a4 + [Wait(1499)], Keystroke);
    assert a4 + [Wait(1499)] + [Keystroke] == BURST;
  }

  /** The next keystroke comes 5499 ms after the only `true`, as the idle timer is due, and its
      heartbeat, 501 ms late, has not arrived when the safety timer is due. */
  lemma LateHeartbeatLapses(jitter: nat)
    requires jitter > 500
    ensures CanLapse(jitter)
  {
    var link := Link(Id("peer"), "Teal Otter", 0, jitter);
    BurstRun(link);
    var a5 := BURST + [Wait(2500)];
    var a6 := a5 + [Keystroke];
    var a7 := a6 + [Wait(501)];
    var a8 := a7 + [SafetyTimeout(link.me)];
    Unfold(link, START, BURST, Wait(2500));
    Unfold(link, START, a5, Keystroke);
    assert RunFrom(link, START, a6).signal == Signal(true, 5499, Some(7999), [Frame(0, true), Frame(5499, true)]);
    Unfold(link, START, a6, Wait(501));
    assert RunFrom(link, START, a7).now == 6000;
    Unfold(link, START, a7, SafetyTimeout(link.me));
    assert CanLapseBy(link, jitter, a8);
  }

  /** Without loss the indicator can lapse under a still-composing peer exactly when jitter can
      exceed half a second. Up to there it never does, whatever the latency; beyond, it can even
      without latency. */
  lemma LapsesExactlyWhenJitterExceedsHalfASecond(jitter: nat)
    ensures CanLapse(jitter) <==> jitter > 500
  {
    if jitter > 500 {
      LateHeartbeatLapses(jitter);
    } else if CanLapse(jitter) {
      var link: Link, actions: seq<Action> :| CanLapseBy(link, jitter, actions);
      RunKeepsFaithful(link, actions);
      RunKeepsOk(link, START, actions);
    }
  }

  /** What a peer sees over a lossless link with little jitter: lit exactly while the last frame
      to arrive said `true`; lit once a burst is older than the link's delay; dark an idle period
      and the link's delay after the last keystroke. */
  lemma PeersSeeTypingAsItIs(link: Link, actions: seq<Action>)
    requires Lossless(actions) && link.jitter <= 500
    ensures var w := RunFrom(link, START, actions);
            var frames, delay := w.signal.emitted, link.latency + link.jitter;
            && w.arrived <= |frames|
            && (link.me in w.peers.typing <==> w.arrived > 0 && frames[w.arrived - 1].on)
            && (forall i :: 0 <= i < |frames| && frames[i].at + delay < w.now && (forall j :: i <= j < |frames| ==> frames[j].on)
                  ==> link.me in w.peers.typing)
            && (link.me in w.peers.typing ==> w.now <= w.lastKey + IDLE_MS + delay)
  {
    RunKeepsFaithful(link, actions);
    RunKeepsOk(link, START, actions);
    var w := RunFrom(link, START, actions);
    assert link.me in w.peers.typing <==> link.me in w.peers.timers.Keys;
  }

  /** Whatever is lost on the way, an indicator that is lit was refreshed within the safety
      timeout; so it is out once that long has passed since the last `true` received. */
  lemma LostStopsClear(link: Link, actions: seq<Action>, key: Id)
    ensures var w := RunFrom(link, START, actions);
            key in w.peers.typing ==> key in w.litAt && w.now <= w.litAt[key] + TYPING_SAFETY_TIMEOUT_MS
  {
    RunKeepsOk(link, START, actions);
    var w := RunFrom(link, START, actions);
    assert key in w.peers.typing <==> key in w.peers.timers.Keys;
  }

  lemma {:induction false} TypingPeersGoByTheirName(link: Link, actions: seq<Action>)
    ensures var peers := RunFrom(link, START, actions).peers; link.me in peers.typing ==> peers.typing[link.me] == link.name
  {
    hide MayWait, Notified, Stopped;
    if actions != [] { TypingPeersGoByTheirName(link, actions[..|actions| - 1]); }
  }
}
