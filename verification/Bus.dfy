/** The event bus: subscriber fan-out, with channels closed under the write lock while events
    are delivered under the read lock. */
module Bus {
  import opened Common

  datatype Event = Event(id: string, kind: string)

  const CAPACITY := 100

  /** What became of one notification offered to a subscriber. A dropped one records how many
      notifications the subscriber had read by then. */
  datatype Fate = Sent | Unmatched | BufferFull(read: nat) | ContextDone

  /** A subscriber's channel. `since` is the number of notifications before it subscribed and
      `fates` what became of those after, in order; `ended` is how many of those had passed the
      context check when its context ended, if it has. */
  datatype Channel = Channel(
    kinds: set<string>, ended: Option<nat>, closed: bool,
    buffer: seq<Event>, received: seq<Event>,
    since: nat, fates: seq<Fate>)

  /** `next` is the position of a delivery in progress, which holds the read lock, and `passed`
      says whether the subscriber there has passed the context check; `panicked` records a send on
      a closed channel or a second close. */
  datatype State = State(
    subs: seq<nat>, channels: map<nat, Channel>, log: seq<Event>, next: Option<nat>, passed: bool, panicked: bool)

  datatype Action =
    | Subscribe(ch: nat, kinds: set<string>)
    | CancelContext(ch: nat)
    | Notify(event: Event)
    | Check
    | Offer
    | EndDelivery
    | Receive(ch: nat)
    | RemoveSub(ch: nat)

  /** A subscriber is having its turn in a delivery. */
  predicate Delivering(s: State) {
    s.next.Some? && s.next.value < |s.subs| && s.log != [] && s.subs[s.next.value] in s.channels
  }

  /** The subscriber whose turn it is and that has passed the context check. */
  predicate InFlight(s: State, ch: nat) {
    s.next.Some? && s.passed && s.next.value < |s.subs| && s.subs[s.next.value] == ch
  }

  predicate Enabled(s: State, a: Action) {
    match a
    case Subscribe(ch, _) => s.next == None && ch !in s.channels
    case CancelContext(ch) => ch in s.channels
    case Notify(_) => s.next == None
    case Check => Delivering(s) && !s.passed
    case Offer => Delivering(s) && s.passed
    case EndDelivery => s.next.Some? && s.next.value >= |s.subs|
    case Receive(ch) => ch in s.channels && s.channels[ch].buffer != []
    case RemoveSub(ch) => s.next == None && ch in s.channels && s.channels[ch].ended.Some?
  }

  predicate Matches(c: Channel, e: Event) {
    c.kinds == {} || e.kind in c.kinds
  }

  function FateOf(c: Channel, e: Event): Fate {
    if !Matches(c, e) then Unmatched
    else if |c.buffer| < CAPACITY then Sent
    else BufferFull(|c.received|)
  }

  function Offered(c: Channel, e: Event): Channel {
    c.(fates := c.fates + [FateOf(c, e)], buffer := if FateOf(c, e).Sent? then c.buffer + [e] else c.buffer)
  }

  function Skipped(c: Channel): Channel {
    c.(fates := c.fates + [ContextDone])
  }

  /** A context ends once; a notification in flight has passed the check already. */
  function Ended(c: Channel, inFlight: bool): Channel {
    c.(ended := if c.ended.Some? then c.ended else Some(|c.fates| + if inFlight then 1 else 0))
  }

  function Step(s: State, a: Action): State
    requires Enabled(s, a)
  {
    match a
    case Subscribe(ch, kinds) =>
      s.(subs := s.subs + [ch], channels := s.channels[ch := Channel(kinds, None, false, [], [], |s.log|, [])])
    case CancelContext(ch) => s.(channels := s.channels[ch := Ended(s.channels[ch], InFlight(s, ch))])
    case Notify(e) => s.(log := s.log + [e], next := Some(0), passed := false)
    case Check =>
      var ch := s.subs[s.next.value];
      if s.channels[ch].ended.Some? then
        s.(channels := s.channels[ch := Skipped(s.channels[ch])], next := Some(s.next.value + 1))
      else s.(passed := true)
    case Offer =>
      var ch, e := s.subs[s.next.value], s.log[|s.log| - 1];
      var c := s.channels[ch];
      s.(channels := s.channels[ch := Offered(c, e)], next := Some(s.next.value + 1), passed := false,
         panicked := s.panicked || (FateOf(c, e).Sent? && c.closed))
    case EndDelivery => s.(next := None)
    case Receive(ch) =>
      var c := s.channels[ch];
      s.(channels := s.channels[ch := c.(buffer := c.buffer[1..], received := c.received + [c.buffer[0]])])
    case RemoveSub(ch) =>
      if ch in s.subs then
        s.(subs := WithoutFirst(s.subs, ch), channels := s.channels[ch := s.channels[ch].(closed := true)],
           panicked := s.panicked || s.channels[ch].closed)
      else s
  }

  ghost predicate Reaches(s: State, actions: seq<Action>, s': State)
    decreases actions
  {
    if actions == [] then s' == s
    else Enabled(s, actions[0]) && Reaches(Step(s, actions[0]), actions[1..], s')
  }

  const START := State([], map[], [], None, false, false)

  // ---- The invariant ----

  /** The events among `events` whose fate was to be sent. */
  function SentOnly(events: seq<Event>, fates: seq<Fate>): seq<Event>
    requires |events| == |fates|
  {
    if fates == [] then []
    else
      var n := |fates| - 1;
      SentOnly(events[..n], fates[..n]) + if fates[n].Sent? then [events[n]] else []
  }

  /** The notifications a channel has been offered. */
  function OfferedTo(s: State, c: Channel): seq<Event>
    requires c.since + |c.fates| <= |s.log|
  {
    s.log[c.since..c.since + |c.fates|]
  }

  /** The fate fits its notification: it is "context done" exactly for those checked after the
      context ended, and a full buffer means that exactly a hundred earlier sends were unread. */
  predicate FateTrue(c: Channel, events: seq<Event>, i: nat)
    requires |events| == |c.fates| && i < |c.fates|
  {
    && (c.fates[i].ContextDone? <==> c.ended.Some? && c.ended.value <= i)
    && match c.fates[i]
    case Sent => Matches(c, events[i])
    case Unmatched => !Matches(c, events[i])
    case BufferFull(read) =>
      Matches(c, events[i]) && read <= |c.received| && |SentOnly(events[..i], c.fates[..i])| == read + CAPACITY
    case ContextDone => true
  }

  predicate FatesTrue(c: Channel, events: seq<Event>)
    requires |events| == |c.fates|
  {
    forall i :: 0 <= i < |c.fates| ==> FateTrue(c, events, i)
  }

  predicate ChannelOk(s: State, c: Channel, inFlight: bool) {
    && |c.buffer| <= CAPACITY
    && c.since + |c.fates| <= |s.log|
    && (c.ended.Some? ==> if inFlight then c.ended.value == |c.fates| + 1 else c.ended.value <= |c.fates|)
    && c.received + c.buffer == SentOnly(OfferedTo(s, c), c.fates)
    && FatesTrue(c, OfferedTo(s, c))
  }

  /** An open subscriber has been offered every notification but one it is still waiting for. */
  predicate UpToDate(s: State, i: nat)
    requires i < |s.subs| && s.subs[i] in s.channels
  {
    var c := s.channels[s.subs[i]];
    c.since + |c.fates| == |s.log| - if s.next.Some? && s.next.value <= i then 1 else 0
  }

  predicate SubOk(s: State, i: nat)
    requires i < |s.subs|
  {
    s.subs[i] in s.channels && !s.channels[s.subs[i]].closed && UpToDate(s, i)
  }

  ghost predicate Inv(s: State) {
    && !s.panicked
    && Distinct(s.subs)
    && (forall ch :: ch in s.channels ==> ChannelOk(s, s.channels[ch], InFlight(s, ch)))
    && (forall i :: 0 <= i < |s.subs| ==> SubOk(s, i))
    && (s.next.Some? ==> s.log != [])
  }

  lemma SentSnoc(events: seq<Event>, fates: seq<Fate>, e: Event, f: Fate)
    requires |events| == |fates|
    ensures SentOnly(events + [e], fates + [f]) == SentOnly(events, fates) + if f.Sent? then [e] else []
  {
    assert (events + [e])[..|fates|] == events && (fates + [f])[..|fates|] == fates;
  }

  /** A new fate that is true keeps those before it true. */
  lemma FatesExtend(c: Channel, c': Channel, events: seq<Event>, e: Event, f: Fate)
    requires |events| == |c.fates| && FatesTrue(c, events)
    requires c'.kinds == c.kinds && c'.ended == c.ended && c'.received == c.received && c'.fates == c.fates + [f]
    requires FateTrue(c', events + [e], |c.fates|)
    ensures FatesTrue(c', events + [e])
  {
    hide SentOnly;
    forall i | 0 <= i < |c'.fates| ensures FateTrue(c', events + [e], i) {
      if i < |c.fates| {
        assert FateTrue(c, events, i);
        assert (events + [e])[..i] == events[..i] && c'.fates[..i] == c.fates[..i];
        assert c'.fates[i] == c.fates[i] && (events + [e])[i] == events[i];
      }
    }
  }

  /** Offering the newest notification keeps the channel's account. */
  lemma OfferKeepsChannel(s: State, c: Channel)
    requires ChannelOk(s, c, true) && s.log != [] && c.since + |c.fates| == |s.log| - 1
    ensures ChannelOk(s, Offered(c, s.log[|s.log| - 1]), false)
  {
    hide SentOnly, FatesTrue;
    var e := s.log[|s.log| - 1];
    var events := OfferedTo(s, c);
    var c' := Offered(c, e);
    assert OfferedTo(s, c') == events + [e];
    SentSnoc(events, c.fates, e, FateOf(c, e));
    assert (events + [e])[..|c.fates|] == events && c'.fates[..|c.fates|] == c.fates;
    FatesExtend(c, c', events, e, FateOf(c, e));
  }

  lemma SkipKeepsChannel(s: State, c: Channel)
    requires ChannelOk(s, c, false) && s.log != [] && c.since + |c.fates| == |s.log| - 1 && c.ended.Some?
    ensures ChannelOk(s, Skipped(c), false)
  {
    hide SentOnly, FatesTrue;
    var e := s.log[|s.log| - 1];
    var events := OfferedTo(s, c);
    assert OfferedTo(s, Skipped(c)) == events + [e];
    SentSnoc(events, c.fates, e, ContextDone);
    FatesExtend(c, Skipped(c), events, e, ContextDone);
  }

  /** A longer log changes nothing for notifications already offered. */
  lemma LogGrows(s: State, s': State, c: Channel, inFlight: bool)
    requires ChannelOk(s, c, inFlight) && s.log <= s'.log
    ensures ChannelOk(s', c, inFlight)
  {
    assert OfferedTo(s', c) == OfferedTo(s, c);
  }

  /** The subscriber whose turn it is becomes `c`, which has one fate more, and the turn passes. */
  lemma TurnKeepsInv(s: State, s': State, c: Channel)
    requires Inv(s) && Delivering(s)
    requires var ch := s.subs[s.next.value];
      && s' == s.(channels := s.channels[ch := c], next := Some(s.next.value + 1), passed := false)
      && ChannelOk(s, c, false) && c.closed == s.channels[ch].closed
      && c.since == s.channels[ch].since && |c.fates| == |s.channels[ch].fates| + 1
    ensures Inv(s')
  {
    hide ChannelOk;
    var ch := s.subs[s.next.value];
    forall x | x in s'.channels ensures ChannelOk(s', s'.channels[x], InFlight(s', x)) {
      LogGrows(s, s', s'.channels[x], false);
    }
    forall j | 0 <= j < |s'.subs| ensures SubOk(s', j) {
      assert SubOk(s, j);
      assert j != s.next.value ==> s.subs[j] != ch;
    }
  }

  lemma OfferKeepsInv(s: State)
    requires Inv(s) && Enabled(s, Offer)
    ensures Inv(Step(s, Offer))
  {
    hide ChannelOk;
    var i := s.next.value;
    var c, e := s.channels[s.subs[i]], s.log[|s.log| - 1];
    assert SubOk(s, i) && InFlight(s, s.subs[i]);
    OfferKeepsChannel(s, c);
    TurnKeepsInv(s, Step(s, Offer), Offered(c, e));
  }

  lemma CheckKeepsInv(s: State)
    requires Inv(s) && Enabled(s, Check)
    ensures Inv(Step(s, Check))
  {
    var i := s.next.value;
    var c := s.channels[s.subs[i]];
    assert SubOk(s, i) && !InFlight(s, s.subs[i]);
    if c.ended.Some? {
      SkipKeepsChannel(s, c);
      TurnKeepsInv(s, Step(s, Check), Skipped(c));
    } else {
      PassKeepsInv(s);
    }
  }

  lemma PassKeepsInv(s: State)
    requires Inv(s) && Enabled(s, Check) && s.channels[s.subs[s.next.value]].ended == None
    ensures Inv(s.(passed := true))
  {
    hide FatesTrue, SentOnly;
    var s' := s.(passed := true);
    forall x | x in s'.channels ensures ChannelOk(s', s'.channels[x], InFlight(s', x)) {
      assert ChannelOk(s, s.channels[x], InFlight(s, x));
      assert OfferedTo(s', s.channels[x]) == OfferedTo(s, s.channels[x]);
    }
    forall j | 0 <= j < |s'.subs| ensures SubOk(s', j) {
      assert SubOk(s, j);
    }
  }

  lemma ReceiveKeepsChannel(s: State, c: Channel, inFlight: bool)
    requires ChannelOk(s, c, inFlight) && c.buffer != []
    ensures ChannelOk(s, c.(buffer := c.buffer[1..], received := c.received + [c.buffer[0]]), inFlight)
  {
    assert c.received + [c.buffer[0]] + c.buffer[1..] == c.received + c.buffer;
    var c' := c.(buffer := c.buffer[1..], received := c.received + [c.buffer[0]]);
    assert OfferedTo(s, c') == OfferedTo(s, c);
    forall i | 0 <= i < |c'.fates| ensures FateTrue(c', OfferedTo(s, c'), i) {
      assert FateTrue(c, OfferedTo(s, c), i);
    }
  }

  /** A channel changed in its flags or its reader's side keeps every account. */
  lemma ChannelKeepsInv(s: State, ch: nat, c: Channel)
    requires Inv(s) && ch in s.channels && ChannelOk(s, c, InFlight(s, ch))
    requires c.since == s.channels[ch].since && c.fates == s.channels[ch].fates && c.closed == s.channels[ch].closed
    ensures Inv(s.(channels := s.channels[ch := c]))
  {
    hide ChannelOk;
    var s' := s.(channels := s.channels[ch := c]);
    forall x | x in s'.channels ensures ChannelOk(s', s'.channels[x], InFlight(s', x)) {
      LogGrows(s, s', s'.channels[x], InFlight(s, x));
    }
    forall j | 0 <= j < |s'.subs| ensures SubOk(s', j) {
      assert SubOk(s, j);
    }
  }

  /** Ending a context or closing a channel keeps the account of what was offered. */
  lemma CancelKeepsChannel(s: State, c: Channel, inFlight: bool)
    requires ChannelOk(s, c, inFlight)
    ensures ChannelOk(s, Ended(c, inFlight), inFlight) && ChannelOk(s, c.(closed := true), inFlight)
  {
    hide SentOnly;
    var events := OfferedTo(s, c);
    var c' := Ended(c, inFlight);
    assert OfferedTo(s, c') == events == OfferedTo(s, c.(closed := true));
    forall i | 0 <= i < |c.fates|
      ensures FateTrue(c', events, i) && FateTrue(c.(closed := true), events, i)
    {
      assert FateTrue(c, events, i);
    }
  }

  lemma SubscribeKeepsInv(s: State, ch: nat, kinds: set<string>)
    requires Inv(s) && Enabled(s, Subscribe(ch, kinds))
    ensures Inv(Step(s, Subscribe(ch, kinds)))
  {
    hide ChannelOk;
    var s' := Step(s, Subscribe(ch, kinds));
    forall i | 0 <= i < |s.subs| ensures s.subs[i] != ch {
      assert SubOk(s, i);
    }
    forall x | x in s'.channels ensures ChannelOk(s', s'.channels[x], InFlight(s', x)) {
      if x == ch {
        NewChannelOk(s', kinds);
      } else {
        LogGrows(s, s', s'.channels[x], false);
      }
    }
    forall j | 0 <= j < |s'.subs| ensures SubOk(s', j) {
      if j < |s.subs| {
        assert s'.subs[j] == s.subs[j] && SubOk(s, j);
      }
    }
  }

  lemma NewChannelOk(s: State, kinds: set<string>)
    ensures ChannelOk(s, Channel(kinds, None, false, [], [], |s.log|, []), false)
  {
  }

  /** A delivery begins or ends. */
  lemma TurnsKeepInv(s: State, a: Action)
    requires Inv(s) && (a.Notify? || a.EndDelivery?) && Enabled(s, a)
    ensures Inv(Step(s, a))
  {
    hide ChannelOk;
    var s' := Step(s, a);
    forall x | x in s'.channels ensures ChannelOk(s', s'.channels[x], InFlight(s', x)) {
      LogGrows(s, s', s'.channels[x], false);
    }
    forall j | 0 <= j < |s'.subs| ensures SubOk(s', j) {
      assert SubOk(s, j);
    }
  }

  lemma RemoveKeepsInv(s: State, ch: nat)
    requires Inv(s) && Enabled(s, RemoveSub(ch))
    ensures Inv(Step(s, RemoveSub(ch)))
  {
    hide ChannelOk, WithoutFirst;
    if ch in s.subs {
      var s' := Step(s, RemoveSub(ch));
      var i :| 0 <= i < |s.subs| && s.subs[i] == ch;
      assert SubOk(s, i);
      assert ch !in s.subs[..i];
      WithoutFirstAt(s.subs, ch, i);
      CancelKeepsChannel(s, s.channels[ch], false);
      forall x | x in s'.channels ensures ChannelOk(s', s'.channels[x], InFlight(s', x)) {
        LogGrows(s, s', s'.channels[x], false);
      }
      forall j | 0 <= j < |s'.subs| ensures SubOk(s', j) {
        var k := if j < i then j else j + 1;
        assert s'.subs[j] == s.subs[k] && SubOk(s, k) && s.subs[k] != ch;
      }
    }
  }

  lemma StepKeepsInv(s: State, a: Action)
    requires Inv(s) && Enabled(s, a)
    ensures Inv(Step(s, a))
  {
    hide Inv, ChannelOk;
    match a
    case Subscribe(ch, kinds) => SubscribeKeepsInv(s, ch, kinds);
    case CancelContext(ch) =>
      InvChannel(s, ch);
      CancelKeepsChannel(s, s.channels[ch], InFlight(s, ch));
      ChannelKeepsInv(s, ch, Ended(s.channels[ch], InFlight(s, ch)));
    case Notify(e) => TurnsKeepInv(s, a);
    case Check => CheckKeepsInv(s);
    case Offer => OfferKeepsInv(s);
    case EndDelivery => TurnsKeepInv(s, a);
    case Receive(ch) =>
      InvChannel(s, ch);
      var c := s.channels[ch];
      ReceiveKeepsChannel(s, c, InFlight(s, ch));
      ChannelKeepsInv(s, ch, c.(buffer := c.buffer[1..], received := c.received + [c.buffer[0]]));
    case RemoveSub(ch) => RemoveKeepsInv(s, ch);
  }

  lemma InvChannel(s: State, ch: nat)
    requires Inv(s) && ch in s.channels
    ensures ChannelOk(s, s.channels[ch], InFlight(s, ch))
  {
  }

  lemma InvSub(s: State, i: nat)
    requires Inv(s) && i < |s.subs|
    ensures SubOk(s, i)
  {
  }

  lemma {:induction false} RunKeepsInv(s: State, actions: seq<Action>, s': State)
    requires Inv(s) && Reaches(s, actions, s')
    ensures Inv(s')
    decreases actions
  {
    hide Inv;
    if actions != [] {
      StepKeepsInv(s, actions[0]);
      RunKeepsInv(Step(s, actions[0]), actions[1..], s');
    }
  }

  // ---- Main results ----

  /** In every interleaving the lock allows: no send on a closed channel and no second close,
      and the subscribed channels are pairwise distinct and open. */
  lemma NeverPanics(actions: seq<Action>, s: State)
    requires Reaches(START, actions, s)
    ensures !s.panicked && Distinct(s.subs)
    ensures forall i :: 0 <= i < |s.subs| ==> s.subs[i] in s.channels && !s.channels[s.subs[i]].closed
  {
    RunKeepsInv(START, actions, s);
    forall i | 0 <= i < |s.subs| ensures s.subs[i] in s.channels && !s.channels[s.subs[i]].closed {
      assert SubOk(s, i);
    }
  }

  /** What a subscriber received, then what its buffer (at most 100) holds, are the notifications
      since it subscribed, in order, without those that did not match, that were checked after
      its context ended, or that found the buffer full; between deliveries an open subscriber has
      been offered all of them. */
  lemma DeliveredInOrder(actions: seq<Action>, s: State, ch: nat)
    requires Reaches(START, actions, s) && ch in s.channels
    ensures var c := s.channels[ch];
      && |c.buffer| <= CAPACITY && c.since + |c.fates| <= |s.log|
      && c.received + c.buffer == SentOnly(OfferedTo(s, c), c.fates)
      && FatesTrue(c, OfferedTo(s, c))
      && (ch in s.subs && s.next == None ==> OfferedTo(s, c) == s.log[c.since..])
  {
    RunKeepsInv(START, actions, s) by { assert Inv(START); }
    hide Inv, Reaches, SentOnly, FatesTrue;
    InvChannel(s, ch);
    if ch in s.subs && s.next == None {
      var i :| 0 <= i < |s.subs| && s.subs[i] == ch;
      InvSub(s, i);
    }
  }

  /** Once subscribed, a channel stays known and keeps its kinds. */
  lemma {:induction false} KindsKept(s: State, actions: seq<Action>, s': State, ch: nat)
    requires Reaches(s, actions, s') && ch in s.channels
    ensures ch in s'.channels && s'.channels[ch].kinds == s.channels[ch].kinds
    decreases actions
  {
    if actions != [] {
      KindsKept(Step(s, actions[0]), actions[1..], s', ch);
    }
  }

  lemma {:induction false} SubscribedKinds(s: State, actions: seq<Action>, s': State, i: nat)
    requires Reaches(s, actions, s') && i < |actions| && actions[i].Subscribe?
    ensures var ch := actions[i].ch; ch in s'.channels && s'.channels[ch].kinds == actions[i].kinds
    decreases actions
  {
    if i == 0 {
      KindsKept(Step(s, actions[0]), actions[1..], s', actions[0].ch);
    } else {
      SubscribedKinds(Step(s, actions[0]), actions[1..], s', i - 1);
    }
  }

  lemma {:induction false} SentMember(events: seq<Event>, fates: seq<Fate>, e: Event)
    requires |events| == |fates| && e in SentOnly(events, fates)
    ensures exists i :: 0 <= i < |fates| && events[i] == e && fates[i].Sent?
  {
    var n := |fates| - 1;
    if !(fates[n].Sent? && events[n] == e) {
      SentMember(events[..n], fates[..n], e);
      var i :| 0 <= i < n && events[..n][i] == e && fates[..n][i].Sent?;
      assert events[i] == e && fates[i].Sent?;
    }
  }

  /** A subscriber gets only what it asked for: in every run, whatever a channel received or has
      buffered is of one of the kinds it was subscribed with, or it asked for all; and what was
      passed over as unmatched is of none of them. */
  lemma OnlyWantedKinds(actions: seq<Action>, s: State, i: nat)
    requires Reaches(START, actions, s) && i < |actions| && actions[i].Subscribe?
    ensures var ch, kinds := actions[i].ch, actions[i].kinds;
      && ch in s.channels
      && (forall e :: e in s.channels[ch].received + s.channels[ch].buffer ==> kinds == {} || e.kind in kinds)
      && s.channels[ch].since + |s.channels[ch].fates| <= |s.log|
      && (forall j :: 0 <= j < |s.channels[ch].fates| && s.channels[ch].fates[j].Unmatched? ==>
          kinds != {} && s.log[s.channels[ch].since + j].kind !in kinds)
  {
    hide Reaches, SentOnly;
    var ch, kinds := actions[i].ch, actions[i].kinds;
    SubscribedKinds(START, actions, s, i);
    DeliveredInOrder(actions, s, ch);
    var c := s.channels[ch];
    var events := OfferedTo(s, c);
    forall e | e in c.received + c.buffer ensures kinds == {} || e.kind in kinds {
      SentMember(events, c.fates, e);
      var j :| 0 <= j < |c.fates| && events[j] == e && c.fates[j].Sent?;
      assert FateTrue(c, events, j);
    }
    forall j | 0 <= j < |c.fates| && c.fates[j].Unmatched? ensures kinds != {} && s.log[c.since + j].kind !in kinds {
      assert FateTrue(c, events, j);
    }
  }

  // ---- The bus object ----

  lemma {:induction false} Extend(s: State, path: seq<Action>, mid: State, a: Action)
    requires Reaches(s, path, mid) && Enabled(mid, a)
    ensures Reaches(s, path + [a], Step(mid, a))
    decreases path
  {
    hide Step;
    if path == [] {
      assert [a][1..] == [];
      assert Reaches(Step(mid, a), [], Step(mid, a));
    } else {
      Extend(Step(s, path[0]), path[1..], mid, a);
      assert (path + [a])[1..] == path[1..] + [a];
    }
  }

  // ---- A delivery among other goroutines ----

  /** What other goroutines may do whether the lock is held or not, when it is possible. */
  predicate Outside(s: State, a: Action) {
    (a.CancelContext? || a.Receive?) && Enabled(s, a)
  }

  predicate SameTurn(s: State, s': State) {
    && s'.subs == s.subs && s'.log == s.log && s'.next == s.next && s'.passed == s.passed
    && s'.channels.Keys == s.channels.Keys
  }

  /** The state after the attempts of other goroutines. */
  function Disturbed(s: State, attempts: seq<Action>): (s': State)
    ensures SameTurn(s, s')
  {
    if attempts == [] then s
    else
      var before, a := Disturbed(s, attempts[..|attempts| - 1]), attempts[|attempts| - 1];
      if Outside(before, a) then Step(before, a) else before
  }

  predicate Known(s: State) {
    forall j :: 0 <= j < |s.subs| ==> s.subs[j] in s.channels
  }

  /** A delivery is at subscriber `i`, whose context has not been checked yet. */
  predicate AtTurn(s: State, i: nat) {
    s.next == Some(i) && !s.passed && s.log != [] && Known(s)
  }

  lemma DisturbedAtTurn(s: State, i: nat, attempts: seq<Action>)
    requires AtTurn(s, i)
    ensures AtTurn(Disturbed(s, attempts), i)
  {
  }

  /** One turn: the context check and, when it passes, the offer, with others in between. */
  function Turn(s: State, i: nat, between: seq<Action>): (s': State)
    requires AtTurn(s, i) && i < |s.subs|
    ensures AtTurn(s', i + 1) && s'.subs == s.subs && s'.log == s.log
  {
    var checked := Step(s, Check);
    if !checked.passed then checked else Step(Disturbed(checked, between), Offer)
  }

  /** The first `n` turns, others acting before each and within each. */
  function Turns(s: State, n: nat, before: nat -> seq<Action>, between: nat -> seq<Action>): (s': State)
    requires AtTurn(s, 0) && n <= |s.subs|
    ensures AtTurn(s', n) && s'.subs == s.subs && s'.log == s.log
  {
    if n == 0 then s
    else Turn(Disturbed(Turns(s, n - 1, before, between), before(n - 1)), n - 1, between(n - 1))
  }

  lemma NoTurns(s: State, before: nat -> seq<Action>, between: nat -> seq<Action>)
    requires AtTurn(s, 0)
    ensures Turns(s, 0, before, between) == s
  {
  }

  lemma NextTurn(s: State, n: nat, before: nat -> seq<Action>, between: nat -> seq<Action>)
    requires AtTurn(s, 0) && n < |s.subs|
    ensures var s' := Disturbed(Turns(s, n, before, between), before(n));
      AtTurn(s', n) && n < |s'.subs| && Turns(s, n + 1, before, between) == Turn(s', n, between(n))
  {
  }

  /** A whole delivery. */
  function Delivery(s: State, e: Event, before: nat -> seq<Action>, between: nat -> seq<Action>): State
    requires s.next == None && Known(s)
  {
    Step(Turns(Step(s, Notify(e)), |s.subs|, before, between), EndDelivery)
  }

  /** A Go channel with its subscriber record, without the history. */
  datatype Pipe = Pipe(kinds: set<string>, done: bool, closed: bool, buffer: seq<Event>)

  function Real(c: Channel): Pipe {
    Pipe(c.kinds, c.ended.Some?, c.closed, c.buffer)
  }

  ghost predicate Shows(pipes: map<nat, Pipe>, channels: map<nat, Channel>) {
    && pipes.Keys == channels.Keys
    && forall ch :: ch in pipes ==> pipes[ch] == Real(channels[ch])
  }

  lemma ShowsAt(pipes: map<nat, Pipe>, channels: map<nat, Channel>, ch: nat)
    requires Shows(pipes, channels)
    ensures ch in pipes <==> ch in channels
    ensures ch in pipes ==> pipes[ch] == Real(channels[ch])
  {
  }

  lemma ShowsUpdate(pipes: map<nat, Pipe>, channels: map<nat, Channel>, ch: nat, c: Channel)
    requires Shows(pipes, channels)
    ensures Shows(pipes[ch := Real(c)], channels[ch := c])
  {
  }

  /** `made` numbers the channels; `world` and `path` are the state of the machine above and how
      it was reached. */
  class PgBus {
    var subs: seq<nat>
    var pipes: map<nat, Pipe>
    var made: nat
    ghost var world: State
    ghost var path: seq<Action>

    ghost predicate Valid()
      reads this
    {
      && world.subs == subs && Shows(pipes, world.channels)
      && (forall ch :: ch in pipes ==> ch < made)
      && Reaches(START, path, world)
    }

    constructor ()
      ensures Valid() && world == START
    {
      subs, pipes, made, world, path := [], map[], 0, START, [];
    }

    ghost method Record(a: Action)
      requires Reaches(START, path, world) && Enabled(world, a)
      modifies this`world, this`path
      ensures Reaches(START, path, world) && world == Step(old(world), a) && path == old(path) + [a]
    {
      Extend(START, path, world, a);
      world, path := Step(world, a), path + [a];
    }

    method Subscribe(kinds: set<string>) returns (ch: nat)
      requires Valid() && world.next == None
      modifies this
      ensures Valid() && ch !in old(pipes) && world == Step(old(world), Action.Subscribe(ch, kinds))
      ensures path == old(path) + [Action.Subscribe(ch, kinds)]
      ensures subs == old(subs) + [ch] && pipes == old(pipes)[ch := Pipe(kinds, false, false, [])]
    {
      hide Reaches;
      ch := made;
      made := made + 1;
      Record(Action.Subscribe(ch, kinds));
      pipes := pipes[ch := Pipe(kinds, false, false, [])];
      subs := subs + [ch];
    }

    /** Other goroutines, lock or not: contexts end and consumers receive. */
    method Others(attempts: seq<Action>)
      requires Valid()
      modifies this
      ensures Valid() && old(path) <= path && world == Disturbed(old(world), attempts)
    {
      hide Reaches, Shows, Step, Enabled;
      for i := 0 to |attempts|
        invariant Valid() && old(path) <= path && world == Disturbed(old(world), attempts[..i])
      {
        assert attempts[..i + 1][..i] == attempts[..i];
        Attempt(attempts[i]);
      }
      assert attempts[..|attempts|] == attempts;
    }

    method Attempt(a: Action)
      requires Valid()
      modifies this
      ensures Valid() && old(path) <= path
      ensures world == if Outside(old(world), a) then Step(old(world), a) else old(world)
    {
      hide Reaches, Shows;
      match a {
        case CancelContext(ch) =>
          ShowsAt(pipes, world.channels, ch);
          if ch in pipes {
            EndContext(ch);
          }
        case Receive(ch) =>
          ShowsAt(pipes, world.channels, ch);
          if ch in pipes && pipes[ch].buffer != [] {
            Take(ch);
          }
        case _ =>
      }
    }

    method EndContext(ch: nat)
      requires Valid() && ch in pipes
      modifies this
      ensures Valid() && Enabled(old(world), CancelContext(ch)) && world == Step(old(world), CancelContext(ch))
      ensures path == old(path) + [CancelContext(ch)]
      ensures pipes == old(pipes)[ch := old(pipes)[ch].(done := true)]
    {
      hide Reaches, Shows;
      ShowsAt(pipes, world.channels, ch);
      ShowsUpdate(pipes, world.channels, ch, Ended(world.channels[ch], InFlight(world, ch)));
      Record(CancelContext(ch));
      pipes := pipes[ch := pipes[ch].(done := true)];
    }

    method Take(ch: nat)
      requires Valid() && ch in pipes && pipes[ch].buffer != []
      modifies this
      ensures Valid() && Enabled(old(world), Receive(ch)) && world == Step(old(world), Receive(ch))
      ensures path == old(path) + [Receive(ch)]
      ensures pipes == old(pipes)[ch := old(pipes)[ch].(buffer := old(pipes)[ch].buffer[1..])]
    {
      hide Reaches, Shows;
      ShowsAt(pipes, world.channels, ch);
      var rest := pipes[ch].buffer[1..];
      ShowsUpdate(pipes, world.channels, ch, Step(world, Receive(ch)).channels[ch]);
      Record(Receive(ch));
      pipes := pipes[ch := pipes[ch].(buffer := rest)];
    }

    /** Delivery of one notification under the read lock. `before(i)` and `between(i)` are what
        other goroutines attempt before subscriber i's turn and within it. */
    method Deliver(e: Event, before: nat -> seq<Action>, between: nat -> seq<Action>)
      requires Valid() && world.next == None
      modifies this
      ensures Valid() && old(path) <= path && Known(old(world))
      ensures world == Delivery(old(world), e, before, between)
    {
      SubscribersKnown(path, world);
      hide Reaches, Shows, Turns;
      Record(Notify(e));
      OfferAll(e, before, between);
      Record(EndDelivery);
    }

    /** The delivery loop. */
    method OfferAll(e: Event, before: nat -> seq<Action>, between: nat -> seq<Action>)
      requires Valid() && AtTurn(world, 0) && world.log[|world.log| - 1] == e
      modifies this
      ensures Valid() && old(path) <= path && world == Turns(old(world), |old(world).subs|, before, between)
    {
      hide Reaches, Shows, Disturbed, Turn, Turns, Step, Known;
      NoTurns(world, before, between);
      for i := 0 to |subs|
        invariant Valid() && old(path) <= path && world.subs == old(world.subs)
        invariant world == Turns(old(world), i, before, between)
      {
        NextTurn(old(world), i, before, between);
        DisturbedAtTurn(world, i, before(i));
        Others(before(i));
        OfferOne(e, i, between(i));
      }
    }

    /** One turn of the delivery loop: the context check and, when it passes, the send. */
    method OfferOne(e: Event, i: nat, between: seq<Action>)
      requires Valid() && AtTurn(world, i) && i < |subs| && world.log[|world.log| - 1] == e
      modifies this
      ensures Valid() && old(path) <= path && world == Turn(old(world), i, between)
    {
      hide Reaches, Shows, Disturbed;
      var passed := CheckContext(i);
      if !passed {
        return;
      }
      Others(between);
      Send(e, i);
    }

    method CheckContext(i: nat) returns (passed: bool)
      requires Valid() && world.next == Some(i) && !world.passed && i < |subs| && world.log != []
      modifies this`world, this`path
      ensures Valid() && Enabled(old(world), Check) && world == Step(old(world), Check) && path == old(path) + [Check]
      ensures passed == world.passed && subs[i] in pipes && passed == !pipes[subs[i]].done
    {
      SubscriberOpen(path, world, i);
      hide Reaches, Shows;
      var ch := subs[i];
      ShowsAt(pipes, world.channels, ch);
      passed := !pipes[ch].done;
      ShowsUpdate(pipes, world.channels, ch, Skipped(world.channels[ch]));
      assert pipes[ch := pipes[ch]] == pipes;
      Record(Check);
    }

    /** A send that does not wait, to a channel that is open whatever its context. */
    method Send(e: Event, i: nat)
      requires Valid() && world.next == Some(i) && world.passed && i < |subs|
      requires world.log != [] && world.log[|world.log| - 1] == e
      modifies this`world, this`path, this`pipes
      ensures Valid() && Enabled(old(world), Offer) && world == Step(old(world), Offer) && path == old(path) + [Offer]
      ensures subs[i] in old(pipes) && var c := old(pipes)[subs[i]];
        && !c.closed
        && pipes ==
           if (|c.kinds| == 0 || e.kind in c.kinds) && |c.buffer| < 100 then
             old(pipes)[subs[i] := c.(buffer := c.buffer + [e])]
           else old(pipes)
    {
      SubscriberOpen(path, world, i);
      hide Reaches, Shows;
      var ch := subs[i];
      ShowsAt(pipes, world.channels, ch);
      ShowsUpdate(pipes, world.channels, ch, Offered(world.channels[ch], e));
      Record(Offer);
      var c := pipes[ch];
      assert pipes[ch := c] == pipes;
      if c.kinds == {} || e.kind in c.kinds {
        if |c.buffer| < CAPACITY {
          assert !c.closed;
          pipes := pipes[ch := c.(buffer := c.buffer + [e])];
        }
      }
    }

    /** Finds the channel, shifts it out of the slice and closes it, once. */
    method RemoveSub(ch: nat)
      requires Valid() && world.next == None && ch in pipes && pipes[ch].done
      modifies this
      ensures Valid() && world == Step(old(world), Action.RemoveSub(ch)) && path == old(path) + [Action.RemoveSub(ch)]
      ensures ch !in subs && (ch !in old(subs) ==> subs == old(subs) && pipes == old(pipes))
      ensures forall i :: 0 <= i < |old(subs)| && old(subs)[i] == ch ==>
        && subs == old(subs)[..i] + old(subs)[i + 1..] && !old(pipes)[ch].closed
        && pipes == old(pipes)[ch := old(pipes)[ch].(closed := true)]
    {
      hide Reaches, Shows, WithoutFirst;
      for i := 0 to |subs|
        invariant Valid() && world == old(world) && path == old(path) && subs == old(subs) && pipes == old(pipes)
        invariant ch !in subs[..i]
      {
        if subs[i] == ch {
          CloseAt(ch, i);
          return;
        }
      }
      ShowsAt(pipes, world.channels, ch);
      Record(Action.RemoveSub(ch));
    }

    method CloseAt(ch: nat, i: nat)
      requires Valid() && world.next == None && ch in pipes && pipes[ch].done && i < |subs| && subs[i] == ch
      modifies this
      ensures Valid() && world == Step(old(world), Action.RemoveSub(ch)) && path == old(path) + [Action.RemoveSub(ch)]
      ensures Distinct(old(subs)) && !old(pipes)[ch].closed && subs == old(subs)[..i] + old(subs)[i + 1..]
      ensures pipes == old(pipes)[ch := old(pipes)[ch].(closed := true)]
    {
      NeverPanics(path, world);
      hide Reaches, Shows, WithoutFirst;
      ShowsAt(pipes, world.channels, ch);
      ShowsUpdate(pipes, world.channels, ch, world.channels[ch].(closed := true));
      WithoutFirstAt(subs, ch, i);
      Record(Action.RemoveSub(ch));
      subs := subs[..i] + subs[i + 1..];
      pipes := pipes[ch := pipes[ch].(closed := true)];
    }
  }

  lemma SubscribersKnown(path: seq<Action>, s: State)
    requires Reaches(START, path, s)
    ensures Known(s)
  {
    NeverPanics(path, s);
  }

  lemma SubscriberOpen(path: seq<Action>, s: State, i: nat)
    requires Reaches(START, path, s) && i < |s.subs|
    ensures s.subs[i] in s.channels && !s.channels[s.subs[i]].closed
  {
    NeverPanics(path, s);
  }
}
