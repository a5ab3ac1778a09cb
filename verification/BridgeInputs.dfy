/**
 What the loop makes of what it hears, told from the actions it takes and not from
 what it has logged: which callbacks it acts on, which addresses and which client id
 it holds, what a notification does, and what alone can stop it.
*/
module BridgeInputs {
  import opened BridgeFrames
  import opened BridgeLog
  import opened BridgeLoop
  import opened BridgeSafety
  import opened Bytes
  import opened Wrappers
  import Messages
  import Seqs
  import UhidCodec

  /** What f says of the actions that find the loop running, in the order they come. */
  function Collect<T>(f: (State, Action) -> seq<T>, s: State, actions: seq<Action>): seq<T>
    decreases |actions|
  {
    if actions == [] then []
    else (if s.stopped then [] else f(s, actions[0])) + Collect(f, Act(s, actions[0]), actions[1..])
  }

  /** What each action adds to a view of the state, the run adds in order. */
  lemma {:induction false} CollectRun<T>(
    view: State -> seq<T>, f: (State, Action) -> seq<T>, s: State, actions: seq<Action>)
    requires forall t: State, a: Action | !t.stopped :: view(Act(t, a)) == view(t) + f(t, a)
    ensures view(Perform(s, actions)) == view(s) + Collect(f, s, actions)
    decreases |actions|
  {
    if actions == [] {
      assert view(s) + [] == view(s);
    } else {
      var t := Act(s, actions[0]);
      var first := if s.stopped then [] else f(s, actions[0]);
      CollectRun(view, f, t, actions[1..]);
      assert view(t) == view(s) + first;
      Seqs.Assoc(view(s), first, Collect(f, t, actions[1..]));
    }
  }

  // ----- Callbacks -----

  /** The callback a line reports, if its address is known then. */
  function Heard(s: State, a: Action): Log {
    if a.Connection? && Messages.Upper(a.c.peer) in s.addresses
    then [Callback(Messages.Upper(a.c.peer), a.c.connected && a.c.status == 0)] else []
  }

  function Callbacks(log: Log): Log {
    if log == [] then []
    else if Last(log).Callback? then Callbacks(Front(log)) + [Last(log)]
    else Callbacks(Front(log))
  }

  lemma {:induction false} CallbacksKept(log: Log, more: Log)
    requires log <= more && forall k | |log| <= k < |more| :: !more[k].Callback?
    ensures Callbacks(more) == Callbacks(log)
    decreases |more|
  {
    if |more| == |log| {
      assert more == log;
    } else {
      CallbacksKept(log, Front(more));
    }
  }

  lemma HeardStep(s: State, a: Action)
    requires !s.stopped
    ensures Callbacks(Act(s, a).log) == Callbacks(s.log) + Heard(s, a)
  {
    if a.Connection? {
      var peer, up := Messages.Upper(a.c.peer), a.c.connected && a.c.status == 0;
      CallbackShape(s, peer, up);
      Snoc(s.log, Callback(peer, up));
    } else {
      ActFrame(s, a);
      CallbacksKept(s.log, Act(s, a).log);
    }
    assert Callbacks(s.log) + [] == Callbacks(s.log);
  }

  lemma {:induction false} CallbacksFrom(s: State, actions: seq<Action>)
    ensures Callbacks(Perform(s, actions).log) == Callbacks(s.log) + Collect(Heard, s, actions)
  {
    var view := (t: State) => Callbacks(t.log);
    forall t: State, a: Action | !t.stopped
      ensures view(Act(t, a)) == view(t) + Heard(t, a)
    {
      HeardStep(t, a);
    }
    CollectRun(view, Heard, s, actions);
  }

  lemma {:induction false} NoneHeardFirst(argument: Option<string>, direct: bool)
    ensures Callbacks(Initial(argument, direct).log) == []
  {
    FirstLog(argument, direct);
    assert Front(Initial(argument, direct).log) == [];
  }

  /** On every run, the loop acts on exactly the callbacks it hears for addresses it knows, in order. */
  lemma {:induction false} CallbacksHeard(argument: Option<string>, direct: bool, actions: seq<Action>)
    ensures var s := Initial(argument, direct);
            Callbacks(Perform(s, actions).log) == Collect(Heard, s, actions)
  {
    var s := Initial(argument, direct);
    CallbacksFrom(s, actions);
    NoneHeardFirst(argument, direct);
    assert [] + Collect(Heard, s, actions) == Collect(Heard, s, actions);
  }

  lemma {:induction false} LinkOfCallbacks(log: Log)
    ensures LinkPeer(Callbacks(log)) == LinkPeer(log)
  {
    if log == [] {
    } else {
      LinkOfCallbacks(Front(log));
      if Last(log).Callback? {
        Snoc(Callbacks(Front(log)), Last(log));
      }
    }
  }

  /**
   On every run the loop is connected exactly when, of the callbacks it heard, the
   latest success came from the current address, which has not failed since.
  */
  lemma {:induction false} ConnectedMeans(argument: Option<string>, direct: bool, actions: seq<Action>)
    ensures var s := Perform(Initial(argument, direct), actions);
            var heard := Collect(Heard, Initial(argument, direct), actions);
            s.connected <==>
              exists peer, i | 0 <= i < |heard| ::
                heard[i] == Callback(peer, true) && s.address == Some(peer)
                && forall j | i < j < |heard| :: !(heard[j].Callback? && (heard[j].up || heard[j].peer == peer))
  {
    var s := Perform(Initial(argument, direct), actions);
    TrackingReached(argument, direct, actions);
    CallbacksHeard(argument, direct, actions);
    LinkOfCallbacks(s.log);
    OnlyCallbacks(s.log);
    if s.address.Some? {
      LinkPeerMeans(Callbacks(s.log), s.address.value);
    }
  }

  lemma {:induction false} OnlyCallbacks(log: Log)
    ensures forall k | 0 <= k < |Callbacks(log)| :: Callbacks(log)[k].Callback?
  {
    if log == [] {
    } else {
      OnlyCallbacks(Front(log));
    }
  }

  /**
   One callback, at any moment of any run that has not stopped. Of an unknown address
   it changes nothing. A success connects the loop to that address, with both flags
   down. A failure of the current address disconnects it and moves on to the next of
   the list; a failure of another is only heard.
  */
  lemma {:induction false} CallbackMeans(
    argument: Option<string>, direct: bool, actions: seq<Action>, c: Messages.Connection)
    requires !Perform(Initial(argument, direct), actions).stopped
    ensures var s := Perform(Initial(argument, direct), actions);
            var t := Perform(Initial(argument, direct), actions + [Connection(c)]);
            var peer, up := Messages.Upper(c.peer), c.connected && c.status == 0;
            && (peer !in s.addresses ==> t == s)
            && (peer in s.addresses && up ==>
                  && t.connected && t.address == Some(peer) && t.addressIndex < |t.addresses|
                  && t.addresses == s.addresses && t.addresses[t.addressIndex] == peer
                  && !t.notificationSetup && !t.modeSet && !t.stopped && t.queue == s.queue)
            && (peer in s.addresses && !up && s.address == Some(peer) ==>
                  && !t.connected && t.addresses == s.addresses && !t.stopped && t.queue == s.queue
                  && t.addressIndex == (s.addressIndex + 1) % |s.addresses|
                  && t.address == Some(s.addresses[t.addressIndex]))
            && (peer in s.addresses && !up && s.address != Some(peer) ==>
                  t == s.(log := s.log + [Callback(peer, false)]))
  {
    var s := Perform(Initial(argument, direct), actions);
    PerformConcat(Initial(argument, direct), actions, [Connection(c)]);
    PerformOne(s, Connection(c));
  }

  // ----- Addresses -----

  function Devices(s: State, a: Action): seq<string> {
    if a.Found? then [Messages.Upper(a.device)] else []
  }

  /** xs, and behind it what of ys is new, each once. */
  function Extend(xs: seq<string>, ys: seq<string>): seq<string>
    decreases |ys|
  {
    if ys == [] then xs else Extend(if ys[0] in xs then xs else xs + [ys[0]], ys[1..])
  }

  lemma {:induction false} ExtendHolds(xs: seq<string>, ys: seq<string>, x: string)
    ensures x in Extend(xs, ys) <==> x in xs || x in ys
    ensures xs <= Extend(xs, ys)
    decreases |ys|
  {
    if ys == [] {
    } else {
      ExtendHolds(if ys[0] in xs then xs else xs + [ys[0]], ys[1..], x);
    }
  }

  lemma AddressesStep(s: State, a: Action)
    ensures Act(s, a).addresses == if s.stopped then s.addresses else Extend(s.addresses, Devices(s, a))
  {
    if a.Found? {
      var x := Messages.Upper(a.device);
      assert [x][1..] == [];
      assert Extend(s.addresses, [x]) == Extend(if x in s.addresses then s.addresses else s.addresses + [x], []);
    } else {
      ActFrame(s, a);
    }
  }

  lemma {:induction false} ExtendConcat(xs: seq<string>, ys: seq<string>, zs: seq<string>)
    ensures Extend(Extend(xs, ys), zs) == Extend(xs, ys + zs)
    decreases |ys|
  {
    if ys == [] {
      assert ys + zs == zs;
    } else {
      ExtendConcat(if ys[0] in xs then xs else xs + [ys[0]], ys[1..], zs);
      Seqs.TailConcat(ys, zs);
    }
  }

  /** From any state, the list grows by exactly the devices found while the loop runs, in the order they are found. */
  lemma {:induction false} AddressesFound(s: State, actions: seq<Action>)
    ensures Perform(s, actions).addresses == Extend(s.addresses, Collect(Devices, s, actions))
    decreases |actions|
  {
    if actions == [] {
    } else {
      var t := Act(s, actions[0]);
      var first := if s.stopped then [] else Devices(s, actions[0]);
      AddressesStep(s, actions[0]);
      AddressesFound(t, actions[1..]);
      ExtendConcat(s.addresses, first, Collect(Devices, t, actions[1..]));
    }
  }

  /** On every run, an address is known if and only if it was given or found. */
  lemma {:induction false} AddressesMean(argument: Option<string>, direct: bool, actions: seq<Action>, x: string)
    ensures var s := Initial(argument, direct);
            x in Perform(s, actions).addresses <==>
              (argument.Some? && argument.value != "" && x == Messages.Upper(argument.value))
              || x in Collect(Devices, s, actions)
  {
    var s := Initial(argument, direct);
    AddressesFound(s, actions);
    ExtendHolds(s.addresses, Collect(Devices, s, actions), x);
  }

  // ----- The client id -----

  function Registrations(s: State, a: Action): seq<int> {
    if a.Registered? && a.r.status == 0 then [a.r.clientId] else []
  }

  /** The loop holds the id of the first registration it hears of, for good. */
  lemma {:induction false} RegisteredFirst(s: State, actions: seq<Action>)
    ensures var t := Perform(s, actions);
            var ids := Collect(Registrations, s, actions);
            && (t.registered <==> s.registered || ids != [])
            && t.clientId == if s.registered || ids == [] then s.clientId else Some(ids[0])
    decreases |actions|
  {
    if actions == [] {
    } else {
      RegisteredStep(s, actions[0]);
      RegisteredFirst(Act(s, actions[0]), actions[1..]);
    }
  }

  lemma RegistrationTaken(s: State, r: Messages.Registration, publishOk: bool, clock: real)
    ensures var t := OnRegistered(s, r, publishOk, clock);
            && (t.registered <==> s.registered || r.status == 0)
            && t.clientId == if s.registered || r.status != 0 then s.clientId else Some(r.clientId)
  {
    var t := Announce(s, r.clientId, publishOk);
    QueueAllState(t, Configuration(s.direct));
    if r.status == 0 && !s.registered && !t.stopped {
      assert OnRegistered(s, r, publishOk, clock) == FirstConnect(QueueAll(t, Configuration(s.direct)), clock);
    }
  }

  lemma RegisteredStep(s: State, a: Action)
    ensures var t := Act(s, a);
            var ids := if s.stopped then [] else Registrations(s, a);
            && (t.registered <==> s.registered || ids != [])
            && t.clientId == if s.registered || ids == [] then s.clientId else Some(ids[0])
  {
    if a.Registered? {
      RegistrationTaken(s, a.r, a.publishOk, a.clock);
    } else {
      ActFrame(s, a);
    }
  }

  /** On every run, registered says whether a registration was heard of, and the client id is that of the first. */
  lemma {:induction false} RegisteredMeans(argument: Option<string>, direct: bool, actions: seq<Action>)
    ensures var s := Perform(Initial(argument, direct), actions);
            var ids := Collect(Registrations, Initial(argument, direct), actions);
            && (s.registered <==> ids != []) && s.clientId == if ids == [] then None else Some(ids[0])
  {
    RegisteredFirst(Initial(argument, direct), actions);
  }

  // ----- What stops the loop -----

  /** The value a notification brings to the loop: from the current address, of an input handle, well formed. */
  function Accepted(s: State, n: Messages.Notification): Option<seq<byte>> {
    if s.address == Some(Messages.Upper(n.peer)) && n.handle in INPUT_HANDLES then Messages.ParseValue(n.raw) else None
  }

  /** The exceptions, and the exit of btclient. */
  predicate Raises(s: State, a: Action) {
    match a
    case Registered(r, publishOk, _) => r.status != 0 || (!s.registered && !s.direct && !publishOk)
    case Notified(n, uhidOk) => Accepted(s, n).Some? && (|Accepted(s, n).value| > 65534 || !uhidOk)
    case WriteMode(_, modeOk) => s.connected && s.notificationSetup && s.queue == [] && !s.modeSet && !modeOk
    case Send(now, sendOk) => s.queue != [] && now >= s.nextCommandAt && !sendOk
    case Poll(exited) => exited
    case _ => false
  }

  lemma NotifiedStops(s: State, n: Messages.Notification, uhidOk: bool)
    requires !s.stopped
    ensures OnNotified(s, n, uhidOk).stopped <==> Raises(s, Notified(n, uhidOk))
  {
    if Accepted(s, n).Some? {
      var value := Accepted(s, n).value;
      var e := UhidCodec.SendInput(UhidCodec.InputReport(INPUT_HANDLES[n.handle], value));
      assert e.Some? <==> |value| < 0xFFFF;
    }
  }

  lemma RegisteredStops(s: State, r: Messages.Registration, publishOk: bool, clock: real)
    requires !s.stopped
    ensures OnRegistered(s, r, publishOk, clock).stopped <==> Raises(s, Registered(r, publishOk, clock))
  {
    QueueAllState(Announce(s, r.clientId, publishOk), Configuration(s.direct));
  }

  /**
   A running loop is stopped by a failed registration or publication, by a report too
   long for its 16-bit length or that cannot be written, by a mode write or a send that
   fails, and by the exit of btclient; by nothing else.
  */
  lemma StopsExactly(s: State, a: Action)
    requires !s.stopped
    ensures Act(s, a).stopped <==> Raises(s, a)
  {
    match a
    case Registered(r, publishOk, clock) => RegisteredStops(s, r, publishOk, clock);
    case Notified(n, uhidOk) => NotifiedStops(s, n, uhidOk);
    case _ => ActFrame(s, a);
  }

  // ----- What a notification does -----

  /** The length of an accepted value is warned about, once, if it is not the expected one. */
  function Warnings(s: State, n: Messages.Notification): set<(nat, nat)> {
    if Accepted(s, n).Some? && |Accepted(s, n).value| != EXPECTED_LENGTHS[n.handle]
    then {(n.handle, |Accepted(s, n).value|)} else {}
  }

  /** An accepted value goes where Forward takes it, after the warning. */
  lemma AcceptedForward(s: State, n: Messages.Notification, uhidOk: bool)
    ensures Accepted(s, n).None? ==> OnNotified(s, n, uhidOk) == s
    ensures Accepted(s, n).Some? ==>
              OnNotified(s, n, uhidOk) ==
              Forward(s.(warned := s.warned + Warnings(s, n)), n.handle, Accepted(s, n).value, uhidOk)
  {
    if Accepted(s, n).Some? {
      var length := |Accepted(s, n).value|;
      assert Warn(s, n.handle, length) == s.(warned := s.warned + Warnings(s, n)) by {
        assert s.warned + {} == s.warned;
      }
    }
  }

  /** The one event written for a value: its report id, and as much of it as the field holds. */
  predicate WritesValue(e: Event, handle: nat, value: seq<byte>)
    requires handle in INPUT_HANDLES
  {
    && e.Report?
    && UhidCodec.DecodeInput2(e.bytes) ==
       Some(UhidCodec.InputReport(
              INPUT_HANDLES[handle], value[..UhidCodec.Min(|value|, UhidCodec.UHID_DATA_MAX - 1)]))
  }

  lemma ForwardMeans(s: State, handle: nat, value: seq<byte>, uhidOk: bool)
    requires handle in INPUT_HANDLES
    ensures var t := Forward(s, handle, value, uhidOk);
            if |value| > 65534 || !uhidOk then t == Stop(s)
            else
              && t.log != [] && t.log == s.log + [Last(t.log)] && WritesValue(Last(t.log), handle, value)
              && t == s.(log := t.log, stats := Counted(s.stats, handle))
  {
    var r := UhidCodec.InputReport(INPUT_HANDLES[handle], value);
    if |value| < 0xFFFF {
      UhidCodec.SendInputDecodes(r);
      Snoc(s.log, Report(UhidCodec.SendInput(r).value));
    }
  }

  /**
   One notification. One that brings no value leaves everything as it was. Any other is
   written as one input event under its report id, whatever its length, unless that
   fails; the length decides only the warning.
  */
  lemma NotificationMeans(s: State, n: Messages.Notification, uhidOk: bool)
    requires !s.stopped
    ensures var t := Act(s, Notified(n, uhidOk));
            && t.warned == s.warned + Warnings(s, n)
            && (Accepted(s, n).None? ==> t == s)
            && (Accepted(s, n).Some? && (|Accepted(s, n).value| > 65534 || !uhidOk) ==>
                  t == s.(stopped := true, warned := t.warned))
            && (Accepted(s, n).Some? && |Accepted(s, n).value| <= 65534 && uhidOk ==>
                  && t.log != [] && t.log == s.log + [Last(t.log)]
                  && WritesValue(Last(t.log), n.handle, Accepted(s, n).value)
                  && t == s.(log := t.log, stats := Counted(s.stats, n.handle), warned := t.warned))
  {
    AcceptedForward(s, n, uhidOk);
    if Accepted(s, n).Some? {
      ForwardMeans(s.(warned := s.warned + Warnings(s, n)), n.handle, Accepted(s, n).value, uhidOk);
    } else {
      assert s.warned + {} == s.warned;
    }
  }
}
