/** What a log of the bridge's loop says, read from its end. */
module BridgeLog {
  import opened BridgeLoop
  import opened Bytes
  import opened Wrappers
  import Messages
  import Seqs

  type Log = seq<Event>

  function Front(log: Log): Log
    requires log != []
  {
    log[..|log| - 1]
  }

  function Last(log: Log): Event
    requires log != []
  {
    log[|log| - 1]
  }

  /** Every command ever queued, in order. */
  function QueuedCommands(log: Log): seq<Command> {
    if log == [] then []
    else if Last(log).Queued? then QueuedCommands(Front(log)) + [Last(log).command]
    else QueuedCommands(Front(log))
  }

  /** Every command ever sent, in order. */
  function SentCommands(log: Log): seq<Command> {
    if log == [] then []
    else if Last(log).Sent? then SentCommands(Front(log)) + [Last(log).command]
    else SentCommands(Front(log))
  }

  function SentTimes(log: Log): seq<real> {
    if log == [] then []
    else if Last(log).Sent? then SentTimes(Front(log)) + [Last(log).at]
    else SentTimes(Front(log))
  }

  function RetryTimes(log: Log): seq<real> {
    if log == [] then []
    else if Last(log).Retried? then RetryTimes(Front(log)) + [Last(log).at]
    else RetryTimes(Front(log))
  }

  function Reports(log: Log): seq<seq<byte>> {
    if log == [] then []
    else if Last(log).Report? then Reports(Front(log)) + [Last(log).bytes]
    else Reports(Front(log))
  }

  /** The peer of the latest successful connection callback. */
  function LastPeer(log: Log): Option<string> {
    if log == [] then None
    else if Last(log).Callback? && Last(log).up then Some(Last(log).peer)
    else LastPeer(Front(log))
  }

  /** That peer, unless a failing callback for it came later. */
  function LinkPeer(log: Log): Option<string> {
    if log == [] then None
    else if Last(log).Callback? && Last(log).up then Some(Last(log).peer)
    else if Last(log).Callback? && LinkPeer(Front(log)) == Some(Last(log).peer) then None
    else LinkPeer(Front(log))
  }

  /** The notification registrations queued since the latest successful callback. */
  function Registrations(log: Log): seq<Command> {
    if log == [] then []
    else if Last(log).Callback? && Last(log).up then []
    else if Last(log).Queued? && Last(log).command.RegisterNotification? then
      Registrations(Front(log)) + [Last(log).command]
    else Registrations(Front(log))
  }

  /** The number of Input Mode writes since the latest successful callback. */
  function ModeWrites(log: Log): nat {
    if log == [] then 0
    else if Last(log).Callback? && Last(log).up then 0
    else (if Last(log).ModeWrite? then 1 else 0) + ModeWrites(Front(log))
  }

  /** How one more event changes each of these. */
  lemma Snoc(log: Log, e: Event)
    ensures Front(log + [e]) == log && Last(log + [e]) == e
  {
  }

  /** The log in which a run starts: one queued command that registers no notification. */
  lemma FirstEvent(c: Command)
    requires !c.RegisterNotification?
    ensures var log := [Queued(c)];
            && QueuedCommands(log) == [c] && SentCommands(log) == [] && Registrations(log) == []
            && SentTimes(log) == [] && RetryTimes(log) == [] && Reports(log) == []
            && LastPeer(log) == LinkPeer(log) == None && ModeWrites(log) == 0
  {
    assert Front([Queued(c)]) == [];
  }

  lemma {:induction false} FirstLog(argument: Option<string>, direct: bool)
    ensures var s := Initial(argument, direct);
            |s.queue| == 1 && s.log == [Queued(s.queue[0])]
            && (s.queue[0] == RegisterClient || s.queue[0] == ListBonded)
  {
  }

  function OnlyRegistrations(cs: seq<Command>): seq<Command> {
    if cs == [] then []
    else (if cs[0].RegisterNotification? then [cs[0]] else []) + OnlyRegistrations(cs[1..])
  }

  /** The log of queueing several commands at once. */
  function QueuedEvents(cs: seq<Command>): Log {
    seq(|cs|, i requires 0 <= i < |cs| => Queued(cs[i]))
  }

  lemma {:induction false} QueueAllState(s: State, cs: seq<Command>)
    ensures QueueAll(s, cs) == s.(queue := s.queue + cs, log := s.log + QueuedEvents(cs))
    decreases |cs|
  {
    if cs != [] {
      var t := Queue(s, cs[0]);
      QueueAllState(t, cs[1..]);
      Seqs.Uncons(cs);
      Seqs.Assoc(s.queue, [cs[0]], cs[1..]);
      Seqs.Assoc(s.log, [Queued(cs[0])], QueuedEvents(cs[1..]));
      assert [Queued(cs[0])] + QueuedEvents(cs[1..]) == QueuedEvents(cs);
    } else {
      assert s.queue + cs == s.queue;
      assert s.log + QueuedEvents(cs) == s.log;
    }
  }

  lemma {:induction false} QueueAllCommands(log: Log, cs: seq<Command>)
    ensures QueuedCommands(log + QueuedEvents(cs)) == QueuedCommands(log) + cs
    ensures SentCommands(log + QueuedEvents(cs)) == SentCommands(log)
    decreases |cs|
  {
    QueueAllCut(log, cs);
    if cs == [] {
    } else {
      QueueAllCommands(log, cs[..|cs| - 1]);
    }
  }

  lemma QueueAllCut(log: Log, cs: seq<Command>)
    ensures cs == [] ==> log + QueuedEvents(cs) == log
    ensures cs != [] ==>
              var more := log + QueuedEvents(cs);
              && Front(more) == log + QueuedEvents(cs[..|cs| - 1])
              && Last(more) == Queued(cs[|cs| - 1])
              && cs == cs[..|cs| - 1] + [cs[|cs| - 1]]
  {
  }

  lemma {:induction false} QueueAllKeeps(log: Log, cs: seq<Command>)
    ensures var more := log + QueuedEvents(cs);
            && SentTimes(more) == SentTimes(log) && RetryTimes(more) == RetryTimes(log)
            && Reports(more) == Reports(log) && ModeWrites(more) == ModeWrites(log)
            && LastPeer(more) == LastPeer(log) && LinkPeer(more) == LinkPeer(log)
    decreases |cs|
  {
    QueueAllCut(log, cs);
    if cs == [] {
    } else {
      QueueAllKeeps(log, cs[..|cs| - 1]);
    }
  }

  lemma {:induction false} OnlyRegistrationsSnoc(cs: seq<Command>, c: Command)
    ensures OnlyRegistrations(cs + [c]) == OnlyRegistrations(cs) + if c.RegisterNotification? then [c] else []
  {
    if cs == [] {
      assert [] + [c] == [c];
      assert OnlyRegistrations([c][1..]) == [];
    } else {
      var first := if cs[0].RegisterNotification? then [cs[0]] else [];
      var last := if c.RegisterNotification? then [c] else [];
      OnlyRegistrationsSnoc(cs[1..], c);
      Seqs.TailConcat(cs, [c]);
      assert OnlyRegistrations(cs + [c]) == first + (OnlyRegistrations(cs[1..]) + last);
      Seqs.Assoc(first, OnlyRegistrations(cs[1..]), last);
    }
  }

  lemma {:induction false} QueueAllRegistrations(log: Log, cs: seq<Command>)
    ensures Registrations(log + QueuedEvents(cs)) == Registrations(log) + OnlyRegistrations(cs)
    decreases |cs|
  {
    QueueAllCut(log, cs);
    if cs == [] {
    } else {
      QueueAllRegistrations(log, cs[..|cs| - 1]);
      OnlyRegistrationsSnoc(cs[..|cs| - 1], cs[|cs| - 1]);
    }
  }

  lemma BatchRegistrations(peer: string)
    ensures OnlyRegistrations(Batch(peer)) == Batch(peer)
  {
    var b := Batch(peer);
    assert b[1..] == [b[1], b[2], b[3], b[4]];
    assert b[2..] == [b[2], b[3], b[4]];
    assert b[3..] == [b[3], b[4]];
    assert b[4..] == [b[4]];
    assert b[1..][1..] == b[2..] && b[2..][1..] == b[3..] && b[3..][1..] == b[4..] && b[4..][1..] == [];
    assert OnlyRegistrations(b[4..]) == b[4..];
    assert OnlyRegistrations(b[3..]) == b[3..];
    assert OnlyRegistrations(b[2..]) == b[2..];
    assert OnlyRegistrations(b[1..]) == b[1..];
  }

  /** A log that grew by one written report, or not at all. */
  predicate OneReport(log: Log, more: Log) {
    more == log || (more != [] && Last(more).Report? && more == log + [Last(more)])
  }

  lemma ForwardShape(s: State, handle: nat, value: seq<byte>, uhidOk: bool)
    requires handle in INPUT_HANDLES
    ensures var t := Forward(s, handle, value, uhidOk);
            t == s.(stopped := t.stopped, stats := t.stats, log := t.log) && OneReport(s.log, t.log)
  {
  }

  lemma ValueShape(s: State, handle: nat, parsed: Option<seq<byte>>, uhidOk: bool)
    requires handle in INPUT_HANDLES
    ensures var t := OnValue(s, handle, parsed, uhidOk);
            && t == s.(stopped := t.stopped, stats := t.stats, warned := t.warned, log := t.log)
            && OneReport(s.log, t.log)
  {
    if parsed.Some? {
      WarnShape(s, handle, |parsed.value|);
      ForwardShape(Warn(s, handle, |parsed.value|), handle, parsed.value, uhidOk);
    }
  }

  lemma WarnShape(s: State, handle: nat, length: nat)
    requires handle in INPUT_HANDLES
    ensures var t := Warn(s, handle, length); t == s.(warned := t.warned)
  {
  }

  /** A notification changes nothing but the counters, and logs at most one report. */
  lemma NotifiedShape(s: State, n: Messages.Notification, uhidOk: bool)
    ensures var t := OnNotified(s, n, uhidOk);
            && t == s.(stopped := t.stopped, stats := t.stats, warned := t.warned, log := t.log)
            && OneReport(s.log, t.log)
  {
    if s.address == Some(Messages.Upper(n.peer)) && n.handle in INPUT_HANDLES {
      ValueShape(s, n.handle, Messages.ParseValue(n.raw), uhidOk);
    }
  }

  /** A found device adds at most an address and a command. */
  lemma CandidateShape(s: State, candidate: string)
    ensures var t := OnCandidate(s, candidate);
            && t == s.(addresses := t.addresses, address := t.address, queue := t.queue, log := t.log)
            && (s.address.Some? ==> t.queue == s.queue && t.log == s.log)
            && (s.address.None? ==>
                  t.queue == s.queue + [RegisterClient] && t.log == s.log + [Queued(RegisterClient)])
  {
    if candidate in s.addresses {
    } else {
    }
  }

  /** Once there is an address, a found device adds at most another. */
  lemma KnownCandidateShape(s: State, candidate: string)
    requires s.address.Some?
    ensures var t := OnCandidate(s, candidate);
            t == s.(addresses := t.addresses)
  {
    if candidate in s.addresses {
    } else {
    }
  }

  /** A callback changes where the loop thinks it is connected, and is logged if its peer is known. */
  lemma CallbackShape(s: State, peer: string, up: bool)
    ensures var t := OnCallback(s, peer, up);
            && t == s.(address := t.address, addressIndex := t.addressIndex, connected := t.connected,
                       notificationSetup := t.notificationSetup, modeSet := t.modeSet, log := t.log)
            && t.log == if peer in s.addresses then s.log + [Callback(peer, up)] else s.log
  {
    if peer in s.addresses && !up {
      if s.address == Some(peer) {
      } else {
      }
    }
  }
}
