/** Event streaming end to end: an append-only log read in batches, a handler that interleaves heartbeats,
    and the client at the other end. */
module Stream {
  import opened Sse

  const READ_COUNT := 100

  predicate IsTerminal(kind: string) {
    kind == "completed" || kind == "failed"
  }

  /** The kinds the handler forwards; it drops any other. */
  predicate IsForwarded(kind: string) {
    kind == "chunk" || kind == "retrying" || IsTerminal(kind)
  }

  /** The log up to and including its first terminal event. */
  function ThroughTerminal(log: seq<Message>): seq<Message> {
    if log == [] then []
    else if IsTerminal(log[0].kind) then [log[0]]
    else [log[0]] + ThroughTerminal(log[1..])
  }

  /** What a client is meant to see of a log. */
  function View(log: seq<Message>): seq<Message> {
    if log == [] then []
    else if IsTerminal(log[0].kind) then [log[0]]
    else (if IsForwarded(log[0].kind) then [log[0]] else []) + View(log[1..])
  }

  predicate NoTerminal(log: seq<Message>) {
    forall i | 0 <= i < |log| :: !IsTerminal(log[i].kind)
  }

  /** Every event is of a kind the service publishes. */
  predicate Published(log: seq<Message>) {
    forall i | 0 <= i < |log| :: log[i].kind in {"chunk", "retrying", "completed", "failed"}
  }

  /** Of a log the service published, the client is meant to see everything up to and including the first terminal
      event, and nothing after it. */
  lemma {:induction false} ViewOfPublished(log: seq<Message>)
    requires Published(log)
    ensures View(log) == ThroughTerminal(log)
  {
    if log != [] {
      assert forall i | 0 <= i < |log| - 1 :: log[1..][i] == log[i + 1];
      ViewOfPublished(log[1..]);
    }
  }

  /** The first `n` events are those through the first completed or failed one, or all if there is none. */
  predicate EndsAtTerminal(log: seq<Message>, n: nat) {
    && n <= |log|
    && (forall i | 0 <= i < n - 1 :: log[i].kind !in {"completed", "failed"})
    && (if n < |log| then n > 0 && log[n - 1].kind in {"completed", "failed"}
        else n == |log|)
  }

  lemma {:induction false} ThroughTerminalEnds(log: seq<Message>)
    ensures ThroughTerminal(log) <= log && EndsAtTerminal(log, |ThroughTerminal(log)|)
  {
    if log != [] && !IsTerminal(log[0].kind) {
      ThroughTerminalEnds(log[1..]);
      assert ThroughTerminal(log) <= log;
      forall i | 0 < i < |ThroughTerminal(log)| - 1 ensures log[i].kind !in {"completed", "failed"} {
        assert log[i] == log[1..][i - 1];
      }
    }
  }

  lemma {:induction false} ThroughTerminalAppend(log: seq<Message>, m: Message)
    requires NoTerminal(log)
    ensures ThroughTerminal(log) == log && ThroughTerminal(log + [m]) == log + [m]
  {
    if log != [] {
      assert (log + [m])[1..] == log[1..] + [m];
      ThroughTerminalAppend(log[1..], m);
    }
  }

  lemma NoTerminalTail(log: seq<Message>)
    requires log != []
    ensures NoTerminal(log) <==> !IsTerminal(log[0].kind) && NoTerminal(log[1..])
  {
    assert forall i | 0 < i < |log| :: log[i] == log[1..][i - 1];
    if NoTerminal(log) {
      assert forall i | 0 <= i < |log[1..]| :: log[1..][i] == log[i + 1];
    }
  }

  lemma {:induction false} ViewAppend(log: seq<Message>, more: seq<Message>)
    ensures NoTerminal(log) ==> View(log + more) == View(log) + View(more)
    ensures !NoTerminal(log) ==> View(log + more) == View(log)
  {
    if log == [] {
      assert log + more == more;
    } else {
      var first := if IsForwarded(log[0].kind) then [log[0]] else [];
      assert (log + more)[1..] == log[1..] + more;
      ViewAppend(log[1..], more);
      NoTerminalTail(log);
      assert first + (View(log[1..]) + View(more)) == (first + View(log[1..])) + View(more);
    }
  }

  lemma {:induction false} ViewIsForwarded(log: seq<Message>)
    ensures Printable(View(log))
  {
    if log != [] { ViewIsForwarded(log[1..]); }
  }

  predicate NonDecreasing(visible: seq<nat>) {
    forall i, k | 0 <= i < k < |visible| :: visible[i] <= visible[k]
  }

  function Least(a: nat, b: nat): nat {
    if a < b then a else b
  }

  /** Sends the entries of one read in order, up to a terminal one. */
  method SendBatch(log: seq<Message>, sent: seq<Message>, from: nat, batchEnd: nat)
    returns (events: seq<Message>, ended: bool, lastId: nat)
    requires from <= batchEnd <= |log| && sent == log[..from] && NoTerminal(sent)
    ensures from <= lastId <= batchEnd && events == ThroughTerminal(log[..lastId]) == log[..lastId]
    ensures if ended then !NoTerminal(log[..lastId]) else lastId == batchEnd && NoTerminal(log[..lastId])
  {
    events, ended, lastId := sent, false, from;
    while lastId < batchEnd
      invariant from <= lastId <= batchEnd && !ended
      invariant events == log[..lastId] && NoTerminal(log[..lastId])
    {
      var message := log[lastId];
      ThroughTerminalAppend(log[..lastId], message);
      assert log[..lastId + 1] == log[..lastId] + [message];
      lastId := lastId + 1;
      events := events + [message];
      if message.kind == "completed" || message.kind == "failed" {
        assert IsTerminal(log[..lastId][lastId - 1].kind);
        ended := true;
        return;
      }
    }
    ThroughTerminalAppend(log[..lastId], Message("", ""));
  }

  /** Reads a growing log from its start, at most 100 entries at a time, until a terminal event or a failed
      read.  `visible[n]` is how much of the log exists at the n-th read; a read that finds nothing new is
      repeated.  Whatever the batches, the events are the log, in order, without a gap or a repeat, and a log
      that already exists is replayed from the beginning: what exists at some read has been taken once enough
      reads have followed. */
  method Subscribe(log: seq<Message>, visible: seq<nat>) returns (events: seq<Message>, ended: bool, lastId: nat)
    requires NonDecreasing(visible) && forall i | 0 <= i < |visible| :: visible[i] <= |log|
    ensures lastId <= |log| && events == ThroughTerminal(log[..lastId]) == log[..lastId]
    ensures ended <==> !NoTerminal(log[..lastId])
    ensures !ended ==> forall j | 0 <= j < |visible| :: lastId >= Least(visible[j], READ_COUNT * (|visible| - j))
  {
    events, ended, lastId := [], false, 0;
    var n := 0;
    while n < |visible|
      invariant 0 <= n <= |visible| && lastId <= |log| && !ended
      invariant events == log[..lastId] && NoTerminal(log[..lastId])
      invariant lastId <= if n == 0 then 0 else visible[n - 1]
      invariant forall j | 0 <= j < n :: lastId >= Least(visible[j], READ_COUNT * (n - j))
    {
      assert n > 0 ==> visible[n - 1] <= visible[n];
      var batchEnd := if lastId + READ_COUNT < visible[n] then lastId + READ_COUNT else visible[n];
      events, ended, lastId := SendBatch(log, events, lastId, batchEnd);
      if ended {
        return;
      }
      n := n + 1;
    }
    ThroughTerminalAppend(log[..lastId], Message("", ""));
  }

  lemma {:induction false} DataTextAppend(parts: seq<string>, part: string)
    ensures DataText(parts + [part]) == DataText(parts) + ("data: " + part + "\n")
  {
    if parts == [] {
      assert parts + [part] == [part];
      assert DataText([part]) == "data: " + part + "\n" + DataText([]);
    } else {
      assert (parts + [part])[1..] == parts[1..] + [part];
      DataTextAppend(parts[1..], part);
      DataTextGroup("data: " + parts[0] + "\n", DataText(parts[1..]), "data: " + part + "\n");
    }
  }

  lemma DataTextGroup(a: string, b: string, c: string)
    ensures a + (b + c) == (a + b) + c
  {}

  method WriteSSEEvent(m: Message) returns (text: string)
    ensures text == EventText(m)
  {
    var parts := Split(m.data);
    text := "event: " + m.kind + "\n";
    ghost var head := text;
    var i := 0;
    while i < |parts|
      invariant 0 <= i <= |parts|
      invariant text == head + DataText(parts[..i])
    {
      DataTextAppend(parts[..i], parts[i]);
      assert parts[..i + 1] == parts[..i] + [parts[i]];
      DataTextGroup(head, DataText(parts[..i]), "data: " + parts[i] + "\n");
      text := text + ("data: " + parts[i] + "\n");
      i := i + 1;
    }
    assert parts[..i] == parts;
    text := text + "\n";
  }

  lemma {:induction false} TextAppend(items: seq<Item>, item: Item)
    ensures Text(items + [item]) == Text(items) + (if item.Heartbeat? then HEARTBEAT else EventText(item.message))
    ensures Messages(items + [item]) == Messages(items) + if item.Event? then [item.message] else []
  {
    if items == [] {
      assert items + [item] == [item] && [item][1..] == [];
      assert Text([item]) == (if item.Heartbeat? then HEARTBEAT else EventText(item.message)) + Text([]);
    } else {
      assert (items + [item])[1..] == items[1..] + [item];
      TextAppend(items[1..], item);
      DataTextGroup(if items[0].Heartbeat? then HEARTBEAT else EventText(items[0].message), Text(items[1..]),
                    if item.Heartbeat? then HEARTBEAT else EventText(item.message));
    }
  }

  /** What the handler's select picks next. */
  datatype Choice = Disconnect | Beat | NextEvent

  function Heartbeats(items: seq<Item>): nat {
    if items == [] then 0 else (if items[0].Heartbeat? then 1 else 0) + Heartbeats(items[1..])
  }

  lemma {:induction false} HeartbeatsAppend(items: seq<Item>, item: Item)
    ensures Heartbeats(items + [item]) == Heartbeats(items) + if item.Heartbeat? then 1 else 0
  {
    if items == [] {
      assert items + [item] == [item] && [item][1..] == [];
    } else {
      assert (items + [item])[1..] == items[1..] + [item];
      HeartbeatsAppend(items[1..], item);
    }
  }

  /** The text is so many heartbeats and these messages, in order, placed somehow between each other. */
  ghost predicate Written(out: string, messages: seq<Message>, beats: nat) {
    exists items :: out == Text(items) && Messages(items) == messages && Heartbeats(items) == beats
  }

  method WriteHeartbeat(out: string, ghost messages: seq<Message>, ghost beats: nat) returns (more: string)
    requires Written(out, messages, beats)
    ensures Written(more, messages, beats + 1)
  {
    more := out + ": heartbeat\n\n";
    ghost var items :| out == Text(items) && Messages(items) == messages && Heartbeats(items) == beats;
    TextAppend(items, Heartbeat);
    HeartbeatsAppend(items, Heartbeat);
    assert more == Text(items + [Heartbeat]) && Messages(items + [Heartbeat]) == messages;
  }

  method WriteEvent(out: string, event: Message, ghost messages: seq<Message>, ghost beats: nat) returns (more: string)
    requires Written(out, messages, beats)
    ensures Written(more, messages + [event], beats)
  {
    var text := WriteSSEEvent(event);
    more := out + text;
    ghost var items :| out == Text(items) && Messages(items) == messages && Heartbeats(items) == beats;
    TextAppend(items, Event(event));
    HeartbeatsAppend(items, Event(event));
    assert more == Text(items + [Event(event)]) && Messages(items + [Event(event)]) == messages + [event];
  }

  /** Writes an event of a kind that is forwarded, and tells whether it is the last. */
  method Forward(out: string, event: Message, ghost messages: seq<Message>, ghost beats: nat)
    returns (more: string, last: bool)
    requires Written(out, messages, beats)
    ensures Written(more, messages + (if IsForwarded(event.kind) then [event] else []), beats)
    ensures last == IsTerminal(event.kind)
  {
    more, last := out, false;
    assert messages + [] == messages;
    if event.kind == "chunk" || event.kind == "retrying" {
      more := WriteEvent(out, event, messages, beats);
    } else if event.kind == "completed" || event.kind == "failed" {
      more := WriteEvent(out, event, messages, beats);
      last := true;
    }
  }

  /** The text carries the view of the first `taken` events and so many heartbeats, and `ended` tells whether one of
      those events is terminal.  The quantifiers here and below keep the verifier from unfolding these where nobody
      asks for it. */
  ghost predicate Sent(events: seq<Message>, taken: nat, beats: nat, out: string, ended: bool) {
    && taken <= |events|
    && forall t {:trigger View(t)} | t == events[..taken] :: Written(out, View(t), beats) && (ended <==> !NoTerminal(t))
  }

  /** Forwards the next event. */
  method SendNext(events: seq<Message>, taken: nat, ghost beats: nat, out: string) returns (more: string, ended: bool)
    requires taken < |events| && Sent(events, taken, beats, out, false)
    ensures Sent(events, taken + 1, beats, more, ended)
  {
    ghost var view := View(events[..taken]);
    TakeOne(events, taken);
    more, ended := Forward(out, events[taken], view, beats);
  }

  method SendHeartbeat(ghost events: seq<Message>, ghost taken: nat, ghost beats: nat, out: string)
    returns (more: string)
    requires Sent(events, taken, beats, out, false)
    ensures Sent(events, taken, beats + 1, more, false)
  {
    more := WriteHeartbeat(out, View(events[..taken]), beats);
  }

  /** After `n` picks without a disconnect, so many events and heartbeats have been asked for. */
  ghost predicate Picked(schedule: seq<Choice>, n: nat, taken: nat, beats: nat) {
    && n <= |schedule|
    && forall c {:trigger NextEvents(c)} | c == schedule[..n] ::
         Disconnect !in c && taken == NextEvents(c) && beats == Beats(c)
  }

  lemma PickOne(schedule: seq<Choice>, n: nat, taken: nat, beats: nat)
    requires n < |schedule| && Picked(schedule, n, taken, beats)
    ensures schedule[n] == NextEvent ==> Picked(schedule, n + 1, taken + 1, beats)
    ensures schedule[n] == Beat ==> Picked(schedule, n + 1, taken, beats + 1)
  {
    assert schedule[..n + 1] == schedule[..n] + [schedule[n]];
    NextEventsAppend(schedule[..n], schedule[n]);
  }

  lemma PickedSoFar(schedule: seq<Choice>, n: nat, taken: nat, beats: nat)
    requires Picked(schedule, n, taken, beats)
    ensures taken <= NextEvents(Connected(schedule))
    ensures n < |schedule| && schedule[n] == NextEvent ==> taken < NextEvents(Connected(schedule))
    ensures n == |schedule| || schedule[n] == Disconnect ==>
              taken == NextEvents(Connected(schedule)) && beats == Beats(Connected(schedule))
  {
    assert taken == NextEvents(schedule[..n]);
    ConnectedUpTo(schedule, n);
  }

  /** The handler's event loop under any schedule of heartbeats, events and a possible disconnect: what a
      conforming client parses from the response is the view of the events taken so far, exactly when their data
      holds no carriage return.  Short of a terminal event, every event asked for while connected is taken.  The
      response is those events and one heartbeat for each beat among the first `picks` choices, which are all of them
      up to a disconnect, a terminal event, or an event asked for after the last. */
  method HandleStream(events: seq<Message>, schedule: seq<Choice>)
    returns (out: string, taken: nat, ended: bool, picks: nat)
    ensures taken <= |events|
    ensures Parse(out) == View(events[..taken]) <==> AllCrFree(View(events[..taken]))
    ensures ended <==> !NoTerminal(events[..taken])
    ensures taken <= NextEvents(Connected(schedule))
    ensures !ended ==> taken == Least(|events|, NextEvents(Connected(schedule)))
    ensures picks <= |schedule| && Disconnect !in schedule[..picks] && taken == NextEvents(schedule[..picks])
    ensures ended || picks == |schedule| || schedule[picks] == Disconnect
            || (schedule[picks] == NextEvent && taken == |events|)
    ensures Written(out, View(events[..taken]), Beats(schedule[..picks]))
  {
    ghost var beats;
    out, taken, ended, picks, beats := RunLoop(events, schedule);
    assert taken == NextEvents(schedule[..picks]);
    Delivered(out, events[..taken], beats);
  }

  method RunLoop(events: seq<Message>, schedule: seq<Choice>)
    returns (out: string, taken: nat, ended: bool, picks: nat, ghost beats: nat)
    ensures Sent(events, taken, beats, out, ended) && Picked(schedule, picks, taken, beats)
    ensures taken <= NextEvents(Connected(schedule))
    ensures !ended ==> taken == Least(|events|, NextEvents(Connected(schedule)))
    ensures ended || picks == |schedule| || schedule[picks] == Disconnect
            || (schedule[picks] == NextEvent && taken == |events|)
  {
    out, taken, ended, picks, beats := "", 0, false, 0, 0;
    NothingSent(events, schedule);
    while picks < |schedule|
      invariant Picked(schedule, picks, taken, beats) && Sent(events, taken, beats, out, false) && !ended
    {
      PickOne(schedule, picks, taken, beats);
      PickedSoFar(schedule, picks, taken, beats);
      match schedule[picks] {
        case Disconnect =>
          return;
        case Beat =>
          out := SendHeartbeat(events, taken, beats, out);
          beats := beats + 1;
        case NextEvent =>
          if taken == |events| {
            return;
          }
          out, ended := SendNext(events, taken, beats, out);
          taken := taken + 1;
      }
      picks := picks + 1;
      if ended {
        PickedSoFar(schedule, picks, taken, beats);
        return;
      }
    }
    PickedSoFar(schedule, picks, taken, beats);
  }

  lemma NothingSent(events: seq<Message>, schedule: seq<Choice>)
    ensures Sent(events, 0, 0, "", false) && Picked(schedule, 0, 0, 0)
  {
    assert Text([]) == "" && Messages([]) == [] && Heartbeats([]) == 0 && Written("", [], 0);
    assert View(events[..0]) == [] && NextEvents(schedule[..0]) == 0;
  }

  function Beats(schedule: seq<Choice>): nat {
    if schedule == [] then 0 else (if schedule[0] == Beat then 1 else 0) + Beats(schedule[1..])
  }

  function NextEvents(schedule: seq<Choice>): nat {
    if schedule == [] then 0 else (if schedule[0] == NextEvent then 1 else 0) + NextEvents(schedule[1..])
  }

  /** What is picked before the client disconnects. */
  function Connected(schedule: seq<Choice>): seq<Choice> {
    if schedule == [] || schedule[0] == Disconnect then [] else [schedule[0]] + Connected(schedule[1..])
  }

  lemma {:induction false} ConnectedUpTo(schedule: seq<Choice>, n: nat)
    requires n <= |schedule| && Disconnect !in schedule[..n]
    ensures NextEvents(schedule[..n]) <= NextEvents(Connected(schedule))
    ensures n < |schedule| && schedule[n] == NextEvent ==> NextEvents(schedule[..n]) < NextEvents(Connected(schedule))
    ensures n == |schedule| || schedule[n] == Disconnect ==> Connected(schedule) == schedule[..n]
  {
    if n > 0 {
      assert schedule[..n] == [schedule[0]] + schedule[1..][..n - 1];
      ConnectedUpTo(schedule[1..], n - 1);
      assert Connected(schedule)[1..] == Connected(schedule[1..]);
    } else if schedule != [] && schedule[0] != Disconnect {
      assert Connected(schedule)[1..] == Connected(schedule[1..]);
    }
  }

  lemma {:induction false} NextEventsAppend(schedule: seq<Choice>, c: Choice)
    ensures NextEvents(schedule + [c]) == NextEvents(schedule) + if c == NextEvent then 1 else 0
    ensures Beats(schedule + [c]) == Beats(schedule) + if c == Beat then 1 else 0
  {
    if schedule == [] {
      assert schedule + [c] == [c] && [c][1..] == [];
    } else {
      assert (schedule + [c])[1..] == schedule[1..] + [c];
      NextEventsAppend(schedule[1..], c);
    }
  }

  lemma TakeOne(events: seq<Message>, taken: nat)
    requires taken < |events| && NoTerminal(events[..taken])
    ensures View(events[..taken + 1]) ==
            View(events[..taken]) + if IsForwarded(events[taken].kind) then [events[taken]] else []
    ensures NoTerminal(events[..taken + 1]) <==> !IsTerminal(events[taken].kind)
  {
    assert events[..taken + 1] == events[..taken] + [events[taken]];
    ViewAppend(events[..taken], [events[taken]]);
    assert View([events[taken]]) == if IsForwarded(events[taken].kind) then [events[taken]] else [];
    assert events[..taken + 1][taken] == events[taken];
  }

  lemma Delivered(out: string, taken: seq<Message>, beats: nat)
    requires Written(out, View(taken), beats)
    ensures Parse(out) == View(taken) <==> AllCrFree(View(taken))
  {
    var items :| out == Text(items) && Messages(items) == View(taken) && Heartbeats(items) == beats;
    ViewIsForwarded(taken);
    ClientRecoversIffCrFree(items);
  }

  /** Some read sees the whole log, and enough reads follow to take it in. */
  ghost predicate ReadsAll(log: seq<Message>, visible: seq<nat>) {
    exists j :: 0 <= j < |visible| && visible[j] == |log| && READ_COUNT * (|visible| - j) >= |log|
  }

  lemma ViewOfPrefix(log: seq<Message>, n: nat)
    requires n <= |log|
    ensures View(log[..n]) <= View(log) && (!NoTerminal(log[..n]) ==> View(log[..n]) == View(log))
  {
    assert log[..n] + log[n..] == log;
    ViewAppend(log[..n], log[n..]);
  }

  /** From log to client: for every log, every split of it into reads and every schedule of heartbeats, the
      client recovers a prefix of the log's view, and the whole view once a terminal event was delivered --
      exactly when the data delivered holds no carriage return.  A client that stays connected gets there, if the
      log has a terminal event and is read through. */
  method StreamToClient(log: seq<Message>, visible: seq<nat>, schedule: seq<Choice>)
    returns (out: string, delivered: nat, ended: bool)
    requires NonDecreasing(visible) && forall i | 0 <= i < |visible| :: visible[i] <= |log|
    ensures delivered <= |log|
    ensures View(log[..delivered]) <= View(log) && (ended ==> View(log[..delivered]) == View(log))
    ensures Parse(out) == View(log[..delivered]) <==> AllCrFree(View(log[..delivered]))
    ensures ended && Published(log) && AllCrFree(ThroughTerminal(log)) ==> Parse(out) == ThroughTerminal(log)
    ensures !NoTerminal(log) && ReadsAll(log, visible) && Disconnect !in schedule && NextEvents(schedule) >= |log| ==>
              ended
  {
    var events, _, lastId := Subscribe(log, visible);
    var taken, picks;
    out, taken, ended, picks := HandleStream(events, schedule);
    delivered := taken;
    assert events[..taken] == log[..taken];
    assert lastId == |log| ==> log[..lastId] == log;
    assert taken == |events| ==> events[..taken] == events;
    if Disconnect !in schedule {
      assert schedule[..|schedule|] == schedule;
      ConnectedUpTo(schedule, |schedule|);
    }
    ViewOfPrefix(log, taken);
    if Published(log) { ViewOfPublished(log); }
  }
}
