/** The hand-off from replay to live events in src/http.rs, for one client among any
    emits and collections, and what resuming it gives. */
module SseStream {
  import opened Prelude
  import opened EventBus

  // ----- the consumer loop -----

  /** What `recv` can return. */
  datatype Received = Item(stored: StoredEvent) | Lagged | Closed

  /** The live part of a stream, from what its receiver returns. */
  function Live(received: seq<Received>): (out: seq<StoredEvent>)
    decreases |received|
  {
    if received == [] then []
    else
      match received[0]
      case Lagged => Live(received[1..])
      case Closed => []
      case Item(s) => [s] + if IsDone(s) then [] else Live(received[1..])
  }

  /** The body of `stream`: replay, then live until done. The loop stands still when
      `received` has no more to give. */
  method Stream(history: seq<StoredEvent>, done: bool, received: seq<Received>) returns (out: seq<StoredEvent>)
    ensures out == history + if done then [] else Live(received)
  {
    out := [];
    for i := 0 to |history|
      invariant out == history[..i]
    {
      out := out + [history[i]];
    }
    if done {
      return;
    }
    var next := 0;
    while next < |received|
      invariant 0 <= next <= |received|
      invariant history + Live(received) == out + Live(received[next..])
    {
      match received[next] {
        case Item(stored) =>
          out := out + [stored];
          if stored.event.kind == "done" {
            break;
          }
        case Lagged =>
        case Closed =>
          break;
      }
      next := next + 1;
    }
  }

  // ----- one client among emits and collections -----

  /** The bus, and one receiver: the channel it listens to, which survives its removal
      from the map, its cursor, and what it has returned so far. */
  datatype World = World(
    log: Log,
    task: string,
    sent: seq<StoredEvent>,
    open: bool,
    cursor: nat,
    received: seq<Received>)

  datatype Move =
    | Emit(to: string, stored: StoredEvent)
    | Collect(which: string)
    | Receive

  predicate Ended(received: seq<Received>) {
    exists i :: 0 <= i < |received| && (received[i].Closed? || (received[i].Item? && IsDone(received[i].stored)))
  }

  predicate Lagging(received: seq<Received>) {
    Lagged in received
  }

  /** What `recv` does to the world: a receiver more than `buffer` behind skips to the
      oldest event still buffered; one that has caught up waits while the channel lives. */
  function Heard(w: World, buffer: nat): World {
    if Ended(w.received) then w
    else if |w.sent| > w.cursor + buffer then
      w.(cursor := |w.sent| - buffer, received := w.received + [Lagged])
    else if w.cursor < |w.sent| then
      w.(cursor := w.cursor + 1, received := w.received + [Item(w.sent[w.cursor])])
    else if !w.open then
      w.(received := w.received + [Closed])
    else w
  }

  function Moved(w: World, move: Move, buffer: nat): World {
    match move
    case Emit(to, stored) =>
      w.(log := Emitted(w.log, to, stored),
         sent := if w.open && to == w.task && Accepts(w.log, to, stored) then w.sent + [stored] else w.sent)
    case Collect(which) => w.(log := w.log - {which}, open := w.open && which != w.task)
    case Receive => Heard(w, buffer)
  }

  function After(w: World, moves: seq<Move>, buffer: nat): World {
    if moves == [] then w
    else Moved(After(w, moves[..|moves| - 1], buffer), moves[|moves| - 1], buffer)
  }

  /** The world of a client that has subscribed, its receiver where the bus has placed it. */
  function Joined(log: Log, task: string, sub: Subscription): World
    requires task in log
  {
    World(log, task, log[task], true, sub.receiver, [])
  }

  /** A client has just subscribed behind the number `after`. */
  ghost predicate Fresh(w: World, after: i64) {
    ValidLog(w.log) && w.task in w.log && w == Joined(w.log, w.task, Subscribed(w.log[w.task], after))
  }

  /** The receiver stands behind everything sent and has returned nothing. */
  ghost predicate Ready(w: World) {
    && ValidLog(w.log)
    && w.task in w.log && w.sent == w.log[w.task]
    && w.open
    && w.cursor == |w.sent|
    && w.received == []
  }

  lemma FreshIsReady(w: World, after: i64)
    ensures Fresh(w, after) <==> Ready(w)
  {
  }

  /** The positions of `sent` that a receiver has handed over, and nothing else. */
  ghost predicate HandedOver(w: World, at: seq<nat>, start: nat) {
    && (forall i, j :: 0 <= i < j < |at| ==> at[i] < at[j])
    && (forall i :: 0 <= i < |at| ==> start <= at[i] < w.cursor)
    && Live(w.received) == AtPositions(w.sent, at)
  }

  function AtPositions(sent: seq<StoredEvent>, at: seq<nat>): seq<StoredEvent> {
    if at == [] then []
    else AtPositions(sent, at[..|at| - 1]) + if at[|at| - 1] < |sent| then [sent[at[|at| - 1]]] else []
  }

  /** The channel, as far as the client is concerned. */
  ghost predicate ChannelOk(w: World, first: World) {
    && ValidLog(w.log)
    && (w.open ==> w.task in w.log && w.log[w.task] == w.sent)
    && Distinct(w.sent)
    && w.task == first.task
    && first.sent <= w.sent
    && |first.sent| <= w.cursor <= |w.sent|
  }

  ghost predicate InOrder(w: World, start: nat) {
    exists at :: HandedOver(w, at, start)
  }

  /** Up to its cursor the receiver has returned everything, once, in order. */
  predicate Complete(w: World, start: nat) {
    && start <= w.cursor <= |w.sent|
    && (|| w.received == Items(w.sent[start..w.cursor])
        || (!w.open && w.cursor == |w.sent| && w.received == Items(w.sent[start..w.cursor]) + [Closed]))
  }

  ghost predicate Consistent(w: World, first: World) {
    && ChannelOk(w, first)
    && InOrder(w, |first.sent|)
    && (!Lagging(w.received) ==> Complete(w, |first.sent|))
  }

  function Items(events: seq<StoredEvent>): (items: seq<Received>)
    ensures |items| == |events|
    ensures forall i :: 0 <= i < |events| ==> items[i] == Item(events[i])
  {
    seq(|events|, i requires 0 <= i < |events| => Item(events[i]))
  }

  lemma {:induction false} LiveGrows(received: seq<Received>, next: Received)
    requires !Ended(received)
    ensures Live(received + [next]) == Live(received) + if next.Item? then [next.stored] else []
  {
    if received == [] {
      assert [next][1..] == [];
    } else {
      assert (received + [next])[1..] == received[1..] + [next];
      forall i | 0 <= i < |received| - 1 ensures received[1..][i] == received[i + 1] {
      }
      LiveGrows(received[1..], next);
    }
  }

  /** A lag is passed over: the stream goes on with what its receiver returns next. */
  lemma {:induction false} LagsArePassedOver(a: seq<Received>, b: seq<Received>)
    ensures Live(a + [Lagged] + b) == Live(a + b)
  {
    if a == [] {
      assert ([Lagged] + b)[1..] == b && a + [Lagged] + b == [Lagged] + b && a + b == b;
    } else {
      assert (a + [Lagged] + b)[1..] == a[1..] + [Lagged] + b && (a + b)[1..] == a[1..] + b;
      LagsArePassedOver(a[1..], b);
    }
  }

  lemma {:induction false} PositionsKeep(sent: seq<StoredEvent>, more: seq<StoredEvent>, at: seq<nat>)
    requires sent <= more && forall i :: 0 <= i < |at| ==> at[i] < |sent|
    ensures AtPositions(more, at) == AtPositions(sent, at)
  {
    if at != [] {
      PositionsKeep(sent, more, at[..|at| - 1]);
    }
  }

  lemma HandsOverOne(w: World, next: World, at: seq<nat>, start: nat)
    requires HandedOver(w, at, start) && start <= w.cursor < |w.sent| && !Ended(w.received)
    requires next == w.(cursor := w.cursor + 1, received := w.received + [Item(w.sent[w.cursor])])
    ensures HandedOver(next, at + [w.cursor], start)
  {
    hide Live, Ended;
    LiveGrows(w.received, Item(w.sent[w.cursor]));
    var more := at + [w.cursor];
    assert more[..|more| - 1] == at;
  }

  lemma HandsOverNothing(w: World, next: World, got: Received, at: seq<nat>, start: nat)
    requires HandedOver(w, at, start) && !Ended(w.received) && !got.Item?
    requires next == w.(cursor := next.cursor, received := w.received + [got]) && w.cursor <= next.cursor
    ensures HandedOver(next, at, start)
  {
    hide Live, Ended;
    LiveGrows(w.received, got);
  }

  lemma HeardInOrder(w: World, start: nat, buffer: nat)
    requires InOrder(w, start) && start <= w.cursor <= |w.sent|
    ensures InOrder(Heard(w, buffer), start)
  {
    hide HandedOver, Ended;
    var next := Heard(w, buffer);
    var at :| HandedOver(w, at, start);
    if next != w {
      var got := next.received[|w.received|];
      if got.Item? {
        HandsOverOne(w, next, at, start);
      } else {
        HandsOverNothing(w, next, got, at, start);
      }
    }
  }

  lemma HeardComplete(w: World, start: nat, buffer: nat)
    requires Complete(w, start) && !Lagging(Heard(w, buffer).received)
    ensures Complete(Heard(w, buffer), start)
  {
    var next := Heard(w, buffer);
    if next != w {
      ClosedEnds(Items(w.sent[start..w.cursor]));
      assert next.received[|w.received|] != Lagged;
      if w.cursor < |w.sent| {
        assert w.sent[start..w.cursor + 1] == w.sent[start..w.cursor] + [w.sent[w.cursor]];
      }
    }
  }

  lemma ClosedEnds(received: seq<Received>)
    ensures Ended(received + [Closed])
  {
    assert (received + [Closed])[|received|].Closed?;
  }

  lemma HeardKeeps(w: World, first: World, buffer: nat)
    requires Consistent(w, first)
    ensures Consistent(Heard(w, buffer), first)
  {
    hide InOrder, Complete;
    HeardInOrder(w, |first.sent|, buffer);
    var next := Heard(w, buffer);
    if !Lagging(next.received) {
      assert forall i :: 0 <= i < |w.received| ==> w.received[i] == next.received[i];
      assert !Lagging(w.received);
      HeardComplete(w, |first.sent|, buffer);
    }
  }

  /** A move that leaves the receiver alone and at most appends to its channel. */
  lemma OthersMove(w: World, next: World, start: nat)
    requires next.received == w.received && next.cursor == w.cursor <= |w.sent| && w.sent <= next.sent
    requires next.open ==> w.open
    requires !w.open ==> next.sent == w.sent
    requires InOrder(w, start)
    ensures InOrder(next, start)
    ensures Complete(w, start) ==> Complete(next, start)
  {
    var at :| HandedOver(w, at, start);
    PositionsKeep(w.sent, next.sent, at);
    assert HandedOver(next, at, start);
    if start <= w.cursor {
      assert next.sent[start..w.cursor] == w.sent[start..w.cursor];
    }
  }

  lemma MovedKeeps(w: World, first: World, move: Move, buffer: nat)
    requires Consistent(w, first)
    ensures Consistent(Moved(w, move, buffer), first)
  {
    hide InOrder, Complete, Heard, Distinct;
    if move.Receive? {
      HeardKeeps(w, first, buffer);
    } else {
      OthersMove(w, Moved(w, move, buffer), |first.sent|);
      if move.Emit? {
        EmittedIsValid(w.log, move.to, move.stored);
        if w.open && move.to == w.task && Accepts(w.log, move.to, move.stored) {
          OneMoreIsDistinct(w.sent, move.stored);
        }
      }
      assert ChannelOk(Moved(w, move, buffer), first);
    }
  }

  lemma {:induction false} RunIsConsistent(first: World, moves: seq<Move>, buffer: nat)
    requires Ready(first)
    ensures Consistent(After(first, moves, buffer), first)
  {
    if moves == [] {
      assert HandedOver(first, [], |first.sent|);
    } else {
      RunIsConsistent(first, moves[..|moves| - 1], buffer);
      MovedKeeps(After(first, moves[..|moves| - 1], buffer), first, moves[|moves| - 1], buffer);
    }
  }

  // ----- what a client sees -----

  /** What the client has been sent when its stream stands at `w`. */
  function Output(first: World, after: i64, w: World): seq<StoredEvent> {
    var sub := Subscribed(first.sent, after);
    sub.history + if sub.done then [] else Live(w.received)
  }

  /** Events up to and including the first done. */
  function ThroughDone(events: seq<StoredEvent>): (some: seq<StoredEvent>)
    ensures some <= events
  {
    if events == [] then []
    else if IsDone(events[0]) then [events[0]]
    else [events[0]] + ThroughDone(events[1..])
  }

  lemma {:induction false} LiveOfItems(events: seq<StoredEvent>)
    ensures Live(Items(events)) == ThroughDone(events)
    ensures Live(Items(events) + [Closed]) == ThroughDone(events)
  {
    var items := Items(events);
    if events == [] {
      assert items + [Closed] == [Closed];
    } else {
      assert items[1..] == Items(events[1..]);
      assert (items + [Closed])[1..] == Items(events[1..]) + [Closed];
      LiveOfItems(events[1..]);
    }
  }

  lemma {:induction false} NothingAfterDone(a: seq<StoredEvent>, b: seq<StoredEvent>)
    requires AnyDone(a)
    ensures ThroughDone(a + b) == ThroughDone(a)
  {
    if !IsDone(a[0]) {
      assert (a + b)[1..] == a[1..] + b;
      var i :| 0 <= i < |a| && IsDone(a[i]);
      assert IsDone(a[1..][i - 1]);
      NothingAfterDone(a[1..], b);
    }
  }

  lemma EndedByDone(events: seq<StoredEvent>)
    requires Ended(Items(events))
    ensures AnyDone(events)
  {
  }

  /** Through the first done: everything if there is none, and otherwise a prefix that
      ends with a done event and has no other. */
  lemma ThroughDoneExactly(events: seq<StoredEvent>)
    ensures
      var some := ThroughDone(events);
      if exists i :: 0 <= i < |events| && events[i].event.kind == "done" then
        && some != [] && some[|some| - 1].event.kind == "done"
        && forall i :: 0 <= i < |some| - 1 ==> some[i].event.kind != "done"
      else some == events
  {
    UpToTheDone(events);
    hide ThroughDone;
  }

  lemma {:induction false} UpToTheDone(events: seq<StoredEvent>)
    ensures
      var some := ThroughDone(events);
      if AnyDone(events) then some != [] && IsDone(some[|some| - 1]) && !AnyDone(some[..|some| - 1])
      else some == events
  {
    hide AnyDone, IsDone;
    if events == [] {
      NoneDone(events);
    } else if IsDone(events[0]) {
      DoneInFront(events);
      NoneDone([events[0]][..0]);
    } else {
      var rest := events[1..];
      DoneBehind(events);
      UpToTheDone(rest);
      var some := ThroughDone(rest);
      assert [events[0]] + rest == events;
      if AnyDone(rest) {
        var more := [events[0]] + some;
        assert more[..|more| - 1] == [events[0]] + some[..|some| - 1];
        assert ([events[0]] + some[..|some| - 1])[1..] == some[..|some| - 1];
        DoneBehind([events[0]] + some[..|some| - 1]);
      }
    }
  }

  lemma NoneDone(events: seq<StoredEvent>)
    ensures events == [] ==> !AnyDone(events)
  {
  }

  lemma DoneInFront(events: seq<StoredEvent>)
    requires events != [] && IsDone(events[0])
    ensures AnyDone(events)
  {
  }

  lemma DoneBehind(events: seq<StoredEvent>)
    requires events != [] && !IsDone(events[0])
    ensures AnyDone(events) <==> AnyDone(events[1..])
  {
    assert forall i :: 0 < i < |events| ==> events[i] == events[1..][i - 1];
  }

  /** What a subscription is given and its receiver will hand over, for every later state
      of the channel: the retained events above the number, then exactly those accepted
      after the subscription, and nothing twice. */
  lemma SubscriptionsMissNothing(sent: seq<StoredEvent>, more: seq<StoredEvent>, after: i64)
    requires sent <= more && Distinct(more)
    ensures
      var sub := Subscribed(sent, after);
      && sub.receiver <= |more|
      && sub.history + more[sub.receiver..] == Above(Retained(sent), after) + more[|sent|..]
      && Distinct(sub.history + more[sub.receiver..])
  {
    hide Above, Retained;
    assert Distinct(sent);
    ReplayIsEarlier(sent, after);
    var replay, rest := Above(Retained(sent), after), more[|sent|..];
    forall i, j | 0 <= i < |replay| && 0 <= j < |rest| ensures replay[i].seqNo != rest[j].seqNo {
      assert replay[i] in replay;
      assert rest[j] == more[|sent| + j];
    }
  }

  /** Retained are the last two thousand. */
  lemma RetainedAreTheLast(sent: seq<StoredEvent>)
    ensures Retained(sent) == sent[if |sent| > 2000 then |sent| - 2000 else 0..]
  {
  }

  /** What the client's channel has accepted since the subscription. */
  function Since(first: World, w: World): seq<StoredEvent> {
    if |first.sent| <= |w.sent| then w.sent[|first.sent|..] else []
  }

  /** For a client that never lags: the stream is the retained events after the requested
      number, then the events accepted since the subscription in order, up to and
      including the first done; no gap and no repeat. It has yielded all of that once it
      has ended or caught up, and before then a prefix. A task already done at
      subscription is replayed only. */
  lemma ReplayThenLive(first: World, after: i64, moves: seq<Move>, buffer: nat)
    requires Fresh(first, after)
    requires !Lagging(After(first, moves, buffer).received)
    ensures
      var w := After(first, moves, buffer);
      var sub := Subscribed(first.sent, after);
      var since := Since(first, w);
      && w.sent == first.sent + since
      && (w.open ==> first.task in w.log && w.log[first.task] == w.sent)
      && Output(first, after, w) <= sub.history + (if sub.done then [] else ThroughDone(since))
      && (Ended(w.received) || w.cursor == |w.sent| ==>
            Output(first, after, w) == sub.history + (if sub.done then [] else ThroughDone(since)))
  {
    FreshIsReady(first, after);
    hide After, InOrder, Subscribed, Distinct, ValidLog, Complete, Live, ThroughDone, Ended;
    RunIsConsistent(first, moves, buffer);
    var w := After(first, moves, buffer);
    CompleteStream(w, |first.sent|);
    assert Since(first, w) == w.sent[|first.sent|..];
  }

  /** A receiver that has returned everything up to its cursor. */
  lemma CompleteStream(w: World, start: nat)
    requires Complete(w, start)
    ensures Live(w.received) <= ThroughDone(w.sent[start..])
    ensures Ended(w.received) || w.cursor == |w.sent| ==> Live(w.received) == ThroughDone(w.sent[start..])
  {
    hide Live, ThroughDone, Ended;
    var heard := w.sent[start..w.cursor];
    var rest := w.sent[w.cursor..];
    assert w.sent[start..] == heard + rest;
    LiveOfItems(heard);
    PrefixThroughDone(heard, rest);
    if w.cursor == |w.sent| {
      assert heard + rest == heard;
    } else if Ended(w.received) {
      EndedByDone(heard);
      NothingAfterDone(heard, rest);
    }
  }

  lemma {:induction false} PrefixThroughDone(a: seq<StoredEvent>, b: seq<StoredEvent>)
    ensures ThroughDone(a) <= ThroughDone(a + b)
  {
    if a != [] {
      assert (a + b)[1..] == a[1..] + b;
      PrefixThroughDone(a[1..], b);
    }
  }

  // ----- no repeats, lagging or not -----

  lemma {:induction false} AboveIsWithin(events: seq<StoredEvent>, after: i64)
    requires Distinct(events)
    ensures |Above(events, after)| <= |events|
    ensures forall s :: s in Above(events, after) <==> s in events && s.seqNo > after
    ensures Distinct(Above(events, after))
  {
    if events != [] {
      AboveIsWithin(events[..|events| - 1], after);
    }
  }

  lemma {:induction false} AtPositionsAre(sent: seq<StoredEvent>, at: seq<nat>)
    requires forall i :: 0 <= i < |at| ==> at[i] < |sent|
    ensures |AtPositions(sent, at)| == |at|
    ensures forall i :: 0 <= i < |at| ==> AtPositions(sent, at)[i] == sent[at[i]]
  {
    if at != [] {
      AtPositionsAre(sent, at[..|at| - 1]);
    }
  }

  /** However far the client falls behind, what it is sent after the replay are events
      of its channel in order of acceptance, and no sequence number comes twice. */
  lemma NothingTwice(first: World, after: i64, moves: seq<Move>, buffer: nat)
    requires Fresh(first, after)
    ensures Distinct(Output(first, after, After(first, moves, buffer)))
  {
    hide After, Complete;
    FreshIsReady(first, after);
    RunIsConsistent(first, moves, buffer);
    var w := After(first, moves, buffer);
    var start := |first.sent|;
    var at :| HandedOver(w, at, start);
    AtPositionsAre(w.sent, at);
    ReplayIsEarlier(first.sent, after);
    hide Subscribed, Heard, Above, Retained;
    EarlierThenLater(w.sent, start, Above(Retained(first.sent), after), at);
  }

  lemma ReplayIsEarlier(sent: seq<StoredEvent>, after: i64)
    requires Distinct(sent)
    ensures Distinct(Above(Retained(sent), after))
    ensures forall s :: s in Above(Retained(sent), after) ==> s in sent
  {
    AboveIsWithin(Retained(sent), after);
  }

  lemma EarlierThenLater(sent: seq<StoredEvent>, start: nat, replay: seq<StoredEvent>, at: seq<nat>)
    requires Distinct(sent) && start <= |sent| && Distinct(replay)
    requires forall s :: s in replay ==> s in sent[..start]
    requires forall i, j :: 0 <= i < j < |at| ==> at[i] < at[j]
    requires forall i :: 0 <= i < |at| ==> start <= at[i] < |sent|
    ensures Distinct(replay + AtPositions(sent, at))
  {
    AtPositionsAre(sent, at);
    var live := AtPositions(sent, at);
    forall i, j | 0 <= i < |replay| && 0 <= j < |live| ensures replay[i].seqNo != live[j].seqNo {
      assert replay[i] in replay;
      var k :| 0 <= k < start && sent[..start][k] == replay[i];
      assert sent[k].seqNo != sent[at[j]].seqNo;
    }
  }
}
