/** Resuming a stream from the last sequence number seen, and the emitters of a task
    that decide whether this is safe. */
module SseResume {
  import opened Prelude
  import opened EventBus
  import opened SseStream

  // ----- resuming -----

  lemma {:induction false} AboveConcat(a: seq<StoredEvent>, b: seq<StoredEvent>, after: i64)
    ensures Above(a + b, after) == Above(a, after) + Above(b, after)
  {
    if b == [] {
      assert a + b == a;
    } else {
      assert (a + b)[..|a + b| - 1] == a + b[..|b| - 1];
      AboveConcat(a, b[..|b| - 1], after);
    }
  }

  predicate AllAbove(events: seq<StoredEvent>, after: i64) {
    forall i :: 0 <= i < |events| ==> events[i].seqNo > after
  }

  predicate NoneAbove(events: seq<StoredEvent>, after: i64) {
    forall i :: 0 <= i < |events| ==> events[i].seqNo <= after
  }

  lemma {:induction false} AboveIsAllOrNothing(events: seq<StoredEvent>, after: i64)
    ensures |Above(events, after)| <= |events|
    ensures AllAbove(Above(events, after), after)
    ensures Above(events, after) == events <==> AllAbove(events, after)
    ensures Above(events, after) == [] <==> NoneAbove(events, after)
  {
    if events != [] {
      var front, last := events[..|events| - 1], events[|events| - 1];
      AboveIsAllOrNothing(front, after);
      var above := Above(front, after);
      assert events == front + [last];
      assert Above(events, after) == above + if last.seqNo > after then [last] else [];
      hide Above;
      OneMoreAbove(front, last, after);
      OneMoreAbove(above, last, after);
      if last.seqNo > after {
        assert above + [last] == front + [last] <==> above == front;
      } else {
        assert above + [] == above;
      }
    }
  }

  lemma OneMoreAbove(events: seq<StoredEvent>, last: StoredEvent, after: i64)
    ensures AllAbove(events + [last], after) <==> AllAbove(events, after) && last.seqNo > after
    ensures NoneAbove(events + [last], after) <==> NoneAbove(events, after) && last.seqNo <= after
  {
    var more := events + [last];
    assert more[|events|] == last && forall i :: 0 <= i < |events| ==> more[i] == events[i];
  }

  /** The events of `sent` before position `k` that a subscriber can still be given. */
  function RetainedBefore(sent: seq<StoredEvent>, k: nat): seq<StoredEvent>
    requires k <= |sent|
  {
    if |sent| <= REPLAY_CAP then sent[..k]
    else if k > |sent| - REPLAY_CAP then sent[|sent| - REPLAY_CAP..k]
    else []
  }

  lemma RetainedSplits(sent: seq<StoredEvent>, k: nat)
    requires k <= |sent| && |sent| - k <= REPLAY_CAP
    ensures Retained(sent) == RetainedBefore(sent, k) + sent[k..]
  {
  }

  lemma RetainedIsBounded(sent: seq<StoredEvent>)
    ensures |Retained(sent)| <= REPLAY_CAP
  {
  }

  /** A client that has seen the first `k` accepted events and resumes after a number gets
      exactly the others if and only if none of them was evicted, each carries a greater
      number, and no retained one of the first `k` does. */
  lemma ResumeGivesTheRestExactlyWhen(sent: seq<StoredEvent>, k: nat, after: i64)
    requires k <= |sent|
    ensures Subscribed(sent, after).history == sent[k..]
            <==> |sent| - k <= REPLAY_CAP && AllAbove(sent[k..], after) && NoneAbove(RetainedBefore(sent, k), after)
  {
    hide Above, Retained, RetainedBefore, AllAbove, NoneAbove;
    var before, rest := RetainedBefore(sent, k), sent[k..];
    RetainedIsBounded(sent);
    AboveIsAllOrNothing(Retained(sent), after);
    AboveIsAllOrNothing(rest, after);
    AboveIsAllOrNothing(before, after);
    if |sent| - k > REPLAY_CAP {
      assert |Above(Retained(sent), after)| < |rest|;
    } else {
      RetainedSplits(sent, k);
      AboveConcat(before, rest, after);
      SplitExactly(Above(before, after), Above(rest, after), rest, after);
    }
  }

  /** `a + b`, all of it above and `b` all of `rest` that is, is `rest` only for empty `a`. */
  lemma SplitExactly(a: seq<StoredEvent>, b: seq<StoredEvent>, rest: seq<StoredEvent>, after: i64)
    requires b == Above(rest, after) && AllAbove(a, after)
    ensures a + b == rest <==> a == [] && AllAbove(rest, after)
  {
    hide Above;
    AboveIsAllOrNothing(rest, after);
    if a + b == rest {
      assert AllAbove(a + b, after);
      assert |a + b| == |a| + |b|;
    }
  }

  predicate Increasing(sent: seq<StoredEvent>) {
    forall i, j :: 0 <= i < j < |sent| ==> sent[i].seqNo < sent[j].seqNo
  }

  lemma IncreasingSplits(sent: seq<StoredEvent>, k: nat)
    requires 0 < k <= |sent| && Increasing(sent)
    ensures AllAbove(sent[k..], sent[k - 1].seqNo)
    ensures NoneAbove(RetainedBefore(sent, k), sent[k - 1].seqNo)
  {
    forall i | 0 <= i < k ensures sent[i].seqNo <= sent[k - 1].seqNo {
      if i < k - 1 {
        assert sent[i].seqNo < sent[k - 1].seqNo;
      }
    }
  }

  /** With increasing numbers and nothing unseen evicted, the resumed replay takes up
      exactly behind the last event seen, wherever the first stream began. */
  lemma ResumeContinues(sent: seq<StoredEvent>, first: nat, k: nat)
    requires first < k <= |sent| && |sent| - k <= REPLAY_CAP && Increasing(sent)
    ensures sent[first..k] + Subscribed(sent, sent[k - 1].seqNo).history == sent[first..]
  {
    hide Subscribed, AllAbove, NoneAbove, RetainedBefore, Increasing;
    IncreasingSplits(sent, k);
    ResumeGivesTheRestExactlyWhen(sent, k, sent[k - 1].seqNo);
    assert sent[first..k] + sent[k..] == sent[first..];
  }

  lemma {:induction false} NothingIsCutExactlyWhen(events: seq<StoredEvent>)
    ensures ThroughDone(events) == events <==> !AnyDone(events[..if events == [] then 0 else |events| - 1])
  {
    if |events| > 1 {
      var tail := events[1..];
      NothingIsCutExactlyWhen(tail);
      var front := events[..|events| - 1];
      assert tail[..|tail| - 1] == front[1..];
      if IsDone(events[0]) {
        assert IsDone(front[0]);
      } else {
        assert ThroughDone(events) == [events[0]] + ThroughDone(tail);
        assert events == [events[0]] + tail;
        if AnyDone(front[1..]) {
          var i :| 0 <= i < |front[1..]| && IsDone(front[1..][i]);
          assert IsDone(front[i + 1]);
        }
        if AnyDone(front) {
          var i :| 0 <= i < |front| && IsDone(front[i]);
          assert IsDone(front[1..][i - 1]);
        }
      }
    }
  }

  /** The replay is not cut at a done event, the live stream is: a resumed replay gives
      what an uninterrupted stream would exactly when no event follows the first done. */
  lemma ReplayAgreesExactlyWhen(sent: seq<StoredEvent>, first: nat, k: nat)
    requires first < k <= |sent| && |sent| - k <= REPLAY_CAP && Increasing(sent)
    ensures sent[first..k] + Subscribed(sent, sent[k - 1].seqNo).history == ThroughDone(sent[first..])
            <==> !AnyDone(sent[first..|sent| - 1])
  {
    hide Subscribed, Increasing;
    ResumeContinues(sent, first, k);
    NothingIsCutExactlyWhen(sent[first..]);
    assert sent[first..][..|sent| - first - 1] == sent[first..|sent| - 1];
  }

  // ----- a client that comes back -----

  lemma {:induction false} AfterConcat(w: World, a: seq<Move>, b: seq<Move>, buffer: nat)
    ensures After(w, a + b, buffer) == After(After(w, a, buffer), b, buffer)
  {
    if b == [] {
      assert a + b == a;
    } else {
      AfterConcat(w, a, b[..|b| - 1], buffer);
      assert (a + b)[..|a + b| - 1] == a + b[..|b| - 1];
    }
  }

  /** The same bus with a receiver that has just subscribed again. */
  function Resubscribed(w: World, after: i64): World {
    w.(cursor := Subscribed(w.sent, after).receiver, received := [])
  }

  /** No evicted event carries a number above `n`. */
  predicate NothingUnseenEvicted(sent: seq<StoredEvent>, n: i64) {
    forall i :: 0 <= i < |sent| - REPLAY_CAP ==> sent[i].seqNo <= n
  }

  /** The stream has ended, or there is nothing it has not been given. */
  predicate CaughtUp(w: World) {
    Ended(w.received) || w.cursor == |w.sent|
  }

  lemma {:induction false} AboveIsASuffix(events: seq<StoredEvent>, after: i64) returns (a: nat)
    requires Increasing(events)
    ensures a <= |events| && Above(events, after) == events[a..]
  {
    if events == [] {
      a := 0;
    } else {
      var front, last := events[..|events| - 1], events[|events| - 1];
      a := AboveIsASuffix(front, after);
      assert Above(events, after) == Above(front, after) + if last.seqNo > after then [last] else [];
      hide Above;
      if last.seqNo > after {
        assert events[a..] == front[a..] + [last];
      } else {
        forall i | 0 <= i < |front| ensures front[i].seqNo <= after {
          assert events[i].seqNo < last.seqNo;
        }
        AboveIsAllOrNothing(front, after);
        a := |events|;
      }
    }
  }

  lemma ReplayIsASuffix(sent: seq<StoredEvent>, after: i64) returns (a: nat)
    requires Increasing(sent)
    ensures a <= |sent| && Subscribed(sent, after).history == sent[a..]
  {
    hide Above;
    var r := |sent| - |Retained(sent)|;
    assert Retained(sent) == sent[r..];
    var b := AboveIsASuffix(sent[r..], after);
    a := r + b;
    assert sent[r..][b..] == sent[a..];
  }

  lemma {:induction false} NoDoneGoesOn(a: seq<StoredEvent>, b: seq<StoredEvent>)
    requires !AnyDone(a)
    ensures ThroughDone(a + b) == a + ThroughDone(b)
  {
    if a == [] {
      assert a + b == b;
    } else {
      assert (a + b)[1..] == a[1..] + b;
      assert !IsDone(a[0]);
      forall i | 0 <= i < |a| - 1 ensures !IsDone(a[1..][i]) {
        assert !IsDone(a[i + 1]);
      }
      NoDoneGoesOn(a[1..], b);
      assert a == [a[0]] + a[1..];
    }
  }

  /** Nothing was accepted since the first subscription, or nothing behind a done event. */
  predicate NothingBehindDone(s1: seq<StoredEvent>, s2: seq<StoredEvent>) {
    s2 == s1 || !AnyDone(s2[..if s2 == [] then 0 else |s2| - 1])
  }

  lemma DoneOfParts(a: seq<StoredEvent>, b: seq<StoredEvent>)
    ensures AnyDone(a + b) <==> AnyDone(a) || AnyDone(b)
  {
    forall i | 0 <= i < |a| ensures (a + b)[i] == a[i] {
    }
    forall i | 0 <= i < |b| ensures (a + b)[|a| + i] == b[i] {
    }
    if AnyDone(a) {
      var i :| 0 <= i < |a| && IsDone(a[i]);
      assert IsDone((a + b)[i]);
    }
    if AnyDone(b) {
      var i :| 0 <= i < |b| && IsDone(b[i]);
      assert IsDone((a + b)[|a| + i]);
    }
  }

  /** The live part of a stream: nothing for a task already done. */
  function LivePart(before: seq<StoredEvent>, since: seq<StoredEvent>): seq<StoredEvent> {
    if AnyDone(before) then [] else ThroughDone(since)
  }

  /** Both streams as pieces of what was sent: `x` seen before both, `y` accepted while the
      client was away, `z` after it came back. */
  lemma PiecesAgreeExactlyWhen(s1: seq<StoredEvent>, x: seq<StoredEvent>, y: seq<StoredEvent>, z: seq<StoredEvent>)
    ensures x + y + LivePart(s1 + y, z) == x + LivePart(s1, y + z) <==> NothingBehindDone(s1, s1 + y)
  {
    hide ThroughDone, AnyDone;
    DoneOfParts(s1, y);
    if y == [] {
      assert s1 + y == s1 && y + z == z && x + y == x;
    } else {
      var front, last := y[..|y| - 1], [y[|y| - 1]];
      assert y == front + last && (s1 + y)[..|s1 + y| - 1] == s1 + front;
      DoneOfParts(s1, front);
      DoneOfParts(front, last);
      if NothingBehindDone(s1, s1 + y) {
        NoDoneGoesOn(front, last + z);
        assert y + z == front + (last + z);
        OneEventThroughDone(y[|y| - 1], z);
        assert x + y + LivePart(s1 + y, z) == x + (front + (last + LivePart(s1 + y, z)));
      } else {
        if !AnyDone(s1) {
          NothingAfterDone(front, last + z);
          assert y + z == front + (last + z);
        }
        assert |LivePart(s1, y + z)| < |y|;
        assert |x + y + LivePart(s1 + y, z)| > |x + LivePart(s1, y + z)|;
      }
    }
  }

  lemma OneEventThroughDone(e: StoredEvent, z: seq<StoredEvent>)
    ensures ThroughDone([e] + z) == [e] + if AnyDone([e]) then [] else ThroughDone(z)
  {
    assert ([e] + z)[1..] == z;
    if IsDone(e) {
      assert IsDone([e][0]);
    }
  }

  /** The first part of a stream, up to a cut, is a piece of what was sent. */
  lemma StreamIsAPiece(first: World, after: i64, moves: seq<Move>, buffer: nat, seen: seq<StoredEvent>) returns (a: nat)
    requires Fresh(first, after) && !Lagging(After(first, moves, buffer).received)
    requires Increasing(first.sent) && seen <= Output(first, after, After(first, moves, buffer))
    ensures
      var sent := After(first, moves, buffer).sent;
      && a <= |first.sent| && Subscribed(first.sent, after).history == first.sent[a..]
      && first.sent <= sent && a + |seen| <= |sent| && seen == sent[a..a + |seen|]
  {
    hide After, Subscribed, ThroughDone, Increasing, Lagging;
    ReplayThenLive(first, after, moves, buffer);
    var w := After(first, moves, buffer);
    a := ReplayIsASuffix(first.sent, after);
    var since := Since(first, w);
    assert w.sent[a..] == first.sent[a..] + since;
    ThroughDoneIsAPrefix(since);
    var all := first.sent[a..] + if Subscribed(first.sent, after).done then [] else ThroughDone(since);
    assert seen <= all && all <= w.sent[a..];
  }

  lemma ThroughDoneIsAPrefix(events: seq<StoredEvent>)
    ensures ThroughDone(events) <= events
  {
  }

  lemma FullStream(first: World, after: i64, moves: seq<Move>, buffer: nat)
    requires Fresh(first, after)
    requires !Lagging(After(first, moves, buffer).received) && CaughtUp(After(first, moves, buffer))
    ensures
      var w := After(first, moves, buffer);
      && w.sent == first.sent + Since(first, w)
      && Output(first, after, w) == Subscribed(first.sent, after).history + LivePart(first.sent, Since(first, w))
  {
    hide After, ThroughDone, Lagging, Above;
    ReplayThenLive(first, after, moves, buffer);
  }

  /** A channel that is still open can be subscribed to again. */
  lemma ResubscribedIsFresh(first: World, moves: seq<Move>, buffer: nat, after: i64)
    requires Ready(first) && After(first, moves, buffer).open
    ensures Fresh(Resubscribed(After(first, moves, buffer), after), after)
  {
    hide After, InOrder, Complete;
    RunIsConsistent(first, moves, buffer);
  }

  lemma ResumedReplay(sent: seq<StoredEvent>, k: nat)
    requires 0 < k <= |sent| && Increasing(sent) && NothingUnseenEvicted(sent, sent[k - 1].seqNo)
    ensures Subscribed(sent, sent[k - 1].seqNo).history == sent[k..]
  {
    if |sent| > REPLAY_CAP {
      var evicted := |sent| - REPLAY_CAP;
      assert sent[evicted - 1].seqNo <= sent[k - 1].seqNo;
    }
    IncreasingSplits(sent, k);
    ResumeGivesTheRestExactlyWhen(sent, k, sent[k - 1].seqNo);
  }

  /** A client that subscribes at `first`, and what happens until it is cut off, while it
      is away, and after it came back. */
  datatype Return = Return(
    first: World,
    after: i64,
    moves: seq<Move>,
    seen: seq<StoredEvent>,
    away: seq<Move>,
    again: seq<Move>,
    buffer: nat)

  /** The world in which the client has just come back, and the one at the end. */
  function Back(r: Return): World {
    Resubscribed(After(r.first, r.moves + r.away, r.buffer), LastSeen(r))
  }

  /** The last number the client had seen; a new client asks for everything. */
  function LastSeen(r: Return): i64 {
    if r.seen == [] then -1 else r.seen[|r.seen| - 1].seqNo
  }

  function Resumed(r: Return): World {
    After(Back(r), r.again, r.buffer)
  }

  /** The client is cut off anywhere behind the events `seen`, its channel stays open, and
      it comes back before anything it has not seen is evicted; it never lags, and in the
      end it has been given everything. */
  ghost predicate ComesBack(r: Return) {
    var cut := After(r.first, r.moves, r.buffer);
    && Fresh(r.first, r.after) && !Lagging(cut.received)
    && r.seen != [] && r.seen <= Output(r.first, r.after, cut)
    && After(r.first, r.moves + r.away, r.buffer).open
    && NothingUnseenEvicted(Back(r).sent, r.seen[|r.seen| - 1].seqNo)
    && !Lagging(Resumed(r).received) && CaughtUp(Resumed(r))
  }

  /** A client with the same first subscription that is never cut off and never lags. */
  ghost predicate NeverCutOff(r: Return, whole: World) {
    && (exists moves :: whole == After(r.first, moves, r.buffer))
    && !Lagging(whole.received) && CaughtUp(whole) && whole.sent == Resumed(r).sent
  }

  /** What the client got before it was cut off and after it came back with the last
      number it had seen. */
  function Together(r: Return): seq<StoredEvent>
    requires r.seen != []
  {
    r.seen + Output(Back(r), r.seen[|r.seen| - 1].seqNo, Resumed(r))
  }

  /** The events behind the first `n`. */
  function Behind(sent: seq<StoredEvent>, n: nat): seq<StoredEvent> {
    if n <= |sent| then sent[n..] else []
  }

  lemma WholeStream(r: Return, whole: World)
    requires Fresh(r.first, r.after) && NeverCutOff(r, whole)
    ensures Output(r.first, r.after, whole)
         == Subscribed(r.first.sent, r.after).history + LivePart(r.first.sent, Behind(whole.sent, |r.first.sent|))
  {
    hide After, Output, Subscribed, Lagging, CaughtUp, Fresh, LivePart;
    var moves :| whole == After(r.first, moves, r.buffer);
    FullStream(r.first, r.after, moves, r.buffer);
  }

  lemma ResumedStream(r: Return)
    requires ComesBack(r)
    ensures Fresh(r.first, r.after) && Back(r).sent <= Resumed(r).sent
    ensures
      var n := r.seen[|r.seen| - 1].seqNo;
      && NothingUnseenEvicted(Back(r).sent, n)
      && Together(r)
         == r.seen + (Subscribed(Back(r).sent, n).history
                      + LivePart(Back(r).sent, Behind(Resumed(r).sent, |Back(r).sent|)))
  {
    hide After, Output, Subscribed, Lagging, CaughtUp, Fresh, LivePart, NothingUnseenEvicted;
    FreshIsReady(r.first, r.after);
    ResubscribedIsFresh(r.first, r.moves + r.away, r.buffer, LastSeen(r));
    FullStream(Back(r), r.seen[|r.seen| - 1].seqNo, r.again, r.buffer);
  }

  /** Where in what was sent the cut-off client stood. */
  ghost predicate CutAt(s1: seq<StoredEvent>, s2: seq<StoredEvent>, a: nat, seen: seq<StoredEvent>) {
    s1 <= s2 && a <= |s1| && seen != [] && a + |seen| <= |s2| && seen == s2[a..a + |seen|]
  }

  lemma CutStream(r: Return) returns (a: nat)
    requires ComesBack(r) && Increasing(r.first.sent)
    ensures CutAt(r.first.sent, Back(r).sent, a, r.seen)
    ensures Subscribed(r.first.sent, r.after).history == Behind(r.first.sent, a)
  {
    hide After, Output, Subscribed, Lagging, CaughtUp, Fresh, NothingUnseenEvicted, Increasing;
    FreshIsReady(r.first, r.after);
    StillThere(r.first, r.moves, r.away, r.buffer);
    a := StreamIsAPiece(r.first, r.after, r.moves, r.buffer, r.seen);
  }

  lemma FirstIsEarlier(r: Return)
    requires ComesBack(r)
    ensures r.first.sent <= Back(r).sent
  {
    hide After, Output, Subscribed, Lagging, CaughtUp, Fresh, NothingUnseenEvicted;
    FreshIsReady(r.first, r.after);
    StillThere(r.first, r.moves, r.away, r.buffer);
  }

  /** With increasing numbers, a client that comes back and one that was never cut off get
      the same events if and only if, when the one came back, nothing had been accepted
      behind a done event since its first subscription. */
  lemma ResumedClientAgreesExactlyWhen(r: Return, whole: World)
    requires ComesBack(r) && NeverCutOff(r, whole) && Increasing(whole.sent)
    ensures Together(r) == Output(r.first, r.after, whole) <==> NothingBehindDone(r.first.sent, Back(r).sent)
  {
    ReturnFacts(r, whole);
    BothStreams(r, whole);
    hide ComesBack, NeverCutOff, Together, Output, Back, NothingBehindDone, Increasing;
  }

  /** Hidden, this keeps long streams from being compared event by event. */
  predicate SameEvents(a: seq<StoredEvent>, b: seq<StoredEvent>) {
    a == b
  }

  /** What the client that came back got, in pieces, and what one that stayed did. */
  function Glued(s2: seq<StoredEvent>, s: seq<StoredEvent>, seen: seq<StoredEvent>): seq<StoredEvent>
    requires seen != []
  {
    seen + (Subscribed(s2, seen[|seen| - 1].seqNo).history + LivePart(s2, Behind(s, |s2|)))
  }

  function Unbroken(s1: seq<StoredEvent>, s: seq<StoredEvent>, replay: seq<StoredEvent>): seq<StoredEvent> {
    replay + LivePart(s1, Behind(s, |s1|))
  }

  lemma BothStreams(r: Return, whole: World)
    requires ComesBack(r) && NeverCutOff(r, whole) && Increasing(whole.sent) && r.seen != []
    ensures SameEvents(Together(r), Output(r.first, r.after, whole))
            <==> NothingBehindDone(r.first.sent, Back(r).sent)
  {
    hide *;
    ReturnFacts(r, whole);
    GluedIs(r, whole);
    UnbrokenIs(r, whole);
    var a := CutStream(r);
    var s1, s2 := r.first.sent, Back(r).sent;
    GluedTogether(s1, s2, whole.sent, a, r.seen, Subscribed(s1, r.after).history);
  }

  lemma GluedIs(r: Return, whole: World)
    requires ComesBack(r) && NeverCutOff(r, whole) && r.seen != []
    ensures Together(r) == Glued(Back(r).sent, whole.sent, r.seen)
  {
    ResumedStream(r);
    hide Together, Subscribed, LivePart, Back, Resumed, Behind;
  }

  lemma UnbrokenIs(r: Return, whole: World)
    requires Fresh(r.first, r.after) && NeverCutOff(r, whole)
    ensures Output(r.first, r.after, whole)
         == Unbroken(r.first.sent, whole.sent, Subscribed(r.first.sent, r.after).history)
  {
    WholeStream(r, whole);
    hide Output, Subscribed, LivePart, Behind;
  }

  lemma ReturnFacts(r: Return, whole: World)
    requires ComesBack(r) && NeverCutOff(r, whole) && Increasing(whole.sent)
    ensures r.seen != [] && whole.sent == Resumed(r).sent && Fresh(r.first, r.after)
    ensures Increasing(Back(r).sent) && Increasing(r.first.sent)
    ensures r.first.sent <= Back(r).sent <= whole.sent
    ensures NothingUnseenEvicted(Back(r).sent, r.seen[|r.seen| - 1].seqNo)
  {
    hide Back, Resumed, Together, Output, Subscribed, LivePart, NothingUnseenEvicted, Fresh, Behind, After,
      Lagging, CaughtUp;
    ResumedStream(r);
    FirstIsEarlier(r);
    PrefixesIncrease(whole.sent, Back(r).sent);
    PrefixesIncrease(Back(r).sent, r.first.sent);
  }

  lemma PrefixesIncrease(sent: seq<StoredEvent>, part: seq<StoredEvent>)
    requires Increasing(sent) && part <= sent
    ensures Increasing(part)
  {
  }

  /** What a cut-off client got, put together, against one that was not. */
  lemma GluedTogether(s1: seq<StoredEvent>, s2: seq<StoredEvent>, s: seq<StoredEvent>, a: nat,
                      seen: seq<StoredEvent>, replay: seq<StoredEvent>)
    requires replay == Behind(s1, a)
    requires CutAt(s1, s2, a, seen) && s2 <= s && Increasing(s2)
    requires NothingUnseenEvicted(s2, seen[|seen| - 1].seqNo)
    ensures SameEvents(Glued(s2, s, seen), Unbroken(s1, s, replay)) <==> NothingBehindDone(s1, s2)
  {
    hide LivePart, NothingBehindDone, Subscribed, NothingUnseenEvicted, Increasing;
    var k := a + |seen|;
    assert s2[k - 1] == seen[|seen| - 1];
    ResumedReplay(s2, k);
    var x, y, z := s1[a..], s2[|s1|..], s[|s2|..];
    assert s2 == s1 + y && s[|s1|..] == y + z;
    assert seen + s2[k..] == x + y by {
      assert seen == s2[a..k];
    }
    PiecesAgreeExactlyWhen(s1, x, y, z);
    var live := LivePart(s2, z);
    assert seen + (s2[k..] + live) == seen + s2[k..] + live;
  }

  lemma StillThere(first: World, moves: seq<Move>, away: seq<Move>, buffer: nat)
    requires Ready(first)
    ensures first.sent <= After(first, moves, buffer).sent <= After(first, moves + away, buffer).sent
  {
    AfterConcat(first, moves, away, buffer);
    hide After;
    RunIsConsistent(first, moves, buffer);
    SentGrows(After(first, moves, buffer), away, buffer);
  }

  lemma {:induction false} SentGrows(w: World, moves: seq<Move>, buffer: nat)
    ensures w.sent <= After(w, moves, buffer).sent
  {
    if moves != [] {
      SentGrows(w, moves[..|moves| - 1], buffer);
    }
  }

  // ----- a client that is given too much -----

  /** A client is cut off behind `e`; while it is away the task is done and one more event
      is accepted. */
  function CutBeforeDone(task: string, e: StoredEvent, f: StoredEvent, g: StoredEvent): Return {
    var first := World(map[task := [e]], task, [e], true, 1, []);
    Return(first, -1, [], [e], [Emit(task, f), Emit(task, g)], [], 2)
  }

  function Throughout(task: string, e: StoredEvent, f: StoredEvent, g: StoredEvent): World {
    After(CutBeforeDone(task, e, f, g).first, [Emit(task, f), Emit(task, g), Receive], 2)
  }

  lemma TwoEmits(task: string, e: StoredEvent, f: StoredEvent, g: StoredEvent)
    requires e.seqNo < f.seqNo < g.seqNo
    ensures After(CutBeforeDone(task, e, f, g).first, [Emit(task, f), Emit(task, g)], 2)
         == World(map[task := [e, f, g]], task, [e, f, g], true, 1, [])
  {
    var w := CutBeforeDone(task, e, f, g).first;
    var moves := [Emit(task, f), Emit(task, g)];
    assert moves[..1] == [Emit(task, f)] && moves[..1][..0] == [];
    assert After(w, moves[..1], 2) == Moved(w, Emit(task, f), 2);
    assert [e] + [f] == [e, f] && [e, f] + [g] == [e, f, g];
    assert Moved(w, Emit(task, f), 2) == World(map[task := [e, f]], task, [e, f], true, 1, []);
  }

  lemma OneReceived(task: string, e: StoredEvent, f: StoredEvent, g: StoredEvent)
    requires e.seqNo < f.seqNo < g.seqNo
    ensures Throughout(task, e, f, g)
         == World(map[task := [e, f, g]], task, [e, f, g], true, 2, [Item(f)])
  {
    TwoEmits(task, e, f, g);
    var moves := [Emit(task, f), Emit(task, g), Receive];
    assert moves[..2] == [Emit(task, f), Emit(task, g)];
  }

  lemma ThreeInOrder(e: StoredEvent, f: StoredEvent, g: StoredEvent)
    requires -1 < e.seqNo < f.seqNo < g.seqNo
    ensures Increasing([e, f, g]) && NothingUnseenEvicted([e, f, g], e.seqNo)
    ensures Subscribed([e], -1).history == [e]
    ensures Subscribed([e, f, g], e.seqNo).history == [f, g]
    ensures Subscribed([e], -1).receiver == 1 && Subscribed([e, f, g], e.seqNo).receiver == 3
  {
    ResumedReplay([e, f, g], 1);
    AboveIsAllOrNothing([e], -1);
  }

  lemma CutClientIsBack(task: string, e: StoredEvent, f: StoredEvent, g: StoredEvent)
    requires -1 < e.seqNo < f.seqNo < g.seqNo
    ensures
      var r := CutBeforeDone(task, e, f, g);
      && After(r.first, r.moves + r.away, r.buffer).open
      && Back(r) == Resumed(r) == World(map[task := [e, f, g]], task, [e, f, g], true, 3, [])
  {
    hide Subscribed, NothingUnseenEvicted, Increasing;
    var r := CutBeforeDone(task, e, f, g);
    TwoEmits(task, e, f, g);
    ThreeInOrder(e, f, g);
    assert r.moves + r.away == r.away;
  }

  lemma CutClientComesBack(task: string, e: StoredEvent, f: StoredEvent, g: StoredEvent)
    requires -1 < e.seqNo < f.seqNo < g.seqNo && !IsDone(e)
    ensures ComesBack(CutBeforeDone(task, e, f, g))
  {
    var r := CutBeforeDone(task, e, f, g);
    CutClientIsBack(task, e, f, g);
    assert After(r.first, r.moves, r.buffer) == r.first;
    assert Fresh(r.first, -1) by {
      FreshIsReady(r.first, -1);
    }
    ThreeInOrder(e, f, g);
    hide Subscribed, NothingUnseenEvicted, Fresh, Back, Resumed, After, Increasing;
    assert r.seen == [e];
  }

  lemma CutClientGetsAll(task: string, e: StoredEvent, f: StoredEvent, g: StoredEvent)
    requires -1 < e.seqNo < f.seqNo < g.seqNo && !IsDone(e) && IsDone(f)
    ensures Together(CutBeforeDone(task, e, f, g)) == [e, f, g]
  {
    hide Subscribed, Back, Resumed, After, Increasing, NothingUnseenEvicted;
    CutClientIsBack(task, e, f, g);
    ThreeInOrder(e, f, g);
    DoneIsKnown(e, f, g);
    assert [e] + [f, g] == [e, f, g];
  }

  lemma WholeClientStops(task: string, e: StoredEvent, f: StoredEvent, g: StoredEvent)
    requires -1 < e.seqNo < f.seqNo < g.seqNo && !IsDone(e) && IsDone(f)
    ensures
      var r, whole := CutBeforeDone(task, e, f, g), Throughout(task, e, f, g);
      && whole.sent == [e, f, g] && !Lagging(whole.received) && CaughtUp(whole)
      && Output(r.first, r.after, whole) == [e, f]
  {
    hide Subscribed, NothingUnseenEvicted, Increasing;
    OneReceived(task, e, f, g);
    ThreeInOrder(e, f, g);
    DoneIsKnown(e, f, g);
    assert [Item(f)][0].Item? && Live([Item(f)]) == [f];
    assert [e] + [f] == [e, f];
  }

  lemma DoneIsKnown(e: StoredEvent, f: StoredEvent, g: StoredEvent)
    requires !IsDone(e) && IsDone(f)
    ensures !Subscribed([e], -1).done
    ensures Subscribed([e, f, g], e.seqNo).done
  {
    assert [e, f, g][1] == f;
  }

  /** The difference is real: of two clients with one subscription, the one that comes back
      is given an event behind the done one, and the one never cut off is not. */
  lemma ResumedClientIsGivenMore(task: string, e: StoredEvent, f: StoredEvent, g: StoredEvent)
    returns (r: Return, whole: World)
    requires -1 < e.seqNo < f.seqNo < g.seqNo && !IsDone(e) && IsDone(f)
    ensures ComesBack(r) && NeverCutOff(r, whole) && Increasing(whole.sent)
    ensures Together(r) == [e, f, g]
    ensures Output(r.first, r.after, whole) == [e, f]
  {
    hide ComesBack, After, Output, Together, Back, Resumed, Subscribed, Lagging, CaughtUp;
    r, whole := CutBeforeDone(task, e, f, g), Throughout(task, e, f, g);
    CutClientIsBack(task, e, f, g);
    CutClientComesBack(task, e, f, g);
    CutClientGetsAll(task, e, f, g);
    WholeClientStops(task, e, f, g);
    ThreeInOrder(e, f, g);
  }

  // ----- the emitters of one task -----

  /** `fetch_add` on an `AtomicI64` that has been called `n` times before. */
  function AsI64(n: nat): i64 {
    (n + 0x8000_0000_0000_0000) % 0x1_0000_0000_0000_0000 - 0x8000_0000_0000_0000
  }

  lemma SeqsRepeatOnlyAfterAWrap(m: nat, n: nat)
    requires m < n && AsI64(m) == AsI64(n)
    ensures n - m >= 0x1_0000_0000_0000_0000
  {
    var big := 0x1_0000_0000_0000_0000;
    var a, b := m + 0x8000_0000_0000_0000, n + 0x8000_0000_0000_0000;
    assert a == big * (a / big) + a % big;
    assert b == big * (b / big) + b % big;
  }

  /** `AppState::emit` of one task from any number of threads: a number is allocated in
      one step and handed to the bus in another. */
  datatype Emitters = Emitters(taken: nat, inFlight: set<nat>, sent: seq<StoredEvent>)

  datatype EmitStep = Allocate | Deliver(number: nat, event: Event)

  const NO_EMITS := Emitters(0, {}, [])

  function EmitNext(e: Emitters, step: EmitStep): Emitters {
    match step
    case Allocate => e.(taken := e.taken + 1, inFlight := e.inFlight + {e.taken})
    case Deliver(number, event) =>
      var s := StoredEvent(AsI64(number), event);
      if number !in e.inFlight then e
      else e.(inFlight := e.inFlight - {number}, sent := if HasSeq(e.sent, s.seqNo) then e.sent else e.sent + [s])
  }

  function Emits(steps: seq<EmitStep>): Emitters {
    if steps == [] then NO_EMITS else EmitNext(Emits(steps[..|steps| - 1]), steps[|steps| - 1])
  }

  /** How many deliveries of the run had been allocated. */
  function Delivered(steps: seq<EmitStep>): nat {
    if steps == [] then 0
    else
      var step := steps[|steps| - 1];
      Delivered(steps[..|steps| - 1]) +
      if step.Deliver? && step.number in Emits(steps[..|steps| - 1]).inFlight then 1 else 0
  }

  /** Every accepted event carries a number that was allocated and is no longer in flight. */
  ghost predicate NumbersAreSpent(e: Emitters) {
    && (forall n :: n in e.inFlight ==> n < e.taken)
    && (forall i :: 0 <= i < |e.sent| ==> Spent(e, e.sent[i].seqNo))
  }

  ghost predicate Spent(e: Emitters, seqNo: i64) {
    exists n: nat :: n < e.taken && n !in e.inFlight && AsI64(n) == seqNo
  }

  ghost predicate EmitsAgree(e: Emitters) {
    && NumbersAreSpent(e)
    && Distinct(e.sent)
    && |e.sent| + |e.inFlight| == e.taken
  }

  lemma StillSpent(e: Emitters, next: Emitters, seqNo: i64)
    requires Spent(e, seqNo) && e.taken <= next.taken
    requires forall n :: n in next.inFlight ==> n in e.inFlight || n >= e.taken
    ensures Spent(next, seqNo)
  {
    var n: nat :| n < e.taken && n !in e.inFlight && AsI64(n) == seqNo;
    assert n !in next.inFlight;
  }

  lemma InFlightIsNew(e: Emitters, number: nat)
    requires NumbersAreSpent(e) && number in e.inFlight && e.taken <= 0x1_0000_0000_0000_0000
    ensures !HasSeq(e.sent, AsI64(number))
  {
    hide AsI64;
    forall i | 0 <= i < |e.sent| ensures e.sent[i].seqNo != AsI64(number) {
      assert Spent(e, e.sent[i].seqNo);
      var n: nat :| n < e.taken && n !in e.inFlight && AsI64(n) == e.sent[i].seqNo;
      NoTwoAlike(n, number);
    }
  }

  lemma EmitNextAgrees(e: Emitters, step: EmitStep)
    requires EmitsAgree(e) && EmitNext(e, step).taken <= 0x1_0000_0000_0000_0000
    ensures EmitsAgree(EmitNext(e, step))
    ensures |EmitNext(e, step).sent| == |e.sent| + if step.Deliver? && step.number in e.inFlight then 1 else 0
  {
    hide AsI64, Spent;
    var next := EmitNext(e, step);
    if step.Deliver? && step.number in e.inFlight {
      InFlightIsNew(e, step.number);
      OneMoreIsDistinct(e.sent, StoredEvent(AsI64(step.number), step.event));
      JustSpent(next, step.number);
    }
    forall i | 0 <= i < |e.sent| ensures Spent(next, e.sent[i].seqNo) {
      StillSpent(e, next, e.sent[i].seqNo);
    }
  }

  lemma JustSpent(e: Emitters, number: nat)
    requires number < e.taken && number !in e.inFlight
    ensures Spent(e, AsI64(number))
  {
  }

  /** In every interleaving of the emitters no event is dropped as a duplicate and no
      number is accepted twice, up to the first 2^64 events of the task. */
  lemma {:induction false} EveryEmitIsAccepted(steps: seq<EmitStep>)
    requires Emits(steps).taken <= 0x1_0000_0000_0000_0000
    ensures EmitsAgree(Emits(steps))
    ensures |Emits(steps).sent| == Delivered(steps)
  {
    hide EmitNext, AsI64, Spent;
    if steps == [] {
      assert EmitsAgree(NO_EMITS);
    } else {
      var front, step := steps[..|steps| - 1], steps[|steps| - 1];
      NeverUntaken(Emits(front), step);
      EveryEmitIsAccepted(front);
      EmitNextAgrees(Emits(front), step);
    }
  }

  lemma NeverUntaken(e: Emitters, step: EmitStep)
    ensures e.taken <= EmitNext(e, step).taken
  {
  }

  lemma NoTwoAlike(m: nat, n: nat)
    requires m != n && m < 0x1_0000_0000_0000_0000 && n < 0x1_0000_0000_0000_0000
    ensures AsI64(m) != AsI64(n)
  {
    if AsI64(m) == AsI64(n) {
      SeqsRepeatOnlyAfterAWrap(if m < n then m else n, if m < n then n else m);
    }
  }

  /** One emit at a time: nothing is allocated while a number is in flight. */
  predicate Serial(steps: seq<EmitStep>) {
    steps == [] ||
    (Serial(steps[..|steps| - 1]) &&
     (steps[|steps| - 1].Allocate? ==> Emits(steps[..|steps| - 1]).inFlight == {}))
  }

  /** If the emits of a task are serial, events are accepted in the order of their
      numbers, so that a stream can be resumed, up to the first 2^63 events. */
  lemma {:induction false} SerialEmitsIncrease(steps: seq<EmitStep>)
    requires Serial(steps) && Emits(steps).taken <= 0x8000_0000_0000_0000
    ensures Numbered(Emits(steps))
    ensures Increasing(Emits(steps).sent)
  {
    hide EmitNext;
    if steps != [] {
      var front, step := steps[..|steps| - 1], steps[|steps| - 1];
      NeverUntaken(Emits(front), step);
      SerialEmitsIncrease(front);
      SerialEmitNext(Emits(front), step);
    }
  }

  /** The events accepted are numbered by position, and the number in flight, if any, is
      the next one. */
  predicate Numbered(e: Emitters) {
    && (forall i :: 0 <= i < |e.sent| ==> e.sent[i].seqNo == i)
    && (|| (e.inFlight == {} && e.taken == |e.sent|)
        || (e.inFlight == {|e.sent|} && e.taken == |e.sent| + 1))
  }

  lemma SerialEmitNext(e: Emitters, step: EmitStep)
    requires Numbered(e) && EmitNext(e, step).taken <= 0x8000_0000_0000_0000
    requires step.Allocate? ==> e.inFlight == {}
    ensures Numbered(EmitNext(e, step))
  {
    if step.Deliver? && step.number in e.inFlight {
      assert AsI64(step.number) == |e.sent|;
      assert !HasSeq(e.sent, AsI64(step.number));
      assert e.inFlight - {step.number} == {};
    }
  }

  /** So where the emits of a task are serial, which makes its numbers increase, clients
      can come back: what they get is what they would have got, unless an event followed a
      done one. */
  lemma SerialTasksCanBeResumed(r: Return, whole: World, steps: seq<EmitStep>)
    requires ComesBack(r) && NeverCutOff(r, whole)
    requires whole.sent == Emits(steps).sent && Serial(steps) && Emits(steps).taken <= 0x8000_0000_0000_0000
    ensures Together(r) == Output(r.first, r.after, whole) <==> NothingBehindDone(r.first.sent, Back(r).sent)
  {
    hide ComesBack, NeverCutOff, Emits, Serial;
    SerialEmitsIncrease(steps);
    ResumedClientAgreesExactlyWhen(r, whole);
  }

  /** Wherever a client stopped, resuming gives it exactly the rest. */
  ghost predicate ResumableAnywhere(sent: seq<StoredEvent>) {
    forall k :: 0 < k <= |sent| ==> Subscribed(sent, sent[k - 1].seqNo).history == sent[k..]
  }

  lemma ResumableExactlyWhenIncreasing(sent: seq<StoredEvent>)
    requires |sent| <= REPLAY_CAP
    ensures ResumableAnywhere(sent) <==> Increasing(sent)
  {
    hide Subscribed;
    if Increasing(sent) {
      forall k | 0 < k <= |sent| ensures Subscribed(sent, sent[k - 1].seqNo).history == sent[k..] {
        ResumedReplay(sent, k);
      }
    }
    if ResumableAnywhere(sent) {
      forall i, j | 0 <= i < j < |sent| ensures sent[i].seqNo < sent[j].seqNo {
        ResumeGivesTheRestExactlyWhen(sent, i + 1, sent[i].seqNo);
        assert sent[i + 1..][j - i - 1] == sent[j];
      }
    }
  }

  /** A number allocated later has been delivered before. */
  predicate Overtaken(e: Emitters, number: nat) {
    exists m :: number < m < e.taken && m !in e.inFlight
  }

  /** No delivery comes behind that of a greater number. */
  predicate InTurn(steps: seq<EmitStep>) {
    steps == [] ||
    (var e, step := Emits(steps[..|steps| - 1]), steps[|steps| - 1];
     && InTurn(steps[..|steps| - 1])
     && (step.Deliver? && step.number in e.inFlight ==> !Overtaken(e, step.number)))
  }

  /** The numbers sent are the numbers allocated and no longer in flight. */
  ghost predicate SentAreDelivered(e: Emitters) {
    && (forall n :: n in e.inFlight ==> n < e.taken)
    && (forall n: i64 :: HasSeq(e.sent, n) <==> 0 <= n < e.taken && n !in e.inFlight)
  }

  lemma SmallNumbers(n: nat)
    ensures n < 0x8000_0000_0000_0000 ==> AsI64(n) == n
  {
  }

  lemma EmitNextDelivers(e: Emitters, step: EmitStep)
    requires SentAreDelivered(e) && EmitNext(e, step).taken <= 0x8000_0000_0000_0000
    ensures SentAreDelivered(EmitNext(e, step))
    ensures
      Increasing(EmitNext(e, step).sent)
      <==> Increasing(e.sent) && (step.Deliver? && step.number in e.inFlight ==> !Overtaken(e, step.number))
  {
    hide AsI64;
    if step.Deliver? && step.number in e.inFlight {
      SmallNumbers(step.number);
      var s := StoredEvent(step.number, step.event);
      OneMore(e.sent, s);
      assert !HasSeq(e.sent, step.number);
      assert EmitNext(e, step).sent == e.sent + [s];
      OneMoreIncreases(e.sent, s);
      if m :| step.number < m < e.taken && m !in e.inFlight {
        var n: i64 := m;
        assert HasSeq(e.sent, n);
      }
      forall i | 0 <= i < |e.sent| && e.sent[i].seqNo >= s.seqNo ensures Overtaken(e, step.number) {
        assert HasSeq(e.sent, e.sent[i].seqNo);
      }
    }
  }

  lemma OneMoreIncreases(sent: seq<StoredEvent>, s: StoredEvent)
    ensures Increasing(sent + [s]) <==> Increasing(sent) && forall i :: 0 <= i < |sent| ==> sent[i].seqNo < s.seqNo
  {
    var more := sent + [s];
    assert more[|sent|] == s && forall i :: 0 <= i < |sent| ==> more[i] == sent[i];
  }

  lemma {:induction false} IncreasingExactlyInTurn(steps: seq<EmitStep>)
    requires Emits(steps).taken <= 0x8000_0000_0000_0000
    ensures SentAreDelivered(Emits(steps))
    ensures Increasing(Emits(steps).sent) <==> InTurn(steps)
  {
    hide EmitNext, Overtaken, SentAreDelivered, Increasing;
    if steps == [] {
      NothingDeliveredYet();
    } else {
      var front, step := steps[..|steps| - 1], steps[|steps| - 1];
      NeverUntaken(Emits(front), step);
      IncreasingExactlyInTurn(front);
      EmitNextDelivers(Emits(front), step);
    }
  }

  lemma NothingDeliveredYet()
    ensures SentAreDelivered(NO_EMITS) && Increasing(NO_EMITS.sent)
  {
  }

  /** In every interleaving of the emitters, of which replay still holds everything: every
      client can be resumed with exactly the rest if and only if the events were handed to
      the bus in the order in which their numbers were allocated. */
  lemma ResumableExactlyInTurn(steps: seq<EmitStep>)
    requires Emits(steps).taken <= 0x8000_0000_0000_0000 && |Emits(steps).sent| <= REPLAY_CAP
    ensures ResumableAnywhere(Emits(steps).sent) <==> InTurn(steps)
  {
    hide ResumableAnywhere, Increasing, InTurn, Emits, SentAreDelivered;
    IncreasingExactlyInTurn(steps);
    ResumableExactlyWhenIncreasing(Emits(steps).sent);
  }

  lemma OneStep(steps: seq<EmitStep>)
    requires steps != []
    ensures Emits(steps) == EmitNext(Emits(steps[..|steps| - 1]), steps[|steps| - 1])
  {
  }

  /** Overlapping emits can lose an event on resume: of two numbers allocated together
      the later is accepted first and seen, and the earlier is never replayed after it. */
  lemma OverlappingEmitsLoseAnEvent(a: Event, b: Event)
    ensures
      var e := Emits([Allocate, Allocate, Deliver(1, b), Deliver(0, a)]);
      && e.sent == [StoredEvent(1, b), StoredEvent(0, a)]
      && Subscribed(e.sent, e.sent[0].seqNo).history == []
  {
    var two := [Allocate, Allocate];
    var three := two + [Deliver(1, b)];
    var four := three + [Deliver(0, a)];
    assert four == [Allocate, Allocate, Deliver(1, b), Deliver(0, a)];
    assert [Allocate][..0] == [] && two[..1] == [Allocate] && three[..2] == two && four[..3] == three;
    assert Emits([Allocate]) == Emitters(1, {0}, []);
    assert Emits(two) == Emitters(2, {0, 1}, []);
    assert {0, 1} - {1} == {0};
    OneStep(three);
    assert Emits(three) == Emitters(2, {0}, [StoredEvent(1, b)]);
    OneStep(four);
    AboveIsAllOrNothing([StoredEvent(1, b), StoredEvent(0, a)], 1);
  }
}
