/** The compare-and-swap store and its watch log over whole runs: the log rebuilds the
    store, numbers each key without gaps, and no two writers win the same revision. */
module StoreRuns {
  import opened Prelude
  import opened Coordination

  /** The store a watcher rebuilds from the log alone. */
  function Replay(log: seq<WatchEvent>): map<string, KvValue> {
    if log == [] then map[]
    else
      var last := log[|log| - 1];
      Replay(log[..|log| - 1])[last.key := KvValue(last.revision, last.value)]
  }

  /** The revisions the log carries for one key, oldest first. */
  function RevisionsOf(log: seq<WatchEvent>, key: string): seq<u64> {
    if log == [] then []
    else
      var last := log[|log| - 1];
      RevisionsOf(log[..|log| - 1], key) + if last.key == key then [last.revision] else []
  }

  lemma StoreStep(s: State, c: Call)
    ensures
      var Outcome(s', reply) := Exec(s, c);
      if reply.Stored? then
        && c.CallCas? && c.expected == Revision(s, c.key)
        && reply.entry == KvValue(SaturatingAdd(c.expected, 1), c.value)
        && s'.kv == s.kv[c.key := reply.entry]
        && s'.watchEvents == s.watchEvents + [WatchEvent(c.key, reply.entry.revision, c.value)]
      else
        && s'.kv == s.kv && s'.watchEvents == s.watchEvents
        && (c.CallCas? ==>
              && c.expected != Revision(s, c.key)
              && reply == Conflict(RevisionMismatch(c.expected, Revision(s, c.key))))
  {
    assert s.watchEvents + [] == s.watchEvents;
  }

  /** Every run from the empty coordinator: folding the watch log from empty gives the
      store itself, and each key's log carries 1, 2, 3, ... with no gap, sticking at the
      last revision once saturated. */
  lemma {:induction false} LogRebuildsTheStore(calls: seq<Call>, key: string)
    ensures
      var s := Run(INITIAL, calls);
      var revisions := RevisionsOf(s.watchEvents, key);
      && Replay(s.watchEvents) == s.kv
      && Revision(s, key) == Min(|revisions|, U64_MAX)
      && forall i :: 0 <= i < |revisions| ==> revisions[i] == Min(i + 1, U64_MAX)
  {
    hide Exec, Revision;
    if calls == [] {
      EmptyStore(key);
    } else {
      var before := calls[..|calls| - 1];
      var s := Run(INITIAL, before);
      LogRebuildsTheStore(before, key);
      StoreStep(s, calls[|calls| - 1]);
      var s' := Run(INITIAL, calls);
      RevisionFrame(s, s', key);
      if s'.watchEvents != s.watchEvents {
        assert s'.watchEvents[..|s'.watchEvents| - 1] == s.watchEvents;
      }
    }
  }

  lemma EmptyStore(key: string)
    ensures Run(INITIAL, []) == INITIAL && Revision(INITIAL, key) == 0
  {
  }

  lemma RevisionFrame(s: State, s': State, key: string)
    ensures key in s'.kv ==> Revision(s', key) == s'.kv[key].revision
    ensures key !in s.kv && key !in s'.kv ==> Revision(s', key) == Revision(s, key)
    ensures key in s.kv && key in s'.kv && s'.kv[key] == s.kv[key] ==> Revision(s', key) == Revision(s, key)
  {
  }

  lemma RevisionStep(s: State, c: Call, key: string)
    ensures Revision(s, key) <= Revision(Exec(s, c).state, key)
    ensures c.CallCas? && c.key == key && Exec(s, c).reply.Stored? ==>
              Revision(Exec(s, c).state, key) == SaturatingAdd(c.expected, 1)
  {
    hide Exec, Revision;
    StoreStep(s, c);
    RevisionFrame(s, Exec(s, c).state, key);
  }

  lemma {:induction false} RevisionsNeverDecrease(s: State, calls: seq<Call>, i: nat, j: nat, key: string)
    requires i <= j <= |calls|
    ensures Revision(Run(s, calls[..i]), key) <= Revision(Run(s, calls[..j]), key)
    decreases j
  {
    hide Exec, Revision;
    if i < j {
      RevisionsNeverDecrease(s, calls, i, j - 1, key);
      assert calls[..j][..j - 1] == calls[..j - 1];
      RevisionStep(Run(s, calls[..j - 1]), calls[j - 1], key);
    }
  }

  /** Of all CAS calls on one key with the same expected revision at most one ever
      succeeds in a run, for every revision below the last. */
  lemma OneWriterPerRevision(s: State, calls: seq<Call>, i: nat, j: nat)
    requires i < j < |calls| && calls[i].CallCas? && calls[j].CallCas?
    requires calls[i].key == calls[j].key && calls[i].expected == calls[j].expected < U64_MAX
    requires ReplyAt(s, calls, i).Stored?
    ensures ReplyAt(s, calls, j).Conflict?
  {
    hide Exec, Revision, Run;
    var key := calls[i].key;
    StoreStep(Run(s, calls[..i]), calls[i]);
    RevisionStep(Run(s, calls[..i]), calls[i], key);
    PrefixStep(s, calls, i);
    RevisionsNeverDecrease(s, calls, i + 1, j, key);
    StoreStep(Run(s, calls[..j]), calls[j]);
    OnlyStoredOrConflict(Run(s, calls[..j]), calls[j]);
  }

  lemma PrefixStep(s: State, calls: seq<Call>, i: nat)
    requires i < |calls|
    ensures Run(s, calls[..i + 1]) == Exec(Run(s, calls[..i]), calls[i]).state
  {
    hide Exec;
    assert calls[..i + 1][..i] == calls[..i];
  }

  lemma OnlyStoredOrConflict(s: State, c: Call)
    requires c.CallCas?
    ensures Exec(s, c).reply.Stored? || Exec(s, c).reply.Conflict?
  {
  }

  /** At the last revision the guarantee is gone: whenever one writer succeeds with that
      expectation, so does the next one. */
  lemma SaturatedRevisionAdmitsManyWriters(s: State, key: string, first: string, second: string)
    requires Revision(s, key) == U64_MAX
    ensures
      var once := Exec(s, CallCas(key, U64_MAX, first));
      var twice := Exec(once.state, CallCas(key, U64_MAX, second));
      once.reply.Stored? && twice.reply.Stored?
  {
    hide Exec, Revision;
    var once := Exec(s, CallCas(key, U64_MAX, first));
    StoreStep(s, CallCas(key, U64_MAX, first));
    RevisionStep(s, CallCas(key, U64_MAX, first), key);
    StoreStep(once.state, CallCas(key, U64_MAX, second));
    OnlyStoredOrConflict(s, CallCas(key, U64_MAX, first));
    OnlyStoredOrConflict(once.state, CallCas(key, U64_MAX, second));
  }

  /** Every revision is reached by a run, the last one included. */
  lemma {:induction false} EveryRevisionIsReached(key: string, n: u64) returns (calls: seq<Call>)
    ensures Revision(Run(INITIAL, calls), key) == n
  {
    hide Exec, Revision;
    if n == 0 {
      calls := [];
      EmptyStore(key);
    } else {
      calls := EveryRevisionIsReached(key, n - 1);
      var write := CallCas(key, n - 1, "");
      var s := Run(INITIAL, calls);
      assert (calls + [write])[..|calls|] == calls;
      StoreStep(s, write);
      RevisionStep(s, write, key);
      OnlyStoredOrConflict(s, write);
      calls := calls + [write];
    }
  }

  /** In a run from the start two writers succeed on one expectation. */
  ghost predicate TwoWriters(calls: seq<Call>, i: nat, j: nat, key: string, expected: u64) {
    && i < j < |calls|
    && calls[i].CallCas? && calls[i].key == key && calls[i].expected == expected
    && calls[j].CallCas? && calls[j].key == key && calls[j].expected == expected
    && ReplyAt(INITIAL, calls, i).Stored? && ReplyAt(INITIAL, calls, j).Stored?
  }

  /** Of all CAS calls on a key with one expected revision at most one ever succeeds, in
      every run, exactly for the revisions below the last. */
  lemma OneWriterExactlyBelowTheLastRevision(key: string, expected: u64)
    ensures (exists calls, i, j :: TwoWriters(calls, i, j, key, expected)) <==> expected == U64_MAX
  {
    hide Run, Exec;
    if expected == U64_MAX {
      var calls := EveryRevisionIsReached(key, U64_MAX);
      var write := CallCas(key, U64_MAX, "");
      SaturatedRevisionAdmitsManyWriters(Run(INITIAL, calls), key, "", "");
      var all := calls + [write] + [write];
      var n := |calls|;
      assert all[..n] == calls && all[..n + 1] == calls + [write] && (calls + [write])[..n] == calls;
      PrefixStep(INITIAL, all, n);
      assert TwoWriters(all, n, n + 1, key, expected);
    }
    forall calls, i, j | expected < U64_MAX ensures !TwoWriters(calls, i, j, key, expected) {
      if TwoWriters(calls, i, j, key, expected) {
        OneWriterPerRevision(INITIAL, calls, i, j);
      }
    }
  }
}
