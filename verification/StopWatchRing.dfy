/**
 The ring of stopwatch logs (system/common/stop_watch_legacy.cc) against an unbounded log.
 */
module StopWatchRing {

  const LOG_BUFFER_LENGTH: int := 10

  datatype Log = Log(timestamp: int, startTimestamp: int, endTimestamp: int, message: string)

  const EMPTY: Log := Log(0, 0, 0, "")

  /** The last ten records of a history, or all of it. */
  function Recent(history: seq<Log>): seq<Log> {
    if |history| <= 10 then history else history[|history| - 10..]
  }

  /** The records that a dump prints. */
  function NonEmpty(logs: seq<Log>): seq<Log> {
    if logs == [] then []
    else NonEmpty(logs[..|logs| - 1]) + if logs[|logs| - 1].message == "" then [] else [logs[|logs| - 1]]
  }

  /** The slot that holds the n-th record, counted from zero. */
  function Slot(n: nat): (slot: nat)
    ensures slot < LOG_BUFFER_LENGTH
  {
    n % LOG_BUFFER_LENGTH
  }

  /** Records less than ten apart are in different slots. */
  lemma SlotsDiffer(n: nat, h: nat)
    requires n < h < n + LOG_BUFFER_LENGTH
    ensures Slot(n) != Slot(h)
  {
  }

  lemma LowSlot(n: nat)
    requires n < LOG_BUFFER_LENGTH
    ensures Slot(n) == n
  {
  }

  /** The slot a dump looks at in its j-th round, if it starts at a slot below ten. */
  function Visit(start: int, j: int): int {
    if start + j < LOG_BUFFER_LENGTH then start + j else start + j - LOG_BUFFER_LENGTH
  }

  /** The contents of the ring in the order a dump looks at them. */
  function Unrolled(ring: seq<Log>, start: int): seq<Log>
    requires |ring| == LOG_BUFFER_LENGTH && 0 <= start < LOG_BUFFER_LENGTH
  {
    ring[start..] + ring[..start]
  }

  /** The slots of a ring hold its history. */
  ghost predicate Holds(ring: seq<Log>, history: seq<Log>) {
    && |ring| == LOG_BUFFER_LENGTH
    && (forall n :: 0 <= n < |history| && |history| - LOG_BUFFER_LENGTH <= n ==> ring[Slot(n)] == history[n])
    && (forall i :: |history| <= i < LOG_BUFFER_LENGTH ==> ring[i] == EMPTY)
  }

  lemma {:induction false} NonEmptyConcat(a: seq<Log>, b: seq<Log>)
    ensures NonEmpty(a + b) == NonEmpty(a) + NonEmpty(b)
    decreases |b|
  {
    if b == [] {
      assert a + b == a;
    } else {
      assert (a + b)[..|a + b| - 1] == a + b[..|b| - 1];
      NonEmptyConcat(a, b[..|b| - 1]);
    }
  }

  lemma {:induction false} EmptiesPrintNothing(logs: seq<Log>)
    requires forall i :: 0 <= i < |logs| ==> logs[i] == EMPTY
    ensures NonEmpty(logs) == []
    decreases |logs|
  {
    if logs != [] {
      EmptiesPrintNothing(logs[..|logs| - 1]);
    }
  }

  /** The record ten before the next one is in the slot where a dump starts. */
  lemma SlotOfRecent(h: int, j: int)
    requires h >= LOG_BUFFER_LENGTH && 0 <= j < LOG_BUFFER_LENGTH
    ensures Slot(h - LOG_BUFFER_LENGTH + j) == Visit(Slot(h), j)
  {
  }

  lemma UnrolledLength(ring: seq<Log>, history: seq<Log>)
    requires Holds(ring, history) && |history| >= LOG_BUFFER_LENGTH
    ensures |ring| == LOG_BUFFER_LENGTH && 0 <= Slot(|history|) < LOG_BUFFER_LENGTH
    ensures |Unrolled(ring, Slot(|history|))| == |Recent(history)| == LOG_BUFFER_LENGTH
  {
  }

  /** The slot visited in the j-th round holds the j-th of the last ten records. */
  lemma UnrolledAt(ring: seq<Log>, history: seq<Log>, j: nat)
    requires Holds(ring, history) && |history| >= LOG_BUFFER_LENGTH && j < LOG_BUFFER_LENGTH
    ensures |ring| == LOG_BUFFER_LENGTH && 0 <= Slot(|history|) < LOG_BUFFER_LENGTH
    ensures j < |Unrolled(ring, Slot(|history|))| && j < |Recent(history)|
    ensures Unrolled(ring, Slot(|history|))[j] == Recent(history)[j]
  {
    hide Slot, Holds, Unrolled, Visit;
    var h := |history|;
    HeldAt(ring, history, h - LOG_BUFFER_LENGTH + j);
    VisitedAt(ring, Slot(h), j);
    SlotOfRecent(h, j);
  }

  lemma HeldAt(ring: seq<Log>, history: seq<Log>, n: nat)
    requires Holds(ring, history) && |history| - LOG_BUFFER_LENGTH <= n < |history|
    ensures |ring| == LOG_BUFFER_LENGTH && ring[Slot(n)] == history[n]
  {
    hide Slot;
  }

  lemma VisitedAt(ring: seq<Log>, start: nat, j: nat)
    requires |ring| == LOG_BUFFER_LENGTH && start < LOG_BUFFER_LENGTH && j < LOG_BUFFER_LENGTH
    ensures |Unrolled(ring, start)| == LOG_BUFFER_LENGTH && 0 <= Visit(start, j) < LOG_BUFFER_LENGTH
    ensures Unrolled(ring, start)[j] == ring[Visit(start, j)]
  {
  }

  lemma UnrolledFull(ring: seq<Log>, history: seq<Log>)
    requires Holds(ring, history) && |history| >= LOG_BUFFER_LENGTH
    ensures Unrolled(ring, Slot(|history|)) == Recent(history)
  {
    hide Holds, Slot, Unrolled, Recent;
    UnrolledLength(ring, history);
    var shown, recent := Unrolled(ring, Slot(|history|)), Recent(history);
    forall j | 0 <= j < LOG_BUFFER_LENGTH
      ensures shown[j] == recent[j]
    {
      UnrolledAt(ring, history, j);
    }
  }

  lemma UnrolledPartial(ring: seq<Log>, history: seq<Log>)
    requires Holds(ring, history) && |history| < LOG_BUFFER_LENGTH
    ensures Slot(|history|) == |history| && ring[..|history|] == history
    ensures forall i :: 0 <= i < |ring[|history|..]| ==> ring[|history|..][i] == EMPTY
  {
    assert forall n :: 0 <= n < |history| ==> ring[Slot(n)] == history[n] && Slot(n) == n;
  }

  /** Looked at from the write position on, the ring shows its history's last ten records oldest
      first, after any slots not used yet. */
  lemma UnrolledIsRecent(ring: seq<Log>, history: seq<Log>)
    requires Holds(ring, history)
    ensures NonEmpty(Unrolled(ring, Slot(|history|))) == NonEmpty(Recent(history))
  {
    if |history| < LOG_BUFFER_LENGTH {
      UnrolledPartial(ring, history);
      EmptiesPrintNothing(ring[|history|..]);
      NonEmptyConcat(ring[|history|..], ring[..|history|]);
    } else {
      UnrolledFull(ring, history);
    }
  }

  /** Ten rounds of a dump look at every slot, and at none twice. */
  lemma EverySlotVisited(visited: seq<int>, start: int)
    requires |visited| == LOG_BUFFER_LENGTH && 0 <= start < LOG_BUFFER_LENGTH
    requires forall j :: 0 <= j < LOG_BUFFER_LENGTH ==> visited[j] == Visit(start, j)
    ensures forall s :: 0 <= s < LOG_BUFFER_LENGTH ==> s in visited
    ensures forall i, j :: 0 <= i < j < |visited| ==> visited[i] != visited[j]
  {
    forall s | 0 <= s < LOG_BUFFER_LENGTH
      ensures s in visited
    {
      var j := if s >= start then s - start else s - start + LOG_BUFFER_LENGTH;
      assert visited[j] == s;
    }
  }

  lemma NonEmptySnoc(logs: seq<Log>, i: nat)
    requires i < |logs|
    ensures NonEmpty(logs[..i + 1]) == NonEmpty(logs[..i]) + if logs[i].message == "" then [] else [logs[i]]
  {
    assert logs[..i + 1][..i] == logs[..i];
  }

  /** Writing a record to its slot replaces the record of ten before. */
  lemma RecordedHolds(ring: seq<Log>, history: seq<Log>, log: Log)
    requires Holds(ring, history)
    ensures Holds(ring[Slot(|history|) := log], history + [log])
  {
    hide Slot;
    var longer := history + [log];
    forall n | 0 <= n < |longer| && |longer| - LOG_BUFFER_LENGTH <= n
      ensures ring[Slot(|history|) := log][Slot(n)] == longer[n]
    {
      if n < |history| {
        SlotsDiffer(n, |history|);
      }
    }
    if |history| < LOG_BUFFER_LENGTH {
      LowSlot(|history|);
    }
  }

  class Ring {
    const logs: array<Log>
    var index: int
    ghost var history: seq<Log>

    /** Each of the last ten records is in its slot, a slot not used yet is empty, and the write
        position is where the next record goes. */
    ghost predicate Valid()
      reads this, logs
    {
      && logs.Length == LOG_BUFFER_LENGTH
      && 0 <= index <= LOG_BUFFER_LENGTH
      && index % LOG_BUFFER_LENGTH == Slot(|history|)
      && Holds(logs[..], history)
    }

    constructor ()
      ensures Valid() && history == [] && fresh(logs)
    {
      logs := new Log[LOG_BUFFER_LENGTH](_ => EMPTY);
      index := 0;
      history := [];
    }

    /** `RecordLog`; `locked` is the outcome of `try_lock`, and without the lock the record is lost. */
    method RecordLog(log: Log, locked: bool)
      requires Valid()
      modifies this, logs
      ensures Valid()
      ensures history == if locked then old(history) + [log] else old(history)
    {
      if !locked {
        return;
      }
      if index >= LOG_BUFFER_LENGTH {
        index := 0;
      }
      logs[index] := log;
      index := index + 1;
      RecordedHolds(old(logs[..]), history, log);
      assert logs[..] == old(logs[..])[Slot(|history|) := log];
      history := history + [log];
    }

    /** `DumpStopWatchLog`: prints the most recent ten records, oldest first, without the empty ones,
        looking at every slot once, and leaves the ring as it was. */
    method Dump() returns (printed: seq<Log>, ghost visited: seq<int>)
      requires Valid()
      modifies this`index
      ensures Valid()
      ensures printed == NonEmpty(Recent(history))
      ensures |visited| == 10 && forall s :: 0 <= s < 10 ==> s in visited
      ensures forall i, j :: 0 <= i < j < |visited| ==> visited[i] != visited[j]
      ensures index % LOG_BUFFER_LENGTH == old(index) % LOG_BUFFER_LENGTH
    {
      hide Holds, Recent;
      printed, visited := [], [];
      ghost var start := index % LOG_BUFFER_LENGTH;
      ghost var shown := Unrolled(logs[..], start);
      for i := 0 to LOG_BUFFER_LENGTH
        invariant index == Visit(start, i) || (index == LOG_BUFFER_LENGTH && Visit(start, i) == 0)
        invariant |visited| == i && forall j :: 0 <= j < i ==> visited[j] == Visit(start, j)
        invariant printed == NonEmpty(shown[..i])
      {
        if index >= LOG_BUFFER_LENGTH {
          index := 0;
        }
        visited := visited + [index];
        NonEmptySnoc(shown, i);
        assert shown[i] == logs[index];
        if |logs[index].message| == 0 {
          index := index + 1;
          continue;
        }
        printed := printed + [logs[index]];
        index := index + 1;
      }
      assert shown[..LOG_BUFFER_LENGTH] == shown;
      UnrolledIsRecent(logs[..], history);
      EverySlotVisited(visited, start);
    }
  }
}
