/** The bounded index of one sandbox's recent events. */
module Retention {
  import opened Events

  const DefaultStreamBufferBytes := 262144
  const TwoTo64: int := 0x1_0000_0000_0000_0000

  /** Every event ever published, in order: the i-th carries sequence number i. */
  predicate Stamped(log: seq<Event>) {
    forall i :: 0 <= i < |log| ==> log[i].seqNo == i + 1
  }

  /** `k` is where a ring with this budget starts: the longest suffix of the log that
      fits, or only the newest event if no suffix does. */
  ghost predicate IsOldest(limit: int, log: seq<Event>, k: nat) {
    && (log == [] ==> k == 0)
    && (log != [] ==> k < |log| && (TotalSize(log[k..]) <= limit || k == |log| - 1))
    && forall j :: 0 <= j < k ==> TotalSize(log[j..]) > limit
  }

  /** In bytes: the newest `n` events fit the budget, 256 bytes going to each besides its
      text, or are a single event; and with the next older one they would not fit. */
  predicate FillsBudget(limit: int, log: seq<Event>, n: nat)
    requires 0 < n <= |log|
  {
    && (n == 1 || 256 * n + TextBytes(log[|log| - n..]) <= limit)
    && (n < |log| ==> 256 * (n + 1) + TextBytes(log[|log| - n - 1..]) > limit)
  }

  /** What is retained of a log fills the budget. */
  lemma HeldInBytes(limit: int, log: seq<Event>, k: nat)
    requires IsOldest(limit, log, k) && log != []
    ensures k < |log| && FillsBudget(limit, log, |log| - k)
  {
    TotalSizeInBytes(log[k..]);
    if k > 0 {
      TotalSizeInBytes(log[k - 1..]);
    }
  }

  lemma OldestUnique(limit: int, log: seq<Event>, k: nat, k': nat)
    requires IsOldest(limit, log, k) && IsOldest(limit, log, k')
    ensures k == k'
  {
  }

  /** Where the ring starts after evicting from `k` on: it drops the oldest event
      while more than one is left and the budget is exceeded. */
  function Evict(limit: int, log: seq<Event>, k: nat): (k': nat)
    requires k < |log|
    ensures k <= k' < |log|
    decreases |log| - k
  {
    if k + 1 < |log| && TotalSize(log[k..]) > limit then Evict(limit, log, k + 1) else k
  }

  /** Adding an event and evicting finds the new start. */
  lemma AppendKeepsOldest(limit: int, log: seq<Event>, e: Event, k: nat)
    requires IsOldest(limit, log, k)
    ensures IsOldest(limit, log + [e], Evict(limit, log + [e], k))
  {
    forall j | 0 <= j < k ensures TotalSize((log + [e])[j..]) > limit {
      assert (log + [e])[j..] == log[j..] + [e];
      TotalSizeAppend(log[j..], [e]);
    }
    EvictIsOldest(limit, log + [e], k);
  }

  lemma {:induction false} EvictIsOldest(limit: int, log: seq<Event>, k: nat)
    requires k < |log| && forall j :: 0 <= j < k ==> TotalSize(log[j..]) > limit
    ensures IsOldest(limit, log, Evict(limit, log, k))
    decreases |log| - k
  {
    hide TotalSize;
    if k + 1 < |log| && TotalSize(log[k..]) > limit {
      EvictIsOldest(limit, log, k + 1);
    }
  }

  /** Adding one to a 64-bit position. */
  function Next64(after: nat): nat { (after + 1) % TwoTo64 }

  /** What a ring starting at `k` answers a watcher resuming after `after`. */
  function SinceIn(log: seq<Event>, k: nat, after: nat): (r: (seq<Event>, nat))
    requires k <= |log|
  {
    if k == |log| then ([], 0)
    else
      (if after < |log| then log[(if after < k then k else after)..] else [], Skipped(k, after))
  }

  /** How many events a ring starting at `k` says a watcher at `after` has missed. */
  function Skipped(k: nat, after: nat): nat {
    if k + 1 > Next64(after) then (k - after) % TwoTo64 else 0
  }

  /** For a position a watcher can have reached, the count is exactly the number of
      events skipped, the rest of the log follows, and a gap never stands alone. */
  lemma SinceMeaning(limit: int, log: seq<Event>, k: nat, after: nat)
    requires IsOldest(limit, log, k) && after <= |log| < TwoTo64 - 1
    ensures var (events, missed) := SinceIn(log, k, after);
            var from := if after < k then k else after;
            && events == log[from..]
            && missed == from - after
            && (missed > 0 ==> events != [])
  {
  }

  /** Over every 64-bit position, a reported gap is followed by an event exactly when
      adding one to the position does not wrap. */
  lemma GapFollowedExactly(limit: int, log: seq<Event>, k: nat, after: nat)
    requires IsOldest(limit, log, k) && log != [] && |log| < TwoTo64 - 1 && after < TwoTo64
    ensures var (events, missed) := SinceIn(log, k, after);
            (missed > 0 ==> events != []) <==> after != TwoTo64 - 1
  {
    if after == TwoTo64 - 1 {
      assert Next64(after) == 0;
      assert k - after == (k + 1) + (-1) * TwoTo64;
      assert (k - after) % TwoTo64 == k + 1;
    }
  }

  lemma EvictStep(limit: int, log: seq<Event>, s: nat)
    requires s < |log|
    ensures TotalSize(log[s..]) == Size(log[s]) + TotalSize(log[s + 1..])
    ensures Evict(limit, log, s)
            == if s + 1 < |log| && TotalSize(log[s..]) > limit then Evict(limit, log, s + 1) else s
  {
    assert log[s..][1..] == log[s + 1..];
  }

  lemma StampedSnoc(log: seq<Event>, e: Event)
    requires Stamped(log) && e.seqNo == |log| + 1
    ensures Stamped(log + [e])
  {
  }

  /** What appending an event makes of the log, and of what is retained of it. */
  lemma AppendFacts(limit: int, log: seq<Event>, e: Event, k: nat, events: seq<Event>)
    requires Stamped(log) && IsOldest(limit, log, k) && e.seqNo == |log| + 1
    ensures k < |log + [e]| && Stamped(log + [e]) && TotalSize(events + [e]) == TotalSize(events) + Size(e)
    ensures var k' := Evict(limit, log + [e], k);
            IsOldest(limit, log + [e], k') && FillsBudget(limit, log + [e], |log| + 1 - k')
  {
    OldestIn(limit, log, k);
    hide IsOldest, Stamped, Size, TotalSize, Evict, FillsBudget;
    StampedSnoc(log, e);
    AppendKeepsOldest(limit, log, e, k);
    TotalSizeSnoc(events, e);
    HeldInBytes(limit, log + [e], Evict(limit, log + [e], k));
  }

  lemma OldestIn(limit: int, log: seq<Event>, k: nat)
    requires IsOldest(limit, log, k)
    ensures k <= |log|
  {
  }

  lemma StampedAt(log: seq<Event>, k: nat)
    requires Stamped(log) && k < |log|
    ensures log[k].seqNo == k + 1
  {
  }

  lemma NothingSince(log: seq<Event>, after: nat)
    ensures SinceIn(log, |log|, after) == ([], 0)
  {
  }

  lemma ScanFound(log: seq<Event>, k: nat, after: nat, i: nat)
    requires Stamped(log) && k + i < |log| && log[k + i].seqNo > after
    requires i > 0 ==> log[k + i - 1].seqNo <= after
    ensures SinceIn(log, k, after) == (log[k + i..], Skipped(k, after))
  {
  }

  lemma ScanEnds(log: seq<Event>, k: nat, after: nat)
    requires Stamped(log) && k < |log| && log[|log| - 1].seqNo <= after
    ensures SinceIn(log, k, after) == ([], Skipped(k, after))
  {
  }

  class Ring {
    const limitBytes: int
    var bytes: int
    var events: seq<Event>
    var nextSeq: nat

    /** The sandbox whose events these are. */
    ghost const id: string

    /** Everything ever appended, which `events` stands in for. */
    ghost var log: seq<Event>

    ghost function Start(): int
      reads this
    {
      |log| - |events|
    }

    ghost predicate Valid()
      reads this
    {
      && limitBytes > 0
      && nextSeq == |log| + 1 && Stamped(log)
      && |events| <= |log| && events == log[|log| - |events|..]
      && IsOldest(limitBytes, log, |log| - |events|)
      && bytes == TotalSize(events)
    }

    constructor (limit: int, ghost id: string)
      ensures Valid() && this.id == id && log == [] && limitBytes == if limit <= 0 then 262144 else limit
    {
      limitBytes := if limit <= 0 then DefaultStreamBufferBytes else limit;
      this.id := id;
      bytes, events, nextSeq, log := 0, [], 1, [];
    }

    method Append(e: Event) returns (stamped: Event)
      requires Valid()
      modifies this
      ensures Valid()
      ensures stamped == e.(seqNo := |old(log)| + 1) && log == old(log) + [stamped]
      ensures 0 <= old(Start()) < |log| && Start() == Evict(limitBytes, log, old(Start()))
      ensures 0 < |events| <= |log| && FillsBudget(limitBytes, log, |events|)
    {
      hide IsOldest, Stamped, Size, TotalSize, Evict, FillsBudget;
      ghost var k := Start();
      stamped := e.(seqNo := nextSeq);
      AppendFacts(limitBytes, log, stamped, k, events);
      nextSeq := nextSeq + 1;
      log := log + [stamped];
      events := events + [stamped];
      bytes := bytes + Size(stamped);
      DropOldest(k);
    }

    /** Evicts from the front, starting at `k`, until the budget is met or one event is left. */
    method DropOldest(ghost k: nat)
      requires k < |log| && events == log[k..] && bytes == TotalSize(events)
      modifies `events, `bytes
      ensures |events| <= |log| && events == log[|log| - |events|..] && bytes == TotalSize(events)
      ensures Start() == Evict(limitBytes, log, k)
    {
      hide IsOldest, Stamped, Size, TotalSize, Evict;
      ghost var s := k;
      while |events| > 1 && bytes > limitBytes
        invariant k <= s < |log| && events == log[s..]
        invariant bytes == TotalSize(events)
        invariant Evict(limitBytes, log, s) == Evict(limitBytes, log, k)
      {
        assert events[1..] == log[s + 1..];
        EvictStep(limitBytes, log, s);
        bytes := bytes - Size(events[0]);
        events := events[1..];
        s := s + 1;
      }
      EvictStep(limitBytes, log, s);
      assert s == Start();
    }

    method Since(after: nat) returns (found: seq<Event>, missed: nat)
      requires Valid() && after < TwoTo64
      ensures (found, missed) == SinceIn(log, Start(), after)
    {
      hide IsOldest, TotalSize, Size, Evict, SinceIn, Stamped, Next64;
      if |events| == 0 {
        NothingSince(log, after);
        return [], 0;
      }
      var oldest := events[0].seqNo;
      ghost var k := Start();
      StampedAt(log, k);
      missed := 0;
      if oldest > Next64(after) {
        missed := (oldest - after - 1) % TwoTo64;
      }
      var i := 0;
      while i < |events|
        invariant 0 <= i <= |events|
        invariant i > 0 ==> log[k + i - 1].seqNo <= after
      {
        if events[i].seqNo > after {
          assert events[i..] == log[k + i..];
          ScanFound(log, k, after, i);
          return events[i..], missed;
        }
        i := i + 1;
      }
      ScanEnds(log, k, after);
      return [], missed;
    }

    method LastSeq() returns (n: nat)
      requires Valid()
      ensures n == |log|
    {
      if |events| == 0 {
        return 0;
      }
      return events[|events| - 1].seqNo;
    }
  }
}
