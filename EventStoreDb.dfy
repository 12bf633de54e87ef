/**
 * The event store backend, which the event store only reaches through its
 * interface (Load, LoadRange, LoadUncommitted, Append, Commit). Its state is a
 * map from aggregate id to the stream of stored events, each tagged with the
 * transaction that appended it and whether that transaction has committed.
 * The behaviour below is the backend contract the event store relies on;
 * the storage technology behind it is not part of this model.
 */
module EventStoreDb {
  import opened Events

  datatype StoredEvent = StoredEvent(wire: WireEvent, transactionId: string, committed: bool)

  type Db = map<string, seq<StoredEvent>>

  /** The stream of an aggregate; an unknown aggregate has an empty stream. */
  function Stream(db: Db, aggregateId: string): seq<StoredEvent>
  {
    if aggregateId in db then db[aggregateId] else []
  }

  /** The committed events of a stream, in stream order (what `Load` reads). */
  function Committed(s: seq<StoredEvent>): seq<WireEvent>
  {
    if s == [] then []
    else (if s[0].committed then [s[0].wire] else []) + Committed(s[1..])
  }

  /** The events of a read whose sequence id lies in `[start, end]`, in order. */
  function InRange(ws: seq<WireEvent>, start: int, end: int): seq<WireEvent>
  {
    if ws == [] then []
    else (if start <= ws[0].sequenceId <= end then [ws[0]] else []) + InRange(ws[1..], start, end)
  }

  /** A range read keeps exactly the events of the read whose sequence id lies in the range. */
  lemma {:induction false} InRangeMembers(ws: seq<WireEvent>, start: int, end: int)
    ensures forall w :: w in InRange(ws, start, end) <==> w in ws && start <= w.sequenceId <= end
  {
    if ws != [] {
      InRangeMembers(ws[1..], start, end);
      assert forall w :: w in ws <==> w == ws[0] || w in ws[1..];
    }
  }

  /** The events that transaction `tx` appended and has not yet committed, in order. */
  function Uncommitted(s: seq<StoredEvent>, tx: string): seq<WireEvent>
  {
    if s == [] then []
    else (if !s[0].committed && s[0].transactionId == tx then [s[0].wire] else []) + Uncommitted(s[1..], tx)
  }

  /** `Load` returns exactly the events of the stream that are committed. */
  lemma {:induction false} CommittedMembers(s: seq<StoredEvent>)
    ensures forall w :: w in Committed(s) <==> exists e :: e in s && e.committed && e.wire == w
  {
    if s != [] {
      CommittedMembers(s[1..]);
      assert forall e :: e in s <==> e == s[0] || e in s[1..];
    }
  }

  /** `LoadUncommitted` returns exactly the events of the stream still pending for `tx`. */
  lemma {:induction false} UncommittedMembers(s: seq<StoredEvent>, tx: string)
    ensures forall w :: w in Uncommitted(s, tx) <==>
      exists e :: e in s && !e.committed && e.transactionId == tx && e.wire == w
  {
    if s != [] {
      UncommittedMembers(s[1..], tx);
      assert forall e :: e in s <==> e == s[0] || e in s[1..];
    }
  }

  /** A batch as the backend stores it on append: tagged with `tx`, not committed. */
  function Pending(ws: seq<WireEvent>, tx: string): seq<StoredEvent>
  {
    seq(|ws|, i requires 0 <= i < |ws| => StoredEvent(ws[i], tx, false))
  }

  /** Marks every event of transaction `tx` committed; nothing else changes. */
  function CommitTx(s: seq<StoredEvent>, tx: string): (r: seq<StoredEvent>)
    ensures |r| == |s|
    ensures forall k :: 0 <= k < |s| ==>
      r[k].wire == s[k].wire && r[k].transactionId == s[k].transactionId &&
      r[k].committed == (s[k].committed || s[k].transactionId == tx)
  {
    if s == [] then []
    else [if s[0].transactionId == tx then s[0].(committed := true) else s[0]] + CommitTx(s[1..], tx)
  }

  /** The stream version the optimistic check compares against: its length. */
  function Version(db: Db, aggregateId: string): nat
  {
    |Stream(db, aggregateId)|
  }

  /**
   * Backend `Append`: when the stream is at `expectedVersion`, the batch is
   * appended uncommitted under `tx`; otherwise the call fails with a
   * concurrency conflict and nothing is appended.
   */
  function AppendTx(db: Db, aggregateId: string, tx: string, expectedVersion: int, ws: seq<WireEvent>): (r: Result<Db>)
    ensures r.Ok? <==> Version(db, aggregateId) == expectedVersion
    ensures r.Err? ==> r.error == ConcurrencyConflict
    ensures r.Ok? ==>
      Version(r.value, aggregateId) == expectedVersion + |ws| &&
      Committed(Stream(r.value, aggregateId)) == Committed(Stream(db, aggregateId)) &&
      Uncommitted(Stream(r.value, aggregateId), tx) == Uncommitted(Stream(db, aggregateId), tx) + ws &&
      (forall other :: other != aggregateId ==> Stream(r.value, other) == Stream(db, other))
  {
    if Version(db, aggregateId) == expectedVersion then
      var s := Stream(db, aggregateId);
      CommittedDistributes(s, Pending(ws, tx));
      UncommittedDistributes(s, Pending(ws, tx), tx);
      PendingViews(ws, tx);
      Ok(db[aggregateId := s + Pending(ws, tx)])
    else
      Err(ConcurrencyConflict)
  }

  /** Backend `Commit` of transaction `tx` on one stream. */
  function CommitDb(db: Db, aggregateId: string, tx: string): Db
  {
    db[aggregateId := CommitTx(Stream(db, aggregateId), tx)]
  }

  // ----- lemmas about the backend views -----

  lemma {:induction false} CommittedDistributes(a: seq<StoredEvent>, b: seq<StoredEvent>)
    ensures Committed(a + b) == Committed(a) + Committed(b)
  {
    if a == [] {
      assert a + b == b;
    } else {
      var head := if a[0].committed then [a[0].wire] else [];
      assert (a + b)[0] == a[0];
      assert (a + b)[1..] == a[1..] + b;
      CommittedDistributes(a[1..], b);
      assert Committed(a + b) == head + (Committed(a[1..]) + Committed(b));
      assert Committed(a) == head + Committed(a[1..]);
      assert head + (Committed(a[1..]) + Committed(b)) == (head + Committed(a[1..])) + Committed(b);
    }
  }

  lemma {:induction false} UncommittedDistributes(a: seq<StoredEvent>, b: seq<StoredEvent>, tx: string)
    ensures Uncommitted(a + b, tx) == Uncommitted(a, tx) + Uncommitted(b, tx)
  {
    if a == [] {
      assert a + b == b;
    } else {
      var head := if !a[0].committed && a[0].transactionId == tx then [a[0].wire] else [];
      assert (a + b)[0] == a[0];
      assert (a + b)[1..] == a[1..] + b;
      UncommittedDistributes(a[1..], b, tx);
      assert Uncommitted(a + b, tx) == head + (Uncommitted(a[1..], tx) + Uncommitted(b, tx));
      assert Uncommitted(a, tx) == head + Uncommitted(a[1..], tx);
      assert head + (Uncommitted(a[1..], tx) + Uncommitted(b, tx)) == (head + Uncommitted(a[1..], tx)) + Uncommitted(b, tx);
    }
  }

  /** A freshly appended batch is invisible to readers and pending in full for its transaction. */
  lemma {:induction false} PendingViews(ws: seq<WireEvent>, tx: string)
    ensures Committed(Pending(ws, tx)) == []
    ensures Uncommitted(Pending(ws, tx), tx) == ws
    ensures Committed(CommitTx(Pending(ws, tx), tx)) == ws
  {
    if ws != [] {
      assert Pending(ws, tx)[1..] == Pending(ws[1..], tx);
      PendingViews(ws[1..], tx);
      assert CommitTx(Pending(ws, tx), tx)[1..] == CommitTx(Pending(ws[1..], tx), tx);
    }
  }

  /** After a commit of `tx`, nothing of `tx` is pending: a second recovery finds nothing. */
  lemma {:induction false} CommitLeavesNothingPending(s: seq<StoredEvent>, tx: string)
    ensures Uncommitted(CommitTx(s, tx), tx) == []
  {
    if s != [] {
      assert CommitTx(s, tx)[1..] == CommitTx(s[1..], tx);
      CommitLeavesNothingPending(s[1..], tx);
    }
  }

  /** Committing a transaction with nothing pending changes nothing. */
  lemma {:induction false} CommitWithoutPendingIsNoOp(s: seq<StoredEvent>, tx: string)
    requires Uncommitted(s, tx) == []
    ensures CommitTx(s, tx) == s
  {
    if s != [] {
      CommitWithoutPendingIsNoOp(s[1..], tx);
    }
  }

  /**
   * What a reader sees after a commit: exactly the events that were committed
   * before, plus the ones the transaction had pending.
   */
  lemma {:induction false} CommitPublishesPending(s: seq<StoredEvent>, tx: string)
    ensures forall w :: w in Committed(CommitTx(s, tx)) <==> w in Committed(s) || w in Uncommitted(s, tx)
  {
    if s != [] {
      assert CommitTx(s, tx)[1..] == CommitTx(s[1..], tx);
      CommitPublishesPending(s[1..], tx);
    }
  }

  /**
   * Append-then-commit on a stream with nothing pending for `tx` extends the
   * committed view by exactly the batch, in order.
   */
  lemma CommitAfterAppend(s: seq<StoredEvent>, ws: seq<WireEvent>, tx: string)
    requires Uncommitted(s, tx) == []
    ensures Committed(CommitTx(s + Pending(ws, tx), tx)) == Committed(s) + ws
  {
    CommitDistributes(s, Pending(ws, tx), tx);
    CommitWithoutPendingIsNoOp(s, tx);
    CommittedDistributes(s, CommitTx(Pending(ws, tx), tx));
    PendingViews(ws, tx);
  }

  /**
   * Append-then-commit in general: readers end up seeing what was committed
   * before, whatever `tx` still had pending from an earlier attempt, and the
   * batch.
   */
  lemma AppendCommitsEarlierPending(s: seq<StoredEvent>, ws: seq<WireEvent>, tx: string)
    ensures forall w :: w in Committed(CommitTx(s + Pending(ws, tx), tx)) <==>
      w in Committed(s) || w in Uncommitted(s, tx) || w in ws
  {
    CommitPublishesPending(s + Pending(ws, tx), tx);
    CommittedDistributes(s, Pending(ws, tx));
    UncommittedDistributes(s, Pending(ws, tx), tx);
    PendingViews(ws, tx);
  }

  lemma {:induction false} CommitDistributes(a: seq<StoredEvent>, b: seq<StoredEvent>, tx: string)
    ensures CommitTx(a + b, tx) == CommitTx(a, tx) + CommitTx(b, tx)
  {
    if a == [] {
      assert a + b == b;
    } else {
      assert (a + b)[1..] == a[1..] + b;
      CommitDistributes(a[1..], b, tx);
    }
  }

  // ----- ordering of sequence ids -----

  /** Sequence ids strictly increase along a read (true of a well-formed stream). */
  ghost predicate Increasing(ws: seq<WireEvent>)
  {
    forall i, j :: 0 <= i < j < |ws| ==> ws[i].sequenceId < ws[j].sequenceId
  }

  lemma {:induction false} InRangeIncreasing(ws: seq<WireEvent>, start: int, end: int)
    requires Increasing(ws)
    ensures Increasing(InRange(ws, start, end))
  {
    if ws != [] {
      var rest := InRange(ws[1..], start, end);
      InRangeIncreasing(ws[1..], start, end);
      InRangeMembers(ws[1..], start, end);
      forall w | w in rest ensures ws[0].sequenceId < w.sequenceId {
        var j :| 0 <= j < |ws[1..]| && ws[1..][j] == w;
        assert ws[j + 1] == w;
      }
    }
  }

  /** In an increasing read the last event carries the largest sequence id. */
  lemma LastIsLargest(ws: seq<WireEvent>, w: WireEvent)
    requires Increasing(ws) && w in ws
    ensures w.sequenceId <= ws[|ws| - 1].sequenceId
  {
    var i :| 0 <= i < |ws| && ws[i] == w;
    if i < |ws| - 1 {
      assert ws[i].sequenceId < ws[|ws| - 1].sequenceId;
    }
  }

  /**
   * Reading again from just past the last event of a range read, under the same
   * ceiling, finds nothing: the first read already reached the top of the range.
   */
  lemma NothingPastLastOfRange(ws: seq<WireEvent>, start: int, end: int)
    requires Increasing(ws)
    requires InRange(ws, start, end) != []
    ensures var r := InRange(ws, start, end);
      InRange(ws, r[|r| - 1].sequenceId + 1, end) == []
  {
    var r := InRange(ws, start, end);
    var last := r[|r| - 1];
    assert last in r;
    var again := InRange(ws, last.sequenceId + 1, end);
    InRangeMembers(ws, start, end);
    InRangeMembers(ws, last.sequenceId + 1, end);
    if again != [] {
      var w := again[0];
      assert w in again;
      assert w in r;
      InRangeIncreasing(ws, start, end);
      LastIsLargest(r, w);
      assert false;
    }
  }

  function Clamp(x: int, n: nat): (c: nat)
  {
    if x < 0 then 0 else if x > n then n else x
  }

  /** A read whose sequence ids run base + 1, base + 2, ...; from base 0, a stream numbered 1, 2, 3, ... */
  ghost predicate RunFrom(ws: seq<WireEvent>, base: int)
  {
    forall i :: 0 <= i < |ws| ==> ws[i].sequenceId == base + i + 1
  }

  lemma RunTail(ws: seq<WireEvent>, base: int)
    requires RunFrom(ws, base) && ws != []
    ensures ws[0].sequenceId == base + 1 && RunFrom(ws[1..], base + 1)
  {
    assert ws[0].sequenceId == base + 1;
    forall i | 0 <= i < |ws[1..]| ensures ws[1..][i].sequenceId == (base + 1) + i + 1 {
      assert ws[1..][i] == ws[i + 1];
    }
  }

  /** On a run, a range read is the corresponding slice. */
  lemma {:induction false} InRangeOfRun(ws: seq<WireEvent>, base: int, start: int, end: int)
    requires RunFrom(ws, base)
    requires start - 1 <= end
    ensures InRange(ws, start, end) == ws[Clamp(start - 1 - base, |ws|)..Clamp(end - base, |ws|)]
  {
    if ws != [] {
      var tail := ws[1..];
      RunTail(ws, base);
      InRangeOfRun(tail, base + 1, start, end);
      InRangeStep(ws, base, start, end, InRange(tail, start, end));
    }
  }

  /** The inductive step of `InRangeOfRun`, from the slice the tail gives. */
  lemma InRangeStep(ws: seq<WireEvent>, base: int, start: int, end: int, rest: seq<WireEvent>)
    requires ws != [] && ws[0].sequenceId == base + 1 && start - 1 <= end
    requires rest == InRange(ws[1..], start, end)
    requires rest == ws[1..][Clamp(start - 2 - base, |ws| - 1)..Clamp(end - 1 - base, |ws| - 1)]
    ensures InRange(ws, start, end) == ws[Clamp(start - 1 - base, |ws|)..Clamp(end - base, |ws|)]
  {
    assert InRange(ws, start, end) == (if start <= base + 1 <= end then [ws[0]] else []) + rest;
    var lo, hi := Clamp(start - 1 - base, |ws|), Clamp(end - base, |ws|);
    if start <= base + 1 <= end {
      assert rest == ws[1..hi] by {
        assert Clamp(start - 2 - base, |ws| - 1) == 0;
        assert Clamp(end - 1 - base, |ws| - 1) == hi - 1;
      }
      assert ws[lo..hi] == [ws[0]] + ws[1..hi];
    } else if base + 1 < start {
      assert rest == ws[lo..hi] by {
        assert Clamp(start - 2 - base, |ws| - 1) == lo - 1;
        assert Clamp(end - 1 - base, |ws| - 1) == hi - 1;
        assert 1 <= lo <= hi <= |ws|;
        assert ws[1..][lo - 1..hi - 1] == ws[lo..hi];
      }
    } else {
      assert hi == 0;
    }
  }

  /** On a contiguous stream, a range read is a slice. */
  lemma InRangeOfContiguous(ws: seq<WireEvent>, start: int, end: int)
    requires RunFrom(ws, 0)
    requires start - 1 <= end
    ensures InRange(ws, start, end) == ws[Clamp(start - 1, |ws|)..Clamp(end, |ws|)]
  {
    InRangeOfRun(ws, 0, start, end);
  }
}
