/**
 The compaction policy of `sendDocUpdate`: append the new fragment, and when
 the appended list reaches the threshold replace it by one merged fragment.
 */
module Compaction {
  import opened Storage

  /** The two `Date.now()` readings one write takes: one stamps the appended
      fragment, the later one stamps a merged fragment. */
  datatype Clock = Clock(appendTime: int, mergeTime: int)

  /** One `sendDocUpdate(guid, update)` call as it reaches the row. */
  datatype Write = Write(update: Bytes, clock: Clock)

  /** `mergeCount && rows.length >= mergeCount`, where `rows` already holds the new fragment:
      only a zero threshold switches compaction off. */
  predicate ShouldCompact(mergeCount: int, appendedLength: nat)
  {
    mergeCount != 0 && appendedLength >= mergeCount
  }

  /** The row written back by one write, given the row read before it. */
  function NextRows(mergeCount: int, yjs: Crdt, prev: seq<UpdateMessage>, w: Write): (r: seq<UpdateMessage>)
    ensures ShouldCompact(mergeCount, |prev| + 1) ==>
              && |r| == 1
              && r[0].timestamp == w.clock.mergeTime
              && r[0].update == yjs.merge(Payloads(prev) + [w.update])
    ensures !ShouldCompact(mergeCount, |prev| + 1) ==>
              && |r| == |prev| + 1
              && r[..|prev|] == prev
              && r[|prev|] == UpdateMessage(w.clock.appendTime, w.update)
  {
    var rows := prev + [UpdateMessage(w.clock.appendTime, w.update)];
    if ShouldCompact(mergeCount, |rows|) then
      PayloadsAppend(prev, [UpdateMessage(w.clock.appendTime, w.update)]);
      assert Payloads([UpdateMessage(w.clock.appendTime, w.update)]) == [w.update];
      [UpdateMessage(w.clock.mergeTime, yjs.merge(Payloads(rows)))]
    else
      rows
  }

  /** The row after a series of writes, applied in call order. */
  function Replay(mergeCount: int, yjs: Crdt, rows: seq<UpdateMessage>, ws: seq<Write>): seq<UpdateMessage>
    decreases |ws|
  {
    if ws == [] then rows
    else Replay(mergeCount, yjs, NextRows(mergeCount, yjs, rows, ws[0]), ws[1..])
  }

  /** The updates a series of writes carries, in call order. */
  function Updates(ws: seq<Write>): seq<Bytes>
  {
    MapSeq(ws, (w: Write) => w.update)
  }

  /** A threshold of 0 never compacts: the row is the old row with every written fragment appended in order. */
  lemma {:induction false} ReplayWithoutCompaction(yjs: Crdt, rows: seq<UpdateMessage>, ws: seq<Write>)
    ensures |Replay(0, yjs, rows, ws)| == |rows| + |ws|
    ensures Replay(0, yjs, rows, ws)[..|rows|] == rows
    ensures Payloads(Replay(0, yjs, rows, ws)) == Payloads(rows) + Updates(ws)
    decreases |ws|
  {
    if ws != [] {
      var msg := UpdateMessage(ws[0].clock.appendTime, ws[0].update);
      var next := NextRows(0, yjs, rows, ws[0]);
      assert next == rows + [msg];
      ReplayWithoutCompaction(yjs, next, ws[1..]);
      assert Replay(0, yjs, rows, ws) == Replay(0, yjs, next, ws[1..]);
      PayloadsAppend(rows, [msg]);
      assert Payloads([msg]) == [ws[0].update];
      UpdatesCons(ws);
      assert Payloads(next) + Updates(ws[1..]) == Payloads(rows) + Updates(ws);
    }
  }

  /** A negative threshold or a threshold of 1 compacts on every write: the row never holds more than one fragment. */
  lemma {:induction false} ReplayEagerCompaction(mergeCount: int, yjs: Crdt, rows: seq<UpdateMessage>, ws: seq<Write>)
    requires mergeCount < 0 || mergeCount == 1
    requires ws != []
    ensures |Replay(mergeCount, yjs, rows, ws)| == 1
    decreases |ws|
  {
    var next := NextRows(mergeCount, yjs, rows, ws[0]);
    if |ws| > 1 {
      ReplayEagerCompaction(mergeCount, yjs, next, ws[1..]);
    }
  }

  /** The number of fragments a row holds after `n` writes, starting from `start` fragments,
      under a threshold `m >= 2`: it climbs to `m - 1` and then falls back to 1 on every `m - 1`-th write. */
  function CycleLength(m: int, start: nat, n: nat): nat
    requires m >= 2 && start < m
  {
    if start + n < m then start + n else (start + n - m) % (m - 1) + 1
  }

  lemma ModShift(a: nat, m: int)
    requires m >= 1
    ensures (a + m) % m == a % m
  {
    var q, r := a / m, a % m;
    var q', r' := (a + m) / m, (a + m) % m;
    assert m * (q' - q - 1) == r - r';
    SmallMultipleIsZero(m, q' - q - 1);
  }

  lemma SmallMultipleIsZero(m: int, k: int)
    requires m >= 1 && -m < m * k < m
    ensures k == 0
  {
  }

  /** One write moves the cycle one step: from `m - 1` fragments back to 1, otherwise up by one. */
  lemma CycleStep(m: int, start: nat, n: nat)
    requires m >= 2 && start < m && n >= 1
    ensures CycleLength(m, start, n) == CycleLength(m, if start + 1 == m then 1 else start + 1, n - 1)
  {
    if start + 1 == m {
      if n >= m {
        CycleWrap(m, n);
      } else {
        ModBelow(n - 1, m - 1);
      }
    }
  }

  /** A full row that wraps back to one fragment continues the same cycle. */
  lemma CycleWrap(m: int, n: nat)
    requires m >= 2 && n >= m
    ensures CycleLength(m, m - 1, n) == CycleLength(m, 1, n - 1)
  {
    var k, a := m - 1, n - m;
    ModShift(a, k);
    assert a + k == n - 1;
    assert CycleLength(m, m - 1, n) == (a + k) % k + 1;
    assert CycleLength(m, 1, n - 1) == a % k + 1;
  }

  lemma ModBelow(a: int, k: int)
    requires 0 <= a < k
    ensures a % k == a
  {
  }

  /** Under a threshold `m >= 2` the row length follows `CycleLength` exactly. */
  lemma {:induction false} ReplayLength(m: int, yjs: Crdt, rows: seq<UpdateMessage>, ws: seq<Write>)
    requires m >= 2 && |rows| < m
    ensures |Replay(m, yjs, rows, ws)| == CycleLength(m, |rows|, |ws|)
    decreases |ws|
  {
    if ws != [] {
      var next := NextRows(m, yjs, rows, ws[0]);
      assert |next| == if |rows| + 1 == m then 1 else |rows| + 1;
      ReplayLength(m, yjs, next, ws[1..]);
      CycleStep(m, |rows|, |ws|);
    }
  }

  /** The most fragments a row keeps under a positive threshold `m`: `max(1, m - 1)`. */
  function MaxRowLength(m: int): int
  {
    if m <= 1 then 1 else m - 1
  }

  /** With a positive threshold `m`, a row within `max(1, m - 1)` fragments (in particular one below `m`)
      stays within that bound after any series of writes. */
  lemma {:induction false} ReplayBounded(m: int, yjs: Crdt, rows: seq<UpdateMessage>, ws: seq<Write>)
    requires m > 0 && |rows| <= MaxRowLength(m)
    ensures |Replay(m, yjs, rows, ws)| <= MaxRowLength(m)
    decreases |ws|
  {
    if ws != [] {
      var next := NextRows(m, yjs, rows, ws[0]);
      ReplayBounded(m, yjs, next, ws[1..]);
    }
  }

  /** With `mergeCount = 3`, the third write to a new document leaves a single fragment, not three. */
  lemma ThirdWriteCompacts(yjs: Crdt, w1: Write, w2: Write, w3: Write)
    ensures |Replay(3, yjs, [], [w1, w2])| == 2
    ensures |Replay(3, yjs, [], [w1, w2, w3])| == 1
  {
    ReplayLength(3, yjs, [], [w1, w2]);
    ReplayLength(3, yjs, [], [w1, w2, w3]);
  }

  /** The property of Yjs `mergeUpdates` that compaction relies on: merging a merged prefix
      together with later updates gives what merging everything at once gives. */
  ghost predicate MergeAbsorbs(merge: seq<Bytes> -> Bytes)
  {
    forall xs: seq<Bytes>, ys: seq<Bytes> :: AbsorbsAt(merge, xs, ys)
  }

  ghost predicate AbsorbsAt(merge: seq<Bytes> -> Bytes, xs: seq<Bytes>, ys: seq<Bytes>)
  {
    merge([merge(xs)] + ys) == merge(xs + ys)
  }

  /** Under `MergeAbsorbs`, payload lists that merge alike still merge alike once the same updates follow them. */
  lemma MergeCongruence(merge: seq<Bytes> -> Bytes, p: seq<Bytes>, q: seq<Bytes>, u: seq<Bytes>)
    requires MergeAbsorbs(merge) && merge(p) == merge(q)
    ensures merge(p + u) == merge(q + u)
  {
    assert AbsorbsAt(merge, p, u);
    assert AbsorbsAt(merge, q, u);
  }

  lemma UpdatesCons(ws: seq<Write>)
    requires ws != []
    ensures Updates(ws) == [ws[0].update] + Updates(ws[1..])
  {
  }

  /** Compaction is invisible to readers: merging the written row gives what merging
      the old row with the new update gives, whether or not the write compacted. */
  lemma CompactionInvisible(mergeCount: int, yjs: Crdt, prev: seq<UpdateMessage>, w: Write)
    requires MergeAbsorbs(yjs.merge)
    ensures yjs.merge(Payloads(NextRows(mergeCount, yjs, prev, w))) == yjs.merge(Payloads(prev) + [w.update])
  {
    var r := NextRows(mergeCount, yjs, prev, w);
    if ShouldCompact(mergeCount, |prev| + 1) {
      assert AbsorbsAt(yjs.merge, Payloads(prev) + [w.update], []);
      assert Payloads(r) == [yjs.merge(Payloads(prev) + [w.update])] + [];
      assert Payloads(prev) + [w.update] + [] == Payloads(prev) + [w.update];
    } else {
      assert r == prev + [UpdateMessage(w.clock.appendTime, w.update)];
      PayloadsAppend(prev, [UpdateMessage(w.clock.appendTime, w.update)]);
      assert Payloads([UpdateMessage(w.clock.appendTime, w.update)]) == [w.update];
    }
  }

  /** Whatever the threshold, merging the row after a series of writes gives what merging
      the old row's payloads followed by every written update gives. */
  lemma {:induction false} ReplayPreservesState(mergeCount: int, yjs: Crdt, rows: seq<UpdateMessage>, ws: seq<Write>)
    requires MergeAbsorbs(yjs.merge)
    ensures yjs.merge(Payloads(Replay(mergeCount, yjs, rows, ws))) == yjs.merge(Payloads(rows) + Updates(ws))
    decreases |ws|
  {
    if ws == [] {
      assert Payloads(rows) + Updates(ws) == Payloads(rows);
    } else {
      var next := NextRows(mergeCount, yjs, rows, ws[0]);
      ReplayPreservesState(mergeCount, yjs, next, ws[1..]);
      CompactionInvisible(mergeCount, yjs, rows, ws[0]);
      var q, u := Payloads(rows) + [ws[0].update], Updates(ws[1..]);
      MergeCongruence(yjs.merge, Payloads(next), q, u);
      UpdatesCons(ws);
      assert q + u == Payloads(rows) + Updates(ws);
    }
  }
}
