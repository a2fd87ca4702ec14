/**
 * The JSON report (index.js:120-123, 133-135): the ledger entries seen in the
 * last ten minutes, most recent first. `Array.prototype.sort` is stable, so
 * entries with equal timestamps keep their ledger order; the sort is modelled
 * as a stable insertion sort on timestamps.
 */
module Report {
  import opened Ledger

  const TenMinInMillis: int := 600000

  /** `inLastTenMin()(pilotInfo)` at the instant `now` (epoch milliseconds). */
  predicate InLastTenMin(now: int, pilot: PilotEntry) {
    now - pilot.timestamp < TenMinInMillis
  }

  /** `badBehavingPilots.filter(inLastTenMin())`: the recent entries, in ledger order. */
  function RecentPilots(pilots: seq<PilotEntry>, now: int): (r: seq<PilotEntry>)
    ensures |r| <= |pilots|
    ensures forall e :: e in r <==> e in pilots && InLastTenMin(now, e)
    ensures forall e :: multiset(r)[e] == if InLastTenMin(now, e) then multiset(pilots)[e] else 0
  {
    if pilots == [] then []
    else
      var rest := RecentPilots(pilots[1..], now);
      assert pilots == [pilots[0]] + pilots[1..];
      if InLastTenMin(now, pilots[0]) then [pilots[0]] + rest else rest
  }

  /** Timestamps never increase along the sequence. */
  predicate NewestFirst(s: seq<PilotEntry>) {
    forall i, j :: 0 <= i < j < |s| ==> s[i].timestamp >= s[j].timestamp
  }

  /** The entries of `s` with timestamp `t`, in order. */
  function WithTimestamp(s: seq<PilotEntry>, t: int): seq<PilotEntry> {
    if s == [] then []
    else (if s[0].timestamp == t then [s[0]] else []) + WithTimestamp(s[1..], t)
  }

  /** Puts `x` before the first entry that is not newer than it. */
  function InsertNewestFirst(x: PilotEntry, s: seq<PilotEntry>): (r: seq<PilotEntry>)
    requires NewestFirst(s)
    ensures NewestFirst(r)
    ensures multiset(r) == multiset(s) + multiset{x}
    ensures |r| == |s| + 1 && (r[0] == x || (s != [] && r[0] == s[0]))
  {
    if s == [] || s[0].timestamp <= x.timestamp then [x] + s
    else
      var rest := InsertNewestFirst(x, s[1..]);
      assert s == [s[0]] + s[1..];
      assert rest[0].timestamp <= s[0].timestamp;
      assert NewestFirst([s[0]] + rest) by {
        forall i, j | 0 <= i < j < |rest| + 1
          ensures ([s[0]] + rest)[i].timestamp >= ([s[0]] + rest)[j].timestamp
        {
          if i == 0 && j > 1 {
            assert rest[0].timestamp >= rest[j - 1].timestamp;
          }
        }
      }
      [s[0]] + rest
  }

  /** `.sort((a, b) => b.timestamp - a.timestamp)`: newest first, ties in input order. */
  function SortNewestFirst(s: seq<PilotEntry>): (r: seq<PilotEntry>)
    ensures NewestFirst(r)
    ensures multiset(r) == multiset(s)
  {
    if s == [] then []
    else
      assert s == [s[0]] + s[1..];
      InsertNewestFirst(s[0], SortNewestFirst(s[1..]))
  }

  /** Filtering by timestamp distributes over a leading element. */
  lemma WithTimestampCons(e: PilotEntry, s: seq<PilotEntry>, t: int)
    ensures WithTimestamp([e] + s, t) == (if e.timestamp == t then [e] else []) + WithTimestamp(s, t)
  {
    assert ([e] + s)[1..] == s;
  }

  /** Inserting `x` keeps, among entries of any one timestamp, `x` first and the rest in order. */
  lemma {:induction false} InsertKeepsTies(x: PilotEntry, s: seq<PilotEntry>, t: int)
    requires NewestFirst(s)
    ensures WithTimestamp(InsertNewestFirst(x, s), t) == WithTimestamp([x] + s, t)
  {
    if s != [] && s[0].timestamp > x.timestamp {
      var rest := InsertNewestFirst(x, s[1..]);
      assert InsertNewestFirst(x, s) == [s[0]] + rest;
      var head: seq<PilotEntry> := if s[0].timestamp == t then [s[0]] else [];
      var mid: seq<PilotEntry> := if x.timestamp == t then [x] else [];
      var tail := WithTimestamp(s[1..], t);
      InsertKeepsTies(x, s[1..], t);
      WithTimestampCons(x, s[1..], t);
      assert WithTimestamp(rest, t) == mid + tail;
      WithTimestampCons(s[0], rest, t);
      assert WithTimestamp([s[0]] + rest, t) == head + (mid + tail);
      WithTimestampCons(s[0], s[1..], t);
      assert [s[0]] + s[1..] == s;
      assert WithTimestamp(s, t) == head + tail;
      WithTimestampCons(x, s, t);
      assert WithTimestamp([x] + s, t) == mid + (head + tail);
      assert head == [] || mid == [];
    }
  }

  /** The sort is stable: the entries of each timestamp come out in input order. */
  lemma {:induction false} SortIsStable(s: seq<PilotEntry>, t: int)
    ensures WithTimestamp(SortNewestFirst(s), t) == WithTimestamp(s, t)
  {
    if s != [] {
      SortIsStable(s[1..], t);
      InsertKeepsTies(s[0], SortNewestFirst(s[1..]), t);
      WithTimestampCons(s[0], SortNewestFirst(s[1..]), t);
      WithTimestampCons(s[0], s[1..], t);
      assert [s[0]] + s[1..] == s;
    }
  }

  /** Filtering keeps ledger order: the filter of a concatenation is the concatenation of the filters. */
  lemma {:induction false} RecentPilotsAppend(a: seq<PilotEntry>, b: seq<PilotEntry>, now: int)
    ensures RecentPilots(a + b, now) == RecentPilots(a, now) + RecentPilots(b, now)
  {
    if a == [] {
      assert a + b == b;
    } else {
      assert (a + b)[0] == a[0];
      assert (a + b)[1..] == a[1..] + b;
      RecentPilotsAppend(a[1..], b, now);
    }
  }

  /** The entries of timestamp `t` that the window keeps: all of them, in ledger order, or none. */
  function TiesInWindow(pilots: seq<PilotEntry>, now: int, t: int): seq<PilotEntry> {
    if now - t < TenMinInMillis then WithTimestamp(pilots, t) else []
  }

  /** Among entries of one timestamp, the window keeps all of them, in ledger order, or none. */
  lemma {:induction false} RecentKeepsTieOrder(pilots: seq<PilotEntry>, now: int, t: int)
    ensures WithTimestamp(RecentPilots(pilots, now), t) == TiesInWindow(pilots, now, t)
  {
    if pilots != [] {
      var rest := RecentPilots(pilots[1..], now);
      RecentKeepsTieOrder(pilots[1..], now, t);
      WithTimestampCons(pilots[0], pilots[1..], t);
      assert [pilots[0]] + pilots[1..] == pilots;
      if InLastTenMin(now, pilots[0]) {
        WithTimestampCons(pilots[0], rest, t);
      }
    }
  }

  /**
   * The array the report endpoint serialises: exactly the entries seen less
   * than 600000 ms before `now`, as a permutation of the recent subset, newest
   * first, and for every timestamp the entries carrying it in ledger order
   * (all of them when that timestamp is recent, none otherwise).
   */
  function BadPilots(pilots: seq<PilotEntry>, now: int): (r: seq<PilotEntry>)
    ensures NewestFirst(r)
    ensures multiset(r) == multiset(RecentPilots(pilots, now))
    ensures forall e :: e in r <==> e in pilots && InLastTenMin(now, e)
    ensures forall t :: WithTimestamp(r, t) == TiesInWindow(pilots, now, t)
  {
    var recent := RecentPilots(pilots, now);
    var r := SortNewestFirst(recent);
    assert forall e :: e in r <==> e in recent by {
      forall e ensures e in r <==> e in recent {
        assert e in r <==> e in multiset(r);
        assert e in recent <==> e in multiset(recent);
      }
    }
    assert forall t :: WithTimestamp(r, t) == TiesInWindow(pilots, now, t)
    by {
      forall t ensures WithTimestamp(r, t) == TiesInWindow(pilots, now, t)
      {
        SortIsStable(recent, t);
        RecentKeepsTieOrder(pilots, now, t);
      }
    }
    r
  }

  /** The window is strict: 601000 ms old is out, 599000 ms old is in, exactly 600000 ms is out. */
  lemma WindowExamples(pilot: PilotEntry, now: int)
    ensures !InLastTenMin(now, pilot.(timestamp := now - 601000))
    ensures InLastTenMin(now, pilot.(timestamp := now - 599000))
    ensures !InLastTenMin(now, pilot.(timestamp := now - 600000))
  {}
}
