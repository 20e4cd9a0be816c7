/**
 The server's pool of connection slots: `conns` is an array of slot numbers whose prefix of
 length `connsCnt` is serviced by every poll and shrinks by swapping with its last entry.
 What the network and the request handler do during a turn is a parameter; the handler may
 also disconnect other slots of the pool.
 */
module ConnectionPool {
  import opened Seqs

  const NEVER := 0xffff_ffff_ffff_ffff

  /** `connected` is the socket's state; `open` that the WebSocket handshake has succeeded. */
  datatype Connection = Connection(connected: bool, open: bool, expireTime: int)

  /** What one turn does: does the socket survive its read, is the handshake accepted, are bytes
      consumed, and which other slots does the handler disconnect meanwhile. */
  datatype ReadOutcome = ReadOutcome(survives: bool, opens: bool, consumes: bool, drops: set<nat>)

  datatype Deadlines = Deadlines(now: int, newExpire: int, openExpire: int)

  /** Slot states and the logs of slots read from, handshakes accepted and closes reported. */
  datatype Snapshot = Snapshot(data: seq<Connection>, read: seq<nat>, accepted: seq<nat>, closed: seq<nat>)

  function Expiry(now: int, timeout: nat): int {
    if timeout != 0 then now + timeout else NEVER
  }

  // -------------------------------------------------------------------- one turn

  /** One connection after its turn: read, expiry refresh, timeout check. */
  function AfterTurn(c: Connection, o: ReadOutcome, t: Deadlines): Connection {
    var open := c.open || (c.connected && o.opens);
    var expireTime := if c.connected && o.consumes then (if open then t.openExpire else t.newExpire) else c.expireTime;
    Connection(c.connected && o.survives && t.now <= expireTime, open, expireTime)
  }

  function Dropped(data: seq<Connection>, drops: set<nat>): (r: seq<Connection>)
    ensures |r| == |data|
  {
    seq(|data|, j requires 0 <= j < |data| => if j in drops then data[j].(connected := false) else data[j])
  }

  function LogIf(log: seq<nat>, c: bool, k: nat): seq<nat> {
    if c then log + [k] else log
  }

  function Turned(a: Snapshot, k: nat, o: ReadOutcome, t: Deadlines): (b: Snapshot)
    requires k < |a.data|
    ensures |b.data| == |a.data|
  {
    var c := AfterTurn(a.data[k], o, t);
    Snapshot(Dropped(a.data, o.drops)[k := c], a.read + [k],
             LogIf(a.accepted, c.open && !a.data[k].open, k), LogIf(a.closed, c.open && !c.connected, k))
  }

  function Times(log: seq<nat>, k: nat): nat {
    multiset(log)[k]
  }

  lemma LoggedIf(log: seq<nat>, c: bool, k: nat, j: nat)
    ensures Times(LogIf(log, c, k), j) == Times(log, j) + (if c && j == k then 1 else 0)
  {
    assert multiset(log + [k]) == multiset(log) + multiset{k};
  }

  /** What a turn of slot `k` means for slot `j`. */
  lemma TurnEffect(a: Snapshot, k: nat, o: ReadOutcome, t: Deadlines, j: nat)
    requires k < |a.data| && j < |a.data|
    ensures var b, c := Turned(a, k, o, t), AfterTurn(a.data[k], o, t);
      && Times(b.read, j) == Times(a.read, j) + (if j == k then 1 else 0)
      && Times(b.accepted, j) == Times(a.accepted, j) + (if j == k && c.open && !a.data[k].open then 1 else 0)
      && Times(b.closed, j) == Times(a.closed, j) + (if j == k && c.open && !c.connected then 1 else 0)
      && b.data[j] == if j == k then c else if j in o.drops then a.data[j].(connected := false) else a.data[j]
  {
    var c := AfterTurn(a.data[k], o, t);
    LoggedIf(a.read, true, k, j);
    LoggedIf(a.accepted, c.open && !a.data[k].open, k, j);
    LoggedIf(a.closed, c.open && !c.connected, k, j);
  }

  // ------------------------------------------------------------------ a whole round

  /** Distinct slots, in the order of their turns. */
  ghost predicate Order(order: seq<nat>, n: nat) {
    order == [] || (Last(order) < n && Last(order) !in Front(order) && Order(Front(order), n))
  }

  function Round(a: Snapshot, order: seq<nat>, outcomes: seq<ReadOutcome>, t: Deadlines): (b: Snapshot)
    requires Order(order, |a.data|) && |outcomes| == |a.data|
    ensures |b.data| == |a.data|
  {
    if order == [] then a else Turned(Round(a, Front(order), outcomes, t), Last(order), outcomes[Last(order)], t)
  }

  /** The slots that were connected at the end of their own turn; the pool keeps them. */
  function Kept(a: Snapshot, order: seq<nat>, outcomes: seq<ReadOutcome>, t: Deadlines): set<nat>
    requires Order(order, |a.data|) && |outcomes| == |a.data|
  {
    if order == [] then {}
    else
      Kept(a, Front(order), outcomes, t) +
      (if Round(a, order, outcomes, t).data[Last(order)].connected then {Last(order)} else {})
  }

  /** What a round means for slot `k`: read exactly once when it is its turn, every handshake
      reported when accepted, a close reported exactly when the pool does not keep the slot. */
  ghost predicate Serviced(a: Snapshot, b: Snapshot, order: seq<nat>, kept: set<nat>, k: nat) {
    && k < |a.data| == |b.data|
    && Times(b.read, k) == Times(a.read, k) + (if k in order then 1 else 0)
    && Times(b.accepted, k) == Times(a.accepted, k) + (if k in order && b.data[k].open && !a.data[k].open then 1 else 0)
    && Times(b.closed, k) == Times(a.closed, k) + (if k in order && b.data[k].open && k !in kept then 1 else 0)
    && (a.data[k].open ==> b.data[k].open)
    && (k !in order ==> b.data[k].open == a.data[k].open && k !in kept)
    && (b.data[k].connected ==> a.data[k].connected && (k in order ==> k in kept))
    && (!a.data[k].connected ==> b.data[k].open == a.data[k].open && k !in kept)
  }

  lemma {:induction false} RoundServices(a: Snapshot, order: seq<nat>, outcomes: seq<ReadOutcome>, t: Deadlines, k: nat)
    requires Order(order, |a.data|) && |outcomes| == |a.data| && k < |a.data|
    ensures Serviced(a, Round(a, order, outcomes, t), order, Kept(a, order, outcomes, t), k)
    decreases |order|
  {
    if order != [] {
      var mid, last := Round(a, Front(order), outcomes, t), Last(order);
      RoundServices(a, Front(order), outcomes, t, k);
      TurnEffect(mid, last, outcomes[last], t, k);
      assert order == Front(order) + [last];
    }
  }

  /** The handler of a later turn disconnects slot `k`, which has had its own. */
  ghost predicate DroppedLater(order: seq<nat>, outcomes: seq<ReadOutcome>, k: nat)
    requires Order(order, |outcomes|)
  {
    order != [] && k != Last(order) &&
    (DroppedLater(Front(order), outcomes, k) || (k in Front(order) && k in outcomes[Last(order)].drops))
  }

  /** A slot that had its turn is connected after the round exactly when the pool kept it and no
      later turn dropped it. */
  lemma {:induction false} ConnectedAfterRound(a: Snapshot, order: seq<nat>, outcomes: seq<ReadOutcome>, t: Deadlines, k: nat)
    requires Order(order, |a.data|) && |outcomes| == |a.data| && k in order
    ensures k < |a.data|
    ensures Round(a, order, outcomes, t).data[k].connected <==>
            k in Kept(a, order, outcomes, t) && !DroppedLater(order, outcomes, k)
    decreases |order|
  {
    var mid, last := Round(a, Front(order), outcomes, t), Last(order);
    assert order == Front(order) + [last];
    if k != last {
      ConnectedAfterRound(a, Front(order), outcomes, t, k);
      TurnEffect(mid, last, outcomes[last], t, k);
    } else {
      NotDroppedYet(Front(order), outcomes, k);
      KeptHadTurn(a, Front(order), outcomes, t);
    }
  }

  lemma {:induction false} NotDroppedYet(order: seq<nat>, outcomes: seq<ReadOutcome>, k: nat)
    requires Order(order, |outcomes|) && k !in order
    ensures !DroppedLater(order, outcomes, k)
  {
    if order != [] {
      NotDroppedYet(Front(order), outcomes, k);
    }
  }

  lemma {:induction false} KeptHadTurn(a: Snapshot, order: seq<nat>, outcomes: seq<ReadOutcome>, t: Deadlines)
    requires Order(order, |a.data|) && |outcomes| == |a.data|
    ensures forall k :: k in Kept(a, order, outcomes, t) ==> k in order
  {
    if order != [] {
      KeptHadTurn(a, Front(order), outcomes, t);
      assert order == Front(order) + [Last(order)];
    }
  }

  // --------------------------------------------------------------- the slot array

  predicate Differ(conns: seq<nat>, i: nat, j: nat)
    requires i < |conns| && j < |conns|
  {
    conns[i] != conns[j]
  }

  /** The array holds slot numbers, none twice. */
  ghost predicate Arrangement(conns: seq<nat>) {
    && (forall i :: 0 <= i < |conns| ==> conns[i] < |conns|)
    && (forall i, j :: 0 <= i < j < |conns| ==> Differ(conns, i, j))
  }

  function Elements(s: seq<nat>): set<nat> {
    set k | k in s
  }

  lemma NoSlotTwice(conns: seq<nat>, i: nat, j: nat)
    requires Arrangement(conns) && i < |conns| && j < |conns| && i != j
    ensures conns[i] != conns[j]
  {
    assert if i < j then Differ(conns, i, j) else Differ(conns, j, i);
  }

  /** Numbers below `n`: at most `n` of them, and all of them when there are `n`. */
  lemma {:induction false} Pigeonhole(s: set<nat>, n: nat)
    requires forall k :: k in s ==> k < n
    ensures |s| <= n
    ensures |s| == n ==> forall k: nat :: k < n ==> k in s
  {
    if n > 0 {
      Pigeonhole(s - {n - 1}, n - 1);
    } else {
      assert s == {};
    }
  }

  lemma {:induction false} DistinctSize(s: seq<nat>)
    requires forall i, j :: 0 <= i < j < |s| ==> Differ(s, i, j)
    ensures |Elements(s)| == |s|
  {
    if s != [] {
      var rest, last := s[..|s| - 1], |s| - 1;
      forall i, j | 0 <= i < j < |rest| ensures Differ(rest, i, j) {
        assert Differ(s, i, j);
      }
      DistinctSize(rest);
      forall i | 0 <= i < last ensures rest[i] != s[last] {
        assert Differ(s, i, last);
      }
      assert s == rest + [s[last]];
      assert Elements(s) == Elements(rest) + {s[last]};
    }
  }

  /** An arrangement misses no slot: it is a permutation of all of them. */
  lemma ArrangementIsPermutation(conns: seq<nat>)
    requires Arrangement(conns)
    ensures forall k: nat :: k < |conns| <==> k in conns
  {
    DistinctSize(conns);
    Pigeonhole(Elements(conns), |conns|);
    forall k: nat ensures k < |conns| <==> k in conns {
      assert k in conns <==> k in Elements(conns);
    }
  }

  function Swapped(s: seq<nat>, i: nat, j: nat): (r: seq<nat>)
    requires i < |s| && j < |s|
    ensures |r| == |s|
  {
    s[i := s[j]][j := s[i]]
  }

  lemma SwapInPrefix(s: seq<nat>, i: nat, j: nat, n: nat)
    requires i < n <= |s| && j < n
    ensures Elements(Swapped(s, i, j)[..n]) == Elements(s[..n]) && Swapped(s, i, j)[n..] == s[n..]
  {
    var p, q := s[..n], Swapped(s, i, j)[..n];
    assert q == p[i := p[j]][j := p[i]];
    assert forall x :: 0 <= x < n ==> p[x] == q[if x == i then j else if x == j then i else x];
    assert q[i] in p && q[j] in p;
  }

  lemma SwapArranged(s: seq<nat>, i: nat, j: nat)
    requires Arrangement(s) && i < |s| && j < |s|
    ensures Arrangement(Swapped(s, i, j))
  {
    var r := Swapped(s, i, j);
    forall x, y | 0 <= x < y < |r| ensures Differ(r, x, y) {
      var x0 := if x == i then j else if x == j then i else x;
      var y0 := if y == i then j else if y == j then i else y;
      NoSlotTwice(s, x0, y0);
      assert r[x] == s[x0] && r[y] == s[y0];
    }
  }

  // ---------------------------------------------------------- halfway through a round

  /** Where position `j` stands: its slot has had its turn when `j` is before `i` or between
      `cnt` and `start`, and was kept when `j` is before `cnt`. */
  ghost predicate Placed(conns: seq<nat>, i: nat, cnt: nat, done: set<nat>, kept: set<nat>, start: nat, j: nat) {
    && j < |conns|
    && (conns[j] in done <==> j < i || cnt <= j < start)
    && (conns[j] in kept <==> j < i)
  }

  ghost predicate AllPlaced(conns: seq<nat>, i: nat, cnt: nat, done: set<nat>, kept: set<nat>, start: nat) {
    forall j :: 0 <= j < |conns| ==> Placed(conns, i, cnt, done, kept, start, j)
  }

  /** The slots of the prefix stay in it, and the others where they are. */
  ghost predicate PrefixKept(conns: seq<nat>, done: set<nat>, arranged: seq<nat>, start: nat) {
    && start <= |conns| == |arranged|
    && done <= Elements(conns[..start]) == Elements(arranged[..start])
    && conns[start..] == arranged[start..]
  }

  /** The state of the loop. */
  ghost predicate Midway(conns: seq<nat>, i: nat, cnt: nat, done: set<nat>, kept: set<nat>, arranged: seq<nat>, start: nat) {
    && Arrangement(conns)
    && i <= cnt <= start
    && AllPlaced(conns, i, cnt, done, kept, start)
    && PrefixKept(conns, done, arranged, start)
  }

  lemma InPrefix(s: seq<nat>, i: nat, n: nat)
    requires i < n <= |s|
    ensures s[i] in Elements(s[..n])
  {
    assert s[..n][i] == s[i];
  }

  lemma Advance(conns: seq<nat>, i: nat, cnt: nat, done: set<nat>, kept: set<nat>, arranged: seq<nat>, start: nat)
    requires Midway(conns, i, cnt, done, kept, arranged, start) && i < cnt
    ensures Midway(conns, i + 1, cnt, done + {conns[i]}, kept + {conns[i]}, arranged, start)
  {
    var more, ours, after := done + {conns[i]}, kept + {conns[i]}, i + 1;
    forall j | 0 <= j < |conns| ensures Placed(conns, after, cnt, more, ours, start, j) {
      assert Placed(conns, i, cnt, done, kept, start, j);
      if j != i {
        NoSlotTwice(conns, j, i);
      }
    }
    InPrefix(conns, i, start);
  }

  /** After a swap with the last of the prefix, position `j` stands right again. */
  lemma PlacedAfterSwap(conns: seq<nat>, i: nat, cnt: nat, done: set<nat>, kept: set<nat>, start: nat, j: nat)
    requires Arrangement(conns) && i < cnt <= start <= |conns| && j < |conns|
    requires Placed(conns, i, cnt, done, kept, start, i) && Placed(conns, i, cnt, done, kept, start, j)
    requires Placed(conns, i, cnt, done, kept, start, cnt - 1)
    ensures Placed(Swapped(conns, i, cnt - 1), i, cnt - 1, done + {conns[i]}, kept, start, j)
  {
    var after, last := Swapped(conns, i, cnt - 1), cnt - 1;
    if j == last {
      assert after[j] == conns[i];
    } else if j == i {
      NoSlotTwice(conns, last, i);
      assert after[j] == conns[last];
    } else {
      NoSlotTwice(conns, j, i);
      assert after[j] == conns[j];
    }
  }

  lemma SwapKeepsPrefix(conns: seq<nat>, i: nat, last: nat, done: set<nat>, arranged: seq<nat>, start: nat)
    requires PrefixKept(conns, done, arranged, start) && i < start && last < start
    ensures PrefixKept(Swapped(conns, i, last), done + {conns[i]}, arranged, start)
  {
    SwapInPrefix(conns, i, last, start);
    InPrefix(conns, i, start);
  }

  lemma SwapKeepsPlaces(conns: seq<nat>, i: nat, cnt: nat, done: set<nat>, kept: set<nat>, start: nat)
    requires Arrangement(conns) && i < cnt <= start <= |conns|
    requires AllPlaced(conns, i, cnt, done, kept, start)
    ensures AllPlaced(Swapped(conns, i, cnt - 1), i, cnt - 1, done + {conns[i]}, kept, start)
  {
    var after, more, last := Swapped(conns, i, cnt - 1), done + {conns[i]}, cnt - 1;
    forall j | 0 <= j < |after| ensures Placed(after, i, last, more, kept, start, j) {
      PlacedAfterSwap(conns, i, cnt, done, kept, start, j);
    }
  }

  /** The swap-remove of a connection that is gone. */
  lemma Retire(conns: seq<nat>, i: nat, cnt: nat, done: set<nat>, kept: set<nat>, arranged: seq<nat>, start: nat)
    requires Midway(conns, i, cnt, done, kept, arranged, start) && i < cnt
    ensures Midway(Swapped(conns, i, cnt - 1), i, cnt - 1, done + {conns[i]}, kept, arranged, start)
  {
    SwapKeepsPrefix(conns, i, cnt - 1, done, arranged, start);
    SwapKeepsPlaces(conns, i, cnt, done, kept, start);
    SwapArranged(conns, i, cnt - 1);
  }

  /** At the end all of the prefix has had its turn, and the new prefix is what was kept. */
  lemma Finished(conns: seq<nat>, cnt: nat, done: set<nat>, kept: set<nat>, arranged: seq<nat>, start: nat)
    requires Midway(conns, cnt, cnt, done, kept, arranged, start)
    ensures done == Elements(arranged[..start])
    ensures forall j :: 0 <= j < |conns| ==> (conns[j] in done <==> j < start) && (conns[j] in kept <==> j < cnt)
  {
    forall j | 0 <= j < |conns| ensures (conns[j] in done <==> j < start) && (conns[j] in kept <==> j < cnt) {
      assert Placed(conns, cnt, cnt, done, kept, start, j);
    }
    forall k | k in Elements(conns[..start]) ensures k in done {
      var j :| 0 <= j < start && conns[..start][j] == k;
      assert Placed(conns, cnt, cnt, done, kept, start, j);
    }
  }

  /** Every accepted handshake of slot `k` has been reported closed once, or its session is still
      open and the slot in the prefix. */
  ghost predicate Balanced(a: Snapshot, k: nat, inPrefix: bool) {
    && k < |a.data|
    && Times(a.accepted, k) == Times(a.closed, k) + (if inPrefix && a.data[k].open then 1 else 0)
  }

  /** What a round leaves behind when it started from a valid pool: the prefix is what was kept;
      what lies behind it is disconnected; reports stay balanced. */
  lemma RoundKeeps(a: Snapshot, arranged: seq<nat>, start: nat, order: seq<nat>, outcomes: seq<ReadOutcome>, t: Deadlines,
                   conns: seq<nat>, cnt: nat, i: nat)
    requires |outcomes| == |a.data| == |arranged| && start <= |arranged| && Order(order, |a.data|)
    requires Midway(conns, cnt, cnt, Elements(order), Kept(a, order, outcomes, t), arranged, start)
    requires forall j :: 0 <= j < |arranged| ==> Balanced(a, arranged[j], j < start)
    requires forall j :: start <= j < |arranged| ==> arranged[j] < |a.data| && !a.data[arranged[j]].connected
    requires i < |conns|
    ensures var b := Round(a, order, outcomes, t);
      Balanced(b, conns[i], i < cnt) && (b.data[conns[i]].connected ==> i < cnt)
  {
    var k := conns[i];
    RoundServices(a, order, outcomes, t, k);
    Finished(conns, cnt, Elements(order), Kept(a, order, outcomes, t), arranged, start);
    assert k in order <==> k in Elements(order);
    if i < start {
      InPrefix(conns, i, start);
      var p :| 0 <= p < start && arranged[..start][p] == k;
      assert Balanced(a, arranged[p], true);
    } else {
      assert conns[start..][i - start] == arranged[start..][i - start];
      assert Balanced(a, arranged[i], false);
    }
  }

  /** Nobody whom the pool kept was dropped by a later turn of the round. */
  ghost predicate NoLateDrops(a: Snapshot, order: seq<nat>, outcomes: seq<ReadOutcome>, t: Deadlines)
    requires Order(order, |a.data|) && |outcomes| == |a.data|
  {
    forall k :: k in Kept(a, order, outcomes, t) ==> !DroppedLater(order, outcomes, k)
  }

  ghost predicate PrefixExact(conns: seq<nat>, cnt: nat, data: seq<Connection>) {
    forall i :: 0 <= i < |conns| ==> conns[i] < |data| && (data[conns[i]].connected <==> i < cnt)
  }

  /** The prefix is exactly the connected slots if and only if nobody was dropped late. */
  lemma ExactlyWithoutLateDrops(a: Snapshot, arranged: seq<nat>, start: nat, order: seq<nat>, outcomes: seq<ReadOutcome>,
                                t: Deadlines, conns: seq<nat>, cnt: nat)
    requires |outcomes| == |a.data| == |arranged| == |conns| && start <= |arranged| && Order(order, |a.data|)
    requires Midway(conns, cnt, cnt, Elements(order), Kept(a, order, outcomes, t), arranged, start)
    requires var b := Round(a, order, outcomes, t); forall i :: 0 <= i < |conns| ==> (b.data[conns[i]].connected ==> i < cnt)
    ensures PrefixExact(conns, cnt, Round(a, order, outcomes, t).data) <==> NoLateDrops(a, order, outcomes, t)
  {
    var b, kept := Round(a, order, outcomes, t), Kept(a, order, outcomes, t);
    Finished(conns, cnt, Elements(order), kept, arranged, start);
    KeptHadTurn(a, order, outcomes, t);
    forall i | 0 <= i < cnt ensures b.data[conns[i]].connected <==> !DroppedLater(order, outcomes, conns[i]) {
      assert conns[i] in kept && conns[i] in order;
      ConnectedAfterRound(a, order, outcomes, t, conns[i]);
    }
    ArrangementIsPermutation(conns);
    if PrefixExact(conns, cnt, b.data) {
      forall k | k in kept ensures !DroppedLater(order, outcomes, k) {
        ConnectedAfterRound(a, order, outcomes, t, k);
        assert k in conns;
        var i :| 0 <= i < |conns| && conns[i] == k;
      }
    }
  }

  ghost predicate NobodyDrops(outcomes: seq<ReadOutcome>) {
    forall k :: 0 <= k < |outcomes| ==> outcomes[k].drops == {}
  }

  /** A caller can rely on it when no handler disconnects anybody. */
  lemma {:induction false} NoneDroppedLater(order: seq<nat>, outcomes: seq<ReadOutcome>, k: nat)
    requires Order(order, |outcomes|) && NobodyDrops(outcomes)
    ensures !DroppedLater(order, outcomes, k)
  {
    if order != [] {
      NoneDroppedLater(Front(order), outcomes, k);
    }
  }

  lemma NobodyDropsLate(a: Snapshot, order: seq<nat>, outcomes: seq<ReadOutcome>, t: Deadlines)
    requires Order(order, |a.data|) && |outcomes| == |a.data| && NobodyDrops(outcomes)
    ensures NoLateDrops(a, order, outcomes, t)
  {
    forall k | k in Kept(a, order, outcomes, t) ensures !DroppedLater(order, outcomes, k) {
      NoneDroppedLater(order, outcomes, k);
    }
  }

  /** It can happen: a valid pool with two open sessions, and the second's handler disconnects
      the first. */
  lemma LateDropHappens()
    ensures var c := Connection(true, true, 100); var a := Snapshot([c, c], [0, 1], [0, 1], []);
      var outcomes := [ReadOutcome(true, false, false, {}), ReadOutcome(true, false, false, {0})];
      && Balanced(a, 0, true) && Balanced(a, 1, true)
      && Order([0, 1], 2) && 0 in Kept(a, [0, 1], outcomes, Deadlines(0, 0, 0))
      && !Round(a, [0, 1], outcomes, Deadlines(0, 0, 0)).data[0].connected
  {
    var c := Connection(true, true, 100);
    var a, t := Snapshot([c, c], [0, 1], [0, 1], []), Deadlines(0, 0, 0);
    var outcomes := [ReadOutcome(true, false, false, {}), ReadOutcome(true, false, false, {0})];
    assert Order([], 2);
    OneMoreTurn(a, [], 0, outcomes, t);
    OneMoreTurn(a, [0], 1, outcomes, t);
    assert [] + [0] == [0] && [0] + [1] == [0, 1];
    assert multiset([0, 1])[0] == 1 && multiset([0, 1])[1] == 1;
  }

  /** A slot that is still in the prefix but disconnected when a round starts leaves it, and its
      open session is reported closed. */
  lemma StaleRetired(a: Snapshot, order: seq<nat>, outcomes: seq<ReadOutcome>, t: Deadlines, k: nat)
    requires Order(order, |a.data|) && |outcomes| == |a.data| && k in order && k < |a.data| && !a.data[k].connected
    ensures k !in Kept(a, order, outcomes, t)
    ensures var b := Round(a, order, outcomes, t);
      Times(b.closed, k) == Times(a.closed, k) + (if a.data[k].open then 1 else 0)
  {
    RoundServices(a, order, outcomes, t, k);
  }

  // ----------------------------------------------------------------------- deadlines

  ghost predicate Undropped(outcomes: seq<ReadOutcome>, k: nat) {
    forall j :: 0 <= j < |outcomes| && j != k ==> k !in outcomes[j].drops
  }

  /** Until its turn a slot can only be disconnected by the handlers of others. */
  lemma {:induction false} BeforeTurn(a: Snapshot, order: seq<nat>, outcomes: seq<ReadOutcome>, t: Deadlines, k: nat)
    requires Order(order, |a.data|) && |outcomes| == |a.data| && k < |a.data| && k !in order
    ensures var d, e := a.data[k], Round(a, order, outcomes, t).data[k];
      e == d || e == d.(connected := false)
    ensures Undropped(outcomes, k) ==> Round(a, order, outcomes, t).data[k] == a.data[k]
    decreases |order|
  {
    if order != [] {
      assert order == Front(order) + [Last(order)];
      BeforeTurn(a, Front(order), outcomes, t, k);
      TurnEffect(Round(a, Front(order), outcomes, t), Last(order), outcomes[Last(order)], t, k);
    }
  }

  /** A slot's fields after the round, if its turn left it as `e`. */
  ghost predicate FieldsOf(d: Connection, e: Connection, o: ReadOutcome, t: Deadlines) {
    && (e.open ==> d.open || (d.connected && o.opens))
    && (!(d.connected && o.consumes) ==> e.expireTime == d.expireTime)
    && (e.connected ==> d.connected && o.survives && t.now <= e.expireTime)
  }

  ghost predicate ExactFieldsOf(d: Connection, e: Connection, o: ReadOutcome, t: Deadlines) {
    && (e.open <==> d.open || (d.connected && o.opens))
    && e.expireTime == (if d.connected && o.consumes then (if e.open then t.openExpire else t.newExpire) else d.expireTime)
    && (e.connected <==> d.connected && o.survives && t.now <= e.expireTime)
  }

  lemma {:induction false} RoundFields(a: Snapshot, order: seq<nat>, outcomes: seq<ReadOutcome>, t: Deadlines, k: nat)
    requires Order(order, |a.data|) && |outcomes| == |a.data| && k < |a.data| && k in order
    ensures var d, e, o := a.data[k], Round(a, order, outcomes, t).data[k], outcomes[k];
      && FieldsOf(d, e, o, t)
      && (k in Kept(a, order, outcomes, t) ==> d.connected && o.survives && t.now <= e.expireTime)
    ensures Undropped(outcomes, k) ==> ExactFieldsOf(a.data[k], Round(a, order, outcomes, t).data[k], outcomes[k], t)
    decreases |order|
  {
    var mid, last := Round(a, Front(order), outcomes, t), Last(order);
    assert order == Front(order) + [last];
    TurnEffect(mid, last, outcomes[last], t, k);
    if k == last {
      BeforeTurn(a, Front(order), outcomes, t, k);
      KeptHadTurn(a, Front(order), outcomes, t);
    } else {
      RoundFields(a, Front(order), outcomes, t, k);
    }
  }

  lemma {:induction false} NeverDroppedLater(order: seq<nat>, outcomes: seq<ReadOutcome>, k: nat)
    requires Order(order, |outcomes|) && Undropped(outcomes, k)
    ensures !DroppedLater(order, outcomes, k)
  {
    if order != [] {
      NeverDroppedLater(Front(order), outcomes, k);
    }
  }

  /** What a poll at time `now` makes of slot `k` that takes a turn. The deadline moves only when
      bytes are consumed. Past it, a slot that consumed none is disconnected, leaves the prefix and
      is reported closed once if it was open. A slot that nobody else's handler disconnects stays
      exactly when it survives its read and is not past its deadline. */
  ghost predicate Timely(a: Snapshot, b: Snapshot, outcomes: seq<ReadOutcome>, k: nat, now: int,
                         newTimeout: nat, openTimeout: nat, inPrefix: bool) {
    && k < |a.data| == |b.data| == |outcomes|
    && var d, e, o := a.data[k], b.data[k], outcomes[k];
       var timeout := if e.open then openTimeout else newTimeout;
       && (!(d.connected && o.consumes) ==> e.expireTime == d.expireTime)
       && (!o.consumes && d.expireTime < now ==>
             !e.connected && !inPrefix && Times(b.closed, k) == Times(a.closed, k) + (if e.open then 1 else 0))
       && (Undropped(outcomes, k) ==>
             && (e.open <==> d.open || (d.connected && o.opens))
             && (d.connected && o.consumes ==> e.expireTime == if timeout == 0 then 0xffff_ffff_ffff_ffff else now + timeout)
             && (e.connected <==> d.connected && o.survives && now <= e.expireTime)
             && (inPrefix <==> e.connected)
             && Times(b.closed, k) == Times(a.closed, k) + (if e.open && !e.connected then 1 else 0))
  }

  lemma RoundTimely(a: Snapshot, arranged: seq<nat>, start: nat, order: seq<nat>, outcomes: seq<ReadOutcome>,
                    conns: seq<nat>, cnt: nat, k: nat, now: int, newTimeout: nat, openTimeout: nat)
    requires |outcomes| == |a.data| && Order(order, |a.data|) && k in order && k < |a.data| && cnt <= |conns|
    requires var t := Deadlines(now, Expiry(now, newTimeout), Expiry(now, openTimeout));
      Midway(conns, cnt, cnt, Elements(order), Kept(a, order, outcomes, t), arranged, start)
    ensures var t := Deadlines(now, Expiry(now, newTimeout), Expiry(now, openTimeout));
      Timely(a, Round(a, order, outcomes, t), outcomes, k, now, newTimeout, openTimeout, k in conns[..cnt])
  {
    var t := Deadlines(now, Expiry(now, newTimeout), Expiry(now, openTimeout));
    RoundFields(a, order, outcomes, t, k);
    RoundServices(a, order, outcomes, t, k);
    KeptIsPrefix(conns, cnt, Elements(order), Kept(a, order, outcomes, t), arranged, start, k);
    if Undropped(outcomes, k) {
      NeverDroppedLater(order, outcomes, k);
      ConnectedAfterRound(a, order, outcomes, t, k);
    }
  }

  lemma {:induction false} InOrder(order: seq<nat>, n: nat, k: nat)
    requires Order(order, n) && k in order
    ensures k < n
  {
    assert order == Front(order) + [Last(order)];
    if k != Last(order) {
      InOrder(Front(order), n, k);
    }
  }

  /** The pool keeps in its prefix what was connected at the end of its turn. */
  lemma KeptIsPrefix(conns: seq<nat>, cnt: nat, done: set<nat>, kept: set<nat>, arranged: seq<nat>, start: nat, k: nat)
    requires Midway(conns, cnt, cnt, done, kept, arranged, start) && cnt <= |conns| && k in done
    ensures k in conns[..cnt] <==> k in kept
  {
    Finished(conns, cnt, done, kept, arranged, start);
    if k in conns[..cnt] {
      var j :| 0 <= j < cnt && conns[..cnt][j] == k;
      assert conns[j] == k;
    }
    if k in kept {
      assert k in Elements(conns[..start]);
      var j :| 0 <= j < start && conns[..start][j] == k;
      assert conns[j] == k && conns[..cnt][j] == k;
    }
  }

  /** The snapshot once a newcomer, if any, has been let into the first slot behind the prefix. */
  function Admitted(a: Snapshot, conns: seq<nat>, cnt: nat, arriving: bool, newExpire: int): (b: Snapshot)
    ensures |b.data| == |a.data|
  {
    if arriving && cnt < |conns| && conns[cnt] < |a.data| then
      a.(data := a.data[conns[cnt] := Connection(true, false, newExpire)])
    else a
  }

  function StartCount(conns: seq<nat>, cnt: nat, arriving: bool): nat {
    if arriving && cnt < |conns| then cnt + 1 else cnt
  }

  /** From `a` to `b` slot `k` left the prefix, and its session, if open, was reported closed once. */
  ghost predicate LeftPool(a: Snapshot, b: Snapshot, k: nat, conns: seq<nat>, cnt: nat) {
    && k < |a.data| && cnt <= |conns|
    && k !in conns[..cnt]
    && Times(b.closed, k) == Times(a.closed, k) + (if a.data[k].open then 1 else 0)
  }

  class WSServer {
    const maxConns: nat
    const newConnTimeout: nat
    const openConnTimeout: nat
    const conns: array<nat>
    const connsData: array<Connection>
    var connsCnt: nat
    var readFrom: seq<nat>
    var accepted: seq<nat>
    var closed: seq<nat>

    ghost predicate Shape()
      reads this, conns
    {
      && conns.Length == connsData.Length == maxConns
      && connsCnt <= maxConns
      && Arrangement(conns[..])
    }

    ghost function Seen(): Snapshot
      reads this, connsData
    {
      Snapshot(connsData[..], readFrom, accepted, closed)
    }

    /** Slots behind the prefix are disconnected, and reports of opening and closing match. */
    ghost predicate Valid()
      reads this, conns, connsData
    {
      && Shape()
      && (forall i :: connsCnt <= i < maxConns ==> !connsData[conns[i]].connected)
      && (forall i :: 0 <= i < maxConns ==> Balanced(Seen(), conns[i], i < connsCnt))
    }

    constructor (maxConns: nat, newConnTimeout: nat, openConnTimeout: nat)
      ensures Valid() && connsCnt == 0
      ensures this.maxConns == maxConns && this.newConnTimeout == newConnTimeout && this.openConnTimeout == openConnTimeout
      ensures fresh(conns) && fresh(connsData)
    {
      this.maxConns, this.newConnTimeout, this.openConnTimeout := maxConns, newConnTimeout, openConnTimeout;
      conns := new nat[maxConns](i => i);
      connsData := new Connection[maxConns](_ => Connection(false, false, 0));
      connsCnt := 0;
      readFrom, accepted, closed := [], [], [];
      new;
      assert forall i :: 0 <= i < maxConns ==> conns[..][i] == i;
    }

    /** A slot is disconnected from outside between two polls. */
    method Drop(k: nat)
      requires Valid() && k < maxConns
      modifies connsData
      ensures Valid()
      ensures connsData[..] == old(connsData[..])[k := old(connsData[k]).(connected := false)]
    {
      connsData[k] := connsData[k].(connected := false);
      assert forall j :: 0 <= j < maxConns ==> Seen().data[j] == connsData[j];
    }

    /** A new TCP connection takes the first slot behind the prefix. */
    method Accept(newExpire: int)
      requires Valid() && connsCnt < maxConns
      modifies this`connsCnt, connsData
      ensures Valid() && connsCnt == old(connsCnt) + 1
      ensures connsData[..] == old(connsData[..])[conns[old(connsCnt)] := Connection(true, false, newExpire)]
    {
      var k := conns[connsCnt];
      forall j | 0 <= j < maxConns && j != connsCnt ensures conns[j] != k {
        NoSlotTwice(conns[..], j, connsCnt);
      }
      connsData[k] := Connection(true, false, newExpire);
      connsCnt := connsCnt + 1;
      assert forall j :: 0 <= j < maxConns ==> Seen().data[j] == connsData[j];
    }

    /** What a handler does to other connections while slot `k` has its turn. */
    method DropOthers(drops: set<nat>, k: nat)
      requires k < connsData.Length
      modifies connsData
      ensures connsData[..] == Dropped(old(connsData[..]), drops)[k := old(connsData[k])]
    {
      forall j | 0 <= j < connsData.Length && j in drops && j != k {
        connsData[j] := connsData[j].(connected := false);
      }
    }

    /** One connection's turn: read it, refresh its deadline, time it out, report its close. */
    method TakeTurn(k: nat, o: ReadOutcome, t: Deadlines) returns (alive: bool)
      requires k < connsData.Length
      modifies this`readFrom, this`accepted, this`closed, connsData
      ensures Seen() == Turned(old(Seen()), k, o, t)
      ensures alive == connsData[k].connected
    {
      ghost var was := Seen();
      DropOthers(o.drops, k);
      var c := connsData[k];
      readFrom := readFrom + [k];
      if c.connected {
        if o.opens && !c.open {
          c := c.(open := true);
          accepted := accepted + [k];
        }
        if o.consumes {
          c := c.(expireTime := if c.open then t.openExpire else t.newExpire);
        }
        c := c.(connected := o.survives);
      }
      if t.now > c.expireTime {
        c := c.(connected := false);
      }
      connsData[k] := c;
      alive := c.connected;
      if !alive && c.open {
        closed := closed + [k];
      }
      assert Seen().data == Dropped(was.data, o.drops)[k := c];
    }

    /** `std::swap(conns_[i], conns_[--conns_cnt_])`. */
    method SwapWithLast(i: nat)
      requires i <= connsCnt < conns.Length
      modifies conns
      ensures conns[..] == Swapped(old(conns[..]), i, connsCnt)
    {
      conns[i], conns[connsCnt] := conns[connsCnt], conns[i];
    }

    /** One turn of the loop of `poll`: it either advances or shrinks the prefix. */
    method LoopTurn(i: nat, o: ReadOutcome, t: Deadlines, ghost done: set<nat>, ghost kept: set<nat>, ghost arranged: seq<nat>,
                    ghost start: nat)
      returns (next: nat)
      requires conns.Length == connsData.Length == maxConns && i < connsCnt
      requires Midway(conns[..], i, connsCnt, done, kept, arranged, start)
      modifies this`connsCnt, this`readFrom, this`accepted, this`closed, conns, connsData
      ensures Seen() == Turned(old(Seen()), old(conns[i]), o, t)
      ensures var k := old(conns[i]);
        && k < maxConns
        && Midway(conns[..], next, connsCnt, done + {k}, kept + (if connsData[k].connected then {k} else {}), arranged, start)
      ensures connsCnt - next == old(connsCnt) - i - 1
    {
      var k := conns[i];
      ghost var was, cnt := conns[..], connsCnt;
      var alive := TakeTurn(k, o, t);
      next := i;
      if alive {
        next := i + 1;
        Advance(was, i, cnt, done, kept, arranged, start);
      } else {
        connsCnt := connsCnt - 1;
        SwapWithLast(i);
        Retire(was, i, cnt, done, kept, arranged, start);
        assert kept + {} == kept;
      }
    }

    /** The loop: every slot of the prefix takes one turn, in the order in which they are read. */
    method ServicePrefix(outcomes: seq<ReadOutcome>, t: Deadlines) returns (ghost order: seq<nat>)
      requires Shape() && |outcomes| == maxConns
      modifies this`connsCnt, this`readFrom, this`accepted, this`closed, conns, connsData
      ensures readFrom == old(readFrom) + order && Order(order, maxConns)
      ensures Elements(order) == Elements(old(conns[..][..connsCnt]))
      ensures Seen() == Round(old(Seen()), order, outcomes, t)
      ensures Midway(conns[..], connsCnt, connsCnt, Elements(order), Kept(old(Seen()), order, outcomes, t), old(conns[..]), old(connsCnt))
    {
      var i := 0;
      order := [];
      ghost var start, arranged, was := connsCnt, conns[..], Seen();
      assert Elements([]) == {};
      while i < connsCnt
        invariant conns.Length == connsData.Length == maxConns && 0 <= i <= connsCnt
        invariant Order(order, maxConns) && readFrom == old(readFrom) + order
        invariant Seen() == Round(was, order, outcomes, t)
        invariant Midway(conns[..], i, connsCnt, Elements(order), Kept(was, order, outcomes, t), arranged, start)
        decreases connsCnt - i
      {
        var k := conns[i];
        assert Placed(conns[..], i, connsCnt, Elements(order), Kept(was, order, outcomes, t), start, i);
        i := LoopTurn(i, outcomes[k], t, Elements(order), Kept(was, order, outcomes, t), arranged, start);
        OneMoreTurn(was, order, k, outcomes, t);
        order := order + [k];
      }
      Finished(conns[..], connsCnt, Elements(order), Kept(was, order, outcomes, t), arranged, start);
    }

    function DeadlinesAt(now: int): Deadlines {
      Deadlines(now, Expiry(now, newConnTimeout), Expiry(now, openConnTimeout))
    }

    /** One poll. Whoever is in the prefix once a newcomer has been let in takes exactly one turn,
        in the order of `order`, and nobody else does. Every connected slot is in the prefix
        afterwards; the prefix holds no others if and only if no turn dropped a slot that had been
        kept earlier in the round, as when no handler disconnects anybody; and a slot that was
        dropped since its last turn leaves, its open session reported closed. */
    method Poll(now: int, arriving: bool, outcomes: seq<ReadOutcome>) returns (ghost order: seq<nat>)
      requires Valid() && |outcomes| == maxConns
      modifies this`connsCnt, this`readFrom, this`accepted, this`closed, conns, connsData
      ensures Valid() && readFrom == old(readFrom) + order && Order(order, maxConns)
      ensures Elements(order) == Elements(old(conns[..])[..StartCount(old(conns[..]), old(connsCnt), arriving)])
      ensures var a := Admitted(old(Seen()), old(conns[..]), old(connsCnt), arriving, DeadlinesAt(now).newExpire);
        && Seen() == Round(a, order, outcomes, DeadlinesAt(now))
        && (PrefixExact(conns[..], connsCnt, connsData[..]) <==> NoLateDrops(a, order, outcomes, DeadlinesAt(now)))
      ensures NobodyDrops(outcomes) ==> PrefixExact(conns[..], connsCnt, connsData[..])
      ensures forall i :: 0 <= i < maxConns && connsData[conns[i]].connected ==> i < connsCnt
      ensures forall i :: 0 <= i < old(connsCnt) && !old(connsData[conns[i]]).connected ==>
        LeftPool(old(Seen()), Seen(), old(conns[i]), conns[..], connsCnt)
      ensures var a := Admitted(old(Seen()), old(conns[..]), old(connsCnt), arriving, DeadlinesAt(now).newExpire);
        && (forall k :: k in order ==>
              Timely(a, Seen(), outcomes, k, now, newConnTimeout, openConnTimeout, k in conns[..connsCnt]))
        && (forall k: nat :: k < maxConns && k !in order ==> connsData[k].expireTime == a.data[k].expireTime)
      ensures arriving && old(connsCnt) < maxConns ==>
        DeadlinesAt(now).newExpire == if newConnTimeout == 0 then 0xffff_ffff_ffff_ffff else now + newConnTimeout
    {
      AdmitNewcomer(arriving, DeadlinesAt(now).newExpire);
      order := ServiceAll(outcomes, DeadlinesAt(now));
    }

    method AdmitNewcomer(arriving: bool, newExpire: int)
      requires Valid()
      modifies this`connsCnt, connsData
      ensures Valid() && connsCnt == StartCount(conns[..], old(connsCnt), arriving)
      ensures Seen() == Admitted(old(Seen()), conns[..], old(connsCnt), arriving, newExpire)
      ensures forall i :: 0 <= i < old(connsCnt) ==> connsData[conns[i]] == old(connsData[conns[i]])
    {
      ghost var cnt := connsCnt;
      if connsCnt < maxConns && arriving {
        Accept(newExpire);
        forall i | 0 <= i < cnt ensures conns[i] != conns[cnt] {
          NoSlotTwice(conns[..], i, cnt);
        }
      }
    }

    /** The loop of `poll` on a valid pool. */
    method ServiceAll(outcomes: seq<ReadOutcome>, t: Deadlines) returns (ghost order: seq<nat>)
      requires Valid() && |outcomes| == maxConns
      modifies this`connsCnt, this`readFrom, this`accepted, this`closed, conns, connsData
      ensures Valid() && readFrom == old(readFrom) + order && Order(order, maxConns)
      ensures Elements(order) == Elements(old(conns[..])[..old(connsCnt)])
      ensures Seen() == Round(old(Seen()), order, outcomes, t)
      ensures PrefixExact(conns[..], connsCnt, connsData[..]) <==> NoLateDrops(old(Seen()), order, outcomes, t)
      ensures NobodyDrops(outcomes) ==> PrefixExact(conns[..], connsCnt, connsData[..])
      ensures forall i :: 0 <= i < maxConns && connsData[conns[i]].connected ==> i < connsCnt
      ensures forall i :: 0 <= i < old(connsCnt) && !old(connsData[conns[i]]).connected ==>
        LeftPool(old(Seen()), Seen(), old(conns[i]), conns[..], connsCnt)
      ensures t == DeadlinesAt(t.now) ==> forall k :: k in order ==>
        Timely(old(Seen()), Seen(), outcomes, k, t.now, newConnTimeout, openConnTimeout, k in conns[..connsCnt])
      ensures forall k: nat :: k < maxConns && k !in order ==> connsData[k].expireTime == old(connsData[k]).expireTime
    {
      ghost var a, arranged, start := Seen(), conns[..], connsCnt;
      order := ServicePrefix(outcomes, t);
      forall k: nat | k < maxConns && k !in order ensures connsData[k].expireTime == a.data[k].expireTime {
        BeforeTurn(a, order, outcomes, t, k);
      }
      if t == DeadlinesAt(t.now) {
        forall k | k in order
          ensures Timely(a, Seen(), outcomes, k, t.now, newConnTimeout, openConnTimeout, k in conns[..connsCnt])
        {
          InOrder(order, maxConns, k);
          RoundTimely(a, arranged, start, order, outcomes, conns[..], connsCnt, k, t.now, newConnTimeout, openConnTimeout);
        }
      }
      forall i | 0 <= i < maxConns
        ensures Balanced(Seen(), conns[i], i < connsCnt) && (connsData[conns[i]].connected ==> i < connsCnt)
      {
        RoundKeeps(a, arranged, start, order, outcomes, t, conns[..], connsCnt, i);
      }
      ExactlyWithoutLateDrops(a, arranged, start, order, outcomes, t, conns[..], connsCnt);
      if NobodyDrops(outcomes) {
        NobodyDropsLate(a, order, outcomes, t);
      }
      forall i | 0 <= i < start && !a.data[arranged[i]].connected
        ensures LeftPool(a, Seen(), arranged[i], conns[..], connsCnt)
      {
        StaleLeaves(a, arranged, start, order, outcomes, t, conns[..], connsCnt, i);
      }
    }
  }

  lemma StaleLeaves(a: Snapshot, arranged: seq<nat>, start: nat, order: seq<nat>, outcomes: seq<ReadOutcome>, t: Deadlines,
                    conns: seq<nat>, cnt: nat, i: nat)
    requires |outcomes| == |a.data| && i < start <= |arranged| && Order(order, |a.data|) && Elements(order) == Elements(arranged[..start])
    requires Midway(conns, cnt, cnt, Elements(order), Kept(a, order, outcomes, t), arranged, start)
    requires arranged[i] < |a.data| && !a.data[arranged[i]].connected
    ensures LeftPool(a, Round(a, order, outcomes, t), arranged[i], conns, cnt)
  {
    InPrefix(arranged, i, start);
    StaleRetired(a, order, outcomes, t, arranged[i]);
    Finished(conns, cnt, Elements(order), Kept(a, order, outcomes, t), arranged, start);
  }

  lemma OneMoreTurn(a: Snapshot, order: seq<nat>, k: nat, outcomes: seq<ReadOutcome>, t: Deadlines)
    requires Order(order, |a.data|) && |outcomes| == |a.data| && k < |a.data| && k !in order
    ensures Order(order + [k], |a.data|) && Elements(order + [k]) == Elements(order) + {k}
    ensures Round(a, order + [k], outcomes, t) == Turned(Round(a, order, outcomes, t), k, outcomes[k], t)
    ensures Kept(a, order + [k], outcomes, t) ==
            Kept(a, order, outcomes, t) + (if Round(a, order + [k], outcomes, t).data[k].connected then {k} else {})
  {
    assert Front(order + [k]) == order && Last(order + [k]) == k;
  }
}
