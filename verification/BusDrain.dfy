/** Draining the bus by reserving and settling in rounds, and the two ways to pull. */
module BusDrain {
  import opened Options
  import opened AgentBus
  import opened BusLaws

  // ----- reserving and settling at once -----

  lemma SettlesFresh(bus: Bus, c: Command, i: nat)
    requires Inv(bus) && c.Reserve? && i < |bus.rows|
    ensures var call, after := CallOf(bus, c), Step(bus, c);
      i < |after.rows| && (Settles(after.rows[i], c.reader, ClaimsOf(|bus.grants|, |call.ids|)) <==> i in call.ids)
  {
    hide Step;
    GrantCount(bus, c);
    var ids, size := CallOf(bus, c).ids, |bus.grants|;
    var given := ClaimsOf(size, |ids|);
    assert SideOk(bus.grants, bus.rows[i].Of(c.reader), i, c.reader);
    if i in ids {
      var k :| 0 <= k < |ids| && ids[k] == i;
      SelectedRow(bus, c, k);
      assert given[k] == size + k;
    } else {
      UnselectedRow(bus, c, i);
    }
  }

  /** A reserve followed by a settle of its claims reads exactly the selected rows and leaves no
      lease on them; every other row and the other reader's columns stay as they were. */
  lemma ReserveAndSettleRow(bus: Bus, c: Command, settleAt: int, i: nat, reader: Reader)
    requires Inv(bus) && c.Reserve? && i < |bus.rows|
    ensures var after := ReserveAndSettle(bus, c.reader, c.query, c.limit, c.now, c.leaseStart, c.lease, settleAt);
      && |after.rows| == |bus.rows| && after.rows[i].sender == bus.rows[i].sender && after.rows[i].message == bus.rows[i].message
      && after.rows[i].Of(reader) ==
        if reader == c.reader && i in CallOf(bus, c).ids then Side(Some(settleAt), None, None) else bus.rows[i].Of(reader)
  {
    GrantCount(bus, c);
    SettlesFresh(bus, c, i);
    StepRow(bus, c, i, reader);
    var ids := CallOf(bus, c).ids;
    if i !in ids { UnselectedRow(bus, c, i); }
  }

  lemma ReserveAndSettleInv(bus: Bus, c: Command, settleAt: int)
    requires Inv(bus) && c.Reserve? && SoundClock(c)
    ensures Inv(ReserveAndSettle(bus, c.reader, c.query, c.limit, c.now, c.leaseStart, c.lease, settleAt))
  {
    InvReserve(bus, c);
    InvOther(Step(bus, c), Settle(c.reader, ClaimsOf(|bus.grants|, |CallOf(bus, c).ids|), settleAt));
  }

  // ----- the two ways to pull -----

  predicate NoLiveLease(rows: seq<Row>, ids: seq<nat>, reader: Reader, now: int) {
    forall k :: 0 <= k < |ids| ==> ids[k] < |rows| && Available(rows[ids[k]].Of(reader), now)
  }

  /** Reserving selects the rows that a plain pull selects exactly when none of those is leased. */
  lemma {:induction false} SameSelection(rows: seq<Row>, reader: Reader, query: Query, now: int, limit: int, i: nat)
    ensures var plain := Select(rows, Want(reader, query, None), limit, i);
      Select(rows, Want(reader, query, Some(now)), limit, i) == plain <==> NoLiveLease(rows, plain, reader, now)
    decreases |rows| - i
  {
    var all, free := Want(reader, query, None), Want(reader, query, Some(now));
    var plain, leasable := Select(rows, all, limit, i), Select(rows, free, limit, i);
    SelectShape(rows, all, limit, i);
    if i < |rows| && limit != 0 {
      var left := if Wanted(rows[i], all) then limit - 1 else limit;
      SameSelection(rows, reader, query, now, left, i + 1);
      var rest := Select(rows, all, left, i + 1);
      if Wanted(rows[i], all) {
        assert plain == [i] + rest && plain[0] == i && plain[1..] == rest;
        if Wanted(rows[i], free) {
          assert leasable == [i] + Select(rows, free, left, i + 1) && leasable[1..] == Select(rows, free, left, i + 1);
          assert NoLiveLease(rows, plain, reader, now) ==> NoLiveLease(rows, rest, reader, now) by {
            assert forall k :: 0 <= k < |rest| ==> rest[k] == plain[k + 1];
          }
        } else {
          SelectShape(rows, free, limit, i + 1);
          assert leasable != [] ==> leasable[0] > i;
        }
      }
    }
  }

  /** The compatibility pull and the plain pull: they return the same messages exactly when no
      message the plain pull returns is leased, and then they mark the same messages as read. */
  lemma PullsAgree(bus: Bus, reader: Reader, query: Query, limit: int, now: int, leaseStart: int, lease: int, settleAt: int)
    requires Inv(bus)
    ensures var plain := PullIds(bus.rows, reader, query, limit);
      var same := ReserveIds(bus.rows, reader, query, limit, now) == plain;
      && (same <==> NoLiveLease(bus.rows, plain, reader, now))
      && (same ==>
            var a := ReserveAndSettle(bus, reader, query, limit, now, leaseStart, lease, settleAt).rows;
            var b := Step(bus, Pull(reader, query, limit, now)).rows;
            |a| == |b| && forall i, r: Reader :: 0 <= i < |a| ==> a[i].Of(r).readAt.Some? == b[i].Of(r).readAt.Some?)
  {
    var plain := PullIds(bus.rows, reader, query, limit);
    SameSelection(bus.rows, reader, query, now, Limit(limit), 0);
    SelectShape(bus.rows, Want(reader, query, None), Limit(limit), 0);
    var c := Reserve(reader, query, limit, now, leaseStart, lease);
    var a := ReserveAndSettle(bus, reader, query, limit, now, leaseStart, lease, settleAt).rows;
    var b := Step(bus, Pull(reader, query, limit, now)).rows;
    if ReserveIds(bus.rows, reader, query, limit, now) == plain {
      RowsKept(bus, c, settleAt);
      forall i: nat, r: Reader | i < |bus.rows| ensures a[i].Of(r).readAt.Some? == b[i].Of(r).readAt.Some? {
        ReserveAndSettleRow(bus, c, settleAt, i, r);
      }
    }
  }

  lemma RowsKept(bus: Bus, c: Command, settleAt: int)
    requires c.Reserve?
    ensures |ReserveAndSettle(bus, c.reader, c.query, c.limit, c.now, c.leaseStart, c.lease, settleAt).rows| == |bus.rows|
  {
    GrantCount(bus, c);
  }

  // ----- draining -----

  /** One round: the clock readings of its reserve and of its settle. */
  datatype Round = Round(now: int, leaseStart: int, lease: int, settleAt: int)

  datatype Reading = Reading(reader: Reader, query: Query, limit: int)

  function RoundCommand(to: Reading, round: Round): Command {
    Reserve(to.reader, to.query, to.limit, round.now, round.leaseStart, round.lease)
  }

  function AfterRound(bus: Bus, to: Reading, round: Round): Bus {
    ReserveAndSettle(bus, to.reader, to.query, to.limit, round.now, round.leaseStart, round.lease, round.settleAt)
  }

  function Drained(bus: Bus, to: Reading, rounds: seq<Round>): Bus
    decreases |rounds|
  {
    if rounds == [] then bus else Drained(AfterRound(bus, to, rounds[0]), to, rounds[1..])
  }

  /** The ids that the rounds deliver, in the order of delivery. */
  function Delivered(bus: Bus, to: Reading, rounds: seq<Round>): seq<nat>
    decreases |rounds|
  {
    if rounds == [] then []
    else ReserveIds(bus.rows, to.reader, to.query, to.limit, rounds[0].now) + Delivered(AfterRound(bus, to, rounds[0]), to, rounds[1..])
  }

  /** All unread messages the query matches, in id order. */
  function Backlog(bus: Bus, to: Reading): seq<nat> {
    Select(bus.rows, Want(to.reader, to.query, None), -1, 0)
  }

  predicate NoOtherLeases(bus: Bus, to: Reading, rounds: seq<Round>) {
    forall k :: 0 <= k < |rounds| ==> NoLiveLease(bus.rows, Backlog(bus, to), to.reader, rounds[k].now)
  }

  function Min(a: int, b: int): int {
    if a < b then a else b
  }

  lemma {:induction false} Unlimited(rows: seq<Row>, want: Want, a: int, b: int, i: nat)
    requires a < 0 && b < 0
    ensures Select(rows, want, a, i) == Select(rows, want, b, i)
    decreases |rows| - i
  {
    if i < |rows| {
      if Wanted(rows[i], want) { Unlimited(rows, want, a - 1, b - 1, i + 1); } else { Unlimited(rows, want, a, b, i + 1); }
    }
  }

  lemma {:induction false} SelectMore(rows: seq<Row>, row: Row, want: Want, limit: int, i: nat)
    requires limit < 0 && i <= |rows|
    ensures Select(rows + [row], want, limit, i) == Select(rows, want, limit, i) + if Wanted(row, want) then [|rows|] else []
    decreases |rows| - i
  {
    if i == |rows| {
      assert (rows + [row])[i] == row;
      assert Select(rows + [row], want, limit - 1, i + 1) == [] && Select(rows + [row], want, limit, i + 1) == [];
    } else {
      assert (rows + [row])[i] == rows[i];
      SelectMore(rows, row, want, if Wanted(rows[i], want) then limit - 1 else limit, i + 1);
    }
  }

  /** A message that is sent joins the end of every backlog whose filters it passes, and of no other. */
  lemma SentJoinsBacklog(bus: Bus, sender: Reader, message: string, now: int, to: Reading)
    ensures Backlog(Step(bus, Send(sender, message, now)), to) == Backlog(bus, to) +
      if (to.query.sender.None? || to.query.sender.value == sender) && to.query.selects(message) then [|bus.rows|] else []
  {
    SelectMore(bus.rows, Row(sender, message, now, EMPTY_SIDE, EMPTY_SIDE), Want(to.reader, to.query, None), -1, 0);
  }

  /** A limited selection is the front of the unlimited one. */
  lemma {:induction false} SelectFront(rows: seq<Row>, want: Want, limit: nat, i: nat)
    ensures var all := Select(rows, want, -1, i); Select(rows, want, limit, i) == all[..Min(limit, |all|)]
    decreases |rows| - i
  {
    if i < |rows| && limit != 0 {
      if Wanted(rows[i], want) {
        SelectFront(rows, want, limit - 1, i + 1);
        Unlimited(rows, want, -1, -2, i + 1);
        var rest := Select(rows, want, -1, i + 1);
        assert ([i] + rest)[..Min(limit, 1 + |rest|)] == [i] + rest[..Min(limit - 1, |rest|)];
      } else {
        SelectFront(rows, want, limit, i + 1);
      }
    }
  }

  /** Once the first `m` rows of a backlog are no longer wanted, the rest of it remains. */
  lemma {:induction false} SelectRest(rows: seq<Row>, later: seq<Row>, want: Want, i: nat, m: nat)
    requires |later| == |rows|
    requires var all := Select(rows, want, -1, i);
      m <= |all| && forall j :: i <= j < |rows| ==> (Wanted(later[j], want) <==> Wanted(rows[j], want) && j !in all[..m])
    ensures Select(later, want, -1, i) == Select(rows, want, -1, i)[m..]
    decreases |rows| - i
  {
    if i < |rows| {
      var all, rest := Select(rows, want, -1, i), Select(rows, want, -1, i + 1);
      Unlimited(rows, want, -1, -2, i + 1);
      Unlimited(later, want, -1, -2, i + 1);
      if Wanted(rows[i], want) {
        assert all == [i] + rest;
        if m > 0 {
          assert all[..m] == [i] + rest[..m - 1] && all[..m][0] == i;
          SelectRest(rows, later, want, i + 1, m - 1);
        } else {
          SelectRest(rows, later, want, i + 1, 0);
        }
      } else {
        SelectShape(rows, want, -1, i + 1);
        assert i !in rest;
        SelectRest(rows, later, want, i + 1, m);
      }
    }
  }

  /** One round delivers the front of the backlog, as far as the limit goes, and leaves the rest. */
  lemma RoundDelivers(bus: Bus, to: Reading, rounds: seq<Round>)
    requires Inv(bus) && to.limit > 0 && rounds != [] && NoOtherLeases(bus, to, rounds)
    ensures var all := Backlog(bus, to);
      var m := Min(Limit(to.limit), |all|);
      var after := AfterRound(bus, to, rounds[0]);
      && ReserveIds(bus.rows, to.reader, to.query, to.limit, rounds[0].now) == all[..m]
      && Backlog(after, to) == all[m..] && NoOtherLeases(after, to, rounds[1..])
  {
    var want, c := Want(to.reader, to.query, None), RoundCommand(to, rounds[0]);
    var all, after := Backlog(bus, to), AfterRound(bus, to, rounds[0]);
    var m := Min(Limit(to.limit), |all|);
    SelectFront(bus.rows, want, Limit(to.limit), 0);
    SelectShape(bus.rows, want, -1, 0);
    SameSelection(bus.rows, to.reader, to.query, rounds[0].now, Limit(to.limit), 0);
    RowsKept(bus, c, rounds[0].settleAt);
    forall j | 0 <= j < |bus.rows|
      ensures Wanted(after.rows[j], want) <==> Wanted(bus.rows[j], want) && j !in all[..m]
      ensures j !in all[..m] ==> after.rows[j].Of(to.reader) == bus.rows[j].Of(to.reader)
    {
      ReserveAndSettleRow(bus, c, rounds[0].settleAt, j, to.reader);
    }
    SelectRest(bus.rows, after.rows, want, 0, m);
    LaterRounds(bus, after, to, rounds, m);
  }

  lemma LaterRounds(bus: Bus, after: Bus, to: Reading, rounds: seq<Round>, m: nat)
    requires rounds != [] && NoOtherLeases(bus, to, rounds) && |after.rows| == |bus.rows|
    requires m <= |Backlog(bus, to)| && Backlog(after, to) == Backlog(bus, to)[m..] && Increasing(Backlog(bus, to))
    requires forall j :: 0 <= j < |bus.rows| && j !in Backlog(bus, to)[..m] ==> after.rows[j].Of(to.reader) == bus.rows[j].Of(to.reader)
    ensures NoOtherLeases(after, to, rounds[1..])
  {
    var all, rest := Backlog(bus, to), Backlog(after, to);
    forall k | 0 <= k < |rounds[1..]| ensures NoLiveLease(after.rows, rest, to.reader, rounds[1..][k].now) {
      assert NoLiveLease(bus.rows, all, to.reader, rounds[k + 1].now);
      forall x | 0 <= x < |rest| ensures rest[x] < |after.rows| && Available(after.rows[rest[x]].Of(to.reader), rounds[1..][k].now) {
        assert rest[x] == all[m + x];
        assert rest[x] !in all[..m];
      }
    }
  }

  lemma RoundInv(bus: Bus, to: Reading, round: Round)
    requires Inv(bus) && round.now <= round.leaseStart
    ensures Inv(AfterRound(bus, to, round))
  {
    ReserveAndSettleInv(bus, RoundCommand(to, round), round.settleAt);
  }

  /** FIFO drain: with no other live leases, `k` rounds deliver the first `k * limit` messages of
      the backlog, each once and in id order, and leave the rest of it. */
  lemma {:induction false} FifoDrain(bus: Bus, to: Reading, rounds: seq<Round>)
    requires Inv(bus) && to.limit > 0 && NoOtherLeases(bus, to, rounds)
    requires forall k :: 0 <= k < |rounds| ==> rounds[k].now <= rounds[k].leaseStart
    ensures var all := Backlog(bus, to);
      var m := Min(|rounds| * Limit(to.limit), |all|);
      Delivered(bus, to, rounds) == all[..m] && Backlog(Drained(bus, to, rounds), to) == all[m..]
    decreases |rounds|
  {
    hide Backlog;
    hide AfterRound;
    hide ReserveIds;
    hide Inv;
    LimitIsPositive(to.limit);
    hide Limit;
    if rounds == [] {
      NothingDelivered(|Backlog(bus, to)|, Limit(to.limit));
    } else {
      var all, after := Backlog(bus, to), AfterRound(bus, to, rounds[0]);
      var l := Limit(to.limit);
      var m, n := Min(l, |all|), Min(|rounds[1..]| * l, |all| - Min(l, |all|));
      RoundDelivers(bus, to, rounds);
      RoundInv(bus, to, rounds[0]);
      FifoDrain(after, to, rounds[1..]);
      OneMoreRound(|rounds|, l, |all|);
      Slices(all, m, n);
    }
  }

  lemma LimitIsPositive(limit: int)
    requires limit > 0
    ensures Limit(limit) > 0
  {
  }

  lemma NothingDelivered(n: nat, l: int)
    ensures Min(0 * l, n) == 0
  {
  }

  lemma OneMoreRound(k: nat, l: int, n: nat)
    requires k > 0 && l > 0
    ensures Min(k * l, n) == Min(l, n) + Min((k - 1) * l, n - Min(l, n)) && (k - 1) * l >= 0
  {
    assert k * l == l + (k - 1) * l;
  }

  lemma Slices(all: seq<nat>, m: nat, n: nat)
    requires m + n <= |all|
    ensures all[..m] + all[m..][..n] == all[..m + n] && all[m..][n..] == all[m + n..]
  {
  }

  /** The number of rounds that empties a backlog is its size divided by the limit, rounded up. */
  lemma DrainRounds(bus: Bus, to: Reading, rounds: seq<Round>)
    requires Inv(bus) && to.limit > 0 && NoOtherLeases(bus, to, rounds)
    requires forall k :: 0 <= k < |rounds| ==> rounds[k].now <= rounds[k].leaseStart
    ensures Backlog(Drained(bus, to, rounds), to) == [] <==>
      |rounds| >= (|Backlog(bus, to)| + Limit(to.limit) - 1) / Limit(to.limit)
  {
    hide Backlog;
    hide Drained;
    hide Inv;
    hide NoOtherLeases;
    FifoDrain(bus, to, rounds);
    RoundUp(|Backlog(bus, to)|, Limit(to.limit), |rounds|);
  }

  lemma RoundUp(n: nat, l: int, k: nat)
    requires l > 0
    ensures k * l >= n <==> k >= (n + l - 1) / l
  {
    var q := (n + l - 1) / l;
    assert q * l <= n + l - 1 < q * l + l;
    if k >= q {
      assert k * l >= q * l;
    } else {
      assert (k + 1) * l <= q * l;
    }
  }
}
