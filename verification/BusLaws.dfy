/** Laws of the bus over every run of commands. */
module BusLaws {
  import opened Options
  import opened AgentBus

  // ----- the rows an update changes -----

  predicate InRange(ids: seq<nat>, n: nat) {
    forall k :: 0 <= k < |ids| ==> ids[k] < n
  }

  lemma {:induction false} GrantedRow(rows: seq<Row>, ids: seq<nat>, reader: Reader, claim: nat, until: int, k: nat)
    requires InRange(ids, |rows|) && Increasing(ids) && k < |ids|
    ensures Granted(rows, ids, reader, claim, until)[ids[k]]
      == rows[ids[k]].With(reader, Reserved(rows[ids[k]].Of(reader), claim + k, until))
    decreases |ids|
  {
    var last := |ids| - 1;
    var front := ids[..last];
    if k < last {
      assert front[k] == ids[k] < ids[last];
      GrantedRow(rows, front, reader, claim, until, k);
    } else {
      assert ids[last] !in front;
      OtherRow(rows, front, reader, claim, until, ids[last]);
    }
  }

  lemma {:induction false} OtherRow(rows: seq<Row>, ids: seq<nat>, reader: Reader, claim: nat, until: int, i: nat)
    requires i < |rows| && i !in ids
    ensures Granted(rows, ids, reader, claim, until)[i] == rows[i]
    decreases |ids|
  {
    if ids != [] {
      var front := ids[..|ids| - 1];
      assert forall x :: x in front ==> x in ids;
      OtherRow(rows, front, reader, claim, until, i);
    }
  }

  // ----- one reserve call -----

  /** A reserve call with what it selects and hands out. */
  datatype Call = Call(reader: Reader, ids: seq<nat>, now: int, until: int)

  function CallOf(bus: Bus, c: Command): Call
    requires c.Reserve?
  {
    Call(c.reader, ReserveIds(bus.rows, c.reader, c.query, c.limit, c.now), c.now, LeaseEnd(c.leaseStart, c.lease))
  }

  lemma SelectedRow(bus: Bus, c: Command, k: nat)
    requires c.Reserve? && k < |CallOf(bus, c).ids|
    ensures var call, after := CallOf(bus, c), Step(bus, c);
      var i := call.ids[k];
      && i < |bus.rows| == |after.rows| && Wanted(bus.rows[i], Want(c.reader, c.query, Some(c.now)))
      && after.rows[i] == bus.rows[i].With(c.reader, Reserved(bus.rows[i].Of(c.reader), |bus.grants| + k, call.until))
      && |bus.grants| + k < |after.grants|
      && after.grants[|bus.grants| + k] == Grant(i, c.reader, c.now, call.until)
  {
    var call := CallOf(bus, c);
    SelectShape(bus.rows, Want(c.reader, c.query, Some(c.now)), Limit(c.limit), 0);
    GrantedRow(bus.rows, call.ids, c.reader, |bus.grants|, call.until, k);
  }

  lemma UnselectedRow(bus: Bus, c: Command, i: nat)
    requires c.Reserve? && i < |bus.rows| && i !in CallOf(bus, c).ids
    ensures |Step(bus, c).rows| == |bus.rows| && Step(bus, c).rows[i] == bus.rows[i]
  {
    OtherRow(bus.rows, CallOf(bus, c).ids, c.reader, |bus.grants|, CallOf(bus, c).until, i);
  }

  lemma OldGrant(bus: Bus, c: Command, a: nat)
    requires a < |bus.grants|
    ensures a < |Step(bus, c).grants| && Step(bus, c).grants[a] == bus.grants[a]
  {
  }

  // ----- the invariant -----

  /** `claim` is the last lease handed out for this row and reader. */
  ghost predicate IsLatest(grants: seq<Grant>, claim: nat, row: nat, reader: Reader) {
    && claim < |grants| && grants[claim].row == row && grants[claim].reader == reader
    && forall k :: claim < k < |grants| ==> !(grants[k].row == row && grants[k].reader == reader)
  }

  ghost predicate NoGrant(grants: seq<Grant>, row: nat, reader: Reader) {
    forall k :: 0 <= k < |grants| ==> !(grants[k].row == row && grants[k].reader == reader)
  }

  /** A row's columns record the last lease for the reader, unless a settle has read the row. */
  ghost predicate SideOk(grants: seq<Grant>, side: Side, row: nat, reader: Reader) {
    match side.claim
    case Some(claim) => IsLatest(grants, claim, row, reader) && side.until == Some(grants[claim].until)
    case None => side.readAt.Some? || NoGrant(grants, row, reader)
  }

  ghost predicate ColumnsOk(bus: Bus) {
    forall i: nat, reader: Reader :: i < |bus.rows| ==> SideOk(bus.grants, bus.rows[i].Of(reader), i, reader)
  }

  ghost predicate GrantRows(bus: Bus) {
    forall k :: 0 <= k < |bus.grants| ==> bus.grants[k].row < |bus.rows|
  }

  /** Successive leases of one row to one reader: the earlier one ended before the later was taken. */
  ghost predicate Disjoint(grants: seq<Grant>) {
    forall a, b :: 0 <= a < b < |grants| && grants[a].row == grants[b].row && grants[a].reader == grants[b].reader ==>
      grants[a].until < grants[b].now
  }

  ghost predicate Positive(grants: seq<Grant>) {
    forall k :: 0 <= k < |grants| ==> grants[k].now < grants[k].until
  }

  ghost predicate Inv(bus: Bus) {
    ColumnsOk(bus) && GrantRows(bus) && Disjoint(bus.grants) && Positive(bus.grants)
  }

  /** The clock of one reserve call does not run backwards between its two readings. */
  predicate SoundClock(c: Command) {
    c.Reserve? ==> c.now <= c.leaseStart
  }

  /** A lease is given only on a row whose last lease to that reader has ended. */
  lemma ReserveAfterEnd(bus: Bus, i: nat, reader: Reader, query: Query, now: int, a: nat)
    requires Inv(bus) && i < |bus.rows| && Wanted(bus.rows[i], Want(reader, query, Some(now)))
    requires a < |bus.grants| && bus.grants[a].row == i && bus.grants[a].reader == reader
    ensures bus.grants[a].until < now
  {
    var side := bus.rows[i].Of(reader);
    assert SideOk(bus.grants, side, i, reader);
    var last := side.claim.value;
    if a < last {
      assert bus.grants[a].until < bus.grants[last].now < bus.grants[last].until;
    }
  }

  lemma InvReserve(bus: Bus, c: Command)
    requires Inv(bus) && c.Reserve? && SoundClock(c)
    ensures Inv(Step(bus, c))
  {
    hide Step;
    var after := Step(bus, c);
    GrantCount(bus, c);
    forall b: nat | b < |after.grants|
      ensures after.grants[b].row < |after.rows| && after.grants[b].now < after.grants[b].until
    {
      if b < |bus.grants| { OldGrant(bus, c, b); } else { SelectedRow(bus, c, b - |bus.grants|); }
    }
    forall a: nat, b: nat | a < b < |after.grants| && after.grants[a].row == after.grants[b].row && after.grants[a].reader == after.grants[b].reader
      ensures after.grants[a].until < after.grants[b].now
    {
      DisjointReserve(bus, c, a, b);
    }
    forall i: nat, reader: Reader | i < |after.rows| ensures SideOk(after.grants, after.rows[i].Of(reader), i, reader) {
      ReserveSide(bus, c, i, reader);
    }
  }

  lemma GrantCount(bus: Bus, c: Command)
    requires c.Reserve?
    ensures |Step(bus, c).grants| == |bus.grants| + |CallOf(bus, c).ids| && |Step(bus, c).rows| == |bus.rows|
    ensures Increasing(CallOf(bus, c).ids)
  {
    SelectShape(bus.rows, Want(c.reader, c.query, Some(c.now)), Limit(c.limit), 0);
  }

  lemma DisjointReserve(bus: Bus, c: Command, a: nat, b: nat)
    requires Inv(bus) && c.Reserve? && a < b < |Step(bus, c).grants|
    requires var grants := Step(bus, c).grants; grants[a].row == grants[b].row && grants[a].reader == grants[b].reader
    ensures var grants := Step(bus, c).grants; grants[a].until < grants[b].now
  {
    hide Step;
    var size, call := |bus.grants|, CallOf(bus, c);
    GrantCount(bus, c);
    if a < size { OldGrant(bus, c, a); } else { SelectedRow(bus, c, a - size); }
    if b < size {
      OldGrant(bus, c, b);
    } else {
      SelectedRow(bus, c, b - size);
      if a < size {
        ReserveAfterEnd(bus, call.ids[b - size], c.reader, c.query, c.now, a);
      }
    }
  }

  lemma ReserveSide(bus: Bus, c: Command, i: nat, reader: Reader)
    requires Inv(bus) && c.Reserve? && i < |bus.rows|
    ensures i < |Step(bus, c).rows| && SideOk(Step(bus, c).grants, Step(bus, c).rows[i].Of(reader), i, reader)
  {
    hide Step;
    var size, call, grants := |bus.grants|, CallOf(bus, c), Step(bus, c).grants;
    GrantCount(bus, c);
    assert SideOk(bus.grants, bus.rows[i].Of(reader), i, reader);
    forall b: nat | b < |grants|
      ensures if b < size then grants[b] == bus.grants[b] else grants[b].row == call.ids[b - size] && grants[b].reader == c.reader
    {
      if b < size { OldGrant(bus, c, b); } else { SelectedRow(bus, c, b - size); }
    }
    if i in call.ids {
      var k :| 0 <= k < |call.ids| && call.ids[k] == i;
      SelectedRow(bus, c, k);
      if reader == c.reader {
        assert IsLatest(grants, size + k, i, reader);
      }
    } else {
      UnselectedRow(bus, c, i);
    }
  }

  lemma InvOther(bus: Bus, c: Command)
    requires Inv(bus) && !c.Reserve?
    ensures Inv(Step(bus, c))
  {
    var after := Step(bus, c);
    assert after.grants == bus.grants;
    forall i: nat, reader: Reader | i < |after.rows| ensures SideOk(after.grants, after.rows[i].Of(reader), i, reader) {
      if i < |bus.rows| {
        assert SideOk(bus.grants, bus.rows[i].Of(reader), i, reader);
      } else {
        assert NoGrant(bus.grants, i, reader);
      }
    }
  }

  lemma {:induction false} InvRun(commands: seq<Command>)
    requires forall k :: 0 <= k < |commands| ==> SoundClock(commands[k])
    ensures Inv(Run(EmptyBus(), commands))
    decreases |commands|
  {
    if commands != [] {
      var last := |commands| - 1;
      InvRun(commands[..last]);
      var bus := Run(EmptyBus(), commands[..last]);
      if commands[last].Reserve? { InvReserve(bus, commands[last]); } else { InvOther(bus, commands[last]); }
    }
  }

  // ----- the laws -----

  /** Lease exclusivity: in every run, of two leases of one message to one reader the earlier
      ended strictly before the clock reading of the call that took the later. */
  lemma LeasesNeverOverlap(commands: seq<Command>, a: nat, b: nat)
    requires forall k :: 0 <= k < |commands| ==> SoundClock(commands[k])
    requires var grants := Run(EmptyBus(), commands).grants;
      a < b < |grants| && grants[a].row == grants[b].row && grants[a].reader == grants[b].reader
    ensures var grants := Run(EmptyBus(), commands).grants; grants[a].now < grants[a].until < grants[b].now < grants[b].until
  {
    InvRun(commands);
  }

  lemma {:induction false} NoneSettles(rows: seq<Row>, reader: Reader, claims: seq<nat>)
    requires forall i :: 0 <= i < |rows| ==> !Settles(rows[i], reader, claims)
    ensures CountSettles(rows, reader, claims) == 0
  {
    if rows != [] { NoneSettles(rows[..|rows| - 1], reader, claims); }
  }

  /** Settling a claim that a later lease has superseded changes no row and returns 0. */
  lemma SupersededSettles(commands: seq<Command>, reader: Reader, a: nat, b: nat, now: int)
    requires forall k :: 0 <= k < |commands| ==> SoundClock(commands[k])
    requires var grants := Run(EmptyBus(), commands).grants;
      a < b < |grants| && grants[a].row == grants[b].row && grants[a].reader == grants[b].reader
    ensures var bus := Run(EmptyBus(), commands);
      var c := Settle(reader, [a], now);
      Step(bus, c).rows == bus.rows && Consumed(bus, c) == 0
  {
    InvRun(commands);
    var bus := Run(EmptyBus(), commands);
    forall i | 0 <= i < |bus.rows| ensures !Settles(bus.rows[i], reader, [a]) {
      assert SideOk(bus.grants, bus.rows[i].Of(reader), i, reader);
    }
    NoneSettles(bus.rows, reader, [a]);
  }

  // ----- read marks -----

  predicate ActsFor(c: Command, reader: Reader) {
    !c.Send? && c.reader == reader
  }

  /** What one command does to one row for one reader: another reader's command leaves all its
      columns, and no command changes a read mark that is set. */
  lemma StepRow(bus: Bus, c: Command, i: nat, reader: Reader)
    requires i < |bus.rows|
    ensures i < |Step(bus, c).rows|
    ensures !ActsFor(c, reader) ==> Step(bus, c).rows[i].Of(reader) == bus.rows[i].Of(reader)
    ensures bus.rows[i].Of(reader).readAt.Some? ==> Step(bus, c).rows[i].Of(reader).readAt == bus.rows[i].Of(reader).readAt
    ensures Step(bus, c).rows[i].message == bus.rows[i].message && Step(bus, c).rows[i].sender == bus.rows[i].sender
  {
    if c.Reserve? {
      hide Step;
      GrantCount(bus, c);
      var ids := CallOf(bus, c).ids;
      if i in ids {
        var k :| 0 <= k < |ids| && ids[k] == i;
        SelectedRow(bus, c, k);
      } else {
        UnselectedRow(bus, c, i);
      }
    }
  }

  /** A read mark is set once and never changes, and a read message is never leased again. */
  lemma {:induction false} ReadForever(bus: Bus, commands: seq<Command>, i: nat, reader: Reader)
    requires i < |bus.rows| && bus.rows[i].Of(reader).readAt.Some?
    ensures var after := Run(bus, commands);
      && i < |after.rows| && after.rows[i].Of(reader).readAt == bus.rows[i].Of(reader).readAt
      && |bus.grants| <= |after.grants|
      && forall k :: |bus.grants| <= k < |after.grants| ==> !(after.grants[k].row == i && after.grants[k].reader == reader)
    decreases |commands|
  {
    if commands != [] {
      hide Step;
      var last := |commands| - 1;
      var before := Run(bus, commands[..last]);
      ReadForever(bus, commands[..last], i, reader);
      var after := Step(before, commands[last]);
      StepRow(before, commands[last], i, reader);
      forall k: nat | |bus.grants| <= k < |after.grants| ensures !(after.grants[k].row == i && after.grants[k].reader == reader) {
        NoLeaseOnRead(before, commands[last], i, reader, k);
      }
      GrantsGrow(before, commands[last]);
    }
  }

  lemma GrantsGrow(bus: Bus, c: Command)
    ensures |bus.grants| <= |Step(bus, c).grants|
  {
  }

  lemma NoLeaseOnRead(bus: Bus, c: Command, i: nat, reader: Reader, k: nat)
    requires i < |bus.rows| && bus.rows[i].Of(reader).readAt.Some? && k < |Step(bus, c).grants|
    ensures var g := Step(bus, c).grants[k];
      g.row == i && g.reader == reader ==> k < |bus.grants| && g == bus.grants[k]
  {
    if k < |bus.grants| {
      OldGrant(bus, c, k);
    } else if c.Reserve? {
      hide Step;
      GrantCount(bus, c);
      SelectedRow(bus, c, k - |bus.grants|);
    }
  }

  // ----- conservation -----

  lemma {:induction false} SameReads(a: seq<Row>, b: seq<Row>, reader: Reader)
    requires |a| == |b| && forall i :: 0 <= i < |a| ==> a[i].Of(reader).readAt.Some? == b[i].Of(reader).readAt.Some?
    ensures CountRead(a, reader) == CountRead(b, reader)
  {
    if a != [] { SameReads(a[..|a| - 1], b[..|b| - 1], reader); }
  }

  lemma {:induction false} SettleCount(rows: seq<Row>, reader: Reader, claims: seq<nat>, now: int)
    ensures CountRead(SettledRows(rows, reader, claims, now), reader) == CountRead(rows, reader) + CountSettles(rows, reader, claims)
  {
    if rows != [] {
      var front := rows[..|rows| - 1];
      SettleCount(front, reader, claims, now);
      assert SettledRows(rows, reader, claims, now)[..|rows| - 1] == SettledRows(front, reader, claims, now);
    }
  }

  lemma {:induction false} AckCount(rows: seq<Row>, reader: Reader, ids: seq<nat>, now: int)
    ensures CountRead(AckedRows(rows, reader, ids, now), reader) == CountRead(rows, reader) + CountAcks(rows, reader, ids)
  {
    if rows != [] {
      var front := rows[..|rows| - 1];
      AckCount(front, reader, ids, now);
      assert AckedRows(rows, reader, ids, now)[..|rows| - 1] == AckedRows(front, reader, ids, now);
    }
  }

  /** Among the first `n` rows, the first `k` of the ids are the ones acknowledged. */
  lemma {:induction false} IdCount(rows: seq<Row>, want: Want, ids: seq<nat>, n: nat, k: nat)
    requires Increasing(ids) && AllWanted(rows, want, ids, 0) && n <= |rows| && k <= |ids|
    requires (k > 0 ==> ids[k - 1] < n) && (k < |ids| ==> n <= ids[k])
    ensures CountAcks(rows[..n], want.reader, ids) == k
    decreases n
  {
    if n > 0 {
      assert rows[..n][..n - 1] == rows[..n - 1];
      var hit := k > 0 && ids[k - 1] == n - 1;
      assert n - 1 in ids <==> hit;
      IdCount(rows, want, ids, n - 1, if hit then k - 1 else k);
    }
  }

  lemma PullCount(rows: seq<Row>, reader: Reader, query: Query, limit: int)
    ensures CountAcks(rows, reader, PullIds(rows, reader, query, limit)) == |PullIds(rows, reader, query, limit)|
  {
    var want := Want(reader, query, None);
    var ids := PullIds(rows, reader, query, limit);
    SelectShape(rows, want, Limit(limit), 0);
    IdCount(rows, want, ids, |rows|, |ids|);
    assert rows[..|rows|] == rows;
  }

  /** A command's returned count is the number of messages it newly reads, and for its reader only. */
  lemma ConsumedReads(bus: Bus, c: Command, reader: Reader)
    ensures CountRead(Step(bus, c).rows, reader) == CountRead(bus.rows, reader) + if ActsFor(c, reader) then Consumed(bus, c) else 0
  {
    var after := Step(bus, c);
    match c
    case Send(_, _, _) =>
      assert after.rows[..|bus.rows|] == bus.rows;
    case Reserve(_, _, _, _, _, _) =>
      ReserveReads(bus, c, reader);
    case Settle(who, claims, now) =>
      SettleCount(bus.rows, who, claims, now);
      OtherReads(bus, c);
    case Ack(who, ids, now) =>
      AckCount(bus.rows, who, ids, now);
      OtherReads(bus, c);
    case Pull(who, query, limit, now) =>
      var ids := PullIds(bus.rows, who, query, limit);
      AckCount(bus.rows, who, ids, now);
      PullCount(bus.rows, who, query, limit);
      OtherReads(bus, c);
  }

  lemma ReserveReads(bus: Bus, c: Command, reader: Reader)
    requires c.Reserve?
    ensures CountRead(Step(bus, c).rows, reader) == CountRead(bus.rows, reader)
  {
    hide Step;
    GrantCount(bus, c);
    var after, ids := Step(bus, c), CallOf(bus, c).ids;
    forall i: nat | i < |bus.rows| ensures after.rows[i].Of(reader).readAt == bus.rows[i].Of(reader).readAt {
      if i in ids {
        var k :| 0 <= k < |ids| && ids[k] == i;
        SelectedRow(bus, c, k);
      } else {
        UnselectedRow(bus, c, i);
      }
    }
    SameReads(after.rows, bus.rows, reader);
  }

  lemma OtherReads(bus: Bus, c: Command)
    requires !c.Send?
    ensures forall reader :: reader != c.reader ==> CountRead(Step(bus, c).rows, reader) == CountRead(bus.rows, reader)
  {
    RowCount(bus, c);
    hide Step;
    forall reader: Reader | reader != c.reader ensures CountRead(Step(bus, c).rows, reader) == CountRead(bus.rows, reader) {
      forall i: nat | i < |bus.rows|
        ensures i < |Step(bus, c).rows| && Step(bus, c).rows[i].Of(reader) == bus.rows[i].Of(reader)
      {
        StepRow(bus, c, i, reader);
      }
      SameReads(Step(bus, c).rows, bus.rows, reader);
    }
  }

  lemma RowCount(bus: Bus, c: Command)
    requires !c.Send?
    ensures |Step(bus, c).rows| == |bus.rows|
  {
  }

  /** What the commands of a run returned to a reader, in total. */
  function Returned(bus: Bus, commands: seq<Command>, reader: Reader): nat
    decreases |commands|
  {
    if commands == [] then 0
    else
      var last := |commands| - 1;
      Returned(bus, commands[..last], reader)
      + if ActsFor(commands[last], reader) then Consumed(Run(bus, commands[..last]), commands[last]) else 0
  }

  /** Conservation: over every run the counts returned to a reader add up to the number of
      messages that reader has read. */
  lemma {:induction false} Conservation(commands: seq<Command>, reader: Reader)
    ensures Returned(EmptyBus(), commands, reader) == CountRead(Run(EmptyBus(), commands).rows, reader)
    decreases |commands|
  {
    if commands != [] {
      var last := |commands| - 1;
      Conservation(commands[..last], reader);
      ConsumedReads(Run(EmptyBus(), commands[..last]), commands[last], reader);
    }
  }
}
