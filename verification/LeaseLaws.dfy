/** How long a lease lasts and how many messages a selection takes, in numbers. */
module LeaseLaws {
  import opened Options
  import opened AgentBus
  import opened BusLaws

  /** The moment a reserve call's lease ends; a lease shorter than one lasts one. */
  function End(c: Command): int
    requires c.Reserve?
  {
    c.leaseStart + if c.lease >= 1 then c.lease else 1
  }

  function Selected(bus: Bus, c: Command): seq<nat>
    requires c.Reserve?
  {
    ReserveIds(bus.rows, c.reader, c.query, c.limit, c.now)
  }

  /** The row is read, or leased until `end` or longer. */
  predicate Held(side: Side, end: int) {
    side.readAt.Some? || (side.claim.Some? && side.until.Some? && side.until.value >= end)
  }

  lemma SelectedIsHeld(bus: Bus, c: Command, i: nat)
    requires c.Reserve? && i in Selected(bus, c)
    ensures i < |Step(bus, c).rows|
    ensures var side := Step(bus, c).rows[i].Of(c.reader);
      side.readAt.None? && side.claim.Some? && side.until == Some(End(c))
  {
    hide Step;
    hide ReserveIds;
    var k :| 0 <= k < |Selected(bus, c)| && Selected(bus, c)[k] == i;
    SelectedRow(bus, c, k);
  }

  lemma HeldIsPassedOver(bus: Bus, c: Command, i: nat, end: int)
    requires c.Reserve? && i < |bus.rows| && Held(bus.rows[i].Of(c.reader), end) && c.now <= end
    ensures i !in Selected(bus, c)
  {
    SelectShape(bus.rows, Want(c.reader, c.query, Some(c.now)), Limit(c.limit), 0);
  }

  lemma StepHolds(bus: Bus, c: Command, i: nat, reader: Reader, end: int)
    requires i < |bus.rows| && Held(bus.rows[i].Of(reader), end) && SoundClock(c)
    ensures i < |Step(bus, c).rows| && Held(Step(bus, c).rows[i].Of(reader), end)
  {
    StepRow(bus, c, i, reader);
    if c.Reserve? && c.reader == reader {
      hide Step;
      hide ReserveIds;
      if i in Selected(bus, c) {
        if c.now <= end {
          HeldIsPassedOver(bus, c, i, end);
        }
        SelectedIsHeld(bus, c, i);
      } else {
        UnselectedRow(bus, c, i);
      }
    }
  }

  lemma {:induction false} RunHolds(bus: Bus, commands: seq<Command>, i: nat, reader: Reader, end: int)
    requires i < |bus.rows| && Held(bus.rows[i].Of(reader), end)
    requires forall k :: 0 <= k < |commands| ==> SoundClock(commands[k])
    ensures i < |Run(bus, commands).rows| && Held(Run(bus, commands).rows[i].Of(reader), end)
    decreases |commands|
  {
    hide Held;
    hide Step;
    if commands != [] {
      var n := |commands| - 1;
      RunHolds(bus, commands[..n], i, reader, end);
      StepHolds(Run(bus, commands[..n]), commands[n], i, reader, end);
    }
  }

  /** Once a call has reserved a row, then, whatever commands come in between, no call of the same reader whose clock is
      not past the end of the lease selects the row. */
  lemma LeaseHolds(bus: Bus, call: Command, between: seq<Command>, later: Command, i: nat)
    requires call.Reserve? && later.Reserve? && later.reader == call.reader
    requires forall k :: 0 <= k < |between| ==> SoundClock(between[k])
    requires i in ReserveIds(bus.rows, call.reader, call.query, call.limit, call.now)
    requires later.now <= call.leaseStart + if call.lease >= 1 then call.lease else 1
    ensures i !in ReserveIds(Run(Step(bus, call), between).rows, later.reader, later.query, later.limit, later.now)
  {
    hide Step;
    hide Run;
    hide ReserveIds;
    SelectedIsHeld(bus, call, i);
    RunHolds(Step(bus, call), between, i, call.reader, End(call));
    HeldIsPassedOver(Run(Step(bus, call), between), later, i, End(call));
  }

  // ----- the end of a lease -----

  lemma {:induction false} RunKeepsGrant(bus: Bus, commands: seq<Command>, a: nat)
    requires a < |bus.grants|
    ensures a < |Run(bus, commands).grants| && Run(bus, commands).grants[a] == bus.grants[a]
    decreases |commands|
  {
    hide Step;
    if commands != [] {
      var n := |commands| - 1;
      RunKeepsGrant(bus, commands[..n], a);
      OldGrant(Run(bus, commands[..n]), commands[n], a);
    }
  }

  lemma {:induction false} RunKeepsInv(bus: Bus, commands: seq<Command>)
    requires Inv(bus) && forall k :: 0 <= k < |commands| ==> SoundClock(commands[k])
    ensures Inv(Run(bus, commands))
    decreases |commands|
  {
    hide Inv;
    hide Step;
    if commands != [] {
      var n := |commands| - 1;
      RunKeepsInv(bus, commands[..n]);
      if commands[n].Reserve? {
        InvReserve(Run(bus, commands[..n]), commands[n]);
      } else {
        InvOther(Run(bus, commands[..n]), commands[n]);
      }
    }
  }

  lemma ClaimEnd(bus: Bus, i: nat, reader: Reader)
    requires Inv(bus) && i < |bus.rows| && bus.rows[i].Of(reader).claim.Some?
    ensures var claim := bus.rows[i].Of(reader).claim.value;
      claim < |bus.grants| && bus.rows[i].Of(reader).until == Some(bus.grants[claim].until)
  {
    assert SideOk(bus.grants, bus.rows[i].Of(reader), i, reader);
  }

  /** The most messages one selection takes: twenty if nothing is said, never more than a hundred. */
  function Most(limit: nat): nat {
    if limit == 0 then 20 else if limit <= 100 then limit else 100
  }

  /** An unread row that passes the filters, and on which the call's lease is still the last, is selected again as soon as
      the clock is past the end of the lease, unless the limit is used up on rows before it. */
  lemma LeaseEnds(bus: Bus, call: Command, between: seq<Command>, later: Command, i: nat)
    requires Inv(bus) && SoundClock(call) && forall k :: 0 <= k < |between| ==> SoundClock(between[k])
    requires call.Reserve? && later.Reserve? && later.reader == call.reader && later.limit >= 0
    requires i in ReserveIds(bus.rows, call.reader, call.query, call.limit, call.now)
    requires i < |Step(bus, call).rows| && i < |Run(Step(bus, call), between).rows|
    requires var row := Run(Step(bus, call), between).rows[i];
      && row.Of(call.reader).readAt.None? && row.Of(call.reader).claim == Step(bus, call).rows[i].Of(call.reader).claim
      && (later.query.sender.None? || later.query.sender == Some(row.sender)) && later.query.selects(row.message)
    requires later.now > call.leaseStart + if call.lease >= 1 then call.lease else 1
    ensures var ids := ReserveIds(Run(Step(bus, call), between).rows, later.reader, later.query, later.limit, later.now);
      i in ids || (|ids| == Most(later.limit) && forall k :: 0 <= k < |ids| ==> ids[k] < i)
  {
    var first, after := Step(bus, call), Run(Step(bus, call), between);
    SelectedIsHeld(bus, call, i);
    InvReserve(bus, call);
    RunKeepsInv(first, between);
    ClaimEnd(first, i, call.reader);
    ClaimEnd(after, i, call.reader);
    RunKeepsGrant(first, between, first.rows[i].Of(call.reader).claim.value);
    RowAfter(after, later, i, End(call));
  }

  lemma RowAfter(bus: Bus, c: Command, i: nat, end: int)
    requires c.Reserve? && i < |bus.rows| && c.now > end && c.limit >= 0
    requires bus.rows[i].Of(c.reader).readAt.None? && bus.rows[i].Of(c.reader).until == Some(end)
    requires (c.query.sender.None? || c.query.sender == Some(bus.rows[i].sender)) && c.query.selects(bus.rows[i].message)
    ensures var ids := Selected(bus, c);
      i in ids || (|ids| == Most(c.limit) && forall k :: 0 <= k < |ids| ==> ids[k] < i)
  {
    var want := Want(c.reader, c.query, Some(c.now));
    if i !in Selected(bus, c) {
      SelectComplete(bus.rows, want, Limit(c.limit), 0, i);
    }
  }

  /** The reader has not read the row, it comes from the sender asked for and passes the text conditions, and no lease
      reaches the moment of the call. */
  predicate Due(row: Row, c: Command)
    requires c.Reserve?
  {
    var side := if c.reader == Desktop then row.desktop else row.code;
    && side.readAt == None && (c.query.sender == None || c.query.sender == Some(row.sender)) && c.query.selects(row.message)
    && !(side.claim != None && side.until.Some? && c.now <= side.until.value)
  }

  /** A reserve call takes due rows only: all of them when they are no more than the limit allows, else as many as it
      allows. */
  lemma SelectionIsDue(bus: Bus, c: Command)
    requires c.Reserve? && c.limit >= 0
    ensures var ids := ReserveIds(bus.rows, c.reader, c.query, c.limit, c.now);
      && |ids| <= Most(c.limit)
      && (forall i :: i in ids ==> i < |bus.rows| && Due(bus.rows[i], c))
      && (|ids| < Most(c.limit) ==> forall i :: 0 <= i < |bus.rows| && Due(bus.rows[i], c) ==> i in ids)
  {
    var want := Want(c.reader, c.query, Some(c.now));
    SelectShape(bus.rows, want, Limit(c.limit), 0);
    forall i | 0 <= i < |bus.rows| && Due(bus.rows[i], c) && i !in Selected(bus, c)
      ensures |Selected(bus, c)| == Most(c.limit)
    {
      SelectComplete(bus.rows, want, Limit(c.limit), 0, i);
    }
  }
}
