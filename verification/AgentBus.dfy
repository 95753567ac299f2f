/** The message bus: one table of messages that two readers reserve under a lease, settle,
    acknowledge and pull. Times are integers; IsoTime shows that comparing the stored texts
    compares the times. */
module AgentBus {
  import opened Options

  datatype Reader = Desktop | Code

  /** One reader's columns of a message row. */
  datatype Side = Side(readAt: Option<int>, claim: Option<nat>, until: Option<int>)

  /** A message row; its id is its position in the table, as rows are only ever appended. */
  datatype Row = Row(sender: Reader, message: string, timestamp: int, desktop: Side, code: Side)
  {
    function Of(reader: Reader): Side {
      if reader.Desktop? then desktop else code
    }

    function With(reader: Reader, side: Side): Row {
      if reader.Desktop? then this.(desktop := side) else this.(code := side)
    }
  }

  /** The optional filters of a command: a sender, and the text conditions on the message. */
  datatype Query = Query(sender: Option<Reader>, selects: string -> bool)

  /** A lease that some reserve call handed out. Claim ids are fresh, so a claim stands for
      the position of its lease among all leases ever handed out. */
  datatype Grant = Grant(row: nat, reader: Reader, now: int, until: int)

  datatype Bus = Bus(rows: seq<Row>, grants: seq<Grant>)

  const EMPTY_SIDE: Side := Side(None, None, None)

  function EmptyBus(): Bus {
    Bus([], [])
  }

  // ----- selecting rows -----

  predicate Unread(row: Row, reader: Reader, query: Query) {
    && row.Of(reader).readAt.None?
    && (query.sender.Some? ==> row.sender == query.sender.value)
    && query.selects(row.message)
  }

  /** No live lease: `claim IS NULL OR until IS NULL OR until < now`. */
  predicate Available(side: Side, now: int) {
    side.claim.None? || side.until.None? || side.until.value < now
  }

  /** What a selection asks of a row: `now` is absent when leases do not matter. */
  datatype Want = Want(reader: Reader, query: Query, now: Option<int>)

  predicate Wanted(row: Row, want: Want) {
    Unread(row, want.reader, want.query) && (want.now.Some? ==> Available(row.Of(want.reader), want.now.value))
  }

  /** `min(limit or 20, 100)`; a negative limit is no limit. */
  function Limit(limit: int): int {
    if limit == 0 then 20 else if limit > 100 then 100 else limit
  }

  /** Ids of the wanted rows from `i` on, in order, at most `limit` of them. */
  function Select(rows: seq<Row>, want: Want, limit: int, i: nat): seq<nat>
    decreases |rows| - i
  {
    if i >= |rows| || limit == 0 then []
    else if Wanted(rows[i], want) then [i] + Select(rows, want, limit - 1, i + 1)
    else Select(rows, want, limit, i + 1)
  }

  // ----- the updates -----

  function Reserved(side: Side, claim: nat, until: int): Side {
    side.(claim := Some(claim), until := Some(until))
  }

  /** The rows `ids` each take the next claim. */
  function Granted(rows: seq<Row>, ids: seq<nat>, reader: Reader, claim: nat, until: int): (r: seq<Row>)
    ensures |r| == |rows|
    decreases |ids|
  {
    if ids == [] then rows
    else
      var last := |ids| - 1;
      var r := Granted(rows, ids[..last], reader, claim, until);
      var id := ids[last];
      if id < |r| then r[id := r[id].With(reader, Reserved(r[id].Of(reader), claim + last, until))] else r
  }

  /** One more row takes its claim. */
  lemma GrantNext(rows: seq<Row>, ids: seq<nat>, k: nat, reader: Reader, claim: nat, until: int)
    requires k < |ids| && ids[k] < |rows|
    ensures var before := Granted(rows, ids[..k], reader, claim, until);
      Granted(rows, ids[..k + 1], reader, claim, until) ==
        before[ids[k] := before[ids[k]].With(reader, Reserved(before[ids[k]].Of(reader), claim + k, until))]
  {
    assert ids[..k + 1][..k] == ids[..k] && ids[..k + 1][k] == ids[k];
  }

  function NewGrants(ids: seq<nat>, reader: Reader, now: int, until: int): seq<Grant> {
    seq(|ids|, k requires 0 <= k < |ids| => Grant(ids[k], reader, now, until))
  }

  predicate Settles(row: Row, reader: Reader, claims: seq<nat>) {
    var side := row.Of(reader);
    side.readAt.None? && side.claim.Some? && side.claim.value in claims
  }

  predicate Acks(rows: seq<Row>, i: nat, reader: Reader, ids: seq<nat>)
    requires i < |rows|
  {
    i in ids && rows[i].Of(reader).readAt.None?
  }

  function SettledRow(row: Row, reader: Reader, now: int): Row {
    row.With(reader, Side(Some(now), None, None))
  }

  function ReadRow(row: Row, reader: Reader, now: int): Row {
    row.With(reader, row.Of(reader).(readAt := Some(now)))
  }

  function SettledRows(rows: seq<Row>, reader: Reader, claims: seq<nat>, now: int): seq<Row> {
    seq(|rows|, i requires 0 <= i < |rows| =>
      if Settles(rows[i], reader, claims) then SettledRow(rows[i], reader, now) else rows[i])
  }

  function AckedRows(rows: seq<Row>, reader: Reader, ids: seq<nat>, now: int): seq<Row> {
    seq(|rows|, i requires 0 <= i < |rows| =>
      if Acks(rows, i, reader, ids) then ReadRow(rows[i], reader, now) else rows[i])
  }

  function CountRead(rows: seq<Row>, reader: Reader): (n: nat)
    ensures n <= |rows|
  {
    if rows == [] then 0
    else CountRead(rows[..|rows| - 1], reader) + if rows[|rows| - 1].Of(reader).readAt.Some? then 1 else 0
  }

  function CountSettles(rows: seq<Row>, reader: Reader, claims: seq<nat>): (n: nat)
    ensures n <= |rows|
  {
    if rows == [] then 0
    else CountSettles(rows[..|rows| - 1], reader, claims) + if Settles(rows[|rows| - 1], reader, claims) then 1 else 0
  }

  function CountAcks(rows: seq<Row>, reader: Reader, ids: seq<nat>): (n: nat)
    ensures n <= |rows|
  {
    if rows == [] then 0
    else CountAcks(rows[..|rows| - 1], reader, ids) + if Acks(rows, |rows| - 1, reader, ids) then 1 else 0
  }

  // ----- the commands as steps -----

  /** Reserve reads the clock twice, for `now` and for the start of the lease; both readings are
      taken before the transaction starts and kept over its retries. */
  datatype Command =
    | Send(sender: Reader, message: string, now: int)
    | Reserve(reader: Reader, query: Query, limit: int, now: int, leaseStart: int, lease: int)
    | Settle(reader: Reader, claims: seq<nat>, now: int)
    | Ack(reader: Reader, ids: seq<nat>, now: int)
    | Pull(reader: Reader, query: Query, limit: int, now: int)

  function LeaseEnd(leaseStart: int, lease: int): int {
    leaseStart + if lease > 1 then lease else 1
  }

  function ReserveIds(rows: seq<Row>, reader: Reader, query: Query, limit: int, now: int): seq<nat> {
    Select(rows, Want(reader, query, Some(now)), Limit(limit), 0)
  }

  function PullIds(rows: seq<Row>, reader: Reader, query: Query, limit: int): seq<nat> {
    Select(rows, Want(reader, query, None), Limit(limit), 0)
  }

  /** The number a command returns: rows settled, marked or pulled. */
  function Consumed(bus: Bus, c: Command): nat {
    match c
    case Settle(reader, claims, _) => CountSettles(bus.rows, reader, claims)
    case Ack(reader, ids, _) => CountAcks(bus.rows, reader, ids)
    case Pull(reader, query, limit, _) => |PullIds(bus.rows, reader, query, limit)|
    case _ => 0
  }

  function Step(bus: Bus, c: Command): Bus {
    match c
    case Send(sender, message, now) =>
      bus.(rows := bus.rows + [Row(sender, message, now, EMPTY_SIDE, EMPTY_SIDE)])
    case Reserve(reader, query, limit, now, leaseStart, lease) =>
      var ids := ReserveIds(bus.rows, reader, query, limit, now);
      var until := LeaseEnd(leaseStart, lease);
      bus.(rows := Granted(bus.rows, ids, reader, |bus.grants|, until), grants := bus.grants + NewGrants(ids, reader, now, until))
    case Settle(reader, claims, now) =>
      bus.(rows := SettledRows(bus.rows, reader, claims, now))
    case Ack(reader, ids, now) =>
      bus.(rows := AckedRows(bus.rows, reader, ids, now))
    case Pull(reader, query, limit, now) =>
      bus.(rows := AckedRows(bus.rows, reader, PullIds(bus.rows, reader, query, limit), now))
  }

  function Run(bus: Bus, commands: seq<Command>): Bus
    decreases |commands|
  {
    if commands == [] then bus
    else Step(Run(bus, commands[..|commands| - 1]), commands[|commands| - 1])
  }

  // ----- the table -----

  /** The database table. `leases` keeps every lease handed out; the program does not store it. */
  class Table {
    var rows: seq<Row>
    var claims: nat
    ghost var leases: seq<Grant>

    ghost predicate Valid()
      reads this
    {
      claims == |leases|
    }

    ghost function State(): Bus
      reads this
    {
      Bus(rows, leases)
    }

    constructor ()
      ensures Valid() && State() == EmptyBus()
    {
      rows, claims, leases := [], 0, [];
    }

    method SendMessage(sender: Reader, message: string, now: int) returns (id: nat)
      requires Valid()
      modifies this
      ensures Valid() && State() == Step(old(State()), Send(sender, message, now))
      ensures id == |old(rows)| && id < |rows|
    {
      id := |rows|;
      rows := rows + [Row(sender, message, now, EMPTY_SIDE, EMPTY_SIDE)];
    }

    /** `SELECT ... ORDER BY id LIMIT`; a negative limit is no limit. */
    method SelectMessages(want: Want, limit: int) returns (ids: seq<nat>)
      ensures ids == Select(rows, want, limit, 0)
    {
      ids := [];
      var i, left := 0, limit;
      while i < |rows| && left != 0
        invariant 0 <= i <= |rows|
        invariant Select(rows, want, limit, 0) == ids + Select(rows, want, left, i)
      {
        if Wanted(rows[i], want) {
          ids, left := ids + [i], left - 1;
        }
        i := i + 1;
      }
    }

    /** One transaction: select the rows, then give each its own claim. */
    method ReserveMessages(reader: Reader, query: Query, limit: int, now: int, leaseStart: int, lease: int)
      returns (ids: seq<nat>, first: nat)
      requires Valid()
      modifies this
      ensures Valid() && State() == Step(old(State()), Reserve(reader, query, limit, now, leaseStart, lease))
      ensures ids == ReserveIds(old(rows), reader, query, limit, now) && first == old(claims)
    {
      ids := SelectMessages(Want(reader, query, Some(now)), Limit(limit));
      first := claims;
      var until := LeaseEnd(leaseStart, lease);
      SelectShape(rows, Want(reader, query, Some(now)), Limit(limit), 0);
      ghost var selected := rows;
      var k := 0;
      while k < |ids|
        invariant 0 <= k <= |ids| && claims == first + k && |rows| == |selected|
        invariant rows == Granted(selected, ids[..k], reader, first, until)
        invariant leases == old(leases)
      {
        hide Granted;
        GrantNext(selected, ids, k, reader, first, until);
        rows := rows[ids[k] := rows[ids[k]].With(reader, Reserved(rows[ids[k]].Of(reader), claims, until))];
        claims, k := claims + 1, k + 1;
      }
      assert ids[..k] == ids;
      leases := leases + NewGrants(ids, reader, now, until);
    }

    /** The update visits every row: the unread ones that hold one of the claims are marked as read and lose their
        lease, the others stay, and the result counts the marked ones. */
    method SettleClaims(reader: Reader, ids: seq<nat>, now: int) returns (count: nat)
      requires Valid()
      modifies this`rows
      ensures Valid() && State() == Step(old(State()), Settle(reader, ids, now))
      ensures count == Consumed(old(State()), Settle(reader, ids, now))
      ensures |rows| == |old(rows)| && count <= |rows|
      ensures forall i :: 0 <= i < |rows| ==>
        var was := old(rows)[i].Of(reader);
        if was.readAt.None? && was.claim.Some? && was.claim.value in ids then
          rows[i] == old(rows)[i].With(reader, Side(Some(now), None, None))
        else rows[i] == old(rows)[i]
    {
      count := 0;
      ghost var before := rows;
      for i := 0 to |rows|
        invariant |rows| == |before| && count == CountSettles(before[..i], reader, ids) && claims == old(claims)
        invariant forall j :: 0 <= j < i ==> rows[j] == SettledRows(before, reader, ids, now)[j]
        invariant forall j :: i <= j < |rows| ==> rows[j] == before[j]
      {
        assert before[..i + 1][..i] == before[..i];
        var side := rows[i].Of(reader);
        if side.readAt.None? && side.claim.Some? && side.claim.value in ids {
          rows := rows[i := rows[i].With(reader, Side(Some(now), None, None))];
          count := count + 1;
        }
      }
      assert before[..|rows|] == before;
      assert rows == SettledRows(before, reader, ids, now);
    }

    /** The update visits every row: the unread ones among the ids are marked as read, the others stay, and the result
        counts the marked ones. */
    method AckMessages(reader: Reader, ids: seq<nat>, now: int) returns (count: nat)
      requires Valid()
      modifies this`rows
      ensures Valid() && State() == Step(old(State()), Ack(reader, ids, now))
      ensures count == Consumed(old(State()), Ack(reader, ids, now))
      ensures |rows| == |old(rows)| && count <= |rows|
      ensures forall i :: 0 <= i < |rows| ==>
        var was := old(rows)[i].Of(reader);
        if was.readAt.None? && i in ids then rows[i] == old(rows)[i].With(reader, was.(readAt := Some(now)))
        else rows[i] == old(rows)[i]
    {
      count := 0;
      ghost var before := rows;
      for i := 0 to |rows|
        invariant |rows| == |before| && count == CountAcks(before[..i], reader, ids) && claims == old(claims)
        invariant forall j :: 0 <= j < i ==> rows[j] == AckedRows(before, reader, ids, now)[j]
        invariant forall j :: i <= j < |rows| ==> rows[j] == before[j]
      {
        assert before[..i + 1][..i] == before[..i];
        var side := rows[i].Of(reader);
        if side.readAt.None? && i in ids {
          rows := rows[i := rows[i].With(reader, side.(readAt := Some(now)))];
          count := count + 1;
        }
      }
      assert before[..|rows|] == before;
      assert rows == AckedRows(before, reader, ids, now);
    }

    /** One transaction: select the rows whether leased or not, then mark those that are still unread. */
    method PullMessages(reader: Reader, query: Query, limit: int, now: int) returns (ids: seq<nat>)
      requires Valid()
      modifies this`rows
      ensures Valid() && State() == Step(old(State()), Pull(reader, query, limit, now))
      ensures ids == PullIds(old(rows), reader, query, limit)
      ensures forall i :: i in ids ==> i < |rows| && rows[i].Of(reader).readAt == Some(now)
    {
      ids := SelectMessages(Want(reader, query, None), Limit(limit));
      SelectShape(rows, Want(reader, query, None), Limit(limit), 0);
      var _ := AckMessages(reader, ids, now);
    }

    /** The compatibility command: a reserve and a settle of exactly the claims it gave. */
    method PullByReserving(reader: Reader, query: Query, limit: int, now: int, leaseStart: int, lease: int, settleAt: int)
      returns (ids: seq<nat>)
      requires Valid()
      modifies this
      ensures Valid() && ids == ReserveIds(old(rows), reader, query, limit, now)
      ensures State() == ReserveAndSettle(old(State()), reader, query, limit, now, leaseStart, lease, settleAt)
    {
      var first: nat;
      ids, first := ReserveMessages(reader, query, limit, now, leaseStart, lease);
      var given := ClaimsOf(first, |ids|);
      if given != [] {
        var _ := SettleClaims(reader, given, settleAt);
      }
    }
  }

  function ClaimsOf(first: nat, count: nat): seq<nat> {
    seq(count, k => first + k)
  }

  function ReserveAndSettle(bus: Bus, reader: Reader, query: Query, limit: int, now: int, leaseStart: int, lease: int, settleAt: int): Bus {
    var reserved := Step(bus, Reserve(reader, query, limit, now, leaseStart, lease));
    var given := ClaimsOf(|bus.grants|, |ReserveIds(bus.rows, reader, query, limit, now)|);
    if given == [] then reserved else Step(reserved, Settle(reader, given, settleAt))
  }

  predicate Increasing(ids: seq<nat>) {
    forall j, k :: 0 <= j < k < |ids| ==> ids[j] < ids[k]
  }

  predicate AllWanted(rows: seq<Row>, want: Want, ids: seq<nat>, from: nat) {
    forall k :: 0 <= k < |ids| ==> from <= ids[k] < |rows| && Wanted(rows[ids[k]], want)
  }

  /** A selection lists wanted rows in id order, none of them twice. */
  lemma {:induction false} SelectShape(rows: seq<Row>, want: Want, limit: int, i: nat)
    ensures var ids := Select(rows, want, limit, i);
      AllWanted(rows, want, ids, i) && Increasing(ids) && (limit >= 0 ==> |ids| <= limit)
    decreases |rows| - i
  {
    if i < |rows| && limit != 0 {
      if Wanted(rows[i], want) {
        SelectShape(rows, want, limit - 1, i + 1);
        var others := Select(rows, want, limit - 1, i + 1);
        var ids := [i] + others;
        assert forall k :: 1 <= k < |ids| ==> ids[k] == others[k - 1];
      } else {
        SelectShape(rows, want, limit, i + 1);
      }
    }
  }

  /** A selection passes a wanted row over only when it has used up its limit on rows before it. */
  lemma {:induction false} SelectComplete(rows: seq<Row>, want: Want, limit: int, i: nat, j: nat)
    requires i <= j < |rows| && Wanted(rows[j], want) && j !in Select(rows, want, limit, i)
    ensures var ids := Select(rows, want, limit, i);
      |ids| == limit && forall k :: 0 <= k < |ids| ==> ids[k] < j
    decreases |rows| - i
  {
    if limit != 0 {
      if Wanted(rows[i], want) {
        var others := Select(rows, want, limit - 1, i + 1);
        var ids := [i] + others;
        assert ids[0] == i;
        assert j !in others;
        SelectComplete(rows, want, limit - 1, i + 1, j);
      } else {
        SelectComplete(rows, want, limit, i + 1, j);
      }
    }
  }
}
