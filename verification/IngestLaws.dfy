/** The daemon and the bus together: each receipt is acted on at most once, and nothing is settled unrecorded. */
module IngestLaws {
  import opened Options
  import opened AgentBus
  import opened BusLaws
  import opened Ingest

  // ----- the two together -----

  /** How message ids are written and message texts read. */
  datatype Format = Format(idText: nat -> string, parse: string -> Parsed, toInt: string -> Option<int>)

  datatype Parsed = Parsed(task: string, status: string, delivery: Option<string>)

  function RowMessage(f: Format, rows: seq<Row>, i: nat, claim: Option<nat>): Message
    requires i < |rows|
  {
    var p := f.parse(rows[i].message);
    Message(f.idText(i), p.task, p.status, p.delivery, claim)
  }

  /** The ledger, the messages fetched by daemon passes that have not been handled yet, and every row that was ever in
      the receipts table. */
  datatype World = World(ledger: Ledger, pending: seq<Message>, ever: seq<Recorded>)

  /** `Elsewhere` is any bus command of anybody else, in the name of either reader; `Fetch` a reservation by a daemon pass; `Local` a receipt of a local executor; `Handle` one turn of a pass over any fetched message;
      `Forget` a message dropped because its daemon died; `Purge` the cleanup that keeps only some rows. */
  datatype Event =
    | Elsewhere(command: Command)
    | Fetch(query: Query, limit: int, now: int, leaseStart: int, lease: int)
    | Local(message: Message)
    | Handle(k: nat, env: Env)
    | Forget(k: nat)
    | Purge(kept: seq<Recorded>)

  predicate Enabled(w: World, e: Event) {
    match e
    case Elsewhere(c) => SoundClock(c)
    case Fetch(_, _, now, leaseStart, _) => now <= leaseStart
    case Local(m) => m.claim.None?
    case Handle(k, _) => k < |w.pending|
    case Forget(k) => k < |w.pending|
    case Purge(kept) => forall r :: r in kept ==> r in w.ledger.receipts
  }

  function FetchCommand(e: Event): Command
    requires e.Fetch?
  {
    Reserve(Desktop, e.query, e.limit, e.now, e.leaseStart, e.lease)
  }

  function Fetched(f: Format, bus: Bus, e: Event): seq<Message>
    requires e.Fetch?
  {
    var ids := ReserveIds(bus.rows, Desktop, e.query, e.limit, e.now);
    SelectShape(bus.rows, Want(Desktop, e.query, Some(e.now)), Limit(e.limit), 0);
    seq(|ids|, k requires 0 <= k < |ids| => RowMessage(f, bus.rows, ids[k], Some(|bus.grants| + k)))
  }

  function Without(pending: seq<Message>, k: nat): seq<Message>
    requires k < |pending|
  {
    pending[..k] + pending[k + 1..]
  }

  function After(f: Format, w: World, e: Event): World
    requires Enabled(w, e)
  {
    match e
    case Elsewhere(c) => w.(ledger := w.ledger.(bus := Step(w.ledger.bus, c)))
    case Fetch(_, _, _, _, _) =>
      w.(ledger := w.ledger.(bus := Step(w.ledger.bus, FetchCommand(e))), pending := w.pending + Fetched(f, w.ledger.bus, e))
    case Local(m) => w.(pending := w.pending + [m])
    case Handle(k, env) =>
      var after := Ingested(f.toInt, w.ledger, w.pending[k], env);
      World(after, Without(w.pending, k), w.ever + after.receipts)
    case Forget(k) => w.(pending := Without(w.pending, k))
    case Purge(kept) => w.(ledger := w.ledger.(receipts := kept))
  }

  ghost predicate Possible(f: Format, w: World, events: seq<Event>)
    decreases |events|
  {
    events == [] || (Enabled(w, events[0]) && Possible(f, After(f, w, events[0]), events[1..]))
  }

  ghost function Ran(f: Format, w: World, events: seq<Event>): World
    requires Possible(f, w, events)
    decreases |events|
  {
    if events == [] then w else Ran(f, After(f, w, events[0]), events[1..])
  }

  function Start(): World {
    World(Ledger(EmptyBus(), [], []), [], [])
  }

  // ----- acted on at most once -----

  predicate SameReceipt(a: Message, b: Message) {
    a.id == b.id || (a.delivery.Some? && a.task == b.task && a.delivery == b.delivery)
  }

  /** No two of the messages acted on have the same id, or the same task and delivery id. */
  predicate ActedOnce(finalised: seq<Message>) {
    forall i, j :: 0 <= i < j < |finalised| ==> !SameReceipt(finalised[i], finalised[j])
  }

  /** A message that a daemon may still handle: fetched already, or unread on the bus for the daemon's reader. */
  ghost predicate Live(f: Format, w: World, m: Message) {
    m in w.pending || exists i: nat :: i < |w.ledger.bus.rows| && LiveRow(f, w.ledger.bus.rows, i, m)
  }

  predicate LiveRow(f: Format, rows: seq<Row>, i: nat, m: Message)
    requires i < |rows|
  {
    rows[i].desktop.readAt.None? && m == RowMessage(f, rows, i, m.claim)
  }

  /** A message that can be acted on. */
  predicate IsReceipt(m: Message) {
    !Blank(m) && IsTerminal(m.status)
  }

  /** What was acted on and could come again is still known to the receipts table. */
  ghost predicate Remembers(f: Format, w: World) {
    forall x, m :: x in w.ledger.finalised && Live(f, w, m) && IsReceipt(m) && SameReceipt(x, m) ==>
      Collides(w.ledger.receipts, m)
  }

  predicate HasRow(receipts: seq<Recorded>, m: Message) {
    Recorded(m.id, m.task, m.status, m.delivery) in receipts
  }

  lemma RowCollides(receipts: seq<Recorded>, m: Message, x: Message)
    requires HasRow(receipts, m) && SameReceipt(m, x)
    ensures Collides(receipts, x)
  {
    var i :| 0 <= i < |receipts| && receipts[i] == Recorded(m.id, m.task, m.status, m.delivery);
    assert receipts[i].messageId == x.id || SameDelivery(receipts[i], x);
  }

  /** Handling a message that is remembered, if it is like one acted on, acts on nothing twice. */
  lemma IngestedOnce(toInt: string -> Option<int>, l: Ledger, m: Message, env: Env)
    requires ActedOnce(l.finalised)
    requires forall x :: x in l.finalised && IsReceipt(m) && SameReceipt(x, m) ==> Collides(l.receipts, m)
    ensures ActedOnce(Ingested(toInt, l, m, env).finalised)
  {
    hide SettledBus;
    hide IsStale;
    hide Collides;
    hide SameReceipt;
  }

  lemma IngestedEnters(toInt: string -> Option<int>, l: Ledger, m: Message, env: Env)
    ensures var after := Ingested(toInt, l, m, env);
      && (after.finalised == l.finalised || (after.finalised == l.finalised + [m] && HasRow(after.receipts, m)))
      && (after.receipts == l.receipts || after.receipts == Entered(l.receipts, m))
  {
    hide SettledBus;
    hide IsStale;
    hide Collides;
    if Finalises(toInt, l.receipts, m, env) {
      assert Entered(l.receipts, m)[|l.receipts|] == Recorded(m.id, m.task, m.status, m.delivery);
    }
  }

  /** Handling a message leaves everything remembered. */
  lemma HandleRemembers(f: Format, w: World, k: nat, env: Env)
    requires Remembers(f, w) && k < |w.pending|
    ensures Remembers(f, After(f, w, Handle(k, env)))
  {
    hide Ingested;
    hide Collides;
    hide SameReceipt;
    hide Entered;
    hide HasRow;
    var l, m := w.ledger, w.pending[k];
    var v := After(f, w, Handle(k, env));
    IngestedEnters(f.toInt, l, m, env);
    forall x, y | x in v.ledger.finalised && Live(f, v, y) && IsReceipt(y) && SameReceipt(x, y)
      ensures Collides(v.ledger.receipts, y)
    {
      HandleKeepsLive(f, w, k, env, y);
      if x in l.finalised {
        KnownLonger(l.receipts, m, y);
      } else {
        RowCollides(v.ledger.receipts, x, y);
      }
    }
  }

  lemma HandleKeepsLive(f: Format, w: World, k: nat, env: Env, y: Message)
    requires k < |w.pending| && Live(f, After(f, w, Handle(k, env)), y)
    ensures Live(f, w, y)
  {
    hide CourseOf;
    hide Finalises;
    hide Entered;
    var v := After(f, w, Handle(k, env));
    if y !in v.pending {
      var i: nat :| i < |v.ledger.bus.rows| && LiveRow(f, v.ledger.bus.rows, i, y);
      assert LiveRow(f, w.ledger.bus.rows, i, y);
    }
  }

  /** Fetching only moves messages that were live on the bus. */
  lemma FetchKeepsLive(f: Format, w: World, e: Event, y: Message)
    requires e.Fetch? && Enabled(w, e) && Live(f, After(f, w, e), y)
    ensures Live(f, w, y)
  {
    hide Step;
    var bus, c := w.ledger.bus, FetchCommand(e);
    var v := After(f, w, e);
    if y in v.pending && y !in w.pending {
      var k :| 0 <= k < |Fetched(f, bus, e)| && Fetched(f, bus, e)[k] == y;
      SelectedRow(bus, c, k);
      assert LiveRow(f, bus.rows, CallOf(bus, c).ids[k], y);
    } else if y !in v.pending {
      var i: nat :| i < |v.ledger.bus.rows| && LiveRow(f, v.ledger.bus.rows, i, y);
      FetchKeepsRow(f, bus, c, i, y);
    }
  }

  lemma FetchKeepsRow(f: Format, bus: Bus, c: Command, i: nat, y: Message)
    requires c.Reserve? && i < |Step(bus, c).rows| && LiveRow(f, Step(bus, c).rows, i, y)
    ensures i < |bus.rows| && LiveRow(f, bus.rows, i, y)
  {
    GrantCount(bus, c);
    if k :| 0 <= k < |CallOf(bus, c).ids| && CallOf(bus, c).ids[k] == i {
      SelectedRow(bus, c, k);
    } else {
      UnselectedRow(bus, c, i);
    }
  }

  /** Commands other than sending put no message on the bus that was not there, unread, before. */
  lemma ElsewhereKeepsLive(f: Format, w: World, c: Command, y: Message)
    requires SoundClock(c) && !c.Send? && Live(f, After(f, w, Elsewhere(c)), y)
    ensures Live(f, w, y)
  {
    hide Step;
    var bus := w.ledger.bus;
    if y !in w.pending {
      var rows := Step(bus, c).rows;
      var i: nat :| i < |rows| && LiveRow(f, rows, i, y);
      SameRowCount(bus, c);
      StepRow(bus, c, i, Desktop);
      assert LiveRow(f, bus.rows, i, y);
    }
  }

  lemma SameRowCount(bus: Bus, c: Command)
    requires !c.Send?
    ensures |Step(bus, c).rows| == |bus.rows|
  {
  }

  /** Whether an event can bring back, or forget, a message that was acted on. */
  predicate Risky(e: Event) {
    e.Purge? || e.Local? || (e.Elsewhere? && e.command.Send?)
  }

  /** Purges, local receipts and messages sent leave everything remembered. */
  ghost predicate Remembering(f: Format, w: World, events: seq<Event>)
    requires Possible(f, w, events)
    decreases |events|
  {
    events == [] ||
    var v := After(f, w, events[0]);
    (Risky(events[0]) ==> Remembers(f, v)) && Remembering(f, v, events[1..])
  }

  lemma EventRemembers(f: Format, w: World, e: Event)
    requires Enabled(w, e) && Remembers(f, w) && (Risky(e) ==> Remembers(f, After(f, w, e)))
    ensures Remembers(f, After(f, w, e))
  {
    match e
    case Fetch(_, _, _, _, _) =>
      hide Live;
      hide Step;
      hide Fetched;
      forall x, y | x in w.ledger.finalised && Live(f, After(f, w, e), y) && IsReceipt(y) && SameReceipt(x, y)
        ensures Collides(w.ledger.receipts, y)
      {
        FetchKeepsLive(f, w, e, y);
      }
    case Elsewhere(c) =>
      hide Live;
      hide Step;
      hide Collides;
      hide SameReceipt;
      if !Risky(e) {
        forall x, y | x in w.ledger.finalised && Live(f, After(f, w, e), y) && IsReceipt(y) && SameReceipt(x, y)
          ensures Collides(w.ledger.receipts, y)
        {
          ElsewhereKeepsLive(f, w, c, y);
        }
      }
    case Handle(k, env) => HandleRemembers(f, w, k, env);
    case Forget(k) =>
      hide SameReceipt;
      hide Collides;
      forall y | Live(f, After(f, w, e), y) ensures Live(f, w, y) {
      }
    case _ =>
  }

  lemma {:induction false} RanOnce(f: Format, w: World, events: seq<Event>)
    requires Possible(f, w, events) && Remembering(f, w, events)
    requires ActedOnce(w.ledger.finalised) && Remembers(f, w)
    ensures ActedOnce(Ran(f, w, events).ledger.finalised)
    decreases |events|
  {
    if events != [] {
      var e := events[0];
      var v := After(f, w, e);
      EventRemembers(f, w, e);
      hide *;
      EventActsOnce(f, w, e);
      StepOfRun(f, w, events);
      RanOnce(f, v, events[1..]);
    }
  }

  lemma StepOfRun(f: Format, w: World, events: seq<Event>)
    requires events != [] && Possible(f, w, events) && Remembering(f, w, events)
    ensures Enabled(w, events[0])
    ensures var v := After(f, w, events[0]);
      && Possible(f, v, events[1..]) && Remembering(f, v, events[1..])
      && Ran(f, w, events) == Ran(f, v, events[1..])
  {
    hide After;
    hide Remembers;
  }

  lemma EventActsOnce(f: Format, w: World, e: Event)
    requires Enabled(w, e) && ActedOnce(w.ledger.finalised) && Remembers(f, w)
    ensures ActedOnce(After(f, w, e).ledger.finalised)
  {
    hide ActedOnce;
    hide Ingested;
    hide Step;
    hide Fetched;
    if e.Handle? {
      hide SameReceipt;
      hide Collides;
      assert Live(f, w, w.pending[e.k]);
      IngestedOnce(f.toInt, w.ledger, w.pending[e.k], e.env);
    } else {
      assert After(f, w, e).ledger.finalised == w.ledger.finalised;
    }
  }

  // ----- a condition on the tables -----

  /** Every row that was ever in the receipts table, and fits a message that may come again, is still matched there. */
  ghost predicate StillKnown(f: Format, w: World) {
    forall m :: Live(f, w, m) && Collides(w.ever, m) ==> Collides(w.ledger.receipts, m)
  }

  /** What is purged does not come again: after every purge, local receipt and message sent, the receipts table knows
      whatever it ever knew among the messages that are unread on the bus or fetched. */
  ghost predicate Keeping(f: Format, w: World, events: seq<Event>)
    requires Possible(f, w, events)
    decreases |events|
  {
    events == [] ||
    var v := After(f, w, events[0]);
    (Risky(events[0]) ==> StillKnown(f, v)) && Keeping(f, v, events[1..])
  }

  /** Every message acted on had its row in the receipts table. */
  predicate EverEntered(w: World) {
    forall i :: 0 <= i < |w.ledger.finalised| ==> HasRow(w.ever, w.ledger.finalised[i])
  }

  lemma EventEnters(f: Format, w: World, e: Event)
    requires Enabled(w, e) && EverEntered(w)
    ensures EverEntered(After(f, w, e))
  {
    hide Ingested;
    hide Step;
    hide Fetched;
    if e.Handle? {
      IngestedEnters(f.toInt, w.ledger, w.pending[e.k], e.env);
    }
  }

  lemma KnownIsRemembered(f: Format, w: World)
    requires EverEntered(w) && StillKnown(f, w)
    ensures Remembers(f, w)
  {
    hide HasRow;
    hide Live;
    hide SameReceipt;
    hide Collides;
    forall x, m | x in w.ledger.finalised && Live(f, w, m) && IsReceipt(m) && SameReceipt(x, m)
      ensures Collides(w.ledger.receipts, m)
    {
      RowCollides(w.ever, x, m);
    }
  }

  lemma {:induction false} KeepingRemembers(f: Format, w: World, events: seq<Event>)
    requires Possible(f, w, events) && Keeping(f, w, events) && EverEntered(w)
    ensures Remembering(f, w, events)
    decreases |events|
  {
    hide After;
    hide EverEntered;
    hide StillKnown;
    hide Remembers;
    if events != [] {
      var v := After(f, w, events[0]);
      EventEnters(f, w, events[0]);
      if Risky(events[0]) {
        KnownIsRemembered(f, v);
      }
      KeepingRemembers(f, v, events[1..]);
    }
  }

  /** In every interleaving of sends, reservations, expiring leases, redeliveries, daemon passes, crashes and cleanups, no
      message id and no delivery of a task is acted on twice, as long as what a cleanup purged does not come again. */
  lemma EachReceiptOnce(f: Format, events: seq<Event>)
    requires Possible(f, Start(), events) && Keeping(f, Start(), events)
    ensures ActedOnce(Ran(f, Start(), events).ledger.finalised)
  {
    hide Ran;
    hide Keeping;
    hide Remembering;
    KeepingRemembers(f, Start(), events);
    RanOnce(f, Start(), events);
  }

  predicate NoPurge(events: seq<Event>) {
    forall i :: 0 <= i < |events| ==> !events[i].Purge?
  }

  predicate WholeTable(w: World) {
    forall r :: r in w.ever ==> r in w.ledger.receipts
  }

  lemma EventKeepsTable(f: Format, w: World, e: Event)
    requires Enabled(w, e) && !e.Purge? && WholeTable(w)
    ensures WholeTable(After(f, w, e)) && StillKnown(f, After(f, w, e))
  {
    hide Ingested;
    hide Step;
    hide Fetched;
    hide Live;
    hide Collides;
    if e.Handle? {
      IngestedEnters(f.toInt, w.ledger, w.pending[e.k], e.env);
    }
    var v := After(f, w, e);
    forall m | Collides(v.ever, m) ensures Collides(v.ledger.receipts, m) {
      KnownAmong(v.ever, v.ledger.receipts, m);
    }
  }

  lemma {:induction false} NoPurgeKeeps(f: Format, w: World, events: seq<Event>)
    requires Possible(f, w, events) && NoPurge(events) && WholeTable(w)
    ensures Keeping(f, w, events)
    decreases |events|
  {
    hide After;
    hide WholeTable;
    hide StillKnown;
    if events != [] {
      EventKeepsTable(f, w, events[0]);
      NoPurgeKeeps(f, After(f, w, events[0]), events[1..]);
    }
  }

  /** Without cleanups nothing that is sent, fetched, expired or redelivered is ever acted on twice. */
  lemma AtMostOnce(f: Format, events: seq<Event>)
    requires Possible(f, Start(), events) && NoPurge(events)
    ensures ActedOnce(Ran(f, Start(), events).ledger.finalised)
  {
    hide Ran;
    hide Keeping;
    NoPurgeKeeps(f, Start(), events);
    EachReceiptOnce(f, events);
  }

  // ----- when something is acted on twice -----

  /** The daemon goes on with what there is: nothing is sent, made locally or purged. */
  predicate Calm(events: seq<Event>) {
    forall i :: 0 <= i < |events| ==> events[i].Fetch? || events[i].Handle? || events[i].Forget?
  }

  lemma {:induction false} CalmRemembers(f: Format, w: World, events: seq<Event>)
    requires Possible(f, w, events) && Calm(events)
    ensures Remembering(f, w, events)
    decreases |events|
  {
    hide After;
    hide Remembers;
    if events != [] {
      CalmRemembers(f, After(f, w, events[0]), events[1..]);
    }
  }

  /** The task is there, as after a retry with no last receipt, and nothing goes wrong. */
  const SMOOTH: Env := Env(true, None, true, false, false, true, 0)

  const EVERYTHING: Query := Query(None, text => true)

  lemma NotOnce(finalised: seq<Message>, x: Message, m: Message)
    requires x in finalised && SameReceipt(x, m)
    ensures !ActedOnce(finalised + [m])
  {
    hide SameReceipt;
    var i :| 0 <= i < |finalised| && finalised[i] == x;
    assert (finalised + [m])[i] == x && (finalised + [m])[|finalised|] == m;
  }

  /** A receipt that the table does not know is acted on. */
  lemma SmoothActs(f: Format, w: World, k: nat)
    requires k < |w.pending| && IsReceipt(w.pending[k]) && !Collides(w.ledger.receipts, w.pending[k])
    ensures After(f, w, Handle(k, SMOOTH)).ledger.finalised == w.ledger.finalised + [w.pending[k]]
  {
    hide SettledBus;
    hide Collides;
    hide Entered;
  }

  lemma OneEvent(f: Format, w: World, e: Event)
    requires Enabled(w, e)
    ensures Possible(f, w, [e]) && Ran(f, w, [e]) == After(f, w, e)
  {
    hide After;
    assert [e][1..] == [];
  }

  lemma TwoEvents(f: Format, w: World, e: Event, next: Event)
    requires Enabled(w, e) && Enabled(After(f, w, e), next)
    ensures Possible(f, w, [e, next]) && Ran(f, w, [e, next]) == After(f, After(f, w, e), next)
  {
    hide After;
    OneEvent(f, After(f, w, e), next);
    assert [e, next][1..] == [next];
  }

  /** A reservation without limit, late enough for every lease on the row to have ended, fetches the row. */
  lemma LateFetch(f: Format, w: World, i: nat) returns (e: Event, k: nat)
    requires i < |w.ledger.bus.rows| && w.ledger.bus.rows[i].desktop.readAt.None?
    ensures e.Fetch? && Enabled(w, e)
    ensures var v := After(f, w, e);
      && v.ledger.receipts == w.ledger.receipts && v.ledger.finalised == w.ledger.finalised
      && k < |v.pending| && v.pending[k] == RowMessage(f, w.ledger.bus.rows, i, v.pending[k].claim)
  {
    hide Step;
    var bus := w.ledger.bus;
    var until := bus.rows[i].desktop.until;
    var now := if until.Some? then until.value + 1 else 0;
    e := Fetch(EVERYTHING, -1, now, now, 0);
    var want := Want(Desktop, EVERYTHING, Some(now));
    var ids := ReserveIds(bus.rows, Desktop, EVERYTHING, -1, now);
    assert Wanted(bus.rows[i], want);
    if i !in ids {
      SelectComplete(bus.rows, want, Limit(-1), 0, i);
    }
    var j :| 0 <= j < |ids| && ids[j] == i;
    k := |w.pending| + j;
    assert Fetched(f, bus, e)[j] == RowMessage(f, bus.rows, i, Some(|bus.grants| + j));
  }

  lemma SameIdentity(receipts: seq<Recorded>, m: Message, n: Message)
    requires m.id == n.id && m.task == n.task && m.status == n.status && m.delivery == n.delivery
    ensures (Collides(receipts, m) <==> Collides(receipts, n)) && (IsReceipt(m) <==> IsReceipt(n))
    ensures forall x :: SameReceipt(x, m) <==> SameReceipt(x, n)
  {
    SameKnown(receipts, m, n);
  }

  /** Something like a message acted on, live and unknown to the table, is acted on again. */
  lemma ForgottenRepeats(f: Format, w: World, x: Message, m: Message) returns (events: seq<Event>)
    requires x in w.ledger.finalised && Live(f, w, m) && IsReceipt(m) && SameReceipt(x, m) && !Collides(w.ledger.receipts, m)
    ensures Calm(events) && Possible(f, w, events) && !ActedOnce(Ran(f, w, events).ledger.finalised)
  {
    hide *;
    if m in w.pending {
      var k := PendingAt(w, m);
      events := [Handle(k, SMOOTH)];
      HandleEnabled(w, k, SMOOTH);
      OneEvent(f, w, Handle(k, SMOOTH));
      SmoothActs(f, w, k);
      NotOnce(w.ledger.finalised, x, m);
      CalmEvents(events);
    } else {
      var i := RowAt(f, w, m);
      var e, k := LateFetch(f, w, i);
      var v := After(f, w, e);
      SameIdentity(w.ledger.receipts, m, v.pending[k]);
      events := [e, Handle(k, SMOOTH)];
      HandleEnabled(v, k, SMOOTH);
      TwoEvents(f, w, e, Handle(k, SMOOTH));
      SmoothActs(f, v, k);
      NotOnce(w.ledger.finalised, x, v.pending[k]);
      CalmEvents(events);
    }
  }

  lemma PendingAt(w: World, m: Message) returns (k: nat)
    requires m in w.pending
    ensures k < |w.pending| && w.pending[k] == m
  {
    k :| k < |w.pending| && w.pending[k] == m;
  }

  lemma RowAt(f: Format, w: World, m: Message) returns (i: nat)
    requires Live(f, w, m) && m !in w.pending
    ensures i < |w.ledger.bus.rows| && w.ledger.bus.rows[i].desktop.readAt.None?
    ensures forall c :: var n := RowMessage(f, w.ledger.bus.rows, i, c);
      m.id == n.id && m.task == n.task && m.status == n.status && m.delivery == n.delivery
  {
    i :| i < |w.ledger.bus.rows| && LiveRow(f, w.ledger.bus.rows, i, m);
  }

  lemma HandleEnabled(w: World, k: nat, env: Env)
    requires k < |w.pending|
    ensures Enabled(w, Handle(k, env))
  {
  }

  lemma CalmEvents(events: seq<Event>)
    requires forall i :: 0 <= i < |events| ==> events[i].Fetch? || events[i].Handle?
    ensures Calm(events)
  {
  }

  /** The proviso is exact: from a world in which nothing was acted on twice yet, the daemon can come to act on
      something twice by just going on, if and only if the table does not remember all that could come again. */
  lemma RepeatedIff(f: Format, w: World)
    requires ActedOnce(w.ledger.finalised)
    ensures Remembers(f, w) <==>
      forall events :: Calm(events) && Possible(f, w, events) ==> ActedOnce(Ran(f, w, events).ledger.finalised)
  {
    hide *;
    if Remembers(f, w) {
      forall events | Calm(events) && Possible(f, w, events) ensures ActedOnce(Ran(f, w, events).ledger.finalised) {
        CalmRemembers(f, w, events);
        RanOnce(f, w, events);
      }
    } else {
      var x, m := Forgotten(f, w);
      var events := ForgottenRepeats(f, w, x, m);
    }
  }

  lemma Forgotten(f: Format, w: World) returns (x: Message, m: Message)
    requires !Remembers(f, w)
    ensures x in w.ledger.finalised && Live(f, w, m) && IsReceipt(m) && SameReceipt(x, m) && !Collides(w.ledger.receipts, m)
  {
    hide Live;
    hide SameReceipt;
    hide Collides;
    x, m :| x in w.ledger.finalised && Live(f, w, m) && IsReceipt(m) && SameReceipt(x, m) && !Collides(w.ledger.receipts, m);
  }

  // ----- a receipt that is acted on twice -----

  /** One message on the bus: it is fetched, acted on but not settled; the cleanup forgets it; when its lease has ended it
      is fetched again, and acted on again. */
  const TWICE: seq<Event> := [
    Elsewhere(Send(Code, "receipt", 0)),
    Fetch(EVERYTHING, 1, 0, 0, 1),
    Handle(0, SMOOTH.(settles := false)),
    Purge([]),
    Fetch(EVERYTHING, 1, 2, 2, 1),
    Handle(0, SMOOTH)]

  const SAMPLE: Format := Format(i => "1", text => Parsed("task", "COMMITTED", None), text => None)

  const SENT: Row := Row(Code, "receipt", 0, EMPTY_SIDE, EMPTY_SIDE)

  function Leased(claim: nat, until: int): Row {
    SENT.With(Desktop, Side(None, Some(claim), Some(until)))
  }

  function Sample(claim: nat): Message {
    Message("1", "task", "COMMITTED", None, Some(claim))
  }

  /** A reservation on a bus with one row, which no live lease holds. */
  lemma FetchOnly(w: World, now: int, row: Row)
    requires w.ledger.bus.rows == [row] && row.desktop.readAt.None? && row.message == "receipt"
    requires Available(row.desktop, now)
    ensures var e := Fetch(EVERYTHING, 1, now, now, 1);
      var bus := w.ledger.bus;
      && Enabled(w, e)
      && After(SAMPLE, w, e) == World(
           w.ledger.(bus := Bus([row.With(Desktop, Side(None, Some(|bus.grants|), Some(now + 1)))],
                                bus.grants + [Grant(0, Desktop, now, now + 1)])),
           w.pending + [Sample(|bus.grants|)], w.ever)
  {
    var e := Fetch(EVERYTHING, 1, now, now, 1);
    var bus, c := w.ledger.bus, FetchCommand(e);
    OnlyRow(bus.rows, now);
    SelectedRow(bus, c, 0);
    assert Fetched(SAMPLE, bus, e) == [Sample(|bus.grants|)];
    assert NewGrants([0], Desktop, now, now + 1) == [Grant(0, Desktop, now, now + 1)];
    assert Step(bus, c).rows == [row.With(Desktop, Side(None, Some(|bus.grants|), Some(now + 1)))];
  }

  lemma OnlyRow(rows: seq<Row>, now: int)
    requires |rows| == 1 && Wanted(rows[0], Want(Desktop, EVERYTHING, Some(now)))
    ensures ReserveIds(rows, Desktop, EVERYTHING, 1, now) == [0]
  {
    var want := Want(Desktop, EVERYTHING, Some(now));
    assert Select(rows, want, 0, 1) == [];
    assert Select(rows, want, 1, 0) == [0] + Select(rows, want, 0, 1);
  }

  const RECORD: Recorded := Recorded("1", "task", "COMMITTED", None)

  lemma SampleIsReceipt(claim: nat)
    ensures IsReceipt(Sample(claim)) && !Collides([], Sample(claim))
  {
    assert TERMINAL[2] == "COMMITTED";
  }

  /** Handling the one fetched message, which the table does not know, without settling it. */
  lemma HandleOnly(w: World, claim: nat)
    requires w.pending == [Sample(claim)] && w.ledger.receipts == []
    ensures var e := Handle(0, SMOOTH.(settles := false));
      && Enabled(w, e)
      && After(SAMPLE, w, e) ==
         World(Ledger(w.ledger.bus, [RECORD], w.ledger.finalised + [Sample(claim)]), [], w.ever + [RECORD])
  {
    hide IsTerminal;
    hide Collides;
    SampleIsReceipt(claim);
    assert Without([Sample(claim)], 0) == [];
    assert [] + [RECORD] == [RECORD];
  }

  lemma RunOn(f: Format, w: World, e: Event, rest: seq<Event>, v: World)
    requires Enabled(w, e) && After(f, w, e) == v && Possible(f, v, rest)
    ensures Possible(f, w, [e] + rest) && Ran(f, w, [e] + rest) == Ran(f, v, rest)
  {
    hide After;
    assert ([e] + rest)[1..] == rest;
  }

  /** The six worlds of the run, up to the last event. */
  function Stage(n: nat): World {
    var bus := Bus([Leased(0, 1)], [Grant(0, Desktop, 0, 1)]);
    if n == 0 then Start()
    else if n == 1 then World(Ledger(Bus([SENT], []), [], []), [], [])
    else if n == 2 then World(Ledger(bus, [], []), [Sample(0)], [])
    else if n == 3 then World(Ledger(bus, [RECORD], [Sample(0)]), [], [RECORD])
    else if n == 4 then World(Ledger(bus, [], [Sample(0)]), [], [RECORD])
    else World(Ledger(Bus([Leased(1, 3)], bus.grants + [Grant(0, Desktop, 2, 3)]), [], [Sample(0)]), [Sample(1)], [RECORD])
  }

  lemma StageOne()
    ensures Enabled(Stage(0), TWICE[0]) && After(SAMPLE, Stage(0), TWICE[0]) == Stage(1)
  {
    assert [] + [SENT] == [SENT];
  }

  lemma StageTwo()
    ensures Enabled(Stage(1), TWICE[1]) && After(SAMPLE, Stage(1), TWICE[1]) == Stage(2)
  {
    hide After;
    FetchOnly(Stage(1), 0, SENT);
    assert [] + [Sample(0)] == [Sample(0)] && [] + [Grant(0, Desktop, 0, 1)] == [Grant(0, Desktop, 0, 1)];
  }

  lemma StageThree()
    ensures Enabled(Stage(2), TWICE[2]) && After(SAMPLE, Stage(2), TWICE[2]) == Stage(3)
  {
    hide After;
    HandleOnly(Stage(2), 0);
    assert [] + [Sample(0)] == [Sample(0)] && [] + [RECORD] == [RECORD];
  }

  lemma StageFour()
    ensures Enabled(Stage(3), TWICE[3]) && After(SAMPLE, Stage(3), TWICE[3]) == Stage(4)
  {
  }

  lemma StageFive()
    ensures Enabled(Stage(4), TWICE[4]) && After(SAMPLE, Stage(4), TWICE[4]) == Stage(5)
  {
    hide After;
    FetchOnly(Stage(4), 2, Leased(0, 1));
    assert [] + [Sample(1)] == [Sample(1)];
  }

  lemma StageSix()
    ensures Enabled(Stage(5), TWICE[5]) && !ActedOnce(After(SAMPLE, Stage(5), TWICE[5]).ledger.finalised)
  {
    hide After;
    SampleIsReceipt(1);
    SmoothActs(SAMPLE, Stage(5), 0);
    NotOnce([Sample(0)], Sample(0), Sample(1));
    HandleEnabled(Stage(5), 0, SMOOTH);
  }

  lemma TwiceIs()
    ensures TWICE == [TWICE[0]] + ([TWICE[1]] + ([TWICE[2]] + ([TWICE[3]] + ([TWICE[4]] + [TWICE[5]])))) && Stage(0) == Start()
  {
  }

  /** With a cleanup between them, two deliveries of one receipt can both be acted on. */
  lemma PurgedIsRepeated()
    ensures Possible(SAMPLE, Start(), TWICE) && !ActedOnce(Ran(SAMPLE, Start(), TWICE).ledger.finalised)
  {
    TwiceIs();
    StageOne();
    StageTwo();
    StageThree();
    StageFour();
    StageFive();
    StageSix();
    var events := TWICE;
    hide *;
    var last := [events[5]];
    OneEvent(SAMPLE, Stage(5), events[5]);
    RunOn(SAMPLE, Stage(4), events[4], last, Stage(5));
    var two := [events[4]] + last;
    RunOn(SAMPLE, Stage(3), events[3], two, Stage(4));
    var three := [events[3]] + two;
    RunOn(SAMPLE, Stage(2), events[2], three, Stage(3));
    var four := [events[2]] + three;
    RunOn(SAMPLE, Stage(1), events[1], four, Stage(2));
    RunOn(SAMPLE, Stage(0), events[0], [events[1]] + four, Stage(1));
  }

  // ----- recorded before settled -----

  predicate Consumes(c: Command) {
    match c
    case Settle(reader, _, _) => reader == Desktop
    case Ack(reader, _, _) => reader == Desktop
    case Pull(reader, _, _, _) => reader == Desktop
    case _ => false
  }

  /** Nobody but the daemon consumes messages as the daemon's reader. */
  predicate SoleReader(events: seq<Event>) {
    forall i :: 0 <= i < |events| && events[i].Elsewhere? ==> !Consumes(events[i].command)
  }

  /** A claim the daemon holds belongs to the row its message came from. */
  predicate ClaimsFit(f: Format, w: World) {
    forall k :: 0 <= k < |w.pending| && w.pending[k].claim.Some? ==> ClaimFits(f, w.ledger.bus, w.pending[k])
  }

  predicate ClaimFits(f: Format, bus: Bus, m: Message)
    requires m.claim.Some?
  {
    var c := m.claim.value;
    c < |bus.grants| && bus.grants[c].row < |bus.rows| && m == RowMessage(f, bus.rows, bus.grants[c].row, m.claim)
  }

  /** Every row read by the daemon's reader carries a message that the given rows know. */
  ghost predicate ReadsRecorded(f: Format, bus: Bus, known: seq<Recorded>) {
    forall i: nat :: i < |bus.rows| && bus.rows[i].desktop.readAt.Some? ==>
      Collides(known, RowMessage(f, bus.rows, i, None))
  }

  ghost predicate Sound(f: Format, w: World) {
    && Inv(w.ledger.bus) && ClaimsFit(f, w) && ReadsRecorded(f, w.ledger.bus, w.ever)
    && forall r :: r in w.ledger.receipts ==> r in w.ever
  }

  /** A bus command that only adds rows and leases, as seen from the daemon's reader. */
  predicate Extends(a: Bus, b: Bus) {
    && |a.rows| <= |b.rows| && |a.grants| <= |b.grants|
    && (forall i :: 0 <= i < |a.rows| ==> b.rows[i].message == a.rows[i].message)
    && (forall i :: 0 <= i < |a.grants| ==> b.grants[i] == a.grants[i])
  }

  lemma StepExtends(bus: Bus, c: Command)
    ensures Extends(bus, Step(bus, c))
  {
    forall i: nat | i < |bus.rows| ensures i < |Step(bus, c).rows| && Step(bus, c).rows[i].message == bus.rows[i].message {
      RowText(bus, c, i);
    }
    StepCounts(bus, c);
    forall i: nat | i < |bus.grants| ensures i < |Step(bus, c).grants| && Step(bus, c).grants[i] == bus.grants[i] {
      OldGrant(bus, c, i);
    }
  }

  lemma RowText(bus: Bus, c: Command, i: nat)
    requires i < |bus.rows|
    ensures i < |Step(bus, c).rows| && Step(bus, c).rows[i].message == bus.rows[i].message
  {
    if c.Reserve? {
      if k :| 0 <= k < |CallOf(bus, c).ids| && CallOf(bus, c).ids[k] == i {
        SelectedRow(bus, c, k);
      } else {
        UnselectedRow(bus, c, i);
      }
    }
  }

  lemma StepCounts(bus: Bus, c: Command)
    ensures |bus.rows| <= |Step(bus, c).rows| && |bus.grants| <= |Step(bus, c).grants|
  {
  }

  /** Who does not consume as the daemon's reader leaves its read marks alone. */
  lemma ReadsUnchanged(bus: Bus, c: Command, i: nat)
    requires !Consumes(c) && i < |Step(bus, c).rows| && Step(bus, c).rows[i].desktop.readAt.Some?
    ensures i < |bus.rows| && bus.rows[i].desktop.readAt.Some?
  {
    if c.Reserve? {
      assert |Step(bus, c).rows| == |bus.rows|;
      if k :| 0 <= k < |CallOf(bus, c).ids| && CallOf(bus, c).ids[k] == i {
        SelectedRow(bus, c, k);
      } else {
        UnselectedRow(bus, c, i);
      }
    }
  }

  lemma FitsLonger(f: Format, a: Bus, b: Bus, m: Message)
    requires Extends(a, b) && m.claim.Some? && ClaimFits(f, a, m)
    ensures ClaimFits(f, b, m)
  {
  }

  lemma ClaimsFitLonger(f: Format, w: World, v: World)
    requires ClaimsFit(f, w) && Extends(w.ledger.bus, v.ledger.bus)
    requires forall m :: m in v.pending ==> m in w.pending || m.claim.None?
    ensures ClaimsFit(f, v)
  {
    forall k | 0 <= k < |v.pending| && v.pending[k].claim.Some? ensures ClaimFits(f, v.ledger.bus, v.pending[k]) {
      assert v.pending[k] in v.pending;
      FitsLonger(f, w.ledger.bus, v.ledger.bus, v.pending[k]);
    }
  }

  lemma ReadsRecordedElsewhere(f: Format, bus: Bus, known: seq<Recorded>, c: Command)
    requires ReadsRecorded(f, bus, known) && !Consumes(c)
    ensures ReadsRecorded(f, Step(bus, c), known)
  {
    var after := Step(bus, c);
    forall i: nat | i < |after.rows| && after.rows[i].desktop.readAt.Some?
      ensures Collides(known, RowMessage(f, after.rows, i, None))
    {
      ReadsUnchanged(bus, c, i);
      RowText(bus, c, i);
      assert RowMessage(f, after.rows, i, None) == RowMessage(f, bus.rows, i, None);
    }
  }

  lemma InvStep(bus: Bus, c: Command)
    requires Inv(bus) && SoundClock(c)
    ensures Inv(Step(bus, c))
  {
    if c.Reserve? {
      InvReserve(bus, c);
    } else {
      InvOther(bus, c);
    }
  }

  lemma FetchedFits(f: Format, w: World, e: Event)
    requires Sound(f, w) && e.Fetch? && Enabled(w, e)
    ensures ClaimsFit(f, After(f, w, e))
  {
    var bus, c := w.ledger.bus, FetchCommand(e);
    var v := After(f, w, e);
    StepExtends(bus, c);
    forall k | 0 <= k < |v.pending| && v.pending[k].claim.Some? ensures ClaimFits(f, v.ledger.bus, v.pending[k]) {
      if k < |w.pending| {
        FitsLonger(f, bus, v.ledger.bus, w.pending[k]);
      } else {
        SelectedRow(bus, c, k - |w.pending|);
        RowText(bus, c, CallOf(bus, c).ids[k - |w.pending|]);
      }
    }
  }

  lemma KnownLonger(receipts: seq<Recorded>, more: Message, m: Message)
    requires Collides(receipts, m)
    ensures Collides(Entered(receipts, more), m)
  {
    var i :| 0 <= i < |receipts| && (receipts[i].messageId == m.id || SameDelivery(receipts[i], m));
    assert Entered(receipts, more)[i] == receipts[i];
  }

  lemma EnteredIsKnown(receipts: seq<Recorded>, m: Message)
    ensures Collides(Entered(receipts, m), m)
  {
    if !Collides(receipts, m) {
      assert Entered(receipts, m)[|receipts|].messageId == m.id;
    }
  }

  lemma KnownAmong(some: seq<Recorded>, all: seq<Recorded>, m: Message)
    requires Collides(some, m) && forall r :: r in some ==> r in all
    ensures Collides(all, m)
  {
    var i :| 0 <= i < |some| && (some[i].messageId == m.id || SameDelivery(some[i], m));
    assert some[i] in all;
    var j :| 0 <= j < |all| && all[j] == some[i];
  }

  lemma ReadsRecordedMore(f: Format, bus: Bus, known: seq<Recorded>, more: seq<Recorded>)
    requires ReadsRecorded(f, bus, known)
    ensures ReadsRecorded(f, bus, known + more)
  {
    hide Collides;
    forall i: nat | i < |bus.rows| && bus.rows[i].desktop.readAt.Some?
      ensures Collides(known + more, RowMessage(f, bus.rows, i, None))
    {
      KnownAmong(known, known + more, RowMessage(f, bus.rows, i, None));
    }
  }

  /** Settling the claim of a recorded message marks at most the row that message came from. */
  lemma SettleRecorded(f: Format, bus: Bus, known: seq<Recorded>, m: Message, env: Env)
    requires Inv(bus) && ReadsRecorded(f, bus, known) && Collides(known, m)
    requires m.claim.Some? ==> ClaimFits(f, bus, m)
    ensures ReadsRecorded(f, SettledBus(bus, m, env), known)
    ensures Inv(SettledBus(bus, m, env)) && Extends(bus, SettledBus(bus, m, env))
  {
    if m.claim.Some? && env.settles {
      var c := Settle(Desktop, [m.claim.value], env.now);
      StepExtends(bus, c);
      InvStep(bus, c);
      var after := Step(bus, c);
      forall i: nat | i < |after.rows| && after.rows[i].desktop.readAt.Some?
        ensures Collides(known, RowMessage(f, after.rows, i, None))
      {
        SettledRowKnown(f, bus, known, m, env, i);
      }
    }
  }

  /** Only the row a claim was given for can hold it. */
  lemma ClaimRow(bus: Bus, claim: nat, i: nat)
    requires Inv(bus) && i < |bus.rows| && bus.rows[i].desktop.claim == Some(claim)
    ensures claim < |bus.grants| && bus.grants[claim].row == i
  {
    assert SideOk(bus.grants, bus.rows[i].Of(Desktop), i, Desktop);
  }

  lemma SettledRowKnown(f: Format, bus: Bus, known: seq<Recorded>, m: Message, env: Env, i: nat)
    requires Inv(bus) && ReadsRecorded(f, bus, known) && Collides(known, m)
    requires m.claim.Some? && ClaimFits(f, bus, m)
    requires i < |bus.rows| && SettledRows(bus.rows, Desktop, [m.claim.value], env.now)[i].desktop.readAt.Some?
    ensures Collides(known, RowMessage(f, SettledRows(bus.rows, Desktop, [m.claim.value], env.now), i, None))
  {
    hide Inv;
    var after := SettledRows(bus.rows, Desktop, [m.claim.value], env.now);
    var row := bus.rows[i];
    assert after[i].message == row.message;
    if row.desktop.readAt.None? {
      assert Settles(row, Desktop, [m.claim.value]);
      ClaimRow(bus, m.claim.value, i);
      SameKnown(known, m, RowMessage(f, after, i, None));
    } else {
      assert RowMessage(f, after, i, None) == RowMessage(f, bus.rows, i, None);
    }
  }

  lemma SameKnown(receipts: seq<Recorded>, m: Message, n: Message)
    requires m.id == n.id && m.task == n.task && m.delivery == n.delivery
    ensures Collides(receipts, m) <==> Collides(receipts, n)
  {
    forall i | 0 <= i < |receipts| ensures SameDelivery(receipts[i], m) <==> SameDelivery(receipts[i], n) {
    }
  }

  /** What handling a message does to the bus and the receipts table. */
  lemma IngestedShape(toInt: string -> Option<int>, l: Ledger, m: Message, env: Env)
    ensures var after := Ingested(toInt, l, m, env);
      || (after.bus == l.bus && (after.receipts == l.receipts || after.receipts == Entered(l.receipts, m)))
      || (after.bus == SettledBus(l.bus, m, env) && after.receipts == Entered(l.receipts, m))
  {
    hide SettledBus;
    hide Entered;
    hide IsStale;
  }

  lemma HandleSound(f: Format, w: World, k: nat, env: Env)
    requires Sound(f, w) && k < |w.pending|
    ensures Sound(f, After(f, w, Handle(k, env)))
  {
    hide Inv;
    hide ReadsRecorded;
    hide SettledBus;
    hide Ingested;
    hide Collides;
    hide Entered;
    var l, m := w.ledger, w.pending[k];
    var v := After(f, w, Handle(k, env));
    IngestedShape(f.toInt, l, m, env);
    ReadsRecordedMore(f, l.bus, w.ever, v.ledger.receipts);
    EnteredIsKnown(l.receipts, m);
    if v.ledger.bus != l.bus {
      KnownAmong(v.ledger.receipts, v.ever, m);
      SettleRecorded(f, l.bus, v.ever, m, env);
    }
    SameBus(l.bus);
    ClaimsFitLonger(f, w, v);
  }

  lemma SameBus(bus: Bus)
    ensures Extends(bus, bus)
  {
  }

  lemma EventSound(f: Format, w: World, e: Event)
    requires Sound(f, w) && Enabled(w, e) && (e.Elsewhere? ==> !Consumes(e.command))
    ensures Sound(f, After(f, w, e))
  {
    hide Inv;
    hide ReadsRecorded;
    hide Step;
    var v := After(f, w, e);
    match e
    case Elsewhere(c) =>
      InvStep(w.ledger.bus, c);
      StepExtends(w.ledger.bus, c);
      ReadsRecordedElsewhere(f, w.ledger.bus, w.ever, c);
      ClaimsFitLonger(f, w, v);
    case Fetch(_, _, _, _, _) =>
      var c := FetchCommand(e);
      InvStep(w.ledger.bus, c);
      ReadsRecordedElsewhere(f, w.ledger.bus, w.ever, c);
      FetchedFits(f, w, e);
    case Local(m) =>
      SameBus(w.ledger.bus);
      ClaimsFitLonger(f, w, v);
    case Handle(k, env) =>
      HandleSound(f, w, k, env);
    case Forget(k) =>
      SameBus(w.ledger.bus);
      ClaimsFitLonger(f, w, v);
    case Purge(_) =>
      SameBus(w.ledger.bus);
      ClaimsFitLonger(f, w, v);
  }

  lemma {:induction false} RanSound(f: Format, w: World, events: seq<Event>)
    requires Possible(f, w, events) && SoleReader(events) && Sound(f, w)
    ensures Sound(f, Ran(f, w, events))
    decreases |events|
  {
    hide Sound;
    hide After;
    if events != [] {
      EventSound(f, w, events[0]);
      RanSound(f, After(f, w, events[0]), events[1..]);
    }
  }

  /** In every interleaving without other consumers: a bus message read for the daemon is one whose id, or whose task and delivery, was entered
      in the receipts table. A lease that ran out, or was given again, never marks another message as read. */
  lemma ReadOnlyIfRecorded(f: Format, events: seq<Event>, i: nat)
    requires Possible(f, Start(), events) && SoleReader(events)
    requires var bus := Ran(f, Start(), events).ledger.bus;
      i < |bus.rows| && bus.rows[i].desktop.readAt.Some?
    ensures var v := Ran(f, Start(), events);
      Collides(v.ever, RowMessage(f, v.ledger.bus.rows, i, None))
  {
    hide Ran;
    hide Collides;
    StartSound(f);
    RanSound(f, Start(), events);
  }

  lemma StartSound(f: Format)
    ensures Sound(f, Start())
  {
  }

  // ----- the price: acted on at most once, not at least once -----

  /** The table has no row with the message's id, and none with its task and delivery id. */
  predicate Unknown(receipts: seq<Recorded>, m: Message) {
    forall r :: r in receipts ==>
      r.messageId != m.id && (m.delivery == None || r.task != m.task || r.delivery != m.delivery)
  }

  lemma UnknownIff(receipts: seq<Recorded>, m: Message)
    ensures Unknown(receipts, m) <==> !Collides(receipts, m)
  {
    if Collides(receipts, m) {
      var i :| 0 <= i < |receipts| && (receipts[i].messageId == m.id || SameDelivery(receipts[i], m));
      assert receipts[i] in receipts;
    }
    if r :| r in receipts && (r.messageId == m.id || (m.delivery != None && r.task == m.task && r.delivery == m.delivery)) {
      var i :| 0 <= i < |receipts| && receipts[i] == r;
      assert receipts[i].messageId == m.id || SameDelivery(receipts[i], m);
    }
  }

  /** The receipt is an older one: both ids are numbers, and this one is not the greater. */
  predicate Older(toInt: string -> Option<int>, m: Message, last: Option<string>) {
    && last.Some? && last.value != "" && toInt(m.id).Some? && toInt(last.value).Some?
    && toInt(m.id).value <= toInt(last.value).value
  }

  /** A message seen for the first time is recorded, whatever it is. Its receipt is acted on exactly if it is an evidence
      pack, a block or a commit, its task exists, it is not older than the last one, and the daemon survives the
      recording. */
  lemma FirstHandling(toInt: string -> Option<int>, l: Ledger, m: Message, env: Env)
    requires m.id != "" && m.task != "" && m.status != "" && Unknown(l.receipts, m)
    ensures var after := Ingested(toInt, l, m, env);
      && after.receipts == l.receipts + [Recorded(m.id, m.task, m.status, m.delivery)]
      && after.finalised == l.finalised +
         if (m.status == "EVIDENCE_PACK" || m.status == "BLOCKED" || m.status == "COMMITTED")
            && env.known && !env.dies && !Older(toInt, m, env.lastReceipt)
         then [m] else []
  {
    UnknownIff(l.receipts, m);
    TerminalIs(m.status);
    OlderIff(toInt, m, env.lastReceipt);
    hide SettledBus;
    hide IsStale;
    hide Collides;
    hide IsTerminal;
  }

  lemma TerminalIs(status: string)
    ensures IsTerminal(status) <==> status == "EVIDENCE_PACK" || status == "BLOCKED" || status == "COMMITTED"
  {
  }

  lemma OlderIff(toInt: string -> Option<int>, m: Message, last: Option<string>)
    ensures IsStale(toInt, last, m.id) <==> Older(toInt, m, last)
  {
  }

  /** When a message seen for the first time is settled: a stale one; a terminal one or an acknowledgement when its task
      exists and updating it works, the acknowledgement only if it names a session; a sign of life when its task exists;
      and anything else. Not if the daemon dies before. */
  predicate Settled(toInt: string -> Option<int>, m: Message, env: Env) {
    && !env.dies
    && ((env.known && Older(toInt, m, env.lastReceipt))
        || (if m.status == "ACK" then env.known && env.hasSession && !env.fails
            else if m.status == "RUNNING" then env.known
            else if m.status == "EVIDENCE_PACK" || m.status == "BLOCKED" || m.status == "COMMITTED" then
              env.known && !env.fails
            else true))
  }

  /** The bus after a message seen for the first time: when it is settled, and settling works, the row that the claim was
      given for, and still holds it unread, is read and released; nothing else changes in any case. */
  lemma FirstSettling(toInt: string -> Option<int>, l: Ledger, m: Message, env: Env, i: nat)
    requires m.id != "" && m.task != "" && m.status != "" && Unknown(l.receipts, m) && Inv(l.bus)
    requires i < |l.bus.rows| && m.claim.Some? && l.bus.rows[i].desktop.claim == m.claim && l.bus.rows[i].desktop.readAt == None
    ensures Ingested(toInt, l, m, env).bus ==
      if Settled(toInt, m, env) && env.settles then
        l.bus.(rows := l.bus.rows[i := l.bus.rows[i].(desktop := Side(Some(env.now), None, None))])
      else l.bus
  {
    hide *;
    UnknownIff(l.receipts, m);
    OlderIff(toInt, m, env.lastReceipt);
    SettledIff(toInt, l, m, env);
    ClaimedRowRead(l.bus, m, env, i);
  }

  /** What counts as handled, and with it as a change of its task: a message that is settled and not stale. */
  lemma HandledIff(toInt: string -> Option<int>, receipts: seq<Recorded>, m: Message, env: Env)
    ensures CourseOf(toInt, receipts, m, env).Handled? <==>
      m.id != "" && m.task != "" && m.status != "" && Unknown(receipts, m)
      && Settled(toInt, m, env) && !(env.known && Older(toInt, m, env.lastReceipt))
  {
    UnknownIff(receipts, m);
    OlderIff(toInt, m, env.lastReceipt);
    TerminalIs(m.status);
    hide Unknown;
    hide IsStale;
    hide Older;
    hide Collides;
    hide IsTerminal;
  }

  /** Which messages count as bus errors: those that should be settled, known ones included, and cannot be. */
  lemma UnsettledIff(toInt: string -> Option<int>, receipts: seq<Recorded>, m: Message, env: Env)
    ensures SettlingFails(toInt, receipts, m, env) <==>
      && m.id != "" && m.task != "" && m.status != "" && m.claim != None && !env.settles
      && (!Unknown(receipts, m) || Settled(toInt, m, env))
  {
    UnknownIff(receipts, m);
    OlderIff(toInt, m, env.lastReceipt);
    TerminalIs(m.status);
    hide Unknown;
    hide IsStale;
    hide Older;
    hide Collides;
    hide IsTerminal;
  }

  lemma SettledIff(toInt: string -> Option<int>, l: Ledger, m: Message, env: Env)
    requires m.id != "" && m.task != "" && m.status != "" && !Collides(l.receipts, m)
    requires IsStale(toInt, env.lastReceipt, m.id) <==> Older(toInt, m, env.lastReceipt)
    ensures Ingested(toInt, l, m, env).bus == if Settled(toInt, m, env) then SettledBus(l.bus, m, env) else l.bus
  {
    TerminalIs(m.status);
    hide SettledBus;
    hide IsStale;
    hide Older;
    hide Collides;
    hide IsTerminal;
  }

  lemma ClaimedRowRead(bus: Bus, m: Message, env: Env, i: nat)
    requires Inv(bus) && i < |bus.rows| && m.claim.Some? && bus.rows[i].desktop.claim == m.claim
    requires bus.rows[i].desktop.readAt == None
    ensures SettledBus(bus, m, env) ==
      if env.settles then bus.(rows := bus.rows[i := bus.rows[i].(desktop := Side(Some(env.now), None, None))]) else bus
  {
    hide Inv;
    assert Settles(bus.rows[i], Desktop, [m.claim.value]);
    forall j: nat | j < |bus.rows| && Settles(bus.rows[j], Desktop, [m.claim.value]) ensures j == i {
      ClaimRow(bus, m.claim.value, i);
      ClaimRow(bus, m.claim.value, j);
    }
    var row := bus.rows[i].(desktop := Side(Some(env.now), None, None));
    assert SettledRows(bus.rows, Desktop, [m.claim.value], env.now) == bus.rows[i := row];
  }

  lemma HandlingRecorded(toInt: string -> Option<int>, l: Ledger, x: Message, env: Env, m: Message)
    requires HasRow(l.receipts, m)
    ensures var after := Ingested(toInt, l, x, env);
      && HasRow(after.receipts, m)
      && (after.finalised == l.finalised || (after.finalised == l.finalised + [x] && !SameReceipt(m, x)))
  {
    hide SettledBus;
    hide IsStale;
    hide Collides;
    if SameReceipt(m, x) {
      RowCollides(l.receipts, m, x);
    }
  }

  /** The messages acted on after the first `n`. */
  predicate NoneLike(m: Message, finalised: seq<Message>, n: nat) {
    forall i :: n <= i < |finalised| ==> !SameReceipt(m, finalised[i])
  }

  /** Cleanups keep the row of the message. */
  predicate KeepsRow(events: seq<Event>, m: Message) {
    forall i :: 0 <= i < |events| && events[i].Purge? ==> HasRow(events[i].kept, m)
  }

  lemma {:induction false} RecordedIsOver(f: Format, w: World, events: seq<Event>, m: Message, n: nat)
    requires Possible(f, w, events) && HasRow(w.ledger.receipts, m) && KeepsRow(events, m)
    requires n <= |w.ledger.finalised| && NoneLike(m, w.ledger.finalised, n)
    ensures n <= |Ran(f, w, events).ledger.finalised| && NoneLike(m, Ran(f, w, events).ledger.finalised, n)
    decreases |events|
  {
    hide Ingested;
    hide SameReceipt;
    hide Step;
    hide Fetched;
    if events != [] {
      var e := events[0];
      if e.Handle? {
        HandlingRecorded(f.toInt, w.ledger, w.pending[e.k], e.env, m);
      }
      RecordedIsOver(f, After(f, w, e), events[1..], m, n);
    }
  }

  /** A daemon that dies between recording a receipt and acting on it loses the receipt for good: it is redelivered,
      but no redelivery, of the message or of its delivery id, is ever acted on. */
  lemma DeathLosesReceipt(f: Format, w: World, k: nat, env: Env, events: seq<Event>)
    requires k < |w.pending| && env.dies && !Blank(w.pending[k]) && !Collides(w.ledger.receipts, w.pending[k])
    requires Possible(f, After(f, w, Handle(k, env)), events) && KeepsRow(events, w.pending[k])
    ensures var l := Ran(f, After(f, w, Handle(k, env)), events).ledger;
      && |w.ledger.finalised| <= |l.finalised|
      && NoneLike(w.pending[k], l.finalised, |w.ledger.finalised|)
  {
    hide Ran;
    hide Collides;
    hide IsStale;
    var m := w.pending[k];
    var v := After(f, w, Handle(k, env));
    assert v.ledger.receipts[|w.ledger.receipts|] == Recorded(m.id, m.task, m.status, m.delivery);
    RecordedIsOver(f, v, events, m, |w.ledger.finalised|);
  }

  /** A redelivered message that the table knows is settled for good once settling works: its row is read, unless the
      lease has passed to somebody else, and nothing else changes. */
  lemma RedeliveryEnds(toInt: string -> Option<int>, l: Ledger, m: Message, env: Env, i: nat)
    requires !Blank(m) && Collides(l.receipts, m) && env.settles && m.claim.Some? && Inv(l.bus)
    requires i < |l.bus.rows| && l.bus.rows[i].desktop.readAt.None? && l.bus.rows[i].desktop.claim == m.claim
    ensures var row := l.bus.rows[i].With(Desktop, Side(Some(env.now), None, None));
      Ingested(toInt, l, m, env) == l.(bus := l.bus.(rows := l.bus.rows[i := row]))
  {
    ClaimedRowRead(l.bus, m, env, i);
    hide SettledBus;
    hide Collides;
    hide IsStale;
    hide Inv;
  }
}
