/** The daemon takes receipts off the bus: record first, act once, settle last. */
module Ingest {
  import opened Options
  import opened AgentBus

  /** A reserved message, or one a local executor produced (then without a claim). The delivery id is the one its
      header carries. */
  datatype Message = Message(id: string, task: string, status: string, delivery: Option<string>, claim: Option<nat>)

  /** A row of the receipts table. */
  datatype Recorded = Recorded(messageId: string, task: string, status: string, delivery: Option<string>)

  /** What the daemon finds and what befalls it while it handles one message: the task's last receipt if the task
      exists, whether an acknowledgement names a session, whether updating the task fails, whether the process dies
      right after recording, and whether and when settling works. */
  datatype Env = Env(
    known: bool, lastReceipt: Option<string>, hasSession: bool, fails: bool, dies: bool, settles: bool, now: int)

  /** The bus, the receipts table, and every message whose terminal receipt was acted on. */
  datatype Ledger = Ledger(bus: Bus, receipts: seq<Recorded>, finalised: seq<Message>)

  const TERMINAL: seq<string> := ["EVIDENCE_PACK", "BLOCKED", "COMMITTED"]

  predicate IsTerminal(status: string) {
    status in TERMINAL
  }

  /** The two uniqueness rules of the receipts table. */
  predicate Collides(receipts: seq<Recorded>, m: Message) {
    exists i :: 0 <= i < |receipts| && (receipts[i].messageId == m.id || SameDelivery(receipts[i], m))
  }

  predicate SameDelivery(r: Recorded, m: Message) {
    m.delivery.Some? && r.task == m.task && r.delivery == m.delivery
  }

  /** The uniqueness rules, on the whole table: message ids differ, and so do task and delivery id where there is one. */
  predicate OneRowEach(receipts: seq<Recorded>) {
    forall i, j :: 0 <= i < j < |receipts| ==>
      && receipts[i].messageId != receipts[j].messageId
      && (receipts[i].delivery.Some? && receipts[i].task == receipts[j].task ==> receipts[i].delivery != receipts[j].delivery)
  }

  function Entered(receipts: seq<Recorded>, m: Message): seq<Recorded> {
    if Collides(receipts, m) then receipts else receipts + [Recorded(m.id, m.task, m.status, m.delivery)]
  }

  /** `int(incoming) <= int(last)`; texts that are no numbers are never stale. */
  predicate IsStale(toInt: string -> Option<int>, last: Option<string>, incoming: string) {
    && last.Some? && last.value != ""
    && toInt(incoming).Some? && toInt(last.value).Some?
    && toInt(incoming).value <= toInt(last.value).value
  }

  predicate Blank(m: Message) {
    m.id == "" || m.task == "" || m.status == ""
  }

  /** How far the handling of a message gets. */
  datatype Course = Ignored | Duplicate | Stale | Abandoned | Handled

  function CourseOf(toInt: string -> Option<int>, receipts: seq<Recorded>, m: Message, env: Env): Course {
    if Blank(m) then Ignored
    else if Collides(receipts, m) then Duplicate
    else if env.dies then Abandoned
    else if env.known && IsStale(toInt, env.lastReceipt, m.id) then Stale
    else if m.status == "ACK" then if env.hasSession && env.known && !env.fails then Handled else Abandoned
    else if m.status == "RUNNING" then if env.known then Handled else Abandoned
    else if IsTerminal(m.status) then if env.known && !env.fails then Handled else Abandoned
    else Handled
  }

  /** The receipt is acted on, successfully or not. */
  predicate Finalises(toInt: string -> Option<int>, receipts: seq<Recorded>, m: Message, env: Env) {
    && !Blank(m) && !Collides(receipts, m) && !env.dies && env.known
    && !IsStale(toInt, env.lastReceipt, m.id) && IsTerminal(m.status)
  }

  function SettledBus(bus: Bus, m: Message, env: Env): Bus {
    if m.claim.Some? && env.settles then Step(bus, Settle(Desktop, [m.claim.value], env.now)) else bus
  }

  /** One message, as a function. */
  function Ingested(toInt: string -> Option<int>, l: Ledger, m: Message, env: Env): Ledger {
    var course := CourseOf(toInt, l.receipts, m, env);
    Ledger(
      if course in [Duplicate, Stale, Handled] then SettledBus(l.bus, m, env) else l.bus,
      if course.Ignored? then l.receipts else Entered(l.receipts, m),
      if Finalises(toInt, l.receipts, m, env) then l.finalised + [m] else l.finalised)
  }

  function IngestedAll(toInt: string -> Option<int>, l: Ledger, all: seq<Message>, envs: seq<Env>): Ledger
    requires |envs| == |all|
  {
    if all == [] then l
    else
      var n := |all| - 1;
      Ingested(toInt, IngestedAll(toInt, l, all[..n], envs[..n]), all[n], envs[n])
  }

  /** The messages counted as processed. */
  function Processed(toInt: string -> Option<int>, l: Ledger, all: seq<Message>, envs: seq<Env>): seq<Message>
    requires |envs| == |all|
  {
    if all == [] then []
    else
      var n := |all| - 1;
      Processed(toInt, l, all[..n], envs[..n]) +
      if CourseOf(toInt, IngestedAll(toInt, l, all[..n], envs[..n]).receipts, all[n], envs[n]).Handled? then [all[n]] else []
  }

  predicate SettlingFails(toInt: string -> Option<int>, receipts: seq<Recorded>, m: Message, env: Env) {
    CourseOf(toInt, receipts, m, env) in [Duplicate, Stale, Handled] && m.claim.Some? && !env.settles
  }

  /** The messages whose claims could not be settled. */
  function Unsettled(toInt: string -> Option<int>, l: Ledger, all: seq<Message>, envs: seq<Env>): seq<Message>
    requires |envs| == |all|
  {
    if all == [] then []
    else
      var n := |all| - 1;
      Unsettled(toInt, l, all[..n], envs[..n]) +
      if SettlingFails(toInt, IngestedAll(toInt, l, all[..n], envs[..n]).receipts, all[n], envs[n]) then [all[n]] else []
  }

  function Tasks(all: seq<Message>): set<string> {
    set m | m in all :: m.task
  }

  /** The receipts table and the bus the daemon works on. */
  class Daemon {
    const bus: Table
    var receipts: seq<Recorded>
    ghost var finalised: seq<Message>

    ghost predicate Valid()
      reads this, bus
    {
      bus.Valid()
    }

    ghost function State(): Ledger
      reads this, bus
    {
      Ledger(bus.State(), receipts, finalised)
    }

    constructor (bus: Table)
      requires bus.Valid()
      ensures Valid() && this.bus == bus && State() == Ledger(bus.State(), [], [])
    {
      this.bus := bus;
      receipts := [];
      finalised := [];
    }

    /** The insertion checks every row against the two rules; rows that keep them go on keeping them. */
    method Record(m: Message) returns (isNew: bool)
      modifies this`receipts
      ensures isNew == !Collides(old(receipts), m) && receipts == Entered(old(receipts), m)
      ensures old(OneRowEach(receipts)) ==> OneRowEach(receipts)
      ensures exists r :: r in receipts && (r.messageId == m.id || SameDelivery(r, m))
    {
      for i := 0 to |receipts|
        invariant receipts == old(receipts)
        invariant forall j :: 0 <= j < i ==> receipts[j].messageId != m.id && !SameDelivery(receipts[j], m)
      {
        if receipts[i].messageId == m.id {
          return false;
        }
        if m.delivery.Some? && receipts[i].task == m.task && receipts[i].delivery == m.delivery {
          return false;
        }
      }
      receipts := receipts + [Recorded(m.id, m.task, m.status, m.delivery)];
      assert receipts[|receipts| - 1].messageId == m.id;
      return true;
    }

    method SettleReservedClaim(m: Message, env: Env) returns (errors: nat)
      requires Valid()
      modifies bus
      ensures Valid() && bus.State() == SettledBus(old(bus.State()), m, env)
      ensures errors == if m.claim.Some? && !env.settles then 1 else 0
    {
      if m.claim.None? {
        return 0;
      }
      if !env.settles {
        return 1;
      }
      var _ := bus.SettleClaims(Desktop, [m.claim.value], env.now);
      return 0;
    }

    /** One turn of the loop over the messages; `handled` says that it reaches the end of its body. */
    method IngestOne(toInt: string -> Option<int>, m: Message, env: Env) returns (handled: bool, errors: nat)
      requires Valid()
      modifies this, bus
      ensures Valid() && State() == Ingested(toInt, old(State()), m, env)
      ensures handled == CourseOf(toInt, old(receipts), m, env).Handled?
      ensures errors == if SettlingFails(toInt, old(receipts), m, env) then 1 else 0
    {
      hide SettledBus;
      hide OneRowEach;
      if Blank(m) {
        return false, 0;
      }
      var isNew := Record(m);
      if !isNew {
        errors := SettleReservedClaim(m, env);
        return false, errors;
      }
      if env.dies {
        return false, 0;
      }
      if env.known && IsStale(toInt, env.lastReceipt, m.id) {
        errors := SettleReservedClaim(m, env);
        return false, errors;
      }
      if m.status == "ACK" {
        if !env.hasSession || !env.known || env.fails {
          return false, 0;
        }
      } else if m.status == "RUNNING" {
        if !env.known {
          return false, 0;
        }
      } else if IsTerminal(m.status) {
        if !env.known {
          return false, 0;
        }
        finalised := finalised + [m];
        if env.fails {
          return false, 0;
        }
      }
      errors := SettleReservedClaim(m, env);
      return true, errors;
    }

    /** The loop over the fetched messages; `busErrors` starts with the reservations that failed. */
    method IngestNewReceipts(toInt: string -> Option<int>, all: seq<Message>, envs: seq<Env>, failedFetches: nat)
      returns (count: nat, touched: set<string>, busErrors: nat)
      requires Valid() && |envs| == |all|
      modifies this, bus
      ensures Valid() && State() == IngestedAll(toInt, old(State()), all, envs)
      ensures count == |Processed(toInt, old(State()), all, envs)|
      ensures touched == Tasks(Processed(toInt, old(State()), all, envs))
      ensures busErrors == failedFetches + |Unsettled(toInt, old(State()), all, envs)|
    {
      count, touched, busErrors := 0, {}, failedFetches;
      ghost var start := State();
      for n := 0 to |all|
        invariant Valid() && State() == IngestedAll(toInt, start, all[..n], envs[..n])
        invariant count == |Processed(toInt, start, all[..n], envs[..n])|
        invariant touched == Tasks(Processed(toInt, start, all[..n], envs[..n]))
        invariant busErrors == failedFetches + |Unsettled(toInt, start, all[..n], envs[..n])|
      {
        hide *;
        OneMore(toInt, start, all, envs, n);
        var handled, errors := IngestOne(toInt, all[n], envs[n]);
        busErrors := busErrors + errors;
        if handled {
          TouchedMore(Processed(toInt, start, all[..n], envs[..n]), all[n]);
          count := count + 1;
          touched := touched + {all[n].task};
        }
      }
      assert all[..|all|] == all && envs[..|all|] == envs;
    }
  }

  /** What the turn over message `n` adds. */
  lemma OneMore(toInt: string -> Option<int>, l: Ledger, all: seq<Message>, envs: seq<Env>, n: nat)
    requires |envs| == |all| && n < |all|
    ensures var before := IngestedAll(toInt, l, all[..n], envs[..n]);
      && IngestedAll(toInt, l, all[..n + 1], envs[..n + 1]) == Ingested(toInt, before, all[n], envs[n])
      && Processed(toInt, l, all[..n + 1], envs[..n + 1]) == Processed(toInt, l, all[..n], envs[..n]) +
         (if CourseOf(toInt, before.receipts, all[n], envs[n]).Handled? then [all[n]] else [])
      && Unsettled(toInt, l, all[..n + 1], envs[..n + 1]) == Unsettled(toInt, l, all[..n], envs[..n]) +
         (if SettlingFails(toInt, before.receipts, all[n], envs[n]) then [all[n]] else [])
  {
    hide Ingested;
    hide CourseOf;
    hide SettlingFails;
    assert all[..n + 1][..n] == all[..n] && envs[..n + 1][..n] == envs[..n];
  }

  lemma TouchedMore(before: seq<Message>, m: Message)
    ensures Tasks(before + [m]) == Tasks(before) + {m.task} && Tasks(before + []) == Tasks(before)
  {
    assert before + [] == before;
    forall task | task in Tasks(before) + {m.task} ensures task in Tasks(before + [m]) {
      if task == m.task {
        assert m in before + [m];
      } else {
        var x :| x in before && x.task == task;
        assert x in before + [m];
      }
    }
  }
}
