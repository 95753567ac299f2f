/** What a recognised receipt is guaranteed to be. */
module ReceiptLaws {
  import opened Options
  import opened Json
  import opened ReceiptScanner
  import opened ReceiptPrinting
  import opened Receipts
  import opened Text

  // ----- the caller's task and status -----

  lemma ValidatedMatches(py: Python, parsed: Value, raw: string, want: Want)
    ensures var r := Validate(py, parsed, raw, want);
      r.Some? ==> TaskMatches(want, r.value.taskId) && StatusMatches(py, want, r.value.status) && r.value.raw == raw
  {
  }

  predicate Matches(py: Python, want: Want, r: Option<Receipt>) {
    r.Some? ==> TaskMatches(want, r.value.taskId) && StatusMatches(py, want, r.value.status)
  }

  lemma {:induction false} LastReceiptMatches(py: Python, candidates: seq<string>, want: Want)
    ensures Matches(py, want, LastReceipt(py, candidates, want))
  {
    hide Validate;
    if candidates != [] {
      var text := candidates[|candidates| - 1];
      ValidatedMatches(py, py.TryParse(text), text, want);
      LastReceiptMatches(py, candidates[..|candidates| - 1], want);
    }
  }

  lemma {:induction false} LastLineMatches(py: Python, lines: seq<string>, want: Want)
    ensures Matches(py, want, LastLineReceipt(py, lines, want))
  {
    hide Validate;
    if lines != [] {
      var text := Strip(lines[|lines| - 1]);
      ValidatedMatches(py, py.TryParse(text), text, want);
      LastLineMatches(py, lines[..|lines| - 1], want);
    }
  }

  lemma {:induction false} WrappedMatches(py: Python, texts: seq<string>, want: Want)
    ensures Matches(py, want, WrappedReceipt(py, texts, want))
  {
    hide LastLineReceipt;
    if texts != [] {
      LastLineMatches(py, SplitLines(texts[0]), want);
      WrappedMatches(py, texts[1..], want);
    }
  }

  lemma NormalizeMatches(py: Python, body: string, want: Want)
    ensures var o := Normalize(py, body, want);
      o.Received? && !o.source.Native? ==>
        TaskMatches(want, o.receipt.taskId) && StatusMatches(py, want, o.receipt.status)
    ensures var o := Normalize(py, body, want);
      o.Received? && o.source.Native? ==>
        && py.TryParse(body).Obj?
        && NativeReceipt(py, py.TryParse(body).members, body, want) == Some(o.receipt)
  {
    hide Validate;
    hide LastReceipt;
    hide WrappedReceipt;
    hide NativeReceipt;
    hide Objects;
    hide Texts;
    hide StatusMatches;
    hide TaskMatches;
    var parsed := py.TryParse(body);
    ValidatedMatches(py, parsed, body, want);
    LastReceiptMatches(py, Objects(body), want);
    WrappedMatches(py, Texts(parsed), want);
  }

  lemma NativeIds(py: Python, m: seq<Member>, raw: string, want: Want, task: string)
    requires want.task == Some(task) && NativeReceipt(py, m, raw, want).Some?
    ensures var r := NativeReceipt(py, m, raw, want).value;
      r.taskId == (if Get(m, "task_id").Str? then Get(m, "task_id").s else task)
  {
    hide NativeSuccess;
    hide Report;
    hide Summary;
  }

  lemma NativeStatus(py: Python, m: seq<Member>, raw: string, want: Want)
    requires NativeReceipt(py, m, raw, want).Some?
    ensures NativeReceipt(py, m, raw, want).value.status == EvidencePack
    ensures want.status.Some? ==>
      NormalizeStatus(py, Str(want.status.value)) == None || NormalizeStatus(py, Str(want.status.value)) == Some(EvidencePack)
  {
    hide NativeSuccess;
    hide NormalizeStatus;
    hide Report;
    hide Summary;
  }

  /** Neither the body, nor an object in it, nor a line of a wrapped text is a receipt that fits. */
  predicate NoReceiptInside(py: Python, body: string, want: Want) {
    var parsed := py.TryParse(body);
    && Validate(py, parsed, body, want) == None
    && LastReceipt(py, Objects(body), want) == None
    && WrappedReceipt(py, Texts(parsed), want) == None
  }

  /** The body is a dictionary that passes for a successful native envelope and names a task other than `task`. */
  predicate ForeignEnvelope(py: Python, body: string, want: Want, task: string) {
    var parsed := py.TryParse(body);
    && parsed.Obj? && NativeReceipt(py, parsed.members, body, want).Some?
    && var own := Get(parsed.members, "task_id");
       own.Str? && own.s != task
  }

  lemma NativeLast(py: Python, body: string, want: Want)
    requires body != "" && NoReceiptInside(py, body, want)
    ensures var parsed := py.TryParse(body);
      Normalize(py, body, want) ==
        if parsed.Null? then Failed("malformed_json")
        else OrElse(if parsed.Obj? then NativeReceipt(py, parsed.members, body, want) else None, Native, Failed("receipt_not_found"))
  {
    hide Validate;
    hide LastReceipt;
    hide WrappedReceipt;
    hide NativeReceipt;
    hide Objects;
    hide Texts;
  }

  /** The three ways to fail: the body is empty; there is no receipt and the body is no JSON; there is none and it is. */
  lemma FailureMeans(py: Python, body: string, want: Want, error: string)
    ensures var parsed := py.TryParse(body);
      Normalize(py, body, want) == Failed(error) <==>
        || (body == "" && error == "empty_body")
        || (body != "" && NoReceiptInside(py, body, want) && parsed.Null? && error == "malformed_json")
        || (body != "" && NoReceiptInside(py, body, want) && !parsed.Null?
            && (parsed.Obj? ==> NativeReceipt(py, parsed.members, body, want) == None) && error == "receipt_not_found")
  {
    hide Validate;
    hide LastReceipt;
    hide WrappedReceipt;
    hide NativeReceipt;
    hide Objects;
    NothingInNull(py, body, want);
    hide Texts;
  }

  lemma NothingInNull(py: Python, body: string, want: Want)
    ensures py.TryParse(body).Null? ==> WrappedReceipt(py, Texts(py.TryParse(body)), want) == None
  {
  }

  lemma NativeMeansNothingInside(py: Python, body: string, want: Want)
    ensures var o := Normalize(py, body, want);
      o.Received? && o.source.Native? ==> body != "" && NoReceiptInside(py, body, want)
  {
    hide Validate;
    hide LastReceipt;
    hide WrappedReceipt;
    hide NativeReceipt;
    hide Objects;
    hide Texts;
  }

  /** A receipt comes back for another task than expected exactly when there is no receipt inside the body, and the body
      is a native envelope that names that other task. */
  lemma ExpectedTask(py: Python, body: string, want: Want, task: string)
    requires want.task == Some(task)
    ensures var o := Normalize(py, body, want);
      o.Received? && o.receipt.taskId != task <==>
        body != "" && NoReceiptInside(py, body, want) && ForeignEnvelope(py, body, want, task)
  {
    hide Normalize;
    hide NativeReceipt;
    hide StatusMatches;
    hide NoReceiptInside;
    var o := Normalize(py, body, want);
    NormalizeMatches(py, body, want);
    NativeMeansNothingInside(py, body, want);
    if body != "" && NoReceiptInside(py, body, want) {
      NativeLast(py, body, want);
    }
    var parsed := py.TryParse(body);
    if parsed.Obj? && NativeReceipt(py, parsed.members, body, want).Some? {
      NativeIds(py, parsed.members, body, want, task);
    }
  }

  /** A receipt has the expected status exactly when that status is one the program knows; otherwise
      only a native envelope gets through. */
  lemma ExpectedStatus(py: Python, body: string, want: Want, status: string)
    requires want.status == Some(status) && Normalize(py, body, want).Received?
    ensures var o := Normalize(py, body, want);
      var known := NormalizeStatus(py, Str(status));
      (known == Some(o.receipt.status) <==> known.Some?) && (known.None? ==> o.source.Native?)
  {
    hide Normalize;
    hide NativeReceipt;
    hide TaskMatches;
    hide NormalizeStatus;
    var o := Normalize(py, body, want);
    NormalizeMatches(py, body, want);
    if o.source.Native? {
      NativeStatus(py, py.TryParse(body).members, body, want);
    }
  }

  // ----- the exception is real -----

  /** No text at all is a receipt that fits. */
  ghost predicate NothingFits(py: Python, want: Want) {
    forall text :: ParseDirect(py, text, want) == None
  }

  lemma {:induction false} NoLastReceipt(py: Python, candidates: seq<string>, want: Want)
    requires NothingFits(py, want)
    ensures LastReceipt(py, candidates, want) == None
  {
    hide ParseDirect;
    if candidates != [] {
      NoLastReceipt(py, candidates[..|candidates| - 1], want);
    }
  }

  lemma {:induction false} NoLineReceipt(py: Python, lines: seq<string>, want: Want)
    requires NothingFits(py, want)
    ensures LastLineReceipt(py, lines, want) == None
  {
    hide ParseDirect;
    hide Strip;
    if lines != [] {
      NoLineReceipt(py, lines[..|lines| - 1], want);
    }
  }

  lemma {:induction false} NoWrappedReceipt(py: Python, texts: seq<string>, want: Want)
    requires NothingFits(py, want)
    ensures WrappedReceipt(py, texts, want) == None
  {
    hide LastLineReceipt;
    hide SplitLines;
    if texts != [] {
      NoLineReceipt(py, SplitLines(texts[0]), want);
      NoWrappedReceipt(py, texts[1..], want);
    }
  }

  const ENVELOPE: string := "{\"is_error\": false, \"task_id\": \"other\", \"result\": \"done\"}"

  const ENVELOPE_MEMBERS: seq<Member> :=
    [Member("is_error", Bool(false)), Member("task_id", Str("other")), Member("result", Str("done"))]

  /** A library that reads that one text. */
  function EnvelopePython(): Python {
    Python(s => if s == ENVELOPE then Some(Obj(ENVELOPE_MEMBERS)) else None, s => s, v => "", n => "")
  }

  lemma EnvelopeFields()
    ensures var m := ENVELOPE_MEMBERS;
      && Position(m, "schema_version") == |m| && Get(m, "is_error") == Bool(false)
      && Get(m, "task_id") == Str("other") && Get(m, "result") == Str("done")
  {
    var m := ENVELOPE_MEMBERS;
    hide Position;
    PositionIs(m, "is_error", 0);
    PositionIs(m, "task_id", 1);
    PositionIs(m, "result", 2);
    NoPosition(m, "schema_version");
  }

  lemma EnvelopeIsNoReceipt(want: Want)
    ensures NothingFits(EnvelopePython(), want)
  {
    hide Position;
    EnvelopeFields();
    hide Get;
    forall text ensures ParseDirect(EnvelopePython(), text, want) == None {
      if text == ENVELOPE {
        assert Validate(EnvelopePython(), Obj(ENVELOPE_MEMBERS), text, want) == None;
      }
    }
  }

  /** A successful envelope of another task, without a receipt inside, is accepted for the other task. */
  lemma EnvelopeIsTaken()
    ensures var o := Normalize(EnvelopePython(), ENVELOPE, Want(None, Some("mine")));
      o.Received? && o.source.Native? && o.receipt.taskId == "other"
  {
    var py, want := EnvelopePython(), Want(None, Some("mine"));
    EnvelopeFields();
    EnvelopeIsNoReceipt(want);
    EnvelopeSucceeds(py, want);
    hide *;
    NoLastReceipt(py, Objects(ENVELOPE), want);
    NoWrappedReceipt(py, Texts(py.TryParse(ENVELOPE)), want);
    EnvelopeParses();
    ParsesToNothing(py, ENVELOPE, want);
    NothingInside(py, ENVELOPE, want);
    NativeLast(py, ENVELOPE, want);
    TakenNatively(py, want);
  }

  lemma EnvelopeParses()
    ensures EnvelopePython().TryParse(ENVELOPE) == Obj(ENVELOPE_MEMBERS) && ENVELOPE != ""
  {
  }

  lemma ParsesToNothing(py: Python, body: string, want: Want)
    requires NothingFits(py, want)
    ensures Validate(py, py.TryParse(body), body, want) == None
  {
    hide Validate;
    assert ParseDirect(py, body, want) == None;
  }

  lemma NothingInside(py: Python, body: string, want: Want)
    requires Validate(py, py.TryParse(body), body, want) == None
    requires LastReceipt(py, Objects(body), want) == None && WrappedReceipt(py, Texts(py.TryParse(body)), want) == None
    ensures NoReceiptInside(py, body, want)
  {
    hide Validate;
    hide LastReceipt;
    hide WrappedReceipt;
    hide Objects;
    hide Texts;
  }

  lemma EnvelopeSucceeds(py: Python, want: Want)
    requires want.status.None?
    ensures NativeReceipt(py, ENVELOPE_MEMBERS, ENVELOPE, want).Some?
    ensures NativeReceipt(py, ENVELOPE_MEMBERS, ENVELOPE, want).value.taskId == "other"
  {
    hide Position;
    EnvelopeFields();
    hide Get;
    hide Summary;
    assert WRAPPED[0] == "result";
    assert !Blank("other") && !Blank("done");
  }

  lemma TakenNatively(py: Python, want: Want)
    requires py.TryParse(ENVELOPE) == Obj(ENVELOPE_MEMBERS)
    requires NativeReceipt(py, ENVELOPE_MEMBERS, ENVELOPE, want).Some?
    requires Normalize(py, ENVELOPE, want) ==
      OrElse(NativeReceipt(py, ENVELOPE_MEMBERS, ENVELOPE, want), Native, Failed("receipt_not_found"))
    ensures var o := Normalize(py, ENVELOPE, want);
      o.Received? && o.source.Native? && Some(o.receipt) == NativeReceipt(py, ENVELOPE_MEMBERS, ENVELOPE, want)
  {
    hide Normalize;
    hide NativeReceipt;
  }

  // ----- no text of an envelope is missed -----

  /** Every text in the value, with its number of occurrences. */
  function Leaves(v: Value): multiset<string>
    decreases v, 0
  {
    match v
    case Str(s) => multiset{s}
    case Arr(items) => ItemLeaves(items)
    case Obj(members) => MemberLeaves(members)
    case _ => multiset{}
  }

  function ItemLeaves(items: seq<Value>): multiset<string>
    decreases items, 1
  {
    if items == [] then multiset{} else ItemLeaves(items[..|items| - 1]) + Leaves(items[|items| - 1])
  }

  function MemberLeaves(members: seq<Member>): multiset<string>
    decreases members, 1
  {
    if members == [] then multiset{}
    else MemberLeaves(members[..|members| - 1]) + Leaves(members[|members| - 1].value)
  }

  /** Every dictionary in the value has each key once. */
  predicate DistinctKeys(v: Value)
    decreases v
  {
    match v
    case Arr(items) => forall i :: 0 <= i < |items| ==> DistinctKeys(items[i])
    case Obj(members) =>
      && (forall i :: 0 <= i < |members| ==> DistinctKeys(members[i].value))
      && forall i, j :: 0 <= i < j < |members| ==> members[i].key != members[j].key
    case _ => true
  }

  lemma {:induction false} FirstPosition(members: seq<Member>, last: Member, key: string)
    ensures Position(members + [last], key) ==
      if Position(members, key) < |members| then Position(members, key)
      else |members| + if last.key == key then 0 else 1
  {
    if members == [] {
      assert members + [last] == [last] && [last][1..] == [];
    } else {
      assert (members + [last])[1..] == members[1..] + [last];
      FirstPosition(members[1..], last, key);
    }
  }

  /** What a new last member adds to the first pass. */
  lemma {:induction false} KeyedGrows(members: seq<Member>, last: Member, keys: seq<string>)
    requires Position(members, last.key) == |members|
    requires forall i, j :: 0 <= i < j < |keys| ==> keys[i] != keys[j]
    ensures multiset(KeyedTexts(members + [last], keys)) ==
      multiset(KeyedTexts(members, keys)) + if last.key in keys then multiset(Texts(last.value)) else multiset{}
  {
    hide Texts;
    if keys != [] {
      var n := |keys| - 1;
      var init, key := keys[..n], keys[n];
      KeyedGrows(members, last, init);
      FirstPosition(members, last, key);
      assert keys == init + [key];
      assert last.key in keys <==> last.key in init || last.key == key;
      if last.key == key {
        assert last.key !in init;
        assert KeyTexts(members + [last], key) == Texts(last.value) && KeyTexts(members, key) == [];
      } else {
        assert KeyTexts(members + [last], key) == KeyTexts(members, key);
      }
    }
  }

  lemma {:induction false} ItemsComplete(items: seq<Value>)
    requires forall i :: 0 <= i < |items| ==> DistinctKeys(items[i])
    ensures multiset(ItemTexts(items)) == ItemLeaves(items)
    decreases items, 1
  {
    if items != [] {
      ItemsComplete(items[..|items| - 1]);
      EveryTextOnce(items[|items| - 1]);
    }
  }

  lemma {:induction false} NoPosition(members: seq<Member>, key: string)
    requires forall i :: 0 <= i < |members| ==> members[i].key != key
    ensures Position(members, key) == |members|
  {
    if members != [] {
      NoPosition(members[1..], key);
    }
  }

  predicate Complete(members: seq<Member>) {
    multiset(KeyedTexts(members, WRAPPED)) + multiset(OtherTexts(members)) == MemberLeaves(members)
  }

  lemma KnownKeysDiffer(i: nat, j: nat)
    requires i < j < |WRAPPED|
    ensures WRAPPED[i] != WRAPPED[j]
  {
    assert |WRAPPED[i]| != |WRAPPED[j]| || WRAPPED[i][0] != WRAPPED[j][0];
  }

  lemma KeyedLater(members: seq<Member>, last: Member)
    requires Position(members, last.key) == |members|
    ensures multiset(KeyedTexts(members + [last], WRAPPED)) ==
      multiset(KeyedTexts(members, WRAPPED)) + if IsWrapped(last.key) then multiset(Texts(last.value)) else multiset{}
  {
    hide Texts;
    hide KeyedTexts;
    hide Position;
    forall i: nat, j: nat | i < j < |WRAPPED| ensures WRAPPED[i] != WRAPPED[j] {
      KnownKeysDiffer(i, j);
    }
    KeyedGrows(members, last, WRAPPED);
  }

  lemma OthersLater(members: seq<Member>, last: Member)
    ensures multiset(OtherTexts(members + [last])) ==
      multiset(OtherTexts(members)) + if IsWrapped(last.key) then multiset{} else multiset(Texts(last.value))
  {
    assert (members + [last])[..|members|] == members;
  }

  lemma LeavesLater(members: seq<Member>, last: Member)
    ensures MemberLeaves(members + [last]) == MemberLeaves(members) + Leaves(last.value)
  {
    assert (members + [last])[..|members|] == members;
  }

  lemma OneMoreMember(members: seq<Member>, last: Member)
    requires Position(members, last.key) == |members| && Complete(members)
    requires multiset(Texts(last.value)) == Leaves(last.value)
    ensures Complete(members + [last])
  {
    hide *;
    KeyedLater(members, last);
    OthersLater(members, last);
    LeavesLater(members, last);
    CompleteIs(members);
    CompleteIs(members + [last]);
  }

  lemma CompleteIs(members: seq<Member>)
    ensures Complete(members) <==>
      multiset(KeyedTexts(members, WRAPPED)) + multiset(OtherTexts(members)) == MemberLeaves(members)
  {
  }

  lemma {:induction false} MembersComplete(members: seq<Member>)
    requires forall i :: 0 <= i < |members| ==> DistinctKeys(members[i].value)
    requires forall i, j :: 0 <= i < j < |members| ==> members[i].key != members[j].key
    ensures Complete(members)
    decreases members, 1
  {
    hide Complete;
    if members == [] {
      NothingComplete();
    } else {
      var init, last := members[..|members| - 1], members[|members| - 1];
      MembersComplete(init);
      EveryTextOnce(last.value);
      NoPosition(init, last.key);
      assert members == init + [last];
      OneMoreMember(init, last);
    }
  }

  lemma NothingComplete()
    ensures Complete([])
  {
    NothingKeyed(WRAPPED);
  }

  lemma {:induction false} NothingKeyed(keys: seq<string>)
    ensures KeyedTexts([], keys) == []
  {
    if keys != [] {
      NothingKeyed(keys[..|keys| - 1]);
    }
  }

  /** The search through an envelope visits every text in it, and none twice. */
  lemma {:induction false} EveryTextOnce(v: Value)
    requires DistinctKeys(v)
    ensures multiset(Texts(v)) == Leaves(v)
    decreases v, 0
  {
    match v
    case Arr(items) => ItemsComplete(items);
    case Obj(members) => MembersComplete(members);
    case _ =>
  }

  // ----- a receipt written out is read back -----

  function StatusName(status: Status): string {
    match status
    case EvidencePack => "EVIDENCE_PACK"
    case Blocked => "BLOCKED"
    case Committed => "COMMITTED"
  }

  /** `structured_receipt_to_dict` */
  function ToMembers(py: Python, r: Receipt): seq<Member> {
    [Member("schema_version", Str("1")), Member("task_id", Str(r.taskId)),
     Member("attempt_no", Num(py.decimal(r.attemptNo), Whole(r.attemptNo))),
     Member("review_round", Num(py.decimal(r.reviewRound), Whole(r.reviewRound))),
     Member("status", Str(StatusName(r.status))), Member("summary", Str(r.summary)), Member("payload", Obj(r.payload))]
  }

  lemma PlainStrip(s: string)
    requires |s| > 0 && !IsSpace(s[0]) && !IsSpace(s[|s| - 1])
    ensures Strip(s) == s
  {
  }

  lemma NamedStatus(py: Python, status: Status)
    ensures NormalizeStatus(py, Str(StatusName(status))) == Some(status)
  {
    PlainStrip(StatusName(status));
  }

  lemma {:induction false} PositionIs(members: seq<Member>, key: string, at: nat)
    requires at < |members| && members[at].key == key && forall i :: 0 <= i < at ==> members[i].key != key
    ensures Position(members, key) == at
  {
    if at > 0 {
      PositionIs(members[1..], key, at - 1);
    }
  }

  lemma FieldsOf(py: Python, r: Receipt)
    ensures var m := ToMembers(py, r);
      && Get(m, "schema_version") == Str("1") && Position(m, "schema_version") < |m|
      && Get(m, "task_id") == Str(r.taskId)
      && IsWhole(Get(m, "attempt_no")) && Get(m, "attempt_no").number.n == r.attemptNo
      && IsWhole(Get(m, "review_round")) && Get(m, "review_round").number.n == r.reviewRound
      && Get(m, "status") == Str(StatusName(r.status)) && Get(m, "summary") == Str(r.summary)
      && Get(m, "payload") == Obj(r.payload)
  {
    hide Position;
    var m := ToMembers(py, r);
    PositionIs(m, "schema_version", 0);
    PositionIs(m, "task_id", 1);
    PositionIs(m, "attempt_no", 2);
    PositionIs(m, "review_round", 3);
    PositionIs(m, "status", 4);
    PositionIs(m, "summary", 5);
    PositionIs(m, "payload", 6);
  }

  /** Written out as a dictionary, a receipt is accepted with all its fields, by exactly the callers that want it. */
  lemma ReceiptRoundTrip(py: Python, r: Receipt, raw: string, want: Want)
    ensures Validate(py, Obj(ToMembers(py, r)), raw, want) ==
      if StatusMatches(py, want, r.status) && TaskMatches(want, r.taskId) then Some(r.(raw := raw)) else None
  {
    hide Position;
    hide Get;
    hide ToMembers;
    hide NormalizeStatus;
    hide TaskMatches;
    FieldsOf(py, r);
    NamedStatus(py, r.status);
    PlainStrip("1");
  }

  // ----- receipts in a log -----

  /** The log entries that print the given receipts after the given noise. */
  function Entries(py: Python, noise: seq<string>, receipts: seq<Receipt>): (entries: seq<Entry>)
    requires |noise| == |receipts|
    ensures |entries| == |receipts|
  {
    if receipts == [] then []
    else
      var n := |receipts| - 1;
      Entries(py, noise[..n], receipts[..n]) + [Entry(noise[n], ToMembers(py, receipts[n]))]
  }

  function Written(py: Python, style: Style, r: Receipt): string {
    Print(Obj(ToMembers(py, r)), style)
  }

  predicate Wanted(py: Python, want: Want, r: Receipt) {
    StatusMatches(py, want, r.status) && TaskMatches(want, r.taskId)
  }

  /** The last receipt that fits. */
  function LastWanted(py: Python, style: Style, receipts: seq<Receipt>, want: Want): Option<Receipt> {
    if receipts == [] then None
    else
      var r := receipts[|receipts| - 1];
      if Wanted(py, want, r) then Some(r.(raw := Written(py, style, r)))
      else LastWanted(py, style, receipts[..|receipts| - 1], want)
  }

  /** `json.loads` undoes the printer on the receipts that were written. */
  ghost predicate LoadsBack(py: Python, style: Style, receipts: seq<Receipt>) {
    forall i :: 0 <= i < |receipts| ==> py.loads(Written(py, style, receipts[i])) == Some(Obj(ToMembers(py, receipts[i])))
  }

  ghost predicate Writable(py: Python, noise: seq<string>, receipts: seq<Receipt>)
    requires |noise| == |receipts|
  {
    && (forall n :: Inert(py.decimal(n)))
    && forall i :: 0 <= i < |receipts| ==> NoBrace(noise[i]) && Printable(Obj(receipts[i].payload))
  }

  lemma ReceiptIsPrintable(py: Python, r: Receipt)
    requires Printable(Obj(r.payload)) && Inert(py.decimal(r.attemptNo)) && Inert(py.decimal(r.reviewRound))
    ensures Printable(Obj(ToMembers(py, r)))
  {
    hide Inert;
    var m := ToMembers(py, r);
    assert Printable(m[2].value) && Printable(m[3].value) && Printable(m[6].value);
  }

  lemma {:induction false} EntriesAreClean(py: Python, noise: seq<string>, receipts: seq<Receipt>)
    requires |noise| == |receipts| && Writable(py, noise, receipts)
    ensures Clean(Entries(py, noise, receipts))
  {
    hide Inert;
    hide NoBrace;
    hide Printable;
    hide ToMembers;
    if receipts != [] {
      var n := |receipts| - 1;
      EntriesAreClean(py, noise[..n], receipts[..n]);
      assert Printable(Obj(receipts[n].payload)) && NoBrace(noise[n]);
      ReceiptIsPrintable(py, receipts[n]);
    }
  }

  lemma {:induction false} PrintsAppend(entries: seq<Entry>, last: Entry, style: Style)
    ensures Prints(entries + [last], style) == Prints(entries, style) + [Print(Obj(last.members), style)]
  {
    if entries == [] {
      assert entries + [last] == [last] && [last][1..] == [];
    } else {
      assert (entries + [last])[1..] == entries[1..] + [last];
      PrintsAppend(entries[1..], last, style);
    }
  }

  lemma LastReceiptStep(py: Python, candidates: seq<string>, text: string, want: Want)
    ensures LastReceipt(py, candidates + [text], want) ==
      if ParseDirect(py, text, want).Some? then ParseDirect(py, text, want) else LastReceipt(py, candidates, want)
  {
    hide ParseDirect;
    assert (candidates + [text])[..|candidates|] == candidates;
  }

  lemma {:induction false} LastOfTheWritten(
    py: Python, style: Style, noise: seq<string>, receipts: seq<Receipt>, want: Want)
    requires |noise| == |receipts| && LoadsBack(py, style, receipts)
    ensures LastReceipt(py, Prints(Entries(py, noise, receipts), style), want) == LastWanted(py, style, receipts, want)
  {
    hide ToMembers;
    hide Prints;
    hide LastReceipt;
    hide Print;
    if receipts == [] {
      NoCandidates(py, style, want);
    } else {
      var n := |receipts| - 1;
      var entries, r := Entries(py, noise[..n], receipts[..n]), receipts[n];
      var last := Entry(noise[n], ToMembers(py, r));
      LastOfTheWritten(py, style, noise[..n], receipts[..n], want);
      PrintsAppend(entries, last, style);
      LastReceiptStep(py, Prints(entries, style), Written(py, style, r), want);
      WrittenParses(py, style, r, want);
    }
  }

  lemma NoCandidates(py: Python, style: Style, want: Want)
    ensures LastReceipt(py, Prints([], style), want) == None
  {
  }

  lemma WrittenParses(py: Python, style: Style, r: Receipt, want: Want)
    requires py.loads(Written(py, style, r)) == Some(Obj(ToMembers(py, r)))
    ensures ParseDirect(py, Written(py, style, r), want) ==
      if Wanted(py, want, r) then Some(r.(raw := Written(py, style, r))) else None
  {
    hide Validate;
    hide ToMembers;
    hide Written;
    ReceiptRoundTrip(py, r, Written(py, style, r), want);
  }

  /** Receipts printed into a log that is not JSON as a whole: the last one that fits is recognised,
      with all its fields; if none fits the log is malformed. */
  lemma LastPrintedReceiptWins(
    py: Python, style: Style, noise: seq<string>, receipts: seq<Receipt>, tail: string, want: Want)
    requires style.Valid() && |noise| == |receipts| && Writable(py, noise, receipts) && NoBrace(tail)
    requires LoadsBack(py, style, receipts)
    requires var log := Log(Entries(py, noise, receipts), style, tail);
      log != "" && py.loads(log) == None
    ensures Normalize(py, Log(Entries(py, noise, receipts), style, tail), want) ==
      match LastWanted(py, style, receipts, want)
      case Some(r) => Received(r, MixedText)
      case None => Failed("malformed_json")
  {
    hide *;
    var entries := Entries(py, noise, receipts);
    EntriesAreClean(py, noise, receipts);
    ScannerUndoesPrinter(entries, style, tail);
    LastOfTheWritten(py, style, noise, receipts, want);
    NotJson(py, Log(entries, style, tail), want);
  }

  lemma NotJson(py: Python, body: string, want: Want)
    requires body != "" && py.loads(body) == None
    ensures Normalize(py, body, want) ==
      match LastReceipt(py, Objects(body), want)
      case Some(r) => Received(r, MixedText)
      case None => Failed("malformed_json")
  {
    hide LastReceipt;
    hide Objects;
  }

  /** Every accepted receipt is in normal form: written out again, it is accepted as the same receipt. */
  lemma AcceptedIsNormal(py: Python, parsed: Value, raw: string, want: Want)
    requires Validate(py, parsed, raw, want).Some?
    ensures var r := Validate(py, parsed, raw, want).value;
      Validate(py, Obj(ToMembers(py, r)), raw, want) == Some(r)
  {
    hide *;
    ValidatedMatches(py, parsed, raw, want);
    ReceiptRoundTrip(py, Validate(py, parsed, raw, want).value, raw, want);
  }

  /** A receipt written out as a dictionary raises no alias warning, wherever it is found. */
  lemma WrittenIsCanonical(py: Python, r: Receipt, source: Source)
    requires py.TryParse(r.raw) == Obj(ToMembers(py, r))
    ensures Warnings(py, r, source) == WarnIf(SourceWarning(source), LacksArtifact(Obj(r.payload)), "artifact_path_missing")
  {
    hide ToMembers;
    hide Get;
    hide LacksArtifact;
    FieldsOf(py, r);
    PlainStrip("1");
    NamedStatus(py, r.status);
    NamedIsExact(r.status);
  }

  lemma NamedIsExact(status: Status)
    ensures Strip(StatusName(status)) in STATUSES
  {
    PlainStrip(StatusName(status));
  }
}
