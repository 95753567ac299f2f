/** How a message is written onto the bus and read back from it. */
module MessageFormat {
  import opened Options
  import opened Text

  const TASK_KEY := "TASK_ID:"
  const STATUS_KEY := "STATUS:"

  datatype Parsed = Parsed(task: Option<string>, status: Option<string>, body: string)

  predicate OneLine(s: string) {
    forall i :: 0 <= i < |s| ==> s[i] != '\n'
  }

  /** `raw.split("\n")` */
  function Split(raw: string): (lines: seq<string>)
    ensures lines != []
  {
    if raw == "" then [""]
    else
      var rest := Split(raw[1..]);
      if raw[0] == '\n' then [""] + rest else [[raw[0]] + rest[0]] + rest[1..]
  }

  function Format(task: string, status: string, body: string): string {
    var text := Strip(body);
    Join(["TASK_ID: " + task, "STATUS: " + status] + (if text == "" then [] else ["", text]))
  }

  predicate IsKey(line: string) {
    StartsWith(line, TASK_KEY) || StartsWith(line, STATUS_KEY)
  }

  /** What the lines read so far say, and where the body would start. */
  datatype Header = Header(task: Option<string>, status: Option<string>, bodyStart: nat)

  /** `line.split(":", 1)[1].strip()` */
  function FieldOf(line: string, key: string): string
    requires StartsWith(line, key)
  {
    Strip(line[|key|..])
  }

  function ReadHeader(lines: seq<string>): (h: Header)
    ensures h.bodyStart <= |lines|
  {
    if lines == [] then Header(None, None, 0)
    else
      var n := |lines| - 1;
      var before := ReadHeader(lines[..n]);
      if StartsWith(lines[n], TASK_KEY) then Header(Some(FieldOf(lines[n], TASK_KEY)), before.status, n + 1)
      else if StartsWith(lines[n], STATUS_KEY) then Header(before.task, Some(FieldOf(lines[n], STATUS_KEY)), n + 1)
      else before
  }

  function DropBlank(lines: seq<string>): seq<string> {
    if lines != [] && Blank(lines[0]) then DropBlank(lines[1..]) else lines
  }

  function Parse(raw: string): Parsed {
    var lines := Split(raw);
    var h := ReadHeader(lines);
    Parsed(h.task, h.status, Join(DropBlank(lines[h.bodyStart..])))
  }

  method ParseMessage(raw: string) returns (result: Parsed)
    ensures result == Parse(raw)
  {
    hide Split;
    hide Blank;
    hide Join;
    var task: Option<string>, status: Option<string>, bodyStart: nat := None, None, 0;
    var lines := Split(raw);
    for i := 0 to |lines|
      invariant Header(task, status, bodyStart) == ReadHeader(lines[..i])
    {
      assert lines[..i + 1][..i] == lines[..i];
      var line := lines[i];
      if StartsWith(line, TASK_KEY) {
        task := Some(FieldOf(line, TASK_KEY));
        bodyStart := i + 1;
      } else if StartsWith(line, STATUS_KEY) {
        status := Some(FieldOf(line, STATUS_KEY));
        bodyStart := i + 1;
      }
    }
    assert lines[..|lines|] == lines;
    var body := lines[bodyStart..];
    while body != [] && Blank(body[0])
      invariant DropBlank(body) == DropBlank(lines[bodyStart..])
    {
      body := body[1..];
    }
    result := Parsed(task, status, Join(body));
  }

  // ----- splitting and joining -----

  lemma {:induction false} SplitConcat(a: string, b: string)
    ensures Split(a + "\n" + b) == Split(a) + Split(b)
  {
    if a == "" {
      assert ("\n" + b)[1..] == b && a + "\n" + b == "\n" + b;
    } else {
      assert (a + "\n" + b)[1..] == a[1..] + "\n" + b;
      SplitConcat(a[1..], b);
    }
  }

  lemma {:induction false} SplitOneLine(a: string)
    requires OneLine(a)
    ensures Split(a) == [a]
  {
    if a != "" {
      SplitOneLine(a[1..]);
      assert a == [a[0]] + a[1..];
    }
  }

  lemma {:induction false} JoinSplit(raw: string)
    ensures Join(Split(raw)) == raw
  {
    if raw != "" {
      JoinSplit(raw[1..]);
      var rest := Split(raw[1..]);
      if raw[0] == '\n' {
        JoinConcat([""], rest);
        assert raw == "\n" + raw[1..];
      } else {
        JoinFirst(raw[0], rest);
        assert raw == [raw[0]] + raw[1..];
      }
    }
  }

  lemma JoinFirst(c: char, lines: seq<string>)
    requires lines != []
    ensures Join([[c] + lines[0]] + lines[1..]) == [c] + Join(lines)
  {
    var longer := [[c] + lines[0]] + lines[1..];
    assert longer[1..] == lines[1..];
    if |lines| > 1 {
      assert ([c] + lines[0]) + "\n" + Join(lines[1..]) == [c] + (lines[0] + "\n" + Join(lines[1..]));
    }
  }

  // ----- reading the header back -----

  predicate NoKeys(lines: seq<string>) {
    forall i :: 0 <= i < |lines| ==> !IsKey(lines[i])
  }

  lemma {:induction false} HeaderAppend(a: seq<string>, b: seq<string>)
    ensures NoKeys(b) ==> ReadHeader(a + b) == ReadHeader(a)
    ensures !NoKeys(b) ==> ReadHeader(a + b).bodyStart > |a|
  {
    hide StartsWith;
    if b == [] {
      assert a + b == a;
    } else {
      var n := |b| - 1;
      HeaderAppend(a, b[..n]);
      assert (a + b)[..|a + b| - 1] == a + b[..n];
      assert b == b[..n] + [b[n]];
      if NoKeys(b) {
        assert !IsKey(b[n]) && NoKeys(b[..n]);
      } else if !IsKey(b[n]) {
        var i :| 0 <= i < |b| && IsKey(b[i]);
        assert b[..n][i] == b[i];
      }
    }
  }

  lemma StripAfterSpace(s: string)
    ensures Strip(" " + s) == Strip(s)
  {
    assert (" " + s)[1..] == s;
    assert (" " + s)[1 + Indent(s)..] == s[Indent(s)..];
  }

  lemma TaskLine(task: string)
    ensures StartsWith("TASK_ID: " + task, TASK_KEY) && FieldOf("TASK_ID: " + task, TASK_KEY) == Strip(task)
  {
    hide Strip;
    assert ("TASK_ID: " + task)[8..] == " " + task;
    StripAfterSpace(task);
  }

  lemma StatusLine(status: string)
    ensures StartsWith("STATUS: " + status, STATUS_KEY) && FieldOf("STATUS: " + status, STATUS_KEY) == Strip(status)
    ensures !StartsWith("STATUS: " + status, TASK_KEY)
  {
    hide Strip;
    assert ("STATUS: " + status)[7..] == " " + status;
    assert ("STATUS: " + status)[0] != TASK_KEY[0];
    StripAfterSpace(status);
  }

  lemma HeaderStep(lines: seq<string>, line: string)
    ensures ReadHeader(lines + [line]) ==
      var before := ReadHeader(lines);
      if StartsWith(line, TASK_KEY) then Header(Some(FieldOf(line, TASK_KEY)), before.status, |lines| + 1)
      else if StartsWith(line, STATUS_KEY) then Header(before.task, Some(FieldOf(line, STATUS_KEY)), |lines| + 1)
      else before
  {
    hide StartsWith;
    hide FieldOf;
    assert (lines + [line])[..|lines|] == lines;
  }

  // ----- weights: how many characters are not blank -----

  function Weight(s: string): nat {
    if s == "" then 0 else (if IsSpace(s[0]) then 0 else 1) + Weight(s[1..])
  }

  function WeightOf(lines: seq<string>): nat {
    if lines == [] then 0 else Weight(lines[0]) + WeightOf(lines[1..])
  }

  predicate Spaces(s: string) {
    forall i :: 0 <= i < |s| ==> IsSpace(s[i])
  }

  lemma {:induction false} WeightConcat(a: string, b: string)
    ensures Weight(a + b) == Weight(a) + Weight(b)
  {
    if a == "" {
      assert a + b == b;
    } else {
      assert (a + b)[1..] == a[1..] + b;
      WeightConcat(a[1..], b);
    }
  }

  lemma {:induction false} WeightlessIffSpaces(s: string)
    ensures Weight(s) == 0 <==> Spaces(s)
    ensures Weight(s) == 0 <==> Blank(s)
  {
    if s != "" {
      WeightlessIffSpaces(s[1..]);
      assert s == [s[0]] + s[1..];
      assert Spaces(s) <==> IsSpace(s[0]) && Spaces(s[1..]) by {
        if Spaces(s) {
          assert forall i :: 0 <= i < |s[1..]| ==> s[1..][i] == s[i + 1];
        }
      }
    }
  }

  lemma WeightRStrip(s: string)
    ensures Weight(RStrip(s)) == Weight(s) && Spaces(s[|RStrip(s)|..]) && s == RStrip(s) + s[|RStrip(s)|..]
  {
    RStripTail(s);
    WeightConcat(RStrip(s), s[|RStrip(s)|..]);
    WeightlessIffSpaces(s[|RStrip(s)|..]);
  }

  lemma {:induction false} RStripTail(s: string)
    ensures Spaces(s[|RStrip(s)|..]) && s == RStrip(s) + s[|RStrip(s)|..]
  {
    if s != "" && IsSpace(s[|s| - 1]) {
      var init := s[..|s| - 1];
      RStripTail(init);
      assert s[|RStrip(s)|..] == init[|RStrip(s)|..] + [s[|s| - 1]];
    }
  }

  lemma WeightStrip(s: string)
    ensures Weight(Strip(s)) == Weight(s)
  {
    IndentShape(s);
    WeightlessIffSpaces(s[..Indent(s)]);
    WeightConcat(s[..Indent(s)], LStrip(s));
    assert s == s[..Indent(s)] + LStrip(s);
    WeightRStrip(LStrip(s));
  }

  lemma {:induction false} WeightSplit(s: string)
    ensures WeightOf(Split(s)) == Weight(s)
  {
    if s != "" {
      WeightSplit(s[1..]);
      var rest := Split(s[1..]);
      if s[0] == '\n' {
        assert ([""] + rest)[1..] == rest;
      } else {
        var first := [s[0]] + rest[0];
        assert ([first] + rest[1..])[1..] == rest[1..];
        assert first[1..] == rest[0];
      }
    }
  }

  lemma {:induction false} LineWeighsLess(lines: seq<string>, k: nat)
    requires k < |lines|
    ensures Weight(lines[k]) <= WeightOf(lines)
    ensures WeightOf(lines) == Weight(lines[k]) ==> forall j :: 0 <= j < |lines| && j != k ==> Weight(lines[j]) == 0
  {
    if k == 0 {
      NothingWeighs(lines[1..]);
      assert forall j :: 0 < j < |lines| ==> lines[j] == lines[1..][j - 1];
    } else {
      LineWeighsLess(lines[1..], k - 1);
      assert forall j :: 0 < j < |lines| ==> lines[j] == lines[1..][j - 1];
    }
  }

  lemma {:induction false} NothingWeighs(lines: seq<string>)
    ensures WeightOf(lines) == 0 ==> forall j :: 0 <= j < |lines| ==> Weight(lines[j]) == 0
  {
    if lines != [] {
      NothingWeighs(lines[1..]);
      assert forall j :: 0 < j < |lines| ==> lines[j] == lines[1..][j - 1];
    }
  }

  // ----- fields that are written over several lines -----

  lemma {:induction false} StripTail(a: string, tail: string)
    requires Spaces(tail)
    ensures Strip(a + tail) == Strip(a)
  {
    if tail == "" {
      assert a + tail == a;
    } else {
      var n := |tail| - 1;
      var init := a + tail[..n];
      StripTail(a, tail[..n]);
      assert a + tail == init + [tail[n]];
      StripOneMore(init, tail[n]);
    }
  }

  lemma StripOneMore(s: string, c: char)
    requires IsSpace(c)
    ensures Strip(s + [c]) == Strip(s)
  {
    IndentMore(s, c);
    if Blank(s) {
      assert LStrip(s + [c]) == "" == LStrip(s);
    } else {
      assert LStrip(s + [c]) == LStrip(s) + [c];
      assert (LStrip(s) + [c])[..|LStrip(s)|] == LStrip(s);
    }
  }

  lemma {:induction false} IndentMore(s: string, c: char)
    requires IsSpace(c)
    ensures Indent(s + [c]) == if Blank(s) then |s| + 1 else Indent(s)
  {
    if s == "" {
      assert s + [c] == [c] && [c][1..] == "";
    } else {
      assert (s + [c])[1..] == s[1..] + [c];
      IndentMore(s[1..], c);
    }
  }

  /** The first line of a text, and what follows its first line feed. */
  lemma {:induction false} FirstLineOf(s: string)
    ensures OneLine(Split(s)[0]) && Split(s)[0] <= s
    ensures |Split(s)[0]| < |s| ==> s[|Split(s)[0]|] == '\n'
  {
    if s != "" && s[0] != '\n' {
      FirstLineOf(s[1..]);
      assert s == [s[0]] + s[1..];
    }
  }

  lemma RStripPrefix(a: string, s: string)
    requires a <= s && Spaces(s[|a|..])
    ensures RStrip(s) == RStrip(a)
    decreases |s|
  {
    if |a| < |s| {
      assert IsSpace(s[|a|..][|s| - 1 - |a|]);
      var init := s[..|s| - 1];
      assert init[|a|..] == s[|a|..][..|s| - 1 - |a|];
      RStripPrefix(a, init);
    } else {
      assert a == s;
    }
  }

  /** Where the first line of a text ends. */
  function FirstEnd(s: string): (n: nat)
    ensures n <= |s|
  {
    FirstLineOf(s);
    |Split(s)[0]|
  }

  /** The first line of a field is worth the whole field exactly when there is no line feed before its trailing blanks. */
  lemma FirstLineIffOneLine(s: string)
    ensures Strip(Split(s)[0]) == Strip(s) <==> OneLine(RStrip(s))
    ensures OneLine(RStrip(s)) ==> forall j :: 1 <= j < |Split(s)| ==> Blank(Split(s)[j])
  {
    hide *;
    var tail := s[FirstEnd(s)..];
    FirstSplit(s);
    WeightStrip(s);
    WeightStrip(Split(s)[0]);
    WeightConcat(Split(s)[0], tail);
    WeightlessIffSpaces(tail);
    if OneLine(RStrip(s)) {
      LineCovers(s);
    }
    if Spaces(tail) {
      StripTail(Split(s)[0], tail);
      FirstIsEnough(s);
      LaterAreBlank(s);
    }
  }

  lemma FirstSplit(s: string)
    ensures s == Split(s)[0] + s[FirstEnd(s)..]
  {
    FirstLineOf(s);
  }

  lemma FirstIsEnough(s: string)
    requires Spaces(s[FirstEnd(s)..])
    ensures OneLine(RStrip(s))
  {
    FirstLineOf(s);
    RStripPrefix(Split(s)[0], s);
  }

  lemma LaterAreBlank(s: string)
    requires Weight(s) == Weight(Split(s)[0])
    ensures forall j :: 1 <= j < |Split(s)| ==> Blank(Split(s)[j])
  {
    hide Split;
    WeightSplit(s);
    LineWeighsLess(Split(s), 0);
    forall j | 1 <= j < |Split(s)| ensures Blank(Split(s)[j]) {
      WeightlessIffSpaces(Split(s)[j]);
    }
  }

  lemma LineCovers(s: string)
    requires OneLine(RStrip(s))
    ensures Spaces(s[FirstEnd(s)..])
  {
    FirstLineOf(s);
    RStripTail(s);
    var n, k := |RStrip(s)|, FirstEnd(s);
    FeedIsAfter(s, RStrip(s), k);
    assert forall i :: k <= i < |s| ==> s[i] == s[n..][i - n];
  }

  lemma FeedIsAfter(s: string, start: string, k: nat)
    requires start <= s && OneLine(start)
    requires k < |s| ==> s[k] == '\n'
    ensures k >= |start|
  {
    assert forall i :: 0 <= i < |start| ==> s[i] != '\n';
  }

  /** A further line of a field that looks like a header never carries the field's whole value. */
  lemma LaterLineIsLess(s: string, k: nat, key: string)
    requires k < |Split(s)| && StartsWith(Split(s)[k], key) && Weight(key) > 0
    ensures FieldOf(Split(s)[k], key) != Strip(s)
  {
    var line := Split(s)[k];
    WeightSplit(s);
    LineWeighsLess(Split(s), k);
    WeightStrip(s);
    WeightStrip(line[|key|..]);
    WeightConcat(key, line[|key|..]);
    assert line == key + line[|key|..];
  }

  lemma {:induction false} SplitPrefixed(prefix: string, s: string)
    requires OneLine(prefix)
    ensures Split(prefix + s) == [prefix + Split(s)[0]] + Split(s)[1..]
  {
    if prefix == "" {
      assert prefix + s == s && prefix + Split(s)[0] == Split(s)[0];
    } else {
      assert (prefix + s)[1..] == prefix[1..] + s;
      SplitPrefixed(prefix[1..], s);
      assert [prefix[0]] + (prefix[1..] + Split(s)[0]) == prefix + Split(s)[0];
    }
  }

  // ----- the header of a formatted message -----

  function TaskLines(task: string): seq<string> {
    ["TASK_ID: " + Split(task)[0]] + Split(task)[1..]
  }

  function StatusLines(status: string): seq<string> {
    ["STATUS: " + Split(status)[0]] + Split(status)[1..]
  }

  /** The last line that sets the status is the one read. */
  lemma {:induction false} StatusRead(before: seq<string>, lines: seq<string>)
    ensures var h := ReadHeader(before + lines);
      || (h.status == ReadHeader(before).status && forall k :: 0 <= k < |lines| ==> !StartsWith(lines[k], STATUS_KEY))
      || exists k :: 0 <= k < |lines| && StartsWith(lines[k], STATUS_KEY) && h.status == Some(FieldOf(lines[k], STATUS_KEY))
  {
    hide FieldOf;
    if lines == [] {
      assert before + lines == before;
    } else {
      var n := |lines| - 1;
      StatusRead(before, lines[..n]);
      assert before + lines == before + lines[..n] + [lines[n]];
      HeaderStep(before + lines[..n], lines[n]);
      KeysDiffer(lines[n]);
      assert forall k :: 0 <= k < n ==> lines[..n][k] == lines[k];
    }
  }

  lemma {:induction false} TaskRead(before: seq<string>, lines: seq<string>)
    ensures var h := ReadHeader(before + lines);
      || (h.task == ReadHeader(before).task && forall k :: 0 <= k < |lines| ==> !StartsWith(lines[k], TASK_KEY))
      || exists k :: 0 <= k < |lines| && StartsWith(lines[k], TASK_KEY) && h.task == Some(FieldOf(lines[k], TASK_KEY))
  {
    hide FieldOf;
    if lines == [] {
      assert before + lines == before;
    } else {
      var n := |lines| - 1;
      TaskRead(before, lines[..n]);
      assert before + lines == before + lines[..n] + [lines[n]];
      HeaderStep(before + lines[..n], lines[n]);
      KeysDiffer(lines[n]);
      assert forall k :: 0 <= k < n ==> lines[..n][k] == lines[k];
    }
  }

  lemma KeysDiffer(line: string)
    ensures !(StartsWith(line, TASK_KEY) && StartsWith(line, STATUS_KEY))
  {
    assert StartsWith(line, TASK_KEY) ==> line[0] == TASK_KEY[0];
    assert StartsWith(line, STATUS_KEY) ==> line[0] == STATUS_KEY[0];
  }

  lemma KeysWeigh()
    ensures Weight(TASK_KEY) > 0 && Weight(STATUS_KEY) > 0
  {
    WeightlessIffSpaces(TASK_KEY);
    WeightlessIffSpaces(STATUS_KEY);
    assert TASK_KEY[0] == 'T' && STATUS_KEY[0] == 'S';
  }

  lemma BlankIsNoKey(line: string)
    requires Blank(line)
    ensures !IsKey(line)
  {
    hide *;
    WeightlessIffSpaces(line);
    KeyWeighs(line);
  }

  lemma KeyWeighs(line: string)
    ensures IsKey(line) ==> Weight(line) > 0
  {
    hide Weight;
    KeysWeigh();
    if StartsWith(line, TASK_KEY) {
      WeightConcat(TASK_KEY, line[8..]);
      assert line == TASK_KEY + line[8..];
    } else if StartsWith(line, STATUS_KEY) {
      WeightConcat(STATUS_KEY, line[7..]);
      assert line == STATUS_KEY + line[7..];
    }
  }

  /** Any status that survives was written on one line. */
  lemma StatusNeedsOneLine(before: seq<string>, status: string)
    requires ReadHeader(before + StatusLines(status)).status == Some(Strip(status))
    ensures OneLine(RStrip(status))
  {
    StatusTop(status);
    hide *;
    var lines := StatusLines(status);
    StatusRead(before, lines);
    KeysWeigh();
    var k :| 0 <= k < |lines| && StartsWith(lines[k], STATUS_KEY) && Some(Strip(status)) == Some(FieldOf(lines[k], STATUS_KEY));
    WholeFieldIsFirst(status, lines, k, STATUS_KEY);
  }

  lemma StatusTop(status: string)
    ensures var lines := StatusLines(status);
      && |lines| == |Split(status)| && lines[1..] == Split(status)[1..]
      && StartsWith(lines[0], STATUS_KEY) && FieldOf(lines[0], STATUS_KEY) == Strip(Split(status)[0])
  {
    hide Split;
    hide Strip;
    hide FieldOf;
    StatusLine(Split(status)[0]);
  }

  lemma TaskTop(task: string)
    ensures var lines := TaskLines(task);
      && |lines| == |Split(task)| && lines[1..] == Split(task)[1..]
      && StartsWith(lines[0], TASK_KEY) && FieldOf(lines[0], TASK_KEY) == Strip(Split(task)[0])
  {
    hide Split;
    hide Strip;
    hide FieldOf;
    TaskLine(Split(task)[0]);
  }

  /** A line that carries the whole of a field is its first, and the field was written on one line. */
  lemma WholeFieldIsFirst(s: string, lines: seq<string>, k: nat, key: string)
    requires |lines| == |Split(s)| && lines[1..] == Split(s)[1..]
    requires StartsWith(lines[0], key) && FieldOf(lines[0], key) == Strip(Split(s)[0]) && Weight(key) > 0
    requires k < |lines| && StartsWith(lines[k], key) && FieldOf(lines[k], key) == Strip(s)
    ensures OneLine(RStrip(s))
  {
    hide *;
    FirstLineIffOneLine(s);
    if k > 0 {
      assert lines[1..][k - 1] == Split(s)[1..][k - 1];
      LaterLineIsLess(s, k, key);
    }
  }

  lemma TaskNeedsOneLine(task: string)
    requires ReadHeader(TaskLines(task)).task == Some(Strip(task))
    ensures OneLine(RStrip(task))
  {
    TaskTop(task);
    EmptyHeader();
    hide *;
    var lines := TaskLines(task);
    TaskRead([], lines);
    assert [] + lines == lines;
    KeysWeigh();
    var k :| 0 <= k < |lines| && StartsWith(lines[k], TASK_KEY) && Some(Strip(task)) == Some(FieldOf(lines[k], TASK_KEY));
    WholeFieldIsFirst(task, lines, k, TASK_KEY);
  }

  lemma BlankLinesAreNoKeys(lines: seq<string>)
    requires forall j :: 0 <= j < |lines| ==> Blank(lines[j])
    ensures NoKeys(lines)
  {
    forall j | 0 <= j < |lines| ensures !IsKey(lines[j]) {
      BlankIsNoKey(lines[j]);
    }
  }

  /** A status on one line leaves the task alone. */
  lemma OneLineStatus(before: seq<string>, status: string)
    requires OneLine(RStrip(status))
    ensures ReadHeader(before + StatusLines(status)) == Header(ReadHeader(before).task, Some(Strip(status)), |before| + 1)
  {
    hide *;
    var first, later := "STATUS: " + Split(status)[0], Split(status)[1..];
    StatusCut(before, status);
    FirstLineIffOneLine(status);
    StatusLine(Split(status)[0]);
    HeaderStep(before, first);
    BlankLinesAreNoKeys(later);
    HeaderAppend(before + [first], later);
  }

  lemma StatusCut(before: seq<string>, status: string)
    ensures before + StatusLines(status) == before + ["STATUS: " + Split(status)[0]] + Split(status)[1..]
  {
    hide Split;
  }

  lemma TaskCut(task: string)
    ensures TaskLines(task) == [] + ["TASK_ID: " + Split(task)[0]] + Split(task)[1..]
  {
    hide Split;
  }

  lemma OneLineTask(task: string)
    requires OneLine(RStrip(task))
    ensures ReadHeader(TaskLines(task)) == Header(Some(Strip(task)), None, 1)
  {
    hide *;
    var first, later := "TASK_ID: " + Split(task)[0], Split(task)[1..];
    TaskCut(task);
    EmptyHeader();
    FirstLineIffOneLine(task);
    TaskLine(Split(task)[0]);
    HeaderStep([], first);
    BlankLinesAreNoKeys(later);
    HeaderAppend([] + [first], later);
  }

  lemma EmptyHeader()
    ensures ReadHeader([]) == Header(None, None, 0)
  {
  }

  /** Both fields are read back exactly when each was written on one line. */
  lemma FieldsIff(task: string, status: string)
    ensures var h := ReadHeader(TaskLines(task) + StatusLines(status));
      h.task == Some(Strip(task)) && h.status == Some(Strip(status)) <==> OneLine(RStrip(task)) && OneLine(RStrip(status))
    ensures OneLine(RStrip(status)) ==> ReadHeader(TaskLines(task) + StatusLines(status)).bodyStart == |TaskLines(task)| + 1
  {
    hide *;
    var h := ReadHeader(TaskLines(task) + StatusLines(status));
    if h.status == Some(Strip(status)) {
      StatusNeedsOneLine(TaskLines(task), status);
    }
    if OneLine(RStrip(status)) {
      OneLineStatus(TaskLines(task), status);
      if h.task == Some(Strip(task)) {
        TaskNeedsOneLine(task);
      }
      if OneLine(RStrip(task)) {
        OneLineTask(task);
      }
    }
  }

  // ----- the body -----

  /** A stripped text starts with a line that is not blank. */
  lemma FirstLineCounts(body: string)
    requires Strip(body) != ""
    ensures !Blank(Split(Strip(body))[0])
  {
    var text := Strip(body);
    IndentShape(body);
    assert text[0] == LStrip(body)[0];
    assert !IsSpace(text[0]);
    SplitStarts(text);
  }

  lemma SplitStarts(text: string)
    requires text != "" && text[0] != '\n'
    ensures Split(text)[0] != "" && Split(text)[0][0] == text[0]
  {
  }

  lemma {:induction false} DropShortens(lines: seq<string>)
    ensures |Join(DropBlank(lines))| <= |Join(lines)|
  {
    if lines != [] && Blank(lines[0]) {
      DropShortens(lines[1..]);
      if |lines| > 1 {
        JoinConcat(lines[..1], lines[1..]);
        assert lines == lines[..1] + lines[1..];
      }
    }
  }

  lemma SuffixIsShorter(lines: seq<string>, m: nat)
    requires 0 < m <= |lines| && Join(lines) != ""
    ensures |Join(lines[m..])| < |Join(lines)|
  {
    if m < |lines| {
      JoinConcat(lines[..m], lines[m..]);
      assert lines == lines[..m] + lines[m..];
    }
  }

  lemma {:induction false} BlanksDrop(blanks: seq<string>, lines: seq<string>)
    requires forall j :: 0 <= j < |blanks| ==> Blank(blanks[j])
    requires lines == [] || !Blank(lines[0])
    ensures DropBlank(blanks + lines) == lines
  {
    if blanks == [] {
      assert blanks + lines == lines;
    } else {
      assert (blanks + lines)[1..] == blanks[1..] + lines;
      BlanksDrop(blanks[1..], lines);
    }
  }

  // ----- the whole message -----

  /** The lines of the body part: none for a blank body, else an empty line and the lines of the stripped body. */
  function BodyLines(body: string): seq<string> {
    if Strip(body) == "" then [] else [""] + Split(Strip(body))
  }

  lemma MessageLines(task: string, status: string, body: string)
    ensures Split(Format(task, status, body)) == TaskLines(task) + StatusLines(status) + BodyLines(body)
  {
    hide Split;
    hide Strip;
    var a, b, text := "TASK_ID: " + task, "STATUS: " + status, Strip(body);
    SplitPrefixed("TASK_ID: ", task);
    SplitPrefixed("STATUS: ", status);
    SplitConcat(a, b);
    JoinConcat([a], [b]);
    assert [a] + [b] == [a, b] && [a, b] + [] == [a, b];
    if text != "" {
      SplitOneLine("");
      SplitConcat("", text);
      SplitConcat(a + "\n" + b, "" + "\n" + text);
      JoinConcat([a, b], ["", text]);
      JoinConcat([""], [text]);
      assert [""] + [text] == ["", text];
    } else {
      assert TaskLines(task) + StatusLines(status) + [] == TaskLines(task) + StatusLines(status);
    }
  }

  /** Whether task id, status and body are read from the lines. */
  predicate ReadsBack(lines: seq<string>, task: string, status: string, body: string) {
    var h := ReadHeader(lines);
    h.task == Some(Strip(task)) && h.status == Some(Strip(status)) && Join(DropBlank(lines[h.bodyStart..])) == Strip(body)
  }

  /** A message is read back, with its three parts stripped, exactly when neither the task id nor the status has a line
      feed before its trailing blanks, and no line of the body looks like one of the two header lines. */
  lemma RoundTripIff(task: string, status: string, body: string)
    ensures Parse(Format(task, status, body)) == Parsed(Some(Strip(task)), Some(Strip(status)), Strip(body)) <==>
      OneLine(RStrip(task)) && OneLine(RStrip(status)) && NoKeys(Split(Strip(body)))
  {
    var top := TaskLines(task) + StatusLines(status);
    MessageLines(task, status, body);
    ParseReads(task, status, body);
    hide *;
    FieldsIff(task, status);
    if NoKeys(Split(Strip(body))) {
      KeylessBody(top, body);
      if OneLine(RStrip(status)) {
        BodyRead(task, status, body);
      }
      SameFields(top, BodyLines(body), task, status, body);
    } else {
      KeyedBody(top, task, status, body);
    }
  }

  lemma ParseReads(task: string, status: string, body: string)
    ensures Parse(Format(task, status, body)) == Parsed(Some(Strip(task)), Some(Strip(status)), Strip(body)) <==>
      ReadsBack(Split(Format(task, status, body)), task, status, body)
  {
    hide Split;
    hide Strip;
    hide Format;
  }

  lemma KeylessBody(top: seq<string>, body: string)
    requires NoKeys(Split(Strip(body)))
    ensures ReadHeader(top + BodyLines(body)) == ReadHeader(top)
  {
    hide Strip;
    hide Split;
    hide ReadHeader;
    hide IsKey;
    EmptyIsNoKey();
    if Strip(body) == "" {
      assert top + [] == top;
    } else {
      assert BodyLines(body) == [""] + Split(Strip(body));
      HeaderAppend(top, BodyLines(body));
    }
  }

  lemma SameFields(top: seq<string>, rest: seq<string>, task: string, status: string, body: string)
    requires ReadHeader(top + rest) == ReadHeader(top)
    ensures ReadsBack(top + rest, task, status, body) <==>
      && ReadHeader(top).task == Some(Strip(task)) && ReadHeader(top).status == Some(Strip(status))
      && Join(DropBlank((top + rest)[ReadHeader(top).bodyStart..])) == Strip(body)
  {
    hide Strip;
    hide ReadHeader;
    hide Join;
    hide DropBlank;
  }

  /** With a status on one line, the body is what is left after the blank lines. */
  lemma BodyRead(task: string, status: string, body: string)
    requires OneLine(RStrip(status))
    requires ReadHeader(TaskLines(task) + StatusLines(status)).bodyStart == |TaskLines(task)| + 1
    ensures var top := TaskLines(task) + StatusLines(status);
      Join(DropBlank((top + BodyLines(body))[ReadHeader(top).bodyStart..])) == Strip(body)
  {
    hide Strip;
    hide Split;
    hide ReadHeader;
    hide Blank;
    hide RStrip;
    hide TaskLines;
    var top := TaskLines(task) + StatusLines(status);
    var later := Split(status)[1..];
    FirstLineIffOneLine(status);
    AfterStatus(TaskLines(task), status, BodyLines(body));
    if Strip(body) == "" {
      BlanksDrop(later, []);
      assert later + [] == later;
    } else {
      var lines := Split(Strip(body));
      FirstLineCounts(body);
      EmptyIsBlank();
      BlanksDrop(later + [""], lines);
      assert later + [""] + lines == later + ([""] + lines);
      JoinSplit(Strip(body));
    }
  }

  lemma AfterStatus(task: seq<string>, status: string, body: seq<string>)
    ensures (task + StatusLines(status) + body)[|task| + 1..] == Split(status)[1..] + body
  {
    hide Split;
  }

  lemma EmptyIsBlank()
    ensures Blank("")
  {
  }

  /** A body line that looks like a header line cuts the body short. */
  lemma KeyedBody(top: seq<string>, task: string, status: string, body: string)
    requires !NoKeys(Split(Strip(body)))
    ensures !ReadsBack(top + BodyLines(body), task, status, body)
  {
    hide Strip;
    hide Blank;
    hide ReadHeader;
    hide Split;
    hide IsKey;
    hide Join;
    hide DropBlank;
    var text := Strip(body);
    EmptyText();
    var front := top + [""];
    var lines := front + Split(text);
    assert top + BodyLines(body) == lines;
    HeaderAppend(front, Split(text));
    JoinSplit(text);
    var m := ReadHeader(lines).bodyStart - |front|;
    assert lines[ReadHeader(lines).bodyStart..] == Split(text)[m..];
    SuffixIsShorter(Split(text), m);
    DropShortens(Split(text)[m..]);
  }

  lemma EmptyText()
    ensures NoKeys(Split(""))
  {
    assert Split("") == [""];
    EmptyIsNoKey();
  }

  lemma EmptyIsNoKey()
    ensures NoKeys([""])
  {
    assert !IsKey("");
  }

  /** A body that looks like a header line is lost, and its text is taken for the task id. */
  lemma HeaderLikeBody()
    ensures Parse(Format("t", "s", "TASK_ID: x")) == Parsed(Some("x"), Some("s"), "")
  {
    HeaderLikeLines();
    HeaderLikeHeader();
    hide *;
    ParseEnds(Format("t", "s", "TASK_ID: x"), Header(Some("x"), Some("s"), 4));
  }

  lemma ParseEnds(raw: string, h: Header)
    requires ReadHeader(Split(raw)) == h && h.bodyStart == |Split(raw)|
    ensures Parse(raw) == Parsed(h.task, h.status, "")
  {
    hide Split;
    hide ReadHeader;
    assert Split(raw)[|Split(raw)|..] == [];
  }

  lemma HeaderLikeHeader()
    ensures ReadHeader(["TASK_ID: t", "STATUS: s", "", "TASK_ID: x"]) == Header(Some("x"), Some("s"), 4)
  {
    hide *;
    SmallTexts();
    FourLines("t", "s", "x");
    assert "TASK_ID: " + "t" == "TASK_ID: t" && "STATUS: " + "s" == "STATUS: s" && "TASK_ID: " + "x" == "TASK_ID: x";
  }

  lemma FourLines(task: string, status: string, later: string)
    ensures ReadHeader(["TASK_ID: " + task, "STATUS: " + status, "", "TASK_ID: " + later]) ==
      Header(Some(Strip(later)), Some(Strip(status)), 4)
  {
    hide Strip;
    hide StartsWith;
    hide FieldOf;
    hide ReadHeader;
    var a, b, c := "TASK_ID: " + task, "STATUS: " + status, "TASK_ID: " + later;
    TaskLine(task);
    StatusLine(status);
    TaskLine(later);
    EmptyIsNoKey();
    HeaderStep([a], b);
    HeaderAppend([a, b], [""]);
    HeaderStep([a, b, ""], c);
    assert [a] + [b] == [a, b] && [a, b] + [""] == [a, b, ""] && [a, b, ""] + [c] == [a, b, "", c];
  }

  lemma SmallTexts()
    ensures Strip("t") == "t" && Strip("s") == "s" && Strip("x") == "x"
  {
  }

  lemma HeaderLikeLines()
    ensures Split(Format("t", "s", "TASK_ID: x")) == ["TASK_ID: t", "STATUS: s", "", "TASK_ID: x"]
  {
    hide *;
    HeaderLikeText();
    ShortMessage("t", "s", "TASK_ID: x");
    assert "TASK_ID: " + "t" == "TASK_ID: t" && "STATUS: " + "s" == "STATUS: s";
  }

  lemma ShortMessage(task: string, status: string, body: string)
    requires OneLine(task) && OneLine(status) && OneLine(body) && Strip(body) == body != ""
    ensures Split(Format(task, status, body)) == ["TASK_ID: " + task, "STATUS: " + status, "", body]
  {
    hide Split;
    hide Strip;
    hide Format;
    MessageLines(task, status, body);
    SplitOneLine(task);
    SplitOneLine(status);
    SplitOneLine(body);
    assert TaskLines(task) == ["TASK_ID: " + task];
    assert StatusLines(status) == ["STATUS: " + status];
    assert BodyLines(body) == ["", body];
  }

  lemma HeaderLikeText()
    ensures Strip("TASK_ID: x") == "TASK_ID: x" && OneLine("TASK_ID: x") && OneLine("t") && OneLine("s")
  {
    PlainText("TASK_ID: x");
  }

  lemma PlainText(text: string)
    requires text != "" && !IsSpace(text[0]) && !IsSpace(text[|text| - 1])
    ensures Strip(text) == text
  {
  }
}
