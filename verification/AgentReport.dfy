/** The agent-report lines of multinexus/handoff_handler.py: the printer, the
    `key=value` reader, and the extraction of report blocks from a response. */
module AgentReport {
  import opened Prelude
  import opened PyText
  import opened ShellWords

  /** The two fields of a coordinator handoff that a report repeats. */
  datatype Handoff = Handoff(workspaceId: string, taskId: string)

  const REPORT_ACTIONS := {"accept", "blocker", "done", "progress"}
  const EXECUTION_ACTIONS := {"blocker", "done", "progress"}
  const DECISIONS := {"approve", "reject"}
  const HEADER := "[agent-report]"

  /** `str.lower` is library behaviour; all that is used of it is that it leaves
      lower-case ASCII names alone. */
  ghost predicate KeepsLowercase(lower: string -> string) {
    forall s {:trigger lower(s)} :: IsName(s) ==> lower(s) == s
  }

  predicate IsName(s: string) {
    forall c :: c in s ==> 'a' <= c <= 'z' || c == '_'
  }

  // ----- printing -----

  function BuildAgentReport(lower: string -> string, action: string, handoff: Handoff,
                            summary: Option<string>, reason: Option<string>): Result<string> {
    var normalized := lower(action);
    if normalized !in REPORT_ACTIONS then Failure
    else Success(Join([HEADER, "action=" + normalized,
                       "workspace_id=" + Quote(handoff.workspaceId),
                       "task_id=" + Quote(handoff.taskId)]
                      + Optional("summary=", summary) + Optional("reason=", reason), ' '))
  }

  function Optional(prefix: string, text: Option<string>): seq<string> {
    if text.None? || text.value == "" then [] else [prefix + Quote(text.value)]
  }

  // ----- reading key=value words -----

  function KeyOf(part: string): (key: string)
    ensures |key| <= |part| && ('=' in part ==> |key| < |part| && part[|key|] == '=')
  {
    if part == "" || part[0] == '=' then "" else [part[0]] + KeyOf(part[1..])
  }

  function NormalizeKey(lower: string -> string, key: string): string {
    ReplaceChar(lower(Strip(key)), '-', '_')
  }

  /** One word of the text: later words win, words without `=` are skipped. */
  function AddWord(lower: string -> string, fields: map<string, string>, part: string): map<string, string> {
    if '=' !in part then fields
    else
      var key := NormalizeKey(lower, KeyOf(part));
      if key == "" then fields
      else fields[key := Strip(part[|KeyOf(part)| + 1..])]
  }

  function WordFields(lower: string -> string, parts: seq<string>): map<string, string> {
    if parts == [] then map[]
    else AddWord(lower, WordFields(lower, parts[..|parts| - 1]), parts[|parts| - 1])
  }

  function KeyValues(lower: string -> string, text: string): map<string, string> {
    match ShlexSplit(text)
    case Failure => map[]
    case Success(parts) => WordFields(lower, parts)
  }

  method ParseKeyValues(lower: string -> string, text: string) returns (fields: map<string, string>)
    ensures fields == KeyValues(lower, text)
  {
    var split := ShlexSplit(text);
    if split.Failure? {
      return map[];
    }
    fields := map[];
    for i := 0 to |split.value|
      invariant fields == WordFields(lower, split.value[..i])
    {
      assert split.value[..i + 1][..i] == split.value[..i];
      fields := AddWord(lower, fields, split.value[i]);
    }
    assert split.value[..|split.value|] == split.value;
  }

  // ----- splitting a response into report blocks and display text -----

  predicate IsLineBreak(c: char) {
    var n := c as int;
    0x0a <= n <= 0x0d || 0x1c <= n <= 0x1e || n in {0x85, 0x2028, 0x2029}
  }

  function LineLength(s: string): (n: nat)
    ensures n <= |s| && (n < |s| ==> IsLineBreak(s[n])) && forall i :: 0 <= i < n ==> !IsLineBreak(s[i])
  {
    if s == "" || IsLineBreak(s[0]) then 0 else 1 + LineLength(s[1..])
  }

  /** `str.splitlines()` */
  function SplitLines(s: string): seq<string>
    decreases |s|
  {
    if s == "" then []
    else
      var n := LineLength(s);
      if n == |s| then [s]
      else if s[n] == '\r' && n + 1 < |s| && s[n + 1] == '\n' then [s[..n]] + SplitLines(s[n + 2..])
      else [s[..n]] + SplitLines(s[n + 1..])
  }

  function LowerAscii(c: char): char {
    if 'A' <= c <= 'Z' then (c as int + 32) as char else c
  }

  /** `^\s*\[agent-report\](?=\s|$)`, ignoring case */
  predicate IsReportHead(line: string) {
    var text := LStrip(line);
    && |HEADER| <= |text|
    && (forall i :: 0 <= i < |HEADER| ==> LowerAscii(text[i]) == HEADER[i])
    && (|text| == |HEADER| || IsSpace(text[|HEADER|]))
  }

  predicate IsFieldChar(c: char) {
    'a' <= c <= 'z' || 'A' <= c <= 'Z' || '0' <= c <= '9' || c == '_' || c == '-'
  }

  /** `^\s*[A-Za-z_][A-Za-z0-9_-]*=` */
  predicate IsFieldLine(line: string) {
    var text := LStrip(line);
    && text != "" && IsFieldChar(text[0]) && text[0] != '-' && !('0' <= text[0] <= '9')
    && NameThenEquals(text[1..])
  }

  predicate NameThenEquals(s: string) {
    s != "" && (s[0] == '=' || (IsFieldChar(s[0]) && NameThenEquals(s[1..])))
  }

  /** How many field lines come first. */
  function FieldLines(lines: seq<string>): (n: nat)
    ensures n <= |lines|
  {
    if lines == [] || !IsFieldLine(lines[0]) then 0 else 1 + FieldLines(lines[1..])
  }

  function Stripped(lines: seq<string>): (r: seq<string>)
    ensures |r| == |lines|
    ensures forall i :: 0 <= i < |lines| ==> r[i] == Strip(lines[i])
  {
    seq(|lines|, i requires 0 <= i < |lines| => Strip(lines[i]))
  }

  /** `(fields.get(name) or "").lower()` */
  function LowerField(lower: string -> string, fields: map<string, string>, name: string): string {
    lower(if name in fields then fields[name] else "")
  }

  predicate Acceptable(lower: string -> string, fields: map<string, string>) {
    LowerField(lower, fields, "action") in REPORT_ACTIONS || LowerField(lower, fields, "decision") in DECISIONS
  }

  predicate IsReport(lower: string -> string, candidate: string) {
    Acceptable(lower, KeyValues(lower, candidate))
  }

  /** The reports of a list of lines, and the lines left for display. */
  function Blocks(lower: string -> string, lines: seq<string>): (seq<string>, seq<string>)
    decreases |lines|
  {
    if lines == [] then ([], [])
    else if !IsReportHead(lines[0]) then
      var (reports, display) := Blocks(lower, lines[1..]);
      (reports, [lines[0]] + display)
    else
      var n := 1 + FieldLines(lines[1..]);
      var candidate := Join(Stripped(lines[..n]), '\n');
      var (reports, display) := Blocks(lower, lines[n..]);
      if IsReport(lower, candidate) then ([candidate] + reports, display)
      else (reports, lines[..n] + display)
  }

  method SplitAgentReportLines(lower: string -> string, text: string)
    returns (reports: seq<string>, displayText: string)
    ensures reports == Blocks(lower, SplitLines(text)).0
    ensures displayText == Strip(Join(Blocks(lower, SplitLines(text)).1, '\n'))
  {
    hide IsReportHead, IsFieldLine, Acceptable, KeyValues, Stripped, Strip, SplitLines, Join, Blocks, FieldLines;
    reports := [];
    var display: seq<string> := [];
    var lines := SplitLines(text);
    var index := 0;
    assert lines[0..] == lines;
    while index < |lines|
      invariant 0 <= index <= |lines|
      invariant reports + Blocks(lower, lines[index..]).0 == Blocks(lower, lines).0
      invariant display + Blocks(lower, lines[index..]).1 == Blocks(lower, lines).1
    {
      var line := lines[index];
      if !IsReportHead(line) {
        DisplayStep(lower, lines, index);
        display := display + [line];
        index := index + 1;
        continue;
      }

      var block, next := BlockAt(lines, index);
      BlockStep(lower, lines, index, next);
      var candidate := Join(block, '\n');
      var fields := ParseKeyValues(lower, candidate);
      if Acceptable(lower, fields) {
        reports := reports + [candidate];
      } else {
        display := display + lines[index..next];
      }
      index := next;
    }
    assert lines[index..] == [];
    NoLinesLeft(lower);
    assert reports + [] == reports && display + [] == display;
    displayText := Strip(Join(display, '\n'));
  }

  /** The inner loop: the head line and the field lines that follow it. */
  method BlockAt(lines: seq<string>, index: nat) returns (block: seq<string>, next: nat)
    requires index < |lines|
    ensures next == index + 1 + FieldLines(lines[index + 1..]) && next <= |lines|
    ensures block == Stripped(lines[index..next])
  {
    hide IsFieldLine, Strip;
    block := [Strip(lines[index])];
    next := index + 1;
    while next < |lines| && IsFieldLine(lines[next])
      invariant index + 1 <= next <= |lines|
      invariant block == Stripped(lines[index..next])
      invariant FieldLines(lines[index + 1..]) == next - index - 1 + FieldLines(lines[next..])
    {
      assert lines[next..][1..] == lines[next + 1..];
      block := block + [Strip(lines[next])];
      next := next + 1;
    }
  }

  lemma NoLinesLeft(lower: string -> string)
    ensures Blocks(lower, []) == ([], [])
  {
  }

  /** How `Blocks` goes on at any other line. */
  lemma DisplayStep(lower: string -> string, lines: seq<string>, index: nat)
    requires index < |lines| && !IsReportHead(lines[index])
    ensures var later := Blocks(lower, lines[index + 1..]);
            Blocks(lower, lines[index..]) == (later.0, [lines[index]] + later.1)
  {
    hide IsReportHead, IsFieldLine, IsReport, Stripped, Join;
    var here := lines[index..];
    assert here[0] == lines[index] && here[1..] == lines[index + 1..];
  }

  /** How `Blocks` goes on at a report head. */
  lemma BlockStep(lower: string -> string, lines: seq<string>, index: nat, next: nat)
    requires index < |lines| && IsReportHead(lines[index])
    requires next == index + 1 + FieldLines(lines[index + 1..]) && next <= |lines|
    ensures var candidate := Join(Stripped(lines[index..next]), '\n');
            var here, later := Blocks(lower, lines[index..]), Blocks(lower, lines[next..]);
            if IsReport(lower, candidate) then here == ([candidate] + later.0, later.1)
            else here == (later.0, lines[index..next] + later.1)
  {
    hide IsReportHead, IsFieldLine, Acceptable, KeyValues, Stripped, Strip, Join;
    var here := lines[index..];
    assert here[0] == lines[index] && here[1..] == lines[index + 1..];
    assert here[..next - index] == lines[index..next] && here[next - index..] == lines[next..];
  }

  predicate Executes(lower: string -> string, fields: map<string, string>) {
    LowerField(lower, fields, "action") in EXECUTION_ACTIONS || LowerField(lower, fields, "decision") in DECISIONS
  }

  predicate IsExecutionReport(lower: string -> string, report: string) {
    Executes(lower, KeyValues(lower, report))
  }

  method ContainsExecutionAgentReport(lower: string -> string, text: string) returns (found: bool)
    ensures found <==> exists r :: r in Blocks(lower, SplitLines(text)).0 && IsExecutionReport(lower, r)
  {
    hide Executes, KeyValues, Blocks, SplitLines, Acceptable, Join, Strip;
    var reports, _ := SplitAgentReportLines(lower, text);
    for i := 0 to |reports|
      invariant forall j :: 0 <= j < i ==> !IsExecutionReport(lower, reports[j])
    {
      var fields := ParseKeyValues(lower, reports[i]);
      if Executes(lower, fields) {
        assert IsExecutionReport(lower, reports[i]);
        return true;
      }
    }
    return false;
  }

  // ----- a printed report is read back -----

  /** The fields of a report, as words to be quoted. */
  function ReportFields(normalized: string, handoff: Handoff, summary: Option<string>, reason: Option<string>):
    seq<Field>
  {
    [Field("action", normalized), Field("workspace_id", handoff.workspaceId), Field("task_id", handoff.taskId)]
    + OptionalField("summary", summary) + OptionalField("reason", reason)
  }

  function OptionalField(name: string, text: Option<string>): seq<Field> {
    if text.None? || text.value == "" then [] else [Field(name, text.value)]
  }

  /** The dictionary a report stands for: every value stripped. */
  function Meaning(fields: seq<Field>): map<string, string> {
    if fields == [] then map[]
    else Meaning(fields[..|fields| - 1])[fields[|fields| - 1].name := Strip(fields[|fields| - 1].value)]
  }

  predicate NamedPlainly(f: Field) {
    f.name in {"action", "decision", "workspace_id", "task_id", "summary", "reason"}
  }

  lemma NamesAreLowercase(f: Field)
    requires NamedPlainly(f)
    ensures IsName(f.name) && f.name != ""
  {
  }

  lemma NameFacts(f: Field)
    requires IsName(f.name) && f.name != ""
    ensures f.Plain() && Strip(f.name) == f.name && '=' !in f.name
    ensures ReplaceChar(f.name, '-', '_') == f.name
  {
    hide Strip;
    var name := f.name;
    assert name[0] in name && name[|name| - 1] in name;
    StripFixed(name);
    NoDash(name);
  }

  lemma NoDash(name: string)
    requires '-' !in name
    ensures ReplaceChar(name, '-', '_') == name
  {
    assert forall i :: 0 <= i < |name| ==> name[i] in name;
    assert forall i :: 0 <= i < |name| ==> ReplaceChar(name, '-', '_')[i] == name[i];
  }

  lemma {:induction false} KeyOfToken(name: string, value: string)
    requires '=' !in name
    ensures KeyOf(name + "=" + value) == name
  {
    var part := name + "=" + value;
    if name != "" {
      assert part[0] == name[0] && name[0] in name;
      assert part[1..] == name[1..] + "=" + value;
      KeyOfToken(name[1..], value);
    }
  }

  lemma AddToken(lower: string -> string, fields: map<string, string>, f: Field)
    requires KeepsLowercase(lower) && NamedPlainly(f)
    ensures AddWord(lower, fields, f.Token()) == fields[f.name := Strip(f.value)]
  {
    hide Strip, ReplaceChar;
    NamesAreLowercase(f);
    NameFacts(f);
    KeyOfToken(f.name, f.value);
    assert f.Token()[|f.name|] == '=' && f.Token()[|f.name| + 1..] == f.value;
    assert lower(f.name) == f.name;
  }

  lemma {:induction false} TokensMean(lower: string -> string, fields: seq<Field>)
    requires KeepsLowercase(lower) && forall f :: f in fields ==> NamedPlainly(f)
    ensures WordFields(lower, [HEADER] + Tokens(fields)) == Meaning(fields)
  {
    hide AddWord, NamedPlainly, Strip;
    var words := [HEADER] + Tokens(fields);
    if fields == [] {
      HeaderIsNoField(lower);
      assert words == [HEADER] && words[..0] == [];
    } else {
      var front, f := fields[..|fields| - 1], fields[|fields| - 1];
      TokensLast(fields);
      TokensMean(lower, front);
      assert words[..|words| - 1] == [HEADER] + Tokens(front) && words[|words| - 1] == f.Token();
      AddToken(lower, Meaning(front), f);
    }
  }

  lemma HeaderIsNoField(lower: string -> string)
    ensures AddWord(lower, map[], HEADER) == map[]
  {
    assert forall i :: 0 <= i < |HEADER| ==> HEADER[i] != '=';
  }

  lemma TokensLast(fields: seq<Field>)
    requires fields != []
    ensures Tokens(fields) == Tokens(fields[..|fields| - 1]) + [fields[|fields| - 1].Token()]
  {
  }

  /** Splitting the text of a report into words, on one line or on several. */
  lemma ReportWords(fields: seq<Field>, sep: char)
    requires IsBlank(sep) && fields != [] && forall f :: f in fields ==> f.Plain()
    ensures ShlexSplit(Join([HEADER] + Texts(fields), sep)) == Success([HEADER] + Tokens(fields))
  {
    hide Join, Texts, Tokens, Quote, IsPlain, IsBlank;
    var later := Join(Texts(fields), sep);
    SplitReadsFields(fields, sep);
    HeaderRun(later, sep);
    JoinHead(HEADER, Texts(fields), sep);
  }

  lemma JoinHead(head: string, tail: seq<string>, sep: char)
    requires tail != []
    ensures Join([head] + tail, sep) == head + ([sep] + Join(tail, sep))
  {
    assert ([head] + tail)[1..] == tail;
  }

  lemma HeaderRun(later: string, sep: char)
    requires IsBlank(sep)
    ensures Lex(HEADER + ([sep] + later), Between, "", false)
         == match Lex(later, Between, "", false)
            case Failure => Failure
            case Success(words) => Success([HEADER] + words)
  {
    var body := "agent-report]";
    var text := HEADER + ([sep] + later);
    assert text[0] == '[' && text[1..] == body + ([sep] + later);
    PlainRun(body, [sep] + later, "[", false);
    assert "[" + body == HEADER;
    assert ([sep] + later)[1..] == later;
  }

  lemma ActionPrintsPlainly(normalized: string)
    requires normalized in REPORT_ACTIONS
    ensures Quote(normalized) == normalized && IsName(normalized) && Strip(normalized) == normalized
  {
    hide Strip, Quote;
    assert normalized != "" && IsName(normalized);
    NameFacts(Field(normalized, ""));
    NameNeedsNoQuotes(normalized);
  }

  lemma NameNeedsNoQuotes(name: string)
    requires IsName(name) && name != ""
    ensures Quote(name) == name
  {
  }

  /** A report is its header followed by quoted fields. */
  lemma ReportText(lower: string -> string, action: string, handoff: Handoff,
                   summary: Option<string>, reason: Option<string>)
    requires lower(action) in REPORT_ACTIONS
    ensures BuildAgentReport(lower, action, handoff, summary, reason)
         == Success(Join([HEADER] + Texts(ReportFields(lower(action), handoff, summary, reason)), ' '))
  {
    hide Quote, Join;
    ActionPrintsPlainly(lower(action));
    FieldTexts(lower(action), handoff, summary, reason);
  }

  lemma FieldTexts(normalized: string, handoff: Handoff, summary: Option<string>, reason: Option<string>)
    requires Quote(normalized) == normalized
    ensures [HEADER] + Texts(ReportFields(normalized, handoff, summary, reason))
         == [HEADER, "action=" + normalized, "workspace_id=" + Quote(handoff.workspaceId),
             "task_id=" + Quote(handoff.taskId)]
            + Optional("summary=", summary) + Optional("reason=", reason)
  {
    hide Quote, Optional, OptionalField;
    var workspaceId, taskId := "workspace_id=" + Quote(handoff.workspaceId), "task_id=" + Quote(handoff.taskId);
    var base := [Field("action", normalized), Field("workspace_id", handoff.workspaceId),
                 Field("task_id", handoff.taskId)];
    assert "action" + "=" == "action=" && "workspace_id" + "=" == "workspace_id=" && "task_id" + "=" == "task_id=";
    assert Texts(base) == ["action=" + normalized, workspaceId, taskId];
    TextsAppend(base, OptionalField("summary", summary));
    TextsAppend(base + OptionalField("summary", summary), OptionalField("reason", reason));
    assert "summary" + "=" == "summary=" && "reason" + "=" == "reason=";
    OptionalTexts("summary", summary);
    OptionalTexts("reason", reason);
    assert [HEADER] + Texts(base) == [HEADER, "action=" + normalized, workspaceId, taskId];
  }

  lemma OptionalTexts(name: string, text: Option<string>)
    ensures Texts(OptionalField(name, text)) == Optional(name + "=", text)
  {
    hide Quote;
  }

  lemma TextsAppend(a: seq<Field>, b: seq<Field>)
    ensures Texts(a + b) == Texts(a) + Texts(b)
  {
    hide Quote;
  }

  ghost predicate Names(fields: seq<Field>, name: string) {
    exists i :: 0 <= i < |fields| && fields[i].name == name
  }

  ghost predicate DistinctNames(fields: seq<Field>) {
    forall i, j :: 0 <= i < j < |fields| ==> fields[i].name != fields[j].name
  }

  lemma {:induction false} MeaningLookup(fields: seq<Field>)
    requires DistinctNames(fields)
    ensures forall name :: name in Meaning(fields) <==> Names(fields, name)
    ensures forall i :: 0 <= i < |fields| ==>
      fields[i].name in Meaning(fields) && Meaning(fields)[fields[i].name] == Strip(fields[i].value)
  {
    hide Strip;
    if fields != [] {
      var front, last := fields[..|fields| - 1], fields[|fields| - 1];
      MeaningLookup(front);
      forall name ensures name in Meaning(fields) <==> Names(fields, name) {
        assert Names(fields, name) <==> Names(front, name) || last.name == name;
      }
    }
  }

  lemma ReportNamesDistinct(normalized: string, handoff: Handoff, summary: Option<string>, reason: Option<string>)
    ensures DistinctNames(ReportFields(normalized, handoff, summary, reason))
  {
    assert |"action"| == 6 && |"workspace_id"| == 12 && |"task_id"| == 7 && |"summary"| == 7 && |"reason"| == 6;
    assert "action"[0] != "reason"[0] && "task_id"[0] != "summary"[0];
  }

  lemma FieldsNamedPlainly(normalized: string, handoff: Handoff, summary: Option<string>, reason: Option<string>)
    ensures forall f :: f in ReportFields(normalized, handoff, summary, reason) ==> NamedPlainly(f) && f.Plain()
  {
    forall f | f in ReportFields(normalized, handoff, summary, reason) ensures NamedPlainly(f) && f.Plain() {
      NamesAreLowercase(f);
      NameFacts(f);
    }
  }

  /** Reading a report gives back exactly the fields it was built from: those
      names and no others, each with its value stripped. */
  lemma ReportRoundTrip(lower: string -> string, action: string, handoff: Handoff,
                        summary: Option<string>, reason: Option<string>)
    requires KeepsLowercase(lower) && lower(action) in REPORT_ACTIONS
    ensures BuildAgentReport(lower, action, handoff, summary, reason).Success?
    ensures var read := KeyValues(lower, BuildAgentReport(lower, action, handoff, summary, reason).value);
            var fields := ReportFields(lower(action), handoff, summary, reason);
            && (forall name :: name in read <==> Names(fields, name))
            && (forall i :: 0 <= i < |fields| ==>
                  fields[i].name in read && read[fields[i].name] == Strip(fields[i].value))
  {
    hide Strip, Join, Texts, Tokens, ShlexSplit, NamedPlainly, Meaning, ReportFields, DistinctNames, Names,
      BuildAgentReport;
    var fields := ReportFields(lower(action), handoff, summary, reason);
    ReportText(lower, action, handoff, summary, reason);
    FieldsNamedPlainly(lower(action), handoff, summary, reason);
    assert fields != [] by { ReportHasFields(lower(action), handoff, summary, reason); }
    ReportWords(fields, ' ');
    TokensMean(lower, fields);
    ReportNamesDistinct(lower(action), handoff, summary, reason);
    MeaningLookup(fields);
  }

  lemma ReportHasFields(normalized: string, handoff: Handoff, summary: Option<string>, reason: Option<string>)
    ensures var fields := ReportFields(normalized, handoff, summary, reason);
            && |fields| >= 3
            && fields[0] == Field("action", normalized)
            && fields[1] == Field("workspace_id", handoff.workspaceId)
            && fields[2] == Field("task_id", handoff.taskId)
  {
  }

  // ----- a printed report is found again in a response -----

  predicate NoLineBreak(s: string) {
    forall c :: c in s ==> !IsLineBreak(c)
  }

  /** A non-empty word with no line break that does not end in white space. */
  predicate IsLineWord(s: string) {
    s != "" && NoLineBreak(s) && !IsSpace(s[|s| - 1])
  }

  lemma {:induction false} EscapeQuotesNoBreak(s: string)
    requires NoLineBreak(s)
    ensures NoLineBreak(EscapeQuotes(s))
  {
    if s != "" {
      assert s[0] in s;
      EscapeQuotesNoBreak(s[1..]);
    }
  }

  lemma QuoteIsLineWord(s: string)
    requires NoLineBreak(s)
    ensures IsLineWord(Quote(s))
  {
    EscapeQuotesNoBreak(s);
    if s != "" && AllSafe(s) {
      assert s[|s| - 1] in s;
    }
  }

  lemma FieldIsLineWord(f: Field)
    requires NamedPlainly(f) && NoLineBreak(f.value)
    ensures IsLineWord(f.Text())
  {
    hide Quote;
    NamesAreLowercase(f);
    QuoteIsLineWord(f.value);
  }

  lemma {:induction false} JoinIsLineWord(parts: seq<string>)
    requires parts != [] && forall p :: p in parts ==> IsLineWord(p)
    ensures IsLineWord(Join(parts, ' '))
    ensures parts[0] <= Join(parts, ' ')
    ensures |parts| > 1 ==> Join(parts, ' ')[|parts[0]|..] == " " + Join(parts[1..], ' ')
  {
    hide IsLineWord;
    assert parts[0] in parts;
    if |parts| > 1 {
      JoinIsLineWord(parts[1..]);
      LineWordsJoin(parts[0], Join(parts[1..], ' '));
    }
  }

  lemma LineWordsJoin(a: string, b: string)
    requires IsLineWord(a) && IsLineWord(b)
    ensures IsLineWord(a + [' '] + b)
  {
    var s := a + [' '] + b;
    assert s[|s| - 1] == b[|b| - 1];
  }

  lemma {:induction false} OneLine(s: string)
    requires NoLineBreak(s)
    ensures LineLength(s) == |s|
    ensures s != "" ==> SplitLines(s) == [s]
  {
    if s != "" {
      assert s[0] in s;
      OneLine(s[1..]);
    }
  }

  lemma HeaderIsLineWord()
    ensures IsLineWord(HEADER)
  {
  }

  lemma PartsAreLineWords(fields: seq<Field>)
    requires forall f :: f in fields ==> NamedPlainly(f) && NoLineBreak(f.value)
    ensures forall p :: p in [HEADER] + Texts(fields) ==> IsLineWord(p)
  {
    hide Quote, NamedPlainly, IsLineWord;
    HeaderIsLineWord();
    var parts := [HEADER] + Texts(fields);
    forall p | p in parts ensures IsLineWord(p) {
      if p != HEADER {
        var i :| 1 <= i < |parts| && parts[i] == p;
        assert fields[i - 1] in fields;
        FieldIsLineWord(fields[i - 1]);
      }
    }
  }

  lemma HeaderShows(report: string)
    requires HEADER <= report && |report| > |HEADER| && report[|HEADER|] == ' '
    ensures IsReportHead(report) && !IsSpace(report[0])
  {
    hide IsSpace, LowerAscii, LStrip;
    HeaderChars();
    assert report[0] == HEADER[0];
    NoLeadingSpace(report);
    assert forall i :: 0 <= i < |HEADER| ==> report[i] == HEADER[i];
  }

  lemma HeaderChars()
    ensures forall i :: 0 <= i < |HEADER| ==> LowerAscii(HEADER[i]) == HEADER[i]
    ensures !IsSpace(HEADER[0]) && IsSpace(' ')
  {
  }

  lemma NoLeadingSpace(s: string)
    requires s != "" && !IsSpace(s[0])
    ensures LStrip(s) == s
  {
  }

  /** The printed report is one line: it starts with the header and a blank. */
  lemma ReportIsOneLine(fields: seq<Field>)
    requires fields != [] && forall f :: f in fields ==> NamedPlainly(f) && NoLineBreak(f.value)
    ensures var report := Join([HEADER] + Texts(fields), ' ');
            SplitLines(report) == [report] && IsReportHead(report) && Strip(report) == report
  {
    hide Quote, NamedPlainly, SplitLines, IsReportHead, IsSpace;
    var parts := [HEADER] + Texts(fields);
    PartsAreLineWords(fields);
    JoinIsLineWord(parts);
    var report := Join(parts, ' ');
    OneLine(report);
    assert report[|HEADER|] == report[|HEADER|..][0] == ' ';
    HeaderShows(report);
    StripFixed(report);
  }

  /** One accepted head line and nothing else. */
  lemma SingleReport(lower: string -> string, report: string)
    requires IsReportHead(report) && Strip(report) == report && IsReport(lower, report)
    ensures Blocks(lower, [report]) == ([report], [])
  {
    hide IsReportHead, Strip, IsReport, KeyValues, Acceptable;
    var lines := [report];
    assert lines[1..] == [] && lines[..1] == lines;
    assert FieldLines(lines[1..]) == 0 && Blocks(lower, lines[1..]) == ([], []);
    assert Stripped(lines) == [report] && Join([report], '\n') == report;
    assert [report] + [] == [report];
  }

  /** A report whose values hold no line break is extracted whole, leaves no
      display text, and counts as an execution report exactly for the three
      actions that report on work done. */
  lemma ReportIsExtracted(lower: string -> string, action: string, handoff: Handoff,
                          summary: Option<string>, reason: Option<string>)
    requires KeepsLowercase(lower) && lower(action) in REPORT_ACTIONS
    requires forall f :: f in ReportFields(lower(action), handoff, summary, reason) ==> NoLineBreak(f.value)
    ensures BuildAgentReport(lower, action, handoff, summary, reason).Success?
    ensures var report := BuildAgentReport(lower, action, handoff, summary, reason).value;
            && Blocks(lower, SplitLines(report)) == ([report], [])
            && (IsExecutionReport(lower, report) <==> lower(action) in EXECUTION_ACTIONS)
  {
    hide Strip, Join, Texts, NamedPlainly, ReportFields, NoLineBreak, BuildAgentReport, KeyValues, Blocks, SplitLines,
      IsReportHead;
    var fields := ReportFields(lower(action), handoff, summary, reason);
    ReportHasFields(lower(action), handoff, summary, reason);
    ReportText(lower, action, handoff, summary, reason);
    FieldsNamedPlainly(lower(action), handoff, summary, reason);
    ReportIsOneLine(fields);
    ReportAction(lower, action, handoff, summary, reason);
    SingleReport(lower, BuildAgentReport(lower, action, handoff, summary, reason).value);
  }

  lemma ReportAction(lower: string -> string, action: string, handoff: Handoff,
                     summary: Option<string>, reason: Option<string>)
    requires KeepsLowercase(lower) && lower(action) in REPORT_ACTIONS
    ensures BuildAgentReport(lower, action, handoff, summary, reason).Success?
    ensures var report := BuildAgentReport(lower, action, handoff, summary, reason).value;
            && IsReport(lower, report)
            && (IsExecutionReport(lower, report) <==> lower(action) in EXECUTION_ACTIONS)
  {
    hide Strip, Join, Texts, NamedPlainly, BuildAgentReport, KeyValues;
    ReportRoundTrip(lower, action, handoff, summary, reason);
    var read := KeyValues(lower, BuildAgentReport(lower, action, handoff, summary, reason).value);
    ActionPrintsPlainly(lower(action));
    assert read["action"] == lower(action) by { ReportHasFields(lower(action), handoff, summary, reason); }
    NoDecision(lower(action), handoff, summary, reason);
    assert lower(lower(action)) == lower(action) && lower("") == "";
  }

  lemma NoDecision(normalized: string, handoff: Handoff, summary: Option<string>, reason: Option<string>)
    ensures !Names(ReportFields(normalized, handoff, summary, reason), "decision")
  {
    assert |"decision"| == 8 && |"action"| == 6 && |"workspace_id"| == 12;
    assert |"task_id"| == 7 && |"summary"| == 7 && |"reason"| == 6;
  }

  // ----- what the lines of a report look like -----

  predicate IgnoringCase(c: char, h: char) {
    c == h || ('a' <= h <= 'z' && c as int + 32 == h as int)
  }

  /** White space, the header in any case, and then nothing or white space. */
  ghost predicate HeadAfter(line: string, n: int) {
    && 0 <= n && n + |HEADER| <= |line| && (forall i :: 0 <= i < n ==> IsSpace(line[i]))
    && (forall k :: 0 <= k < |HEADER| ==> IgnoringCase(line[n + k], HEADER[k]))
    && (n + |HEADER| < |line| ==> IsSpace(line[n + |HEADER|]))
  }

  lemma HeadMeans(line: string)
    ensures IsReportHead(line) <==> exists n :: HeadAfter(line, n)
  {
    hide IsSpace, LStrip, LowerAscii, IgnoringCase;
    var text := LStrip(line);
    var lead := |line| - |text|;
    assert forall k :: 0 <= k < |text| ==> line[lead + k] == text[k];
    LowerIgnores();
    if IsReportHead(line) {
      assert HeadAfter(line, lead);
    }
    forall n | HeadAfter(line, n) ensures IsReportHead(line) {
      HeadIsNoSpace(line[n + 0]);
      assert n == lead;
    }
  }

  lemma HeadIsNoSpace(c: char)
    ensures IgnoringCase(c, HEADER[0]) ==> !IsSpace(c)
  {
  }

  lemma LowerIgnores()
    ensures forall c, k :: 0 <= k < |HEADER| ==> (LowerAscii(c) == HEADER[k] <==> IgnoringCase(c, HEADER[k]))
  {
  }

  /** White space, a name, and an equals sign. */
  ghost predicate FieldAfter(line: string, m: int, n: int) {
    && 0 <= m < n < |line| && (forall i :: 0 <= i < m ==> IsSpace(line[i]))
    && IsFieldChar(line[m]) && line[m] != '-' && !('0' <= line[m] <= '9')
    && (forall i :: m < i < n ==> IsFieldChar(line[i])) && line[n] == '='
  }

  lemma {:induction false} NameMeans(s: string)
    ensures NameThenEquals(s) <==> exists n :: NameEndsAt(s, n)
  {
    if s != "" && s[0] == '=' {
      assert NameEndsAt(s, 0);
    } else if s != "" {
      NameMeans(s[1..]);
      if NameThenEquals(s) {
        var n :| NameEndsAt(s[1..], n);
        assert NameEndsAt(s, n + 1);
      }
      forall n | NameEndsAt(s, n) ensures NameThenEquals(s) {
        assert NameEndsAt(s[1..], n - 1);
      }
    }
  }

  ghost predicate NameEndsAt(s: string, n: int) {
    0 <= n < |s| && (forall i :: 0 <= i < n ==> IsFieldChar(s[i])) && s[n] == '='
  }

  lemma FieldCharsAreNoSpace()
    ensures forall c :: IsFieldChar(c) ==> !IsSpace(c)
  {
  }

  lemma FieldLineMeans(line: string)
    ensures IsFieldLine(line) <==> exists m, n :: FieldAfter(line, m, n)
  {
    hide IsSpace, LStrip, IsFieldChar, NameThenEquals;
    FieldCharsAreNoSpace();
    var text := LStrip(line);
    var lead := |line| - |text|;
    assert forall k :: 0 <= k < |text| ==> line[lead + k] == text[k];
    if text != "" {
      NameMeans(text[1..]);
      if IsFieldLine(line) {
        var n :| NameEndsAt(text[1..], n);
        assert FieldAfter(line, lead, lead + 1 + n);
      }
    }
    forall m, n | FieldAfter(line, m, n) ensures IsFieldLine(line) {
      assert m == lead;
      assert NameEndsAt(text[1..], n - lead - 1);
    }
  }

  // ----- how a text splits into lines, blocks and words -----

  /** A line ends at its first line break, of which CR LF is one. */
  lemma FirstLine(line: string, br: string, rest: string)
    requires NoLineBreak(line)
    requires br == "\r\n" || (|br| == 1 && IsLineBreak(br[0]) && !(br == "\r" && "\n" <= rest))
    ensures SplitLines(line + br + rest) == [line] + SplitLines(rest)
  {
    var s := line + br + rest;
    LengthOfLine(line, br + rest);
    assert s == line + (br + rest);
    assert s[..|line|] == line && s[|line| + |br|..] == rest && s[|line|] == br[0];
    if br == "\r\n" {
      assert s[|line| + 1] == '\n';
    } else if |line| + 1 < |s| {
      assert s[|line| + 1] == rest[0];
    }
  }

  lemma {:induction false} LengthOfLine(line: string, rest: string)
    requires NoLineBreak(line) && rest != "" && IsLineBreak(rest[0])
    ensures LineLength(line + rest) == |line|
  {
    if line == "" {
      assert line + rest == rest;
    } else {
      assert line[0] in line && (line + rest)[0] == line[0] && (line + rest)[1..] == line[1..] + rest;
      LengthOfLine(line[1..], rest);
    }
  }

  /** The ten characters that `splitlines` knows. */
  lemma LineBreaksAre(c: char)
    ensures IsLineBreak(c) <==> c as int in {10, 11, 12, 13, 28, 29, 30, 0x85, 0x2028, 0x2029}
  {
  }

  lemma LineThen(line: string, rest: string)
    requires NoLineBreak(line)
    ensures SplitLines(line + ['\n'] + rest) == [line] + SplitLines(rest)
  {
    hide NoLineBreak, SplitLines;
    FirstLine(line, ['\n'], rest);
  }

  lemma {:induction false} LinesBack(lines: seq<string>)
    requires lines != [] && forall i :: 0 <= i < |lines| ==> lines[i] != "" && NoLineBreak(lines[i])
    ensures SplitLines(Join(lines, '\n')) == lines
  {
    hide NoLineBreak, SplitLines;
    if |lines| == 1 {
      OneLine(lines[0]);
    } else {
      var rest := Join(lines[1..], '\n');
      LinesBack(lines[1..]);
      LineThen(lines[0], rest);
    }
  }

  lemma {:induction false} FieldLinesOf(block: seq<string>, after: seq<string>)
    requires forall l :: l in block ==> IsFieldLine(l)
    requires after != [] ==> !IsFieldLine(after[0])
    ensures FieldLines(block + after) == |block|
  {
    hide IsFieldLine;
    if block == [] {
      assert block + after == after;
    } else {
      assert block[0] in block && (block + after)[0] == block[0] && (block + after)[1..] == block[1..] + after;
      FieldLinesOf(block[1..], after);
    }
  }

  /** A head line with its field lines is taken as a whole: as a report if it
      reads as one, for display if not. Nothing else is touched. */
  lemma {:induction false} BlockTaken(lower: string -> string, before: seq<string>, head: string, fields: seq<string>,
                                      after: seq<string>)
    requires (forall l :: l in before ==> !IsReportHead(l)) && IsReportHead(head)
    requires (forall l :: l in fields ==> IsFieldLine(l)) && (after != [] ==> !IsFieldLine(after[0]))
    ensures var block, later := [head] + fields, Blocks(lower, after);
            var candidate := Join(Stripped(block), '\n');
            if IsReport(lower, candidate) then
              Blocks(lower, before + block + after) == ([candidate] + later.0, before + later.1)
            else
              Blocks(lower, before + block + after) == (later.0, before + block + later.1)
    decreases |before|
  {
    hide IsReportHead, IsFieldLine, IsReport, Stripped, Join, FieldLines, Blocks;
    var block := [head] + fields;
    var lines := before + block + after;
    if before == [] {
      assert lines == block + after;
      assert lines[0] == head && lines[1..] == fields + after && lines[0..] == lines;
      FieldLinesOf(fields, after);
      BlockStep(lower, lines, 0, |block|);
      assert lines[0..|block|] == block && lines[|block|..] == after;
      var later := Blocks(lower, after);
      assert before + later.1 == later.1 && before + block + later.1 == block + later.1;
    } else {
      assert before[0] in before && lines[0] == before[0] && lines[0..] == lines;
      assert lines[1..] == before[1..] + block + after;
      DisplayStep(lower, lines, 0);
      BlockTaken(lower, before[1..], head, fields, after);
      Prefixed(before, block, Blocks(lower, after).1);
    }
  }

  lemma Prefixed(before: seq<string>, block: seq<string>, later: seq<string>)
    requires before != []
    ensures [before[0]] + (before[1..] + later) == before + later
    ensures [before[0]] + (before[1..] + block + later) == before + block + later
  {
  }

  predicate SetsKey(lower: string -> string, part: string, key: string) {
    '=' in part && key != "" && NormalizeKey(lower, KeyOf(part)) == key
  }

  /** The dictionary has exactly the keys some word sets. */
  lemma {:induction false} WordKeys(lower: string -> string, parts: seq<string>, key: string)
    ensures key in WordFields(lower, parts) <==> exists i :: 0 <= i < |parts| && SetsKey(lower, parts[i], key)
  {
    hide Strip, NormalizeKey, KeyOf;
    if parts != [] {
      var front, last := parts[..|parts| - 1], parts[|parts| - 1];
      WordKeys(lower, front, key);
      assert SetsKey(lower, last, key) ==> SetsKey(lower, parts[|parts| - 1], key);
      assert forall i :: 0 <= i < |front| ==> front[i] == parts[i];
    }
  }

  /** The last word that sets a key determines its value: the text after its
      first equals sign, stripped. */
  lemma {:induction false} LastWordWins(lower: string -> string, parts: seq<string>, i: nat, name: string,
                                        value: string)
    requires i < |parts| && parts[i] == name + "=" + value && '=' !in name
    requires var key := ReplaceChar(lower(Strip(name)), '-', '_');
             key != "" && forall k :: i < k < |parts| ==> !SetsKey(lower, parts[k], key)
    ensures var key := ReplaceChar(lower(Strip(name)), '-', '_');
            key in WordFields(lower, parts) && WordFields(lower, parts)[key] == Strip(value)
  {
    hide Strip, ReplaceChar, KeyOf;
    var front, last := parts[..|parts| - 1], parts[|parts| - 1];
    WordSets(lower, name, value);
    if i < |parts| - 1 {
      assert !SetsKey(lower, last, ReplaceChar(lower(Strip(name)), '-', '_'));
      LastWordWins(lower, front, i, name, value);
    }
  }

  lemma WordSets(lower: string -> string, name: string, value: string)
    requires '=' !in name
    ensures var part := name + "=" + value;
            '=' in part && KeyOf(part) == name && part[|KeyOf(part)| + 1..] == value
  {
    KeyOfToken(name, value);
    assert (name + "=" + value)[|name|] == '=';
  }

  // ----- reports on several lines, and what makes a report -----

  lemma NameShows(f: Field)
    requires IsName(f.name) && f.name != ""
    ensures FieldAfter(f.Text(), 0, |f.name|) && !IsSpace(f.Text()[0])
  {
    hide Quote;
    var text := f.Text();
    assert text[|f.name|] == '=';
    forall i | 0 <= i < |f.name| ensures text[i] == f.name[i] && f.name[i] in f.name {
    }
  }

  lemma FieldTextIsLine(f: Field)
    requires NamedPlainly(f) && NoLineBreak(f.value)
    ensures IsFieldLine(f.Text()) && Strip(f.Text()) == f.Text() && f.Text() != "" && NoLineBreak(f.Text())
  {
    hide Quote, Strip, IsSpace, IsFieldLine, NamedPlainly, IsName;
    FieldIsLineWord(f);
    NamesAreLowercase(f);
    NameShows(f);
    FieldLineMeans(f.Text());
    StripFixed(f.Text());
  }

  lemma HeaderIsHead()
    ensures IsReportHead(HEADER) && Strip(HEADER) == HEADER
  {
    hide IsSpace, LowerAscii;
    HeaderChars();
    HeaderIsLineWord();
    NoLeadingSpace(HEADER);
    StripFixed(HEADER);
  }

  /** A report with each field on a line of its own, read from a response whose
      next line is no field line, is the first report found, and means the same. */
  lemma ReportOnLines(lower: string -> string, fields: seq<Field>, after: seq<string>)
    requires KeepsLowercase(lower) && fields != [] && DistinctNames(fields)
    requires forall f :: f in fields ==> NamedPlainly(f) && f.Plain() && NoLineBreak(f.value)
    requires after != [] ==> !IsFieldLine(after[0])
    ensures var lines := [HEADER] + Texts(fields);
            var report := Join(lines, '\n');
            && SplitLines(report) == lines
            && (forall name :: name in KeyValues(lower, report) <==> Names(fields, name))
            && (forall i :: 0 <= i < |fields| ==>
                  fields[i].name in KeyValues(lower, report)
                  && KeyValues(lower, report)[fields[i].name] == Strip(fields[i].value))
            && (IsReport(lower, report) ==>
                  Blocks(lower, lines + after) == ([report] + Blocks(lower, after).0, Blocks(lower, after).1))
  {
    hide Strip, Join, Texts, NamedPlainly, IsReport, IsFieldLine, IsReportHead, Blocks, SplitLines, Meaning, ShlexSplit,
      NoLineBreak, IsBlank, DistinctNames, Names;
    var lines := [HEADER] + Texts(fields);
    LinesOfReport(fields);
    LinesBack(lines);
    ReportWords(fields, '\n') by { assert IsBlank('\n') by { BreakIsBlank(); } }
    TokensMean(lower, fields);
    MeaningLookup(fields);
    BlockTaken(lower, [], HEADER, Texts(fields), after);
    assert [] + lines + after == lines + after;
    assert [] + Blocks(lower, after).1 == Blocks(lower, after).1;
  }

  lemma BreakIsBlank()
    ensures IsBlank('\n')
  {
  }

  lemma LinesOfReport(fields: seq<Field>)
    requires forall f :: f in fields ==> NamedPlainly(f) && NoLineBreak(f.value)
    ensures var lines := [HEADER] + Texts(fields);
            && Stripped(lines) == lines && IsReportHead(HEADER)
            && (forall i :: 0 <= i < |lines| ==> lines[i] != "" && NoLineBreak(lines[i]))
            && forall l :: l in Texts(fields) ==> IsFieldLine(l)
  {
    hide Strip, NamedPlainly, IsFieldLine, IsReportHead, NoLineBreak;
    HeaderIsHead();
    HeaderIsLineWord();
    var texts := Texts(fields);
    forall i | 0 <= i < |fields|
      ensures IsFieldLine(texts[i]) && Strip(texts[i]) == texts[i] && texts[i] != "" && NoLineBreak(texts[i])
    {
      assert fields[i] in fields;
      FieldTextIsLine(fields[i]);
    }
  }

  /** Some field of this name says one of these words, in any case. */
  ghost predicate Says(lower: string -> string, fields: seq<Field>, name: string, words: set<string>) {
    exists i :: 0 <= i < |fields| && fields[i].name == name && lower(Strip(fields[i].value)) in words
  }

  /** What counts as a report, and as one on work done: its action or decision
      alone decides. */
  lemma AcceptsExactly(lower: string -> string, fields: seq<Field>, sep: char)
    requires KeepsLowercase(lower) && IsBlank(sep) && fields != [] && DistinctNames(fields)
    requires forall f :: f in fields ==> NamedPlainly(f) && f.Plain()
    ensures var report := Join([HEADER] + Texts(fields), sep);
            var decided := Says(lower, fields, "decision", {"approve", "reject"});
            && (IsReport(lower, report) <==>
                  Says(lower, fields, "action", {"accept", "blocker", "done", "progress"}) || decided)
            && (IsExecutionReport(lower, report) <==>
                  Says(lower, fields, "action", {"blocker", "done", "progress"}) || decided)
  {
    hide ShlexSplit, Strip, Meaning, WordFields, NamedPlainly, Join, Texts, Tokens, IsBlank, Says, DistinctNames;
    ReportWords(fields, sep);
    TokensMean(lower, fields);
    MeaningSays(lower, fields, "action", {"accept", "blocker", "done", "progress"});
    MeaningSays(lower, fields, "action", {"blocker", "done", "progress"});
    MeaningSays(lower, fields, "decision", {"approve", "reject"});
  }

  lemma MeaningSays(lower: string -> string, fields: seq<Field>, name: string, words: set<string>)
    requires KeepsLowercase(lower) && DistinctNames(fields) && "" !in words
    ensures LowerField(lower, Meaning(fields), name) in words <==> Says(lower, fields, name, words)
  {
    hide Strip, Meaning;
    MeaningLookup(fields);
    assert lower("") == "";
    if name in Meaning(fields) {
      var i :| 0 <= i < |fields| && fields[i].name == name;
      assert forall k :: 0 <= k < |fields| && fields[k].name == name ==> k == i;
    }
  }
}
