/**
 The tool-call budget of the Codex adapter. Tool ids are counted twice: line by
 line while the output streams, which enforces the budget, and once more over the
 whole output, which is what gets reported. The JSON parser is a parameter.
 */
module ToolBudget {
  import opened Wrappers
  import opened Texts
  import LocalCli

  /** The `item` of a parsed line; its `id` and `type` when they are strings. */
  datatype ItemField = Absent | Null | Item(id: Option<Text>, kind: Option<Text>)

  /** A parsed line. `itemEvent`: its type is `item.completed` or `item.updated`. */
  datatype Line = NullLine | Line(itemEvent: bool, item: ItemField)

  /** `JSON.parse`; `None` is a syntax error. */
  type Parser = Text -> Option<Line>

  predicate KnownNonTool(kind: Option<Text>) {
    || kind == Some(Lit("agent_message")) || kind == Some(Lit("reasoning"))
    || kind == Some(Lit("todo_list")) || kind == Some(Lit("error"))
  }

  function ToolIds(item: ItemField): (r: set<Text>) {
    if item.Item? && item.id.Some? && !KnownNonTool(item.kind) then {item.id.value} else {}
  }

  /** The tool ids the streaming observer finds in a line. */
  function StreamedIds(parse: Parser, line: Text): (r: set<Text>) {
    match parse(line)
    case Some(Line(_, item)) => ToolIds(item)
    case _ => {}
  }

  /** The tool ids the final parse finds in a line; `None` is a thrown error. */
  function FinalIds(parse: Parser, line: Text): (r: Option<set<Text>>) {
    var t := Trim(line);
    if t == [] then Some({})
    else
      match parse(t)
      case None => None
      case Some(NullLine) => None
      case Some(Line(itemEvent, item)) => Some(if itemEvent then ToolIds(item) else {})
  }

  function AllStreamed(parse: Parser, lines: seq<Text>): (r: set<Text>) {
    if lines == [] then {} else AllStreamed(parse, lines[..|lines| - 1]) + StreamedIds(parse, lines[|lines| - 1])
  }

  function AllFinal(parse: Parser, lines: seq<Text>): (r: Option<set<Text>>) {
    if lines == [] then Some({})
    else
      var ids :- AllFinal(parse, lines[..|lines| - 1]);
      var more :- FinalIds(parse, lines[|lines| - 1]);
      Some(ids + more)
  }

  lemma AllStreamedAppend(parse: Parser, lines: seq<Text>, line: Text)
    ensures AllStreamed(parse, lines + [line]) == AllStreamed(parse, lines) + StreamedIds(parse, line)
  {
    assert (lines + [line])[..|lines|] == lines;
  }

  /** The item is a tool with this id: every kind but the four that are none. */
  predicate ToolItem(item: ItemField, id: Text) {
    && item.Item? && item.id == Some(id)
    && (item.kind.Some? ==>
          item.kind.value != Lit("agent_message") && item.kind.value != Lit("reasoning")
          && item.kind.value != Lit("todo_list") && item.kind.value != Lit("error"))
  }

  predicate Streams(parse: Parser, line: Text, id: Text) {
    parse(line).Some? && parse(line).value.Line? && ToolItem(parse(line).value.item, id)
  }

  /** Streaming counts exactly the ids of the tools in the lines, whatever the event. */
  lemma {:induction false} StreamedExactly(parse: Parser, lines: seq<Text>, id: Text)
    ensures id in AllStreamed(parse, lines) <==> exists line | line in lines :: Streams(parse, line, id)
  {
    if lines != [] {
      var n := |lines| - 1;
      StreamedExactly(parse, lines[..n], id);
      assert lines == lines[..n] + [lines[n]];
      assert id in StreamedIds(parse, lines[n]) <==> Streams(parse, lines[n], id);
    }
  }

  /** The line is blank, or trimmed it parses to an object. */
  predicate Parses(parse: Parser, line: Text) {
    Trim(line) == [] || (parse(Trim(line)).Some? && parse(Trim(line)).value.Line?)
  }

  predicate Reports(parse: Parser, line: Text, id: Text) {
    && Trim(line) != [] && parse(Trim(line)).Some? && parse(Trim(line)).value.Line?
    && parse(Trim(line)).value.itemEvent && ToolItem(parse(Trim(line)).value.item, id)
  }

  /** The final parse accepts exactly outputs whose lines all parse, and finds the tools of their item events. */
  lemma {:induction false} ReportedExactly(parse: Parser, lines: seq<Text>, id: Text)
    ensures AllFinal(parse, lines).Some? <==> forall line | line in lines :: Parses(parse, line)
    ensures AllFinal(parse, lines).Some? ==>
              (id in AllFinal(parse, lines).value <==> exists line | line in lines :: Reports(parse, line, id))
  {
    if lines != [] {
      var n := |lines| - 1;
      ReportedExactly(parse, lines[..n], id);
      assert lines == lines[..n] + [lines[n]];
      FinalOfLine(parse, lines[n], id);
    }
  }

  lemma FinalOfLine(parse: Parser, line: Text, id: Text)
    ensures FinalIds(parse, line).Some? <==> Parses(parse, line)
    ensures FinalIds(parse, line).Some? ==> (id in FinalIds(parse, line).value <==> Reports(parse, line, id))
  {}

  /** The line parses to an object whose item is null. */
  predicate NullItem(parse: Parser, line: Text) {
    var parsed := parse(line);
    parsed.Some? && parsed.value.Line? && parsed.value.item.Null?
  }

  // ----- the two counters ------------------------------------------------

  class StreamCounter {
    const parse: Parser
    const maxToolCalls: nat
    var toolIds: set<Text>
    var streamToolCalls: nat
    var budgetExceeded: bool
    ghost var lines: seq<Text>

    ghost predicate Valid()
      reads this
    {
      && toolIds == AllStreamed(parse, lines)
      && streamToolCalls == |toolIds|
      && (budgetExceeded <==> streamToolCalls > maxToolCalls)
    }

    constructor (parser: Parser, limit: nat)
      ensures Valid() && lines == [] && parse == parser && maxToolCalls == limit
    {
      parse, maxToolCalls := parser, limit;
      toolIds, streamToolCalls, budgetExceeded, lines := {}, 0, false, [];
    }

    /** `onLine`; `threw` when the item is null and its id is read. */
    method OnLine(line: Text) returns (threw: bool)
      requires Valid()
      modifies this
      ensures Valid() && lines == old(lines) + [line]
      ensures threw <==> NullItem(parse, line)
    {
      AllStreamedAppend(parse, lines, line);
      lines := lines + [line];
      threw := false;
      var parsed := parse(line);
      if parsed.None? || parsed.value.NullLine? || parsed.value.item.Absent? { return; }
      var item := parsed.value.item;
      assert StreamedIds(parse, line) == ToolIds(item);
      if item.Null? { return true; }
      if item.id.None? || item.id.value in toolIds { return; }
      if !KnownNonTool(item.kind) {
        toolIds := toolIds + {item.id.value};
        streamToolCalls := streamToolCalls + 1;
        if streamToolCalls > maxToolCalls { budgetExceeded := true; }
      }
    }
  }

  lemma {:induction false} AllFinalPrefix(parse: Parser, lines: seq<Text>, i: nat)
    requires i <= |lines| && AllFinal(parse, lines[..i]).None?
    ensures AllFinal(parse, lines).None?
  {
    if i == |lines| {
      assert lines[..i] == lines;
    } else {
      assert lines[..|lines| - 1][..i] == lines[..i];
      AllFinalPrefix(parse, lines[..|lines| - 1], i);
    }
  }

  /** The tool ids of `parseCodexEvents`. */
  method ParseToolIds(parse: Parser, lines: seq<Text>) returns (r: Option<set<Text>>)
    ensures r == AllFinal(parse, lines)
  {
    var toolIds: set<Text> := {};
    for i := 0 to |lines|
      invariant AllFinal(parse, lines[..i]) == Some(toolIds)
    {
      assert lines[..i + 1][..i] == lines[..i];
      var line, more: set<Text> := Trim(lines[i]), {};
      if line != [] {
        var parsed := parse(line);
        if parsed.None? || parsed.value.NullLine? {
          AllFinalPrefix(parse, lines, i + 1);
          return None;
        }
        if parsed.value.itemEvent { more := ToolIds(parsed.value.item); }
      }
      toolIds := toolIds + more;
    }
    assert lines[..|lines|] == lines;
    return Some(toolIds);
  }

  // ----- when the two agree ----------------------------------------------

  /** White space that `trim` drops and the JSON grammar refuses. */
  predicate ForeignSpace(u: Unit) { JsSpace(u) && !JsonSpace(u) }

  predicate ForeignEnds(t: Text) { t != [] && (ForeignSpace(t[0]) || ForeignSpace(t[|t| - 1])) }

  predicate Insignificant(parse: Parser, t: Text) { parse(t) == parse(JsonTrim(t)) }
  predicate Refused(parse: Parser, t: Text) { ForeignEnds(t) ==> parse(t).None? }

  /** White space around a JSON text is insignificant; no value starts or ends with any other space. */
  ghost predicate JsonGrammar(parse: Parser) {
    (forall t :: Insignificant(parse, t)) && (forall t :: Refused(parse, t))
  }

  /** Trimming alike: nothing but JSON white space around the line. */
  predicate JsonSpaced(line: Text) { Trim(line) == JsonTrim(line) }

  lemma {:induction false} DropLeftEnds(t: Text, p: Unit -> bool)
    ensures DropLeft(t, p) != [] ==> !p(DropLeft(t, p)[0])
  {
    if t != [] && p(t[0]) { DropLeftEnds(t[1..], p); }
  }

  lemma {:induction false} DropRightEnds(t: Text, p: Unit -> bool)
    ensures DropRight(t, p) != [] ==> !p(DropRight(t, p)[|DropRight(t, p)| - 1])
    ensures DropRight(t, p) <= t
  {
    if t != [] && p(t[|t| - 1]) { DropRightEnds(t[..|t| - 1], p); }
  }

  /** Two ways of dropping from the left agree once the narrower one leaves no foreign space first. */
  lemma {:induction false} DropLeftTwice(t: Text)
    ensures var j := DropLeft(t, JsonSpace); j == [] || !JsSpace(j[0]) ==> DropLeft(t, JsSpace) == j
    ensures DropLeft(DropLeft(t, JsonSpace), JsSpace) == DropLeft(t, JsSpace)
  {
    if t != [] && JsonSpace(t[0]) { DropLeftTwice(t[1..]); }
  }

  lemma {:induction false} DropRightTwice(t: Text)
    ensures var j := DropRight(t, JsonSpace); j == [] || !JsSpace(j[|j| - 1]) ==> DropRight(t, JsSpace) == j
  {
    if t != [] && JsonSpace(t[|t| - 1]) { DropRightTwice(t[..|t| - 1]); }
  }

  /** A line is trimmed alike, or the JSON grammar sees a foreign space at one end. */
  lemma SpacedOrForeign(line: Text)
    ensures JsonSpaced(line) || ForeignEnds(JsonTrim(line))
  {
    var left := DropLeft(line, JsonSpace);
    var j := DropRight(left, JsonSpace);
    DropLeftEnds(line, JsonSpace);
    DropRightEnds(left, JsonSpace);
    DropLeftTwice(line);
    DropRightTwice(left);
    assert j != [] ==> j[0] == left[0];
    if j == [] {
      BlankLine(left);
    }
  }

  lemma {:induction false} BlankLine(t: Text)
    requires DropRight(t, JsonSpace) == [] && (t != [] ==> !JsonSpace(t[0]))
    ensures t == []
  {
    if t != [] {
      assert JsonSpace(t[|t| - 1]);
      if |t| > 1 { BlankLine(t[..|t| - 1]); }
    }
  }

  lemma JsonSpacedStream(parse: Parser, line: Text)
    requires JsonGrammar(parse)
    ensures JsonSpaced(line) ==> parse(line) == parse(Trim(line))
    ensures !JsonSpaced(line) ==> StreamedIds(parse, line) == {}
  {
    assert Insignificant(parse, line);
    SpacedOrForeign(line);
    assert Refused(parse, JsonTrim(line));
  }

  /** The line on which the observer throws is accepted by the final parse and counts nothing. */
  lemma NullItemAccepted(parse: Parser, line: Text)
    requires JsonGrammar(parse) && NullItem(parse, line)
    ensures FinalIds(parse, line) == Some({})
  {
    assert Insignificant(parse, line);
    SpacedOrForeign(line);
    assert Refused(parse, JsonTrim(line));
    JsonSpacedStream(parse, line);
  }

  /**
   For a line the final parse accepts: streaming sees every id the final parse
   counts exactly when the line has no foreign space around it or no tool id.
   */
  lemma LineCovered(parse: Parser, line: Text)
    requires JsonGrammar(parse) && FinalIds(parse, line).Some?
    ensures FinalIds(parse, line).value <= StreamedIds(parse, line)
            <==> JsonSpaced(line) || FinalIds(parse, line).value == {}
  {
    JsonSpacedStream(parse, line);
  }

  lemma {:induction false} LinesCovered(parse: Parser, lines: seq<Text>)
    requires JsonGrammar(parse) && AllFinal(parse, lines).Some?
    requires forall i | 0 <= i < |lines| :: JsonSpaced(lines[i])
    ensures AllFinal(parse, lines).value <= AllStreamed(parse, lines)
  {
    if lines != [] {
      var n := |lines| - 1;
      LinesCovered(parse, lines[..n]);
      LineCovered(parse, lines[n]);
    }
  }

  lemma {:induction false} SubsetCard<T>(a: set<T>, b: set<T>)
    requires a <= b
    ensures |a| <= |b|
  {
    if a != {} {
      var x :| x in a;
      SubsetCard(a - {x}, b - {x});
    }
  }

  /**
   When every line is newline-terminated and has only JSON white space around it
   and the run was not over budget, the reported tool calls are within the budget.
   */
  lemma ReportedWithinBudget(counter: StreamCounter, stdout: Text)
    requires counter.Valid() && JsonGrammar(counter.parse) && !counter.budgetExceeded
    requires Split(stdout, NL) == counter.lines + [[]]
    requires AllFinal(counter.parse, Split(stdout, NL)).Some?
    requires forall i | 0 <= i < |counter.lines| :: JsonSpaced(counter.lines[i])
    ensures AllFinal(counter.parse, Split(stdout, NL)).value <= counter.toolIds
    ensures |AllFinal(counter.parse, Split(stdout, NL)).value| <= counter.maxToolCalls
  {
    var lines := Split(stdout, NL);
    assert lines[..|lines| - 1] == counter.lines && lines[|lines| - 1] == [];
    assert FinalIds(counter.parse, []) == Some({});
    LinesCovered(counter.parse, counter.lines);
    SubsetCard(AllFinal(counter.parse, lines).value, counter.toolIds);
  }

  /** The same for a process run whose observed lines were counted and whose last line was complete. */
  lemma RunWithinBudget(run: LocalCli.CliRun, counter: StreamCounter)
    requires run.Valid() && !run.stdout.truncated && run.observer.buffer == []
    requires counter.Valid() && counter.lines == run.observer.lines && !counter.budgetExceeded
    requires JsonGrammar(counter.parse) && forall i | 0 <= i < |counter.lines| :: JsonSpaced(counter.lines[i])
    ensures var r := AllFinal(counter.parse, Split(run.decode(LocalCli.Flatten(run.stdout.arrived)), NL));
            r.Some? ==> r.value <= counter.toolIds && |r.value| <= counter.maxToolCalls
  {
    LocalCli.ObserverSeesAll(run);
    var stdout := run.decode(LocalCli.Flatten(run.stdout.arrived));
    if AllFinal(counter.parse, Split(stdout, NL)).Some? {
      ReportedWithinBudget(counter, stdout);
    }
  }

  /**
   A no-break space before any tool event hides it from the budget and not from
   the report: with a budget of no calls the run passes and reports one.
   */
  lemma ForeignSpaceEvadesBudget(parse: Parser, event: Text, id: Text)
    requires JsonGrammar(parse)
    requires event != [] && !JsSpace(event[0]) && !JsSpace(event[|event| - 1])
    requires FinalIds(parse, event) == Some({id})
    ensures AllStreamed(parse, [[0xA0] + event]) == {}
    ensures AllFinal(parse, [[0xA0] + event, []]) == Some({id})
  {
    var line := [0xA0] + event;
    assert line[1..] == event;
    assert DropLeft(event, JsSpace) == event;
    assert Trim(line) == Trim(event) == event;
    assert JsonTrim(line) == line;
    JsonSpacedStream(parse, line);
    assert FinalIds(parse, line) == FinalIds(parse, event);
    assert [line, []][..1] == [line] && [line][..0] == [];
    assert AllFinal(parse, [line]) == Some({} + {id});
    assert FinalIds(parse, []) == Some({});
    assert AllFinal(parse, [line, []]) == Some({} + {id} + {});
    assert {} + {id} + {} == {id};
  }

  // ----- the exact condition on an output --------------------------------

  /** The final parse accepts these lines and streaming has seen every id it counts. */
  ghost predicate Covers(parse: Parser, lines: seq<Text>) {
    AllFinal(parse, lines).Some? ==> AllFinal(parse, lines).value <= AllStreamed(parse, lines)
  }

  /** The line is spaced as JSON allows, is blank, or stands in the output once more with JSON spacing. */
  ghost predicate Visible(lines: seq<Text>, line: Text) {
    JsonSpaced(line) || Trim(line) == [] || SpacedCopy(lines, Trim(line))
  }

  ghost predicate SpacedCopy(lines: seq<Text>, t: Text) { exists m | m in lines :: JsonSpaced(m) && Trim(m) == t }

  lemma {:induction false} StreamedIn(parse: Parser, lines: seq<Text>, line: Text)
    requires line in lines
    ensures StreamedIds(parse, line) <= AllStreamed(parse, lines)
  {
    if line != lines[|lines| - 1] { StreamedIn(parse, lines[..|lines| - 1], line); }
  }

  lemma {:induction false} FinalIn(parse: Parser, lines: seq<Text>, line: Text)
    requires line in lines && AllFinal(parse, lines).Some?
    ensures FinalIds(parse, line).Some? && FinalIds(parse, line).value <= AllFinal(parse, lines).value
  {
    if line != lines[|lines| - 1] { FinalIn(parse, lines[..|lines| - 1], line); }
  }

  lemma VisibleCovered(parse: Parser, lines: seq<Text>, line: Text)
    requires JsonGrammar(parse) && Visible(lines, line) && line in lines && FinalIds(parse, line).Some?
    ensures FinalIds(parse, line).value <= AllStreamed(parse, lines)
  {
    LineCovered(parse, line);
    StreamedIn(parse, lines, line);
    if Trim(line) != [] && SpacedCopy(lines, Trim(line)) {
      var m :| m in lines && JsonSpaced(m) && Trim(m) == Trim(line);
      LineCovered(parse, m);
      StreamedIn(parse, lines, m);
    }
  }

  lemma {:induction false} AllVisibleCovered(parse: Parser, lines: seq<Text>, n: nat)
    requires JsonGrammar(parse) && n <= |lines| && AllFinal(parse, lines[..n]).Some?
    requires AllVisible(lines)
    ensures AllFinal(parse, lines[..n]).value <= AllStreamed(parse, lines)
  {
    if n > 0 {
      assert lines[..n][..n - 1] == lines[..n - 1];
      AllVisibleCovered(parse, lines, n - 1);
      VisibleCovered(parse, lines, lines[n - 1]);
    }
  }

  // ----- a parser that tells a hidden line -------------------------------

  lemma {:induction false} DropRightKeeps(t: Text, p: Unit -> bool)
    requires t != [] && !p(t[0])
    ensures DropRight(t, p) != [] && DropRight(t, p)[0] == t[0]
  {
    if p(t[|t| - 1]) { DropRightKeeps(t[..|t| - 1], p); }
  }

  lemma JsonTrimEnds(t: Text)
    ensures JsonTrim(t) != [] ==> !JsonSpace(JsonTrim(t)[0]) && !JsonSpace(JsonTrim(t)[|JsonTrim(t)| - 1])
  {
    var left := DropLeft(t, JsonSpace);
    DropLeftEnds(t, JsonSpace);
    DropRightEnds(left, JsonSpace);
    if left != [] { DropRightKeeps(left, JsonSpace); }
  }

  lemma TrimEnds(t: Text)
    ensures Trim(t) != [] ==> !JsSpace(Trim(t)[0]) && !JsSpace(Trim(t)[|Trim(t)| - 1])
  {
    var left := DropLeft(t, JsSpace);
    DropLeftEnds(t, JsSpace);
    DropRightEnds(left, JsSpace);
    if left != [] { DropRightKeeps(left, JsSpace); }
  }

  /** Nothing is dropped from a text that neither starts nor ends with JSON space. */
  lemma JsonTrimFixes(t: Text)
    requires t != [] ==> !JsonSpace(t[0]) && !JsonSpace(t[|t| - 1])
    ensures JsonTrim(t) == t
  {}

  lemma {:induction false} DropLeftLast(t: Text, p: Unit -> bool)
    requires t != [] && !p(t[|t| - 1])
    ensures DropLeft(t, p) != [] && DropLeft(t, p)[|DropLeft(t, p)| - 1] == t[|t| - 1]
  {
    if p(t[0]) { DropLeftLast(t[1..], p); }
  }

  lemma ForeignStays(t: Text)
    requires ForeignEnds(t)
    ensures ForeignEnds(JsonTrim(t))
  {
    var left := DropLeft(t, JsonSpace);
    if ForeignSpace(t[0]) {
      DropRightKeeps(left, JsonSpace);
    } else {
      DropLeftLast(t, JsonSpace);
    }
  }

  /** Reads one text as a tool event, refuses foreign ends and finds nothing in anything else. */
  function ProbeValue(text: Text, t: Text): (r: Option<Line>) {
    if ForeignEnds(t) then None
    else if t == text then Some(Line(true, Item(Some([]), None)))
    else Some(Line(false, Absent))
  }

  ghost predicate ProbeAt(parse: Parser, text: Text, t: Text) { parse(t) == ProbeValue(text, JsonTrim(t)) }

  ghost predicate IsProbe(parse: Parser, text: Text) { forall t :: ProbeAt(parse, text, t) }

  lemma ProbeExists(text: Text) returns (parse: Parser)
    ensures IsProbe(parse, text)
  {
    parse := (t: Text) => ProbeValue(text, JsonTrim(t));
  }

  lemma ProbeInsignificant(parse: Parser, text: Text, t: Text)
    requires IsProbe(parse, text)
    ensures Insignificant(parse, t)
  {
    assert ProbeAt(parse, text, t) && ProbeAt(parse, text, JsonTrim(t));
    JsonTrimEnds(t);
    JsonTrimFixes(JsonTrim(t));
  }

  lemma ProbeRefuses(parse: Parser, text: Text, t: Text)
    requires IsProbe(parse, text)
    ensures Refused(parse, t)
  {
    assert ProbeAt(parse, text, t);
    if ForeignEnds(t) { ForeignStays(t); }
  }

  lemma ProbeGrammar(parse: Parser, text: Text)
    requires IsProbe(parse, text)
    ensures JsonGrammar(parse)
  {
    forall t ensures Insignificant(parse, t) { ProbeInsignificant(parse, text, t); }
    forall t ensures Refused(parse, t) { ProbeRefuses(parse, text, t); }
  }

  lemma ProbeFinal(parse: Parser, text: Text, line: Text)
    requires IsProbe(parse, text)
    ensures FinalIds(parse, line).Some?
    ensures Trim(line) != [] && Trim(line) == text ==> FinalIds(parse, line) == Some({[]})
  {
    TrimEnds(line);
    JsonTrimFixes(Trim(line));
    assert ProbeAt(parse, text, Trim(line));
  }

  lemma {:induction false} ProbeAccepts(parse: Parser, text: Text, lines: seq<Text>)
    requires IsProbe(parse, text)
    ensures AllFinal(parse, lines).Some?
  {
    if lines != [] {
      ProbeAccepts(parse, text, lines[..|lines| - 1]);
      ProbeFinal(parse, text, lines[|lines| - 1]);
    }
  }

  lemma ProbeStream(parse: Parser, text: Text, line: Text)
    requires IsProbe(parse, text)
    ensures StreamedIds(parse, line) == {} || (JsonSpaced(line) && Trim(line) == text)
  {
    assert ProbeAt(parse, text, line);
    SpacedOrForeign(line);
  }

  lemma {:induction false} ProbeBlind(parse: Parser, text: Text, lines: seq<Text>)
    requires IsProbe(parse, text) && !SpacedCopy(lines, text)
    ensures AllStreamed(parse, lines) == {}
  {
    if lines != [] {
      var n := |lines| - 1;
      assert lines[n] in lines;
      ProbeStream(parse, text, lines[n]);
      forall m | m in lines[..n] ensures !(JsonSpaced(m) && Trim(m) == text) { assert m in lines; }
      ProbeBlind(parse, text, lines[..n]);
    }
  }

  /** Some parser counts an id in a hidden line that streaming does not see. */
  lemma HiddenUncovered(lines: seq<Text>, line: Text) returns (parse: Parser)
    requires line in lines && !Visible(lines, line)
    ensures JsonGrammar(parse) && !Covers(parse, lines)
  {
    var text := Trim(line);
    parse := ProbeExists(text);
    ProbeGrammar(parse, text);
    ProbeAccepts(parse, text, lines);
    ProbeFinal(parse, text, line);
    FinalIn(parse, lines, line);
    ProbeBlind(parse, text, lines);
    assert [] in AllFinal(parse, lines).value;
  }

  ghost predicate AllVisible(lines: seq<Text>) { forall line | line in lines :: Visible(lines, line) }

  ghost predicate AlwaysCovers(lines: seq<Text>) { forall parse | JsonGrammar(parse) :: Covers(parse, lines) }

  /**
   Whatever the JSON parser, streaming sees every tool id that the final parse of an
   output counts, if and only if each line is spaced as JSON allows, is blank, or has
   a copy in the output that is.
   */
  lemma CoverageExactly(lines: seq<Text>)
    ensures AlwaysCovers(lines) <==> AllVisible(lines)
  {
    if AllVisible(lines) {
      forall parse | JsonGrammar(parse) ensures Covers(parse, lines) {
        assert lines[..|lines|] == lines;
        if AllFinal(parse, lines).Some? { AllVisibleCovered(parse, lines, |lines|); }
      }
    } else {
      var line :| line in lines && !Visible(lines, line);
      var parse := HiddenUncovered(lines, line);
    }
  }
}
