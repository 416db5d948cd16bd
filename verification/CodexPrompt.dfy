/**
 The Codex prompt as the worker runtime prints it, and the items and segments it
 is made of.
 */
module CodexPrompt {
  import opened Texts
  import opened JsonText

  datatype Priority = P0 | P1 | P2 | P3

  datatype Item = Item(
    position: nat,
    itemType: Text,
    sourceRef: Text,
    resolvedContent: Text,
    contentHash: Text,
    authority: Text,
    priority: Priority,
    tokenEstimate: nat)

  datatype Segment = Segment(
    position: nat,
    itemType: Text,
    authority: Text,
    priority: Priority,
    sourceRef: Text,
    content: Text)

  datatype ReconstructionError =
    | InvalidPromptSection
    | InvalidPromptContent
    | MissingContextSection
    | DuplicateTracePosition
    | DuplicatePromptPosition
    | ExtraPromptSection
    | PromptMetadataMismatch
    | MissingPromptSection

  // ----- printer ---------------------------------------------------------

  const REQUEST_LINE := Lit("Canvas Agent execution request ")
  const CWD_LINE := Lit("You are working in an ") + Lit("isolated Git worktree at ")
  const SAFETY_LINE :=
    Lit("Safety policy: work only inside ") + Lit("the current directory; do not ") +
    Lit("commit, push, create or switch ") + Lit("branches, or leave this directory") +
    Lit("; never use sandbox/approval ") + Lit("bypass flags")
  const RESPOND_LINE :=
    Lit("Respond with exactly one JSON ") + Lit("object conforming to the provided ") +
    Lit("output schema as your final message")
  const CONTEXT_LINE := Lit("Frozen context (in position order):")
  const OPEN := Lit("--- position=")
  const ITEM_TYPE := Lit(" itemType=")
  const AUTHORITY := Lit(" authority=")
  const PRIORITY := Lit(" priority=")
  const SOURCE := Lit(" source=")
  const CLOSE := Lit(" ---")
  const FINAL_LINE := Lit("Final output requirements:")
  const REQUIREMENTS: seq<Text> := [
    Lit("- Output exactly one JSON object matching the provided output schema."),
    Lit("- summary: a short description of what you did."),
    Lit("- changes: list of files you changed (created/modified/deleted)."),
    Lit("- tool_calls_observed: the number of tool calls you performed."),
    Lit("- tests_run: the commands you ran as verification."),
    Lit("- success: true only if the change is complete and independently verifiable.")]

  function PriorityText(p: Priority): (t: Text) {
    [80, match p case P0 => 48 case P1 => 49 case P2 => 50 case P3 => 51]
  }

  /** The header line of one section: `--- ${labelFor(item)} ---`. */
  function Header(item: Item): (t: Text) {
    OPEN + (Dec(item.position) + (ITEM_TYPE + (item.itemType + (AUTHORITY + (item.authority +
    (PRIORITY + (PriorityText(item.priority) + (SOURCE + (item.sourceRef + CLOSE)))))))))
  }

  function Section(item: Item): (t: Text) { Header(item) + ([NL] + Quote(item.resolvedContent)) }

  function Sections(items: seq<Item>): (t: Text) {
    if items == [] then [] else [NL] + Section(items[0]) + Sections(items[1..])
  }

  /** Everything before the frozen-context line. */
  function Preamble(id: Text, cwd: Text): (t: Text) {
    REQUEST_LINE + id + [DOT, NL] + CWD_LINE + cwd + PreambleEnd()
  }

  function PreambleEnd(): (t: Text) { [DOT, NL] + SAFETY_LINE + [DOT, NL] + RESPOND_LINE + [DOT, NL, NL] }

  function Trailer(): (t: Text) { Join(REQUIREMENTS, [NL]) }

  /** The text the model sees. */
  function PromptText(id: Text, items: seq<Item>, cwd: Text): (t: Text) {
    Preamble(id, cwd) + CONTEXT_LINE + Sections(items) + ([NL, NL] + FINAL_LINE + [NL] + Trailer())
  }

  lemma {:induction false} JoinAppend(a: seq<Text>, b: seq<Text>, sep: Text)
    requires a != [] && b != []
    ensures Join(a + b, sep) == Join(a, sep) + sep + Join(b, sep)
  {
    if |a| == 1 {
      assert (a + b)[1..] == b;
    } else {
      JoinAppend(a[1..], b, sep);
      assert (a + b)[1..] == a[1..] + b;
      assert (a + b)[0] == a[0];
    }
  }

  lemma {:induction false} SectionsAppend(items: seq<Item>, item: Item)
    ensures Sections(items + [item]) == Sections(items) + ([NL] + Section(item))
  {
    if items != [] {
      SectionsAppend(items[1..], item);
      assert (items + [item])[1..] == items[1..] + [item];
    } else {
      assert (items + [item])[1..] == [];
    }
  }

  lemma JoinOpening(a: Text, b: Text, c: Text, d: Text, e: Text)
    ensures Join([a, b, c, d, [], e], [NL]) == a + [NL] + (b + [NL] + (c + [NL] + (d + [NL] + ([NL] + e))))
  {
    assert Join([[], e], [NL]) == [NL] + e;
    assert [d, [], e][1..] == [[], e] && Join([d, [], e], [NL]) == d + [NL] + ([NL] + e);
    assert [c, d, [], e][1..] == [d, [], e] && Join([c, d, [], e], [NL]) == c + [NL] + (d + [NL] + ([NL] + e));
    assert [b, c, d, [], e][1..] == [c, d, [], e];
    assert [a, b, c, d, [], e][1..] == [b, c, d, [], e];
  }

  lemma Regroup(r: Text, id: Text, w: Text, cwd: Text, s: Text, m: Text, e: Text)
    ensures (r + id + [DOT]) + [NL]
         + ((w + cwd + [DOT]) + [NL] + ((s + [DOT]) + [NL] + ((m + [DOT]) + [NL] + ([NL] + e))))
         == (r + id + [DOT, NL] + w + cwd + ([DOT, NL] + s + [DOT, NL] + m + [DOT, NL, NL])) + e
  {}

  /** The lines pushed before the sections. */
  function OpeningLines(id: Text, cwd: Text): (r: seq<Text>)
    ensures r != []
    ensures Join(r, [NL]) == Preamble(id, cwd) + CONTEXT_LINE
  {
    JoinOpening(REQUEST_LINE + id + [DOT], CWD_LINE + cwd + [DOT], SAFETY_LINE + [DOT], RESPOND_LINE + [DOT],
                CONTEXT_LINE);
    Regroup(REQUEST_LINE, id, CWD_LINE, cwd, SAFETY_LINE, RESPOND_LINE, CONTEXT_LINE);
    [REQUEST_LINE + id + [DOT], CWD_LINE + cwd + [DOT], SAFETY_LINE + [DOT], RESPOND_LINE + [DOT], [], CONTEXT_LINE]
  }

  lemma JoinClosing(f: Text, rest: seq<Text>)
    requires rest != []
    ensures Join([[], f] + rest, [NL]) == [NL] + f + [NL] + Join(rest, [NL])
  {
    JoinAppend([[], f], rest, [NL]);
    assert Join([[], f], [NL]) == [] + [NL] + f;
  }

  /** The lines pushed after the sections. */
  function ClosingLines(): (r: seq<Text>)
    ensures r != []
    ensures Join(r, [NL]) == [NL] + FINAL_LINE + [NL] + Trailer()
  {
    JoinClosing(FINAL_LINE, REQUIREMENTS);
    [[], FINAL_LINE] + REQUIREMENTS
  }

  lemma PushTexts(front: Text, done: Text, h: Text, c: Text)
    ensures front + done + [NL] + h + [NL] + c == front + (done + ([NL] + (h + ([NL] + c))))
  {}

  lemma PushSection(sections: seq<Text>, front: Text, items: seq<Item>, i: nat)
    requires sections != [] && i < |items| && Join(sections, [NL]) == front + Sections(items[..i])
    ensures Join(sections + [Header(items[i])] + [Quote(items[i].resolvedContent)], [NL]) ==
            front + Sections(items[..i + 1])
  {
    var h, c := Header(items[i]), Quote(items[i].resolvedContent);
    PushTwo(sections, h, c);
    SectionsUpTo(items, i);
    PushTexts(front, Sections(items[..i]), h, c);
  }

  lemma PushTwo(sections: seq<Text>, h: Text, c: Text)
    requires sections != []
    ensures Join(sections + [h] + [c], [NL]) == Join(sections, [NL]) + [NL] + h + [NL] + c
  {
    JoinAppend(sections, [h], [NL]);
    JoinAppend(sections + [h], [c], [NL]);
  }

  lemma SectionsUpTo(items: seq<Item>, i: nat)
    requires i < |items|
    ensures Sections(items[..i + 1]) ==
            Sections(items[..i]) + ([NL] + (Header(items[i]) + ([NL] + Quote(items[i].resolvedContent))))
  {
    SectionsAppend(items[..i], items[i]);
    assert items[..i + 1] == items[..i] + [items[i]];
  }

  lemma PushEnding(sections: seq<Text>, ending: seq<Text>, front: Text, f: Text, rest: Text)
    requires sections != [] && ending != []
    requires Join(sections, [NL]) == front && Join(ending, [NL]) == [NL] + f + [NL] + rest
    ensures Join(sections + ending, [NL]) == front + ([NL, NL] + f + [NL] + rest)
  {
    JoinAppend(sections, ending, [NL]);
    PushBlank(front, f, rest);
  }

  lemma PushBlank(front: Text, f: Text, rest: Text)
    ensures front + [NL] + ([NL] + f + [NL] + rest) == front + ([NL, NL] + f + [NL] + rest)
  {}

  /** `buildPrompt`: pushes the lines and joins them with newlines. */
  method BuildPrompt(id: Text, items: seq<Item>, cwd: Text) returns (prompt: Text)
    ensures prompt == PromptText(id, items, cwd)
  {
    var sections := OpeningLines(id, cwd);
    sections := PushSections(sections, items, Preamble(id, cwd) + CONTEXT_LINE);
    prompt := JoinLines(sections, ClosingLines(), Preamble(id, cwd) + CONTEXT_LINE + Sections(items), FINAL_LINE,
                        Trailer());
  }

  /** The loop over the items: two lines for each. */
  method PushSections(opening: seq<Text>, items: seq<Item>, ghost front: Text) returns (sections: seq<Text>)
    requires opening != [] && Join(opening, [NL]) == front
    ensures sections != [] && Join(sections, [NL]) == front + Sections(items)
  {
    sections := opening;
    var i := 0;
    while i < |items|
      invariant 0 <= i <= |items| && sections != []
      invariant Join(sections, [NL]) == front + Sections(items[..i])
    {
      PushSection(sections, front, items, i);
      sections := sections + [Header(items[i])] + [Quote(items[i].resolvedContent)];
      i := i + 1;
    }
    assert items[..i] == items;
  }

  method JoinLines(sections: seq<Text>, ending: seq<Text>, ghost front: Text, ghost f: Text, ghost rest: Text)
    returns (prompt: Text)
    requires sections != [] && ending != []
    requires Join(sections, [NL]) == front && Join(ending, [NL]) == [NL] + f + [NL] + rest
    ensures prompt == front + ([NL, NL] + f + [NL] + rest)
  {
    PushEnding(sections, ending, front, f, rest);
    prompt := Join(sections + ending, [NL]);
  }
}
