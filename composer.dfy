/**
 * The prompt composer of `memory_manager.py` (both copies) and `build_prompt` of the CLI:
 * four fixed memory sections, then the user's request.
 */
module Composer {
  import opened Wrappers
  import opened Text
  import opened Json
  import opened Sessions
  import opened SessionStore
  import opened SessionStoreFacts
  import opened Retrieval

  const EmptyText: string := "(empty)"
  const RequestHeader: string := "\n\n### USER REQUEST\n"

  datatype PromptError =
    | LoadFailed(loadError: SessionStore.Error)
    | SearchFailed(searchError: SearchError)

  // ---------------------------------------------------------------- core memory

  /** `load_core_memory`: the stripped file, "" when it does not exist. */
  function CoreText(core: Option<string>): string {
    if core.None? then "" else Strip(core.value)
  }

  /**
   * The core text is empty exactly when the file is missing or all whitespace; otherwise it is
   * a piece of the file with no whitespace at either end.
   */
  lemma CoreTextFacts(core: Option<string>)
    ensures var r := CoreText(core);
      && (r == "" <==> core == None || Blank(core.value))
      && (r != "" ==> !IsSpace(r[0]) && !IsSpace(r[|r| - 1]) && exists k :: OccursAt(core.value, r, k))
  {
    if core.Some? {
      StripEmptyIffBlank(core.value);
      StripShape(core.value);
    }
  }

  // ---------------------------------------------------------------- conversation

  /** `f"[{role.upper()}] {content.strip()}"`, "UNKNOWN" for a missing role. */
  function ConversationLine(m: Message): string {
    "[" + Upper(m.role.GetOr("unknown")) + "] " + Strip(m.content)
  }

  function ConversationLines(ms: seq<Message>): (lines: seq<string>)
    ensures |lines| == |ms|
  {
    seq(|ms|, i requires 0 <= i < |ms| => ConversationLine(ms[i]))
  }

  /** What `format_conversation` returns. */
  function FormattedConversation(ms: seq<Message>): string {
    if ms == [] then EmptyText else Join("\n", ConversationLines(ms))
  }

  /** `format_conversation`, with its append loop. */
  method FormatConversation(conversation: seq<Message>) returns (r: string)
    ensures r == FormattedConversation(conversation)
  {
    if conversation == [] {
      return EmptyText;
    }
    ghost var all := ConversationLines(conversation);
    var lines: seq<string> := [];
    for i := 0 to |conversation|
      invariant lines == all[..i]
    {
      assert all[..i + 1] == all[..i] + [all[i]];
      lines := lines + [ConversationLine(conversation[i])];
    }
    assert lines == all;
    r := Join("\n", lines);
  }

  lemma ConversationLineLacksNewline(m: Message)
    requires Lacks(m.role.GetOr("unknown"), '\n') && Lacks(m.content, '\n')
    ensures Lacks(ConversationLine(m), '\n')
  {
    var role := Upper(m.role.GetOr("unknown"));
    var content := Strip(m.content);
    StripShape(m.content);
    var k :| OccursAt(m.content, content, k);
    var line := ConversationLine(m);
    assert line == ("[" + role + "] ") + content;
    forall j | 0 <= j < |line| ensures line[j] != '\n' {
      if j == 0 {
      } else if j < |role| + 1 {
        assert line[j] == role[j - 1];
      } else if j < |role| + 3 {
      } else {
        assert line[j] == content[j - |role| - 3] == m.content[k + j - |role| - 3];
      }
    }
  }

  /**
   * One "[ROLE] content" line per message, in chronological order: when no role or content
   * holds a newline, the formatted text splits back into exactly those lines; an empty
   * conversation reads "(empty)".
   */
  lemma FormattedConversationLines(ms: seq<Message>)
    requires forall m | m in ms :: Lacks(m.role.GetOr("unknown"), '\n') && Lacks(m.content, '\n')
    ensures ms == [] ==> FormattedConversation(ms) == EmptyText
    ensures ms != [] ==>
      var lines := SplitOn(FormattedConversation(ms), '\n');
      && |lines| == |ms|
      && forall i | 0 <= i < |ms| :: lines[i] == "[" + Upper(ms[i].role.GetOr("unknown")) + "] " + Strip(ms[i].content)
  {
    if ms != [] {
      var lines := ConversationLines(ms);
      forall p | p in lines ensures Lacks(p, '\n') {
        var i :| 0 <= i < |lines| && lines[i] == p;
        assert ms[i] in ms;
        ConversationLineLacksNewline(ms[i]);
      }
      SplitOnJoin(lines, '\n');
    }
  }

  /** The conversation section ends with the line of the latest message. */
  lemma LatestMessageLast(ms: seq<Message>)
    requires ms != []
    ensures EndsWith(FormattedConversation(ms), ConversationLine(ms[|ms| - 1]))
  {
    JoinEndsWithLast("\n", ConversationLines(ms));
  }

  // ---------------------------------------------------------------- the block

  function Section(name: string, body: string): string {
    "### " + name + "\n" + body
  }

  /** The body of a section whose empty text reads "(empty)" (`x or "(empty)"`). */
  function OrEmpty(s: Option<string>): string {
    if s == None || s == Some("") then EmptyText else s.value
  }

  /** `build_memory_block`'s join, given the core text, the session and the search text. */
  function MemoryBlock(core: string, summary: Option<string>, conversation: seq<Message>, longterm: string): string {
    Join("\n\n", [
      Section("CORE MEMORY", OrEmpty(Some(core))),
      Section("SESSION SUMMARY", OrEmpty(summary)),
      Section("RECENT CONVERSATION", FormattedConversation(conversation)),
      Section("LONG-TERM MEMORY", longterm)])
  }

  /**
   * The block opens with the core section ("(empty)" for an empty core), followed by the
   * summary section ("(empty)" for a missing or empty summary), then the conversation section,
   * and ends with the long-term section: four sections, in that order, separated by blank lines.
   */
  lemma MemoryBlockLayout(core: string, summary: Option<string>, conversation: seq<Message>, longterm: string)
    ensures var b := MemoryBlock(core, summary, conversation, longterm);
      var coreBody := if core == "" then EmptyText else core;
      var summaryBody := if summary == None || summary == Some("") then EmptyText else summary.value;
      var head := Section("CORE MEMORY", coreBody) + "\n\n" + Section("SESSION SUMMARY", summaryBody);
      var middle := "\n\n" + Section("RECENT CONVERSATION", FormattedConversation(conversation));
      var tail := "\n\n" + Section("LONG-TERM MEMORY", longterm);
      b == head + middle + tail
  {
    var s1 := Section("CORE MEMORY", OrEmpty(Some(core)));
    var s2 := Section("SESSION SUMMARY", OrEmpty(summary));
    var s3 := Section("RECENT CONVERSATION", FormattedConversation(conversation));
    var s4 := Section("LONG-TERM MEMORY", longterm);
    JoinFour(s1, s2, s3, s4);
  }

  lemma JoinFour(a: string, b: string, c: string, d: string)
    ensures Join("\n\n", [a, b, c, d]) == a + "\n\n" + b + "\n\n" + c + "\n\n" + d
  {
    assert [a, b, c, d][1..] == [b, c, d];
    assert [b, c, d][1..] == [c, d];
    assert [c, d][1..] == [d];
    assert Join("\n\n", [c, d]) == c + "\n\n" + d;
    assert Join("\n\n", [b, c, d]) == b + "\n\n" + (c + "\n\n" + d);
  }

  /** `build_prompt`: the block, then the request header, then the user input verbatim. */
  function Prompt(block: string, userInput: string): string {
    block + RequestHeader + userInput
  }

  /** The prompt begins with the memory block and ends with the request, which is not altered. */
  lemma PromptLayout(block: string, userInput: string)
    ensures StartsWith(Prompt(block, userInput), block)
    ensures EndsWith(Prompt(block, userInput), "### USER REQUEST\n" + userInput)
    ensures |Prompt(block, userInput)| == |block| + |RequestHeader| + |userInput|
    ensures Prompt(block, userInput)[|block|..|block| + 2] == "\n\n"
  {
    assert Prompt(block, userInput) == block + (RequestHeader + userInput);
    ConcatEnds(block, RequestHeader + userInput);
    assert RequestHeader == "\n\n" + "### USER REQUEST\n";
    assert RequestHeader + userInput == "\n\n" + ("### USER REQUEST\n" + userInput);
    ConcatEnds(block + "\n\n", "### USER REQUEST\n" + userInput);
  }

  // ---------------------------------------------------------------- against the files

  /**
   * `build_memory_block` against the files: the core file is read first, then the session is
   * loaded (which may write, and in the src copy seeds the core file), then the log is searched.
   */
  function BlockStep(fs: Files, core: Option<string>, log: Option<string>, userInput: string, now: Instant,
                     decode: string -> Option<JsonValue>, render: JsonValue -> string): (Result<string, PromptError>, Files)
  {
    var (loaded, fs') := LoadStep(fs, now);
    if loaded.Err? then (Err(LoadFailed(loaded.error)), fs')
    else match Search(log, userInput, DefaultLimit, decode, render)
      case Err(e) => (Err(SearchFailed(e)), fs')
      case Ok(matches) =>
        (Ok(MemoryBlock(CoreText(core), Lookup(loaded.value.summary), Conversation(loaded.value), SearchLongterm(matches))), fs')
  }

  /** `build_prompt` against the files. */
  function PromptStep(fs: Files, core: Option<string>, log: Option<string>, userInput: string, now: Instant,
                      decode: string -> Option<JsonValue>, render: JsonValue -> string): (Result<string, PromptError>, Files)
  {
    var (block, fs') := BlockStep(fs, core, log, userInput, now, decode, render);
    if block.Err? then (block, fs') else (Ok(Prompt(block.value, userInput)), fs')
  }

  /** `build_memory_block`; `log` is the text of the long-term log, None when it does not exist. */
  method BuildMemoryBlock(w: Workspace, log: Option<string>, userInput: string, now: Instant,
                          decode: string -> Option<JsonValue>, render: JsonValue -> string)
    returns (r: Result<string, PromptError>)
    modifies w
    ensures (r, w.sessionFiles) == BlockStep(old(w.sessionFiles), old(w.coreMemory), log, userInput, now, decode, render)
    ensures w.coreMemory == LaidOut(w.copy, old(w.coreMemory))
  {
    var core := CoreText(w.coreMemory);
    var session := w.LoadSession(now);
    if session.Err? {
      return Err(LoadFailed(session.error));
    }
    var matches := SearchLongtermJsonl(log, userInput, DefaultLimit, decode, render);
    if matches.Err? {
      return Err(SearchFailed(matches.error));
    }
    var longterm := SearchLongterm(matches.value);
    var conversation := FormatConversation(Conversation(session.value));
    var block := Join("\n\n", [
      Section("CORE MEMORY", OrEmpty(Some(core))),
      Section("SESSION SUMMARY", OrEmpty(Lookup(session.value.summary))),
      Section("RECENT CONVERSATION", conversation),
      Section("LONG-TERM MEMORY", longterm)]);
    return Ok(block);
  }

  /** `build_prompt`. */
  method BuildPrompt(w: Workspace, log: Option<string>, userInput: string, now: Instant,
                     decode: string -> Option<JsonValue>, render: JsonValue -> string)
    returns (r: Result<string, PromptError>)
    modifies w
    ensures (r, w.sessionFiles) == PromptStep(old(w.sessionFiles), old(w.coreMemory), log, userInput, now, decode, render)
    ensures w.coreMemory == LaidOut(w.copy, old(w.coreMemory))
  {
    var block := BuildMemoryBlock(w, log, userInput, now, decode, render);
    if block.Err? {
      return block;
    }
    return Ok(block.value + RequestHeader + userInput);
  }

  /** The block opens with the core section and a blank line. */
  lemma BlockOpensWithCore(core: string, summary: Option<string>, conversation: seq<Message>, longterm: string)
    ensures StartsWith(MemoryBlock(core, summary, conversation, longterm),
                       Section("CORE MEMORY", if core == "" then EmptyText else core) + "\n\n")
  {
    MemoryBlockLayout(core, summary, conversation, longterm);
    var coreBody := if core == "" then EmptyText else core;
    var summaryBody := if summary == None || summary == Some("") then EmptyText else summary.value;
    var opening := Section("CORE MEMORY", coreBody) + "\n\n";
    var head := opening + Section("SESSION SUMMARY", summaryBody);
    var middle := "\n\n" + Section("RECENT CONVERSATION", FormattedConversation(conversation));
    ConcatEnds(opening, Section("SESSION SUMMARY", summaryBody));
    StartsWithExtended(head, opening, middle);
    StartsWithExtended(head + middle, opening, "\n\n" + Section("LONG-TERM MEMORY", longterm));
  }

  /** The seeded core text starts with the title's "#": it is neither empty nor "(empty)". */
  lemma SeededCoreText()
    ensures CoreText(LaidOut(Src, None)) != "" && CoreText(LaidOut(Src, None))[0] == '#'
  {
    var title := "# Master Core Memory\n\n";
    assert title[0] == '#';
    assert DefaultCoreMemory[0] == title[0];
    assert LStrip(DefaultCoreMemory) == DefaultCoreMemory;
    assert !Blank(DefaultCoreMemory);
    StripEmptyIffBlank(DefaultCoreMemory);
  }

  /**
   * The core file is read before the session load lays the workspace out. On a workspace
   * without a core file the first block shows "(empty)" as the core. The block composed next,
   * from the files that first one left, shows the seeded default core memory in the src copy
   * and "(empty)" again in the engine copy. When the first block succeeds, so does the next.
   */
  lemma SeededCoreShowsLater(copy: Copy, fs: Files, log: Option<string>, userInput: string, now: Instant, later: Instant,
                             decode: string -> Option<JsonValue>, render: JsonValue -> string)
    ensures var (first, fs1) := BlockStep(fs, None, log, userInput, now, decode, render);
      var (next, _) := BlockStep(fs1, LaidOut(copy, None), log, userInput, later, decode, render);
      && (first.Ok? ==> next.Ok?)
      && (first.Ok? ==> StartsWith(first.value, Section("CORE MEMORY", EmptyText) + "\n\n"))
      && (next.Ok? && copy == Src ==>
            StartsWith(next.value, Section("CORE MEMORY", CoreText(Some(DefaultCoreMemory))) + "\n\n"))
      && (next.Ok? && copy == Engine ==> StartsWith(next.value, Section("CORE MEMORY", EmptyText) + "\n\n"))
      && CoreText(Some(DefaultCoreMemory)) != "" && CoreText(Some(DefaultCoreMemory))[0] == '#'
  {
    SeededCoreText();
    var (first, fs1) := BlockStep(fs, None, log, userInput, now, decode, render);
    BlockStepOpensWithCore(fs, None, log, userInput, now, decode, render);
    BlockStepOpensWithCore(fs1, LaidOut(copy, None), log, userInput, later, decode, render);
    if first.Ok? {
      LoadIdempotent(fs, now, later);
    }
  }

  /** A composed block opens with the section of the core text it was given. */
  lemma BlockStepOpensWithCore(fs: Files, core: Option<string>, log: Option<string>, userInput: string, now: Instant,
                               decode: string -> Option<JsonValue>, render: JsonValue -> string)
    ensures var (block, _) := BlockStep(fs, core, log, userInput, now, decode, render);
      block.Ok? ==> StartsWith(block.value, Section("CORE MEMORY", if CoreText(core) == "" then EmptyText else CoreText(core)) + "\n\n")
  {
    var (loaded, _) := LoadStep(fs, now);
    var found := Search(log, userInput, DefaultLimit, decode, render);
    if loaded.Ok? && found.Ok? {
      BlockOpensWithCore(CoreText(core), Lookup(loaded.value.summary), Conversation(loaded.value), SearchLongterm(found.value));
    }
  }
}
