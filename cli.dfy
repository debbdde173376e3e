/**
 * The conversation turn of the CLI's `run` and `ask` commands: persist the user message,
 * compose the prompt, hand it to an external command (or print it on a dry run), persist the
 * reply; and the counts `status` reports.
 */
module Cli {
  import opened Wrappers
  import opened Text
  import opened Json
  import opened Sessions
  import opened SessionStore
  import opened SessionStoreFacts
  import opened Retrieval
  import opened Composer
  import opened Process

  /** The exit code of the command and the text it prints. */
  datatype Outcome = Outcome(exitCode: int, printed: string)

  /** The exceptions that escape a turn. */
  datatype CliError =
    | AddFailed(addError: SessionStore.Error)
    | PromptFailed(promptError: PromptError)

  const EmptyResponse: string := "(empty response)"
  const UserRole: string := "user"
  const AssistantRole: string := "assistant"

  /** `stdout or stderr or "(empty response)"`, on the stripped streams of `run_external`. */
  function Reply(stdout: string, stderr: string): string {
    if Strip(stdout) != "" then Strip(stdout)
    else if Strip(stderr) != "" then Strip(stderr)
    else EmptyResponse
  }

  /**
   * The reply is the stripped standard output when that is not blank, else the stripped error
   * output when that is not blank, else the placeholder; it is never empty.
   */
  lemma ReplyChoice(stdout: string, stderr: string)
    ensures var r := Reply(stdout, stderr);
      && r != ""
      && (!Blank(stdout) ==> r == Strip(stdout))
      && (Blank(stdout) && !Blank(stderr) ==> r == Strip(stderr))
      && (Blank(stdout) && Blank(stderr) ==> r == EmptyResponse)
  {
    StripEmptyIffBlank(stdout);
    StripEmptyIffBlank(stderr);
  }

  /** `args.cmd or os.environ.get("MEMORA_LLM_CMD", "cat")` of `ask`. */
  function AskCommand(cmdArg: Option<string>, llmCmdEnv: Option<string>): string {
    if cmdArg.Some? && cmdArg.value != "" then cmdArg.value else llmCmdEnv.GetOr("cat")
  }

  /** A non-empty `--cmd` wins, then the environment variable (even when set empty), then "cat". */
  lemma AskCommandPrecedence(cmdArg: Option<string>, llmCmdEnv: Option<string>)
    ensures var c := AskCommand(cmdArg, llmCmdEnv);
      && (cmdArg.Some? && cmdArg.value != "" ==> c == cmdArg.value)
      && ((cmdArg == None || cmdArg == Some("")) && llmCmdEnv.Some? ==> c == llmCmdEnv.value)
      && ((cmdArg == None || cmdArg == Some("")) && llmCmdEnv == None ==> c == "cat")
  {
  }

  // ---------------------------------------------------------------- one turn

  /**
   * `cmd_run` / `cmd_ask` after the command is chosen: the user message is saved, the prompt is
   * composed from the saved session, and then either the prompt is printed (dry run, exit 0)
   * or `respond` runs the command and its reply is saved and printed with its exit code.
   * `userAt`, `promptAt` and `replyAt` are the clock readings of the three session accesses.
   */
  function TurnStep(copy: Copy, fs: Files, core: Option<string>, log: Option<string>, userInput: string,
                    cmd: string, dryRun: bool, userAt: Instant, promptAt: Instant, replyAt: Instant,
                    decode: string -> Option<JsonValue>, render: JsonValue -> string,
                    respond: (string, string) -> ProcessResult): (Result<Outcome, CliError>, Files)
  {
    var (added, fs1) := AddMessageStep(fs, UserRole, userInput, userAt);
    if added.Err? then (Err(AddFailed(added.error)), fs1)
    else AfterRequest(copy, fs1, core, log, userInput, cmd, dryRun, promptAt, replyAt, decode, render, respond)
  }

  /** The rest of a turn once the user message is saved: compose, then print or run and save. */
  function AfterRequest(copy: Copy, fs: Files, core: Option<string>, log: Option<string>, userInput: string,
                        cmd: string, dryRun: bool, promptAt: Instant, replyAt: Instant,
                        decode: string -> Option<JsonValue>, render: JsonValue -> string,
                        respond: (string, string) -> ProcessResult): (Result<Outcome, CliError>, Files)
  {
    var (prompt, fs') := PromptStep(fs, LaidOut(copy, core), log, userInput, promptAt, decode, render);
    if prompt.Err? then (Err(PromptFailed(prompt.error)), fs')
    else if dryRun then (Ok(Outcome(0, prompt.value)), fs')
    else SaveReply(fs', respond(cmd, prompt.value), replyAt)
  }

  /** The end of a full turn: the reply chosen from the command's output is saved and printed. */
  function SaveReply(fs: Files, result: ProcessResult, replyAt: Instant): (Result<Outcome, CliError>, Files) {
    var reply := Reply(result.stdout, result.stderr);
    var (saved, fs') := AddMessageStep(fs, AssistantRole, reply, replyAt);
    if saved.Err? then (Err(AddFailed(saved.error)), fs')
    else (Ok(Outcome(result.code, reply)), fs')
  }

  /** One `run` / `ask` turn against the workspace. */
  method Turn(w: Workspace, log: Option<string>, userInput: string, cmd: string, dryRun: bool,
              userAt: Instant, promptAt: Instant, replyAt: Instant,
              decode: string -> Option<JsonValue>, render: JsonValue -> string,
              respond: (string, string) -> ProcessResult)
    returns (r: Result<Outcome, CliError>)
    modifies w
    ensures (r, w.sessionFiles) == TurnStep(w.copy, old(w.sessionFiles), old(w.coreMemory), log, userInput, cmd, dryRun,
                                           userAt, promptAt, replyAt, decode, render, respond)
    ensures w.coreMemory == LaidOut(w.copy, old(w.coreMemory))
  {
    UserRoleNormalized();
    AssistantRoleNormalized();
    var added := w.AddMessage(UserRole, userInput, userAt);
    if added.Err? {
      return Err(AddFailed(added.error));
    }
    var prompt := BuildPrompt(w, log, userInput, promptAt, decode, render);
    if prompt.Err? {
      return Err(PromptFailed(prompt.error));
    }
    if dryRun {
      return Ok(Outcome(0, prompt.value));
    }
    var result := respond(cmd, prompt.value);
    var reply := Reply(result.stdout, result.stderr);
    var saved := w.AddMessage(AssistantRole, reply, replyAt);
    if saved.Err? {
      return Err(AddFailed(saved.error));
    }
    return Ok(Outcome(result.code, reply));
  }

  lemma UserRoleNormalized()
    ensures NormalizeRole(UserRole) == UserRole && ValidRole(UserRole)
  {
    assert Strip(UserRole) == UserRole;
  }

  lemma AssistantRoleNormalized()
    ensures NormalizeRole(AssistantRole) == AssistantRole && ValidRole(AssistantRole)
  {
    assert Strip(AssistantRole) == AssistantRole;
  }

  lemma UpperUser()
    ensures Upper(UserRole) == "USER"
  {
    var u := Upper(UserRole);
    assert u[0] == 'U' && u[1] == 'S' && u[2] == 'E' && u[3] == 'R';
  }

  /** A saved user message is the last message of the session the active file then holds. */
  lemma RequestSaved(fs: Files, userInput: string, now: Instant)
    ensures var (added, fs1) := AddMessageStep(fs, UserRole, userInput, now);
      && (added.Err? ==>
            || (added.error == CorruptBackup && fs1 == fs)
            || (added.error == NullValue("conversation") && fs1 == LoadStep(fs, now).1))
      && (added.Ok? ==>
            var c := Conversation(added.value);
            && fs1[Active] == Doc(added.value)
            && c != [] && c[|c| - 1] == Message(Some(UserRole), userInput))
  {
    UserRoleNormalized();
    AddMessageOutcome(fs, UserRole, userInput, now);
  }

  /**
   * Composing a prompt over a readable active file writes nothing, fails exactly when the
   * search does, and shows that file's session.
   */
  lemma PromptOnReadable(fs: Files, s: Session, core: Option<string>, log: Option<string>, userInput: string, now: Instant,
                         decode: string -> Option<JsonValue>, render: JsonValue -> string)
    requires Active in fs && fs[Active] == Doc(s)
    ensures var (prompt, fs') := PromptStep(fs, core, log, userInput, now, decode, render);
      var found := Search(log, userInput, DefaultLimit, decode, render);
      && fs' == fs
      && (prompt.Ok? <==> found.Ok?)
      && (prompt.Ok? ==>
            prompt.value == Prompt(MemoryBlock(CoreText(core), Lookup(s.summary), Conversation(s), SearchLongterm(found.value)), userInput))
  {
    BlockOnReadable(fs, s, core, log, userInput, now, decode, render);
  }

  /** The memory block over a readable active file: no write, and the search decides failure. */
  lemma BlockOnReadable(fs: Files, s: Session, core: Option<string>, log: Option<string>, userInput: string, now: Instant,
                        decode: string -> Option<JsonValue>, render: JsonValue -> string)
    requires Active in fs && fs[Active] == Doc(s)
    ensures var (block, fs') := BlockStep(fs, core, log, userInput, now, decode, render);
      var found := Search(log, userInput, DefaultLimit, decode, render);
      && fs' == fs
      && (block.Ok? <==> found.Ok?)
      && (block.Ok? ==> block.value == MemoryBlock(CoreText(core), Lookup(s.summary), Conversation(s), SearchLongterm(found.value)))
  {
    LoadReadable(fs, s, now);
    match Search(log, userInput, DefaultLimit, decode, render) {
      case Err(e) =>
        assert BlockStep(fs, core, log, userInput, now, decode, render) == (Err(SearchFailed(e)), fs);
      case Ok(matches) =>
        assert BlockStep(fs, core, log, userInput, now, decode, render)
          == (Ok(MemoryBlock(CoreText(core), Lookup(s.summary), Conversation(s), SearchLongterm(matches))), fs);
    }
  }

  /** Loading a readable active file returns its session and writes nothing. */
  lemma LoadReadable(fs: Files, s: Session, now: Instant)
    requires Active in fs && fs[Active] == Doc(s)
    ensures LoadStep(fs, now) == (Ok(s), fs)
  {
  }

  /**
   * The prompt of a turn is composed after the user message is saved, and composing writes
   * nothing more: the prompt shows the saved session, so the request appears both as the last
   * "[USER]" line of the conversation section and, verbatim, under USER REQUEST at the end.
   * `core` is the core memory file when the prompt is composed (the turn passes the file as
   * the first save left it).
   */
  lemma TurnPromptShowsRequest(fs: Files, core: Option<string>, log: Option<string>, userInput: string,
                               userAt: Instant, promptAt: Instant,
                               decode: string -> Option<JsonValue>, render: JsonValue -> string)
    requires AddMessageStep(fs, UserRole, userInput, userAt).0.Ok?
    ensures var (added, fs1) := AddMessageStep(fs, UserRole, userInput, userAt);
      PromptShowsSession(fs1, added.value, core, log, userInput, promptAt, decode, render)
  {
    var (added, fs1) := AddMessageStep(fs, UserRole, userInput, userAt);
    RequestIsLast(fs, userInput, userAt);
    PromptShowsRequest(fs1, added.value, core, log, userInput, promptAt, decode, render);
  }

  /** After a successful save of the request, the active file holds a session ending with it. */
  lemma RequestIsLast(fs: Files, userInput: string, now: Instant)
    requires AddMessageStep(fs, UserRole, userInput, now).0.Ok?
    ensures var (added, fs1) := AddMessageStep(fs, UserRole, userInput, now);
      var c := Conversation(added.value);
      && Active in fs1 && fs1[Active] == Doc(added.value)
      && c != [] && c[|c| - 1] == Message(Some(UserRole), userInput)
  {
    UserRoleNormalized();
    AddMessageOutcome(fs, UserRole, userInput, now);
  }

  /**
   * Composing the prompt over the files `fs` writes nothing, fails exactly when the search
   * does, and otherwise lays out the session `s` with the request shown twice.
   */
  predicate PromptShowsSession(fs: Files, s: Session, core: Option<string>, log: Option<string>, userInput: string,
                               now: Instant, decode: string -> Option<JsonValue>, render: JsonValue -> string)
  {
    var (prompt, fs') := PromptStep(fs, core, log, userInput, now, decode, render);
    var found := Search(log, userInput, DefaultLimit, decode, render);
    && fs' == fs
    && (prompt.Ok? <==> found.Ok?)
    && (prompt.Ok? ==>
          && prompt.value == Prompt(MemoryBlock(CoreText(core), Lookup(s.summary), Conversation(s),
                                                SearchLongterm(found.value)), userInput)
          && ShowsRequestTwice(prompt.value, Conversation(s), userInput))
  }

  /** Composing over a readable active file whose conversation ends with the request shows it twice. */
  lemma PromptShowsRequest(fs: Files, s: Session, core: Option<string>, log: Option<string>, userInput: string,
                           now: Instant, decode: string -> Option<JsonValue>, render: JsonValue -> string)
    requires Active in fs && fs[Active] == Doc(s)
    requires Conversation(s) != [] && Conversation(s)[|Conversation(s)| - 1] == Message(Some(UserRole), userInput)
    ensures PromptShowsSession(fs, s, core, log, userInput, now, decode, render)
  {
    PromptOnReadable(fs, s, core, log, userInput, now, decode, render);
    var found := Search(log, userInput, DefaultLimit, decode, render);
    if found.Ok? {
      RequestShownTwice(CoreText(core), Lookup(s.summary), Conversation(s), SearchLongterm(found.value), userInput);
    }
  }

  /**
   * The request appears twice: as the last "[USER]" line of the conversation section, stripped,
   * and verbatim under USER REQUEST at the end of the prompt.
   */
  predicate ShowsRequestTwice(prompt: string, conversation: seq<Message>, userInput: string) {
    && EndsWith(prompt, "### USER REQUEST\n" + userInput)
    && EndsWith(FormattedConversation(conversation), "[USER] " + Strip(userInput))
  }

  /** A prompt over a conversation that ends with the request shows the request twice. */
  lemma RequestShownTwice(core: string, summary: Option<string>, conversation: seq<Message>, longterm: string, userInput: string)
    requires conversation != [] && conversation[|conversation| - 1] == Message(Some(UserRole), userInput)
    ensures ShowsRequestTwice(Prompt(MemoryBlock(core, summary, conversation, longterm), userInput), conversation, userInput)
  {
    var block := MemoryBlock(core, summary, conversation, longterm);
    PromptLayout(block, userInput);
    RequestIsLastLine(conversation, userInput);
  }

  /** A conversation ending with the request is formatted with the request's "[USER]" line last. */
  lemma RequestIsLastLine(conversation: seq<Message>, userInput: string)
    requires conversation != [] && conversation[|conversation| - 1] == Message(Some(UserRole), userInput)
    ensures EndsWith(FormattedConversation(conversation), "[USER] " + Strip(userInput))
  {
    LatestMessageLast(conversation);
    UserLine(userInput);
  }

  lemma UserLine(content: string)
    ensures ConversationLine(Message(Some(UserRole), content)) == "[USER] " + Strip(content)
  {
    UpperUser();
    var tag := "[" + Upper(UserRole) + "] ";
    assert tag == "[USER] ";
    assert ConversationLine(Message(Some(UserRole), content)) == tag + Strip(content);
  }

  /**
   * A dry run saves the user message and nothing else: no command runs, no assistant message
   * is added, the prompt is what is printed and the exit code is 0.
   */
  lemma DryRunSavesOnlyRequest(copy: Copy, fs: Files, core: Option<string>, log: Option<string>, userInput: string,
                               cmd: string, userAt: Instant, promptAt: Instant, replyAt: Instant,
                               decode: string -> Option<JsonValue>, render: JsonValue -> string,
                               respond: (string, string) -> ProcessResult)
    ensures var (r, fs') := TurnStep(copy, fs, core, log, userInput, cmd, true, userAt, promptAt, replyAt, decode, render, respond);
      var (added, fs1) := AddMessageStep(fs, UserRole, userInput, userAt);
      && fs' == fs1
      && (r.Ok? ==>
            && r.value.exitCode == 0
            && Ok(r.value.printed) == PromptStep(fs1, LaidOut(copy, core), log, userInput, promptAt, decode, render).0
            && fs'[Active] == Doc(added.value))
  {
    var (added, fs1) := AddMessageStep(fs, UserRole, userInput, userAt);
    RequestSaved(fs, userInput, userAt);
    if added.Ok? {
      PromptOnReadable(fs1, added.value, LaidOut(copy, core), log, userInput, promptAt, decode, render);
    }
  }

  /**
   * What a completed turn leaves behind: the command's exit code and the reply chosen from its
   * output, and an active file whose conversation ends with the request and then that reply.
   */
  predicate ExchangeRecorded(outcome: Outcome, fs: Files, userInput: string, result: ProcessResult) {
    && outcome == Outcome(result.code, Reply(result.stdout, result.stderr))
    && Active in fs && fs[Active].Doc?
    && var c := Conversation(fs[Active].session);
    && |c| >= 2
    && c[|c| - 2] == Message(Some(UserRole), userInput)
    && c[|c| - 1] == Message(Some(AssistantRole), outcome.printed)
  }

  /**
   * After the request is saved, a full turn fails exactly when the search does; otherwise its
   * exit code is the command's, the printed reply is the one chosen from the command's output,
   * and the stored conversation ends with the request followed by the assistant's reply.
   */
  lemma FullTurnAfterRequest(copy: Copy, fs: Files, s: Session, core: Option<string>, log: Option<string>, userInput: string,
                             cmd: string, promptAt: Instant, replyAt: Instant,
                             decode: string -> Option<JsonValue>, render: JsonValue -> string,
                             respond: (string, string) -> ProcessResult)
    requires Active in fs && fs[Active] == Doc(s)
    requires Conversation(s) != [] && Conversation(s)[|Conversation(s)| - 1] == Message(Some(UserRole), userInput)
    ensures var (r, fs') := AfterRequest(copy, fs, core, log, userInput, cmd, false, promptAt, replyAt, decode, render, respond);
      var prompt := PromptStep(fs, LaidOut(copy, core), log, userInput, promptAt, decode, render).0;
      && (r.Err? <==> Search(log, userInput, DefaultLimit, decode, render).Err?)
      && (r.Ok? ==>
            ExchangeRecorded(r.value, fs', userInput, respond(cmd, prompt.value)))
  {
    PromptOnReadable(fs, s, LaidOut(copy, core), log, userInput, promptAt, decode, render);
    var prompt := PromptStep(fs, LaidOut(copy, core), log, userInput, promptAt, decode, render).0;
    AfterPrompt(copy, fs, core, log, userInput, cmd, promptAt, replyAt, decode, render, respond);
    if prompt.Ok? {
      ReplyRecorded(fs, s, userInput, respond(cmd, prompt.value), replyAt);
    }
  }

  /** Saving the reply after the request records the exchange. */
  lemma ReplyRecorded(fs: Files, s: Session, userInput: string, result: ProcessResult, now: Instant)
    requires Active in fs && fs[Active] == Doc(s)
    requires Conversation(s) != [] && Conversation(s)[|Conversation(s)| - 1] == Message(Some(UserRole), userInput)
    ensures var (r, fs') := SaveReply(fs, result, now);
      r.Ok? && ExchangeRecorded(r.value, fs', userInput, result)
  {
    ReplyFollowsRequest(fs, s, Message(Some(UserRole), userInput), result, now);
  }

  /** When composing writes nothing, the rest of a full turn is the failed search or the saved reply. */
  lemma AfterPrompt(copy: Copy, fs: Files, core: Option<string>, log: Option<string>, userInput: string,
                    cmd: string, promptAt: Instant, replyAt: Instant,
                    decode: string -> Option<JsonValue>, render: JsonValue -> string,
                    respond: (string, string) -> ProcessResult)
    requires PromptStep(fs, LaidOut(copy, core), log, userInput, promptAt, decode, render).1 == fs
    ensures var (prompt, _) := PromptStep(fs, LaidOut(copy, core), log, userInput, promptAt, decode, render);
      var after := AfterRequest(copy, fs, core, log, userInput, cmd, false, promptAt, replyAt, decode, render, respond);
      && (prompt.Err? ==> after == (Err(PromptFailed(prompt.error)), fs))
      && (prompt.Ok? ==> after == SaveReply(fs, respond(cmd, prompt.value), replyAt))
  {
  }

  /**
   * A full turn fails only at the first save (a corrupt backup) or at the search (a log line
   * that is not an object). When it succeeds, its exit code is the command's, it prints the
   * reply chosen from the command's output, and the stored conversation ends with the user
   * message followed by that reply.
   */
  lemma TurnStoresExchange(copy: Copy, fs: Files, core: Option<string>, log: Option<string>, userInput: string,
                           cmd: string, userAt: Instant, promptAt: Instant, replyAt: Instant,
                           decode: string -> Option<JsonValue>, render: JsonValue -> string,
                           respond: (string, string) -> ProcessResult)
    ensures var (r, fs') := TurnStep(copy, fs, core, log, userInput, cmd, false, userAt, promptAt, replyAt, decode, render, respond);
      var (added, fs1) := AddMessageStep(fs, UserRole, userInput, userAt);
      && (r.Err? <==> added.Err? || Search(log, userInput, DefaultLimit, decode, render).Err?)
      && (r.Ok? ==>
            var prompt := PromptStep(fs1, LaidOut(copy, core), log, userInput, promptAt, decode, render).0;
            ExchangeRecorded(r.value, fs', userInput, respond(cmd, prompt.value)))
  {
    var (added, fs1) := AddMessageStep(fs, UserRole, userInput, userAt);
    RequestSaved(fs, userInput, userAt);
    if added.Ok? {
      FullTurnAfterRequest(copy, fs1, added.value, core, log, userInput, cmd, promptAt, replyAt, decode, render, respond);
      assert TurnStep(copy, fs, core, log, userInput, cmd, false, userAt, promptAt, replyAt, decode, render, respond)
          == AfterRequest(copy, fs1, core, log, userInput, cmd, false, promptAt, replyAt, decode, render, respond);
    }
  }

  /**
   * Saving the reply onto a session whose conversation ends with `request` succeeds and keeps
   * the two adjacent at the end of the stored conversation.
   */
  lemma ReplyFollowsRequest(fs: Files, s: Session, request: Message, result: ProcessResult, now: Instant)
    requires Active in fs && fs[Active] == Doc(s)
    requires Conversation(s) != [] && Conversation(s)[|Conversation(s)| - 1] == request
    ensures var (r, fs') := SaveReply(fs, result, now);
      var c := Conversation(fs'[Active].session);
      && r == Ok(Outcome(result.code, Reply(result.stdout, result.stderr)))
      && fs'[Active].Doc?
      && |c| >= 2 && c[|c| - 2] == request && c[|c| - 1] == Message(Some(AssistantRole), Reply(result.stdout, result.stderr))
  {
    var reply := Reply(result.stdout, result.stderr);
    SaveReplyOnReadable(fs, s, result, now);
    AppendFollowsLast(s, Message(Some(AssistantRole), reply), now);
  }

  /** On a readable active file with a conversation list, saving the reply is one append, rotation and save. */
  lemma SaveReplyOnReadable(fs: Files, s: Session, result: ProcessResult, now: Instant)
    requires Active in fs && fs[Active] == Doc(s) && !s.conversation.Null?
    ensures var reply := Reply(result.stdout, result.stderr);
      var kept := AppendAndPrune(s, Message(Some(AssistantRole), reply), now);
      var (r, fs') := SaveReply(fs, result, now);
      && r == Ok(Outcome(result.code, reply))
      && fs'[Active] == Doc(Stamped(kept, now))
      && Conversation(Stamped(kept, now)) == Conversation(kept)
  {
    AssistantRoleNormalized();
    assert LoadStep(fs, now) == (Ok(s), fs);
  }

  // ---------------------------------------------------------------- status

  /** The counts `cmd_status` reports besides the workspace path. */
  datatype Status = Status(sessionId: Option<string>, lastUpdated: Option<string>, conversationTurns: nat, summaryChars: nat)

  /**
   * The payload of `cmd_status`, built in key order: `len(conversation)` and `len(summary)` are
   * 0 for a missing key and raise a TypeError for a null one.
   */
  function StatusOf(s: Session): Result<Status, Error> {
    if s.conversation.Null? then Err(NullValue("conversation"))
    else if s.summary.Null? then Err(NullValue("summary"))
    else Ok(Status(Lookup(s.sessionId), s.lastUpdated, |Conversation(s)|, |Lookup(s.summary).GetOr("")|))
  }

  /** `cmd_status` against the files: it loads the session (which may write) and reports on it. */
  function StatusStep(fs: Files, now: Instant): (Result<Status, Error>, Files) {
    var (loaded, fs') := LoadStep(fs, now);
    if loaded.Err? then (Err(loaded.error), fs') else (StatusOf(loaded.value), fs')
  }

  /**
   * After a successful `add_message`, status reads without writing and reports between 1 and
   * 20 turns and the time of that call. It raises only when the loaded summary was null and
   * the append did not rotate: `setdefault` keeps a null summary, and only a rotation
   * replaces it.
   */
  lemma StatusAfterAdd(fs: Files, role: string, content: string, now: Instant, later: Instant)
    requires ValidRole(NormalizeRole(role))
    requires AddMessageStep(fs, role, content, now).0.Ok?
    ensures var loaded := LoadStep(fs, now).0.value;
      var fs1 := AddMessageStep(fs, role, content, now).1;
      var (st, fs2) := StatusStep(fs1, later);
      && fs2 == fs1
      && (st.Err? <==> loaded.summary.Null? && |Conversation(loaded)| < MaxConversationTurns)
      && (st.Err? ==> st.error == NullValue("summary"))
      && (st.Ok? ==>
            && 1 <= st.value.conversationTurns <= MaxConversationTurns
            && st.value.lastUpdated == Some(now.iso))
  {
    AddMessageOutcome(fs, role, content, now);
    var (loaded, fs0) := LoadStep(fs, now);
    var m := Message(Some(NormalizeRole(role)), content);
    var w := WithMessage(loaded.value, m);
    assert AddMessageStep(fs, role, content, now).0 == Ok(Stamped(AppendAndPrune(loaded.value, m, now), now));
    if Rotates(w) {
      PruneSplitsConversation(w, now);
    }
  }
}
