/**
 * The session document and the rotation policy of `session_manager.py`, as values:
 * the default session, message compression, summary merging and `summarize_and_prune`.
 * Both copies of the module (src/memora and engine) hold the same code for these.
 */
module Sessions {
  import opened Wrappers
  import opened Text
  import opened Json

  const MaxConversationTurns: int := 20
  const KeepRecentTurns: int := 10
  const MaxCharsPerItem: int := 220

  /**
   * One reading of the UTC clock, in the three renderings the source formats:
   * `isoformat()`, `strftime("%Y-%m-%d")` and `strftime("%Y%m%dT%H%M%SZ")`.
   */
  datatype Instant = Instant(iso: string, day: string, compact: string)

  /** A conversation entry; `role` is None when the key is absent, a missing `content` reads as "". */
  datatype Message = Message(role: Option<string>, content: string)

  /** A key of the session object: absent, present with JSON null (Python's None), or present with a value. */
  datatype Field<T> = Missing | Null | Value(value: T)

  /** `session.get(key)`: None for an absent key and for a null one. */
  function Lookup<T>(f: Field<T>): Option<T> {
    if f.Value? then Some(f.value) else None
  }

  /**
   * The session JSON object. The four keys the source reads are fields; every other key of
   * the object is kept in `extra`. `last_updated` is an Option: no reader tells an absent key
   * from a null one, and every save overwrites it.
   */
  datatype Session = Session(
    sessionId: Field<string>,
    lastUpdated: Option<string>,
    conversation: Field<seq<Message>>,
    summary: Field<string>,
    extra: map<string, JsonValue>)

  /**
   * `session.get("conversation", [])` where the list is only iterated or shown: a null
   * conversation reads as empty there (`format_conversation` treats None like []). The
   * places where None raises instead (`.append`, `len`) check `conversation.Null?` themselves.
   */
  function Conversation(s: Session): seq<Message> {
    if s.conversation.Value? then s.conversation.value else []
  }

  /** `session_id or <UTC date>-default`: an absent or empty id falls back to the date. */
  function DefaultSessionId(id: Option<string>, now: Instant): string {
    if id.Some? && id.value != "" then id.value else now.day + "-default"
  }

  /** `_default_session`. */
  function DefaultSession(id: Option<string>, now: Instant): Session {
    Session(Value(DefaultSessionId(id, now)), Some(now.iso), Value([]), Value(""), map[])
  }

  /** The default session is empty and carries the given id, or the dated default id. */
  lemma DefaultSessionFacts(id: Option<string>, now: Instant)
    ensures var d := DefaultSession(id, now);
      && d.conversation == Value([]) && d.summary == Value("") && d.lastUpdated == Some(now.iso)
      && d.sessionId == Value(if id == None || id == Some("") then now.day + "-default" else id.value)
  {
  }

  // ---------------------------------------------------------------- compression

  /** The content part of one compressed line: stripped, newlines flattened, cut at 220 characters. */
  function CompressContent(content: string): string {
    var flat := ReplaceChar(Strip(content), '\n', ' ');
    if |flat| > MaxCharsPerItem then flat[..MaxCharsPerItem] + "..." else flat
  }

  /** `f"- {role}: {content}"`, with "unknown" for a missing role. */
  function CompressLine(m: Message): string {
    "- " + m.role.GetOr("unknown") + ": " + CompressContent(m.content)
  }

  function CompressedLines(ms: seq<Message>): (lines: seq<string>)
    ensures |lines| == |ms|
  {
    if ms == [] then [] else CompressedLines(ms[..|ms| - 1]) + [CompressLine(ms[|ms| - 1])]
  }

  /** No compressed line holds a newline when no role does. */
  lemma {:induction false} CompressedLinesLackNewline(ms: seq<Message>)
    requires forall m | m in ms :: Lacks(m.role.GetOr("unknown"), '\n')
    ensures forall p | p in CompressedLines(ms) :: Lacks(p, '\n')
    decreases |ms|
  {
    if ms != [] {
      var n := |ms| - 1;
      assert forall m | m in ms[..n] :: m in ms;
      CompressedLinesLackNewline(ms[..n]);
      assert ms[n] in ms;
      CompressLineFacts(ms[n]);
    }
  }

  /** What `_compress_messages` returns: one line per message, joined by "\n". */
  function Compress(ms: seq<Message>): string {
    Join("\n", CompressedLines(ms))
  }

  /** One more message adds its line at the end. */
  lemma CompressedLinesSnoc(ms: seq<Message>, k: nat)
    requires k < |ms|
    ensures CompressedLines(ms[..k + 1]) == CompressedLines(ms[..k]) + [CompressLine(ms[k])]
  {
    var prefix := ms[..k + 1];
    assert prefix[..|prefix| - 1] == ms[..k];
    assert prefix[|prefix| - 1] == ms[k];
  }

  /** `_compress_messages`, with its append loop. */
  method CompressMessages(messages: seq<Message>) returns (r: string)
    ensures r == Compress(messages)
  {
    var lines: seq<string> := [];
    for i := 0 to |messages|
      invariant lines == CompressedLines(messages[..i])
    {
      CompressedLinesSnoc(messages, i);
      lines := lines + [CompressLine(messages[i])];
    }
    assert messages[..|messages|] == messages;
    r := Join("\n", lines);
  }

  /**
   * The content part keeps the stripped content character for character (newlines read as
   * spaces) up to 220 characters, holds no newline, and is 223 characters long exactly when
   * the stripped content was longer than 220 and "..." marks the cut.
   */
  lemma CompressContentFacts(content: string)
    ensures var r := CompressContent(content);
      var stripped := Strip(content);
      && Lacks(r, '\n')
      && |r| <= MaxCharsPerItem + 3
      && (forall i | 0 <= i < |r| && i < MaxCharsPerItem && i < |stripped| ::
            r[i] == (if stripped[i] == '\n' then ' ' else stripped[i]))
      && (|stripped| <= MaxCharsPerItem ==> |r| == |stripped|)
      && (|stripped| > MaxCharsPerItem <==> |r| == MaxCharsPerItem + 3)
      && (|stripped| > MaxCharsPerItem ==> EndsWith(r, "..."))
  {
    var flat := ReplaceChar(Strip(content), '\n', ' ');
    if |flat| > MaxCharsPerItem {
      var r := flat[..MaxCharsPerItem] + "...";
      assert r[|r| - 3..] == "...";
    }
  }

  /** Each compressed message renders as "- role: content" and carries no newline of its content. */
  lemma CompressLineFacts(m: Message)
    ensures var line := CompressLine(m);
      var role := m.role.GetOr("unknown");
      && StartsWith(line, "- " + role + ": ")
      && line[|role| + 4..] == CompressContent(m.content)
      && (Lacks(role, '\n') ==> Lacks(line, '\n'))
  {
    var role := m.role.GetOr("unknown");
    var line := CompressLine(m);
    var c := CompressContent(m.content);
    CompressContentFacts(m.content);
    assert line == ("- " + role + ": ") + c;
    if Lacks(role, '\n') {
      forall k | 0 <= k < |line| ensures line[k] != '\n' {
        if k < 2 {
        } else if k < |role| + 2 {
          assert line[k] == role[k - 2];
        } else if k < |role| + 4 {
        } else {
          assert line[k] == c[k - |role| - 4];
        }
      }
    }
  }

  /**
   * The compressed block holds exactly one line per removed message, in order: splitting it
   * on "\n" gives the lines back (when no role holds a newline).
   */
  lemma CompressOneLinePerMessage(ms: seq<Message>)
    requires ms != []
    requires forall m | m in ms :: Lacks(m.role.GetOr("unknown"), '\n')
    ensures SplitOn(Compress(ms), '\n') == CompressedLines(ms)
    ensures |SplitOn(Compress(ms), '\n')| == |ms|
  {
    CompressedLinesLackNewline(ms);
    SplitOnJoin(CompressedLines(ms), '\n');
  }

  // ---------------------------------------------------------------- summary

  function SummaryHeader(now: Instant): string {
    "[Auto summary @ " + now.iso + "]\n"
  }

  /** The new summary after a rotation: the stripped old summary, a blank line, the header, the block. */
  function MergedSummary(previous: Option<string>, compressed: string, now: Instant): string {
    var current := Strip(previous.GetOr(""));
    if current != "" then current + "\n\n" + SummaryHeader(now) + compressed
    else SummaryHeader(now) + compressed
  }

  /**
   * The merged summary ends with the timestamped block, and begins with the old summary
   * (stripped) followed by a blank line when that was not blank; otherwise it is the block alone.
   */
  lemma MergedSummaryFacts(previous: Option<string>, compressed: string, now: Instant)
    ensures var r := MergedSummary(previous, compressed, now);
      var current := Strip(previous.GetOr(""));
      var block := SummaryHeader(now) + compressed;
      && EndsWith(r, block)
      && (!Blank(previous.GetOr("")) ==> StartsWith(r, current + "\n\n") && |r| == |current| + 2 + |block|)
      && (Blank(previous.GetOr("")) ==> r == block)
  {
    var current := Strip(previous.GetOr(""));
    var block := SummaryHeader(now) + compressed;
    StripEmptyIffBlank(previous.GetOr(""));
    if current != "" {
      assert MergedSummary(previous, compressed, now) == (current + "\n\n") + block;
      ConcatEnds(current + "\n\n", block);
    } else {
      ConcatEnds([], block);
    }
  }

  lemma ConcatEnds(a: string, b: string)
    ensures StartsWith(a + b, a) && EndsWith(a + b, b)
  {
    assert (a + b)[..|a|] == a;
    assert (a + b)[|a|..] == b;
  }

  // ---------------------------------------------------------------- rotation

  predicate Rotates(s: Session) {
    |Conversation(s)| > MaxConversationTurns
  }

  /** `conversation[:-10]`: what a rotation removes. */
  function Overflow(s: Session): seq<Message> {
    PyTake(Conversation(s), -KeepRecentTurns)
  }

  /** `conversation[-10:]`: what a rotation keeps. */
  function Recent(s: Session): seq<Message> {
    PyDrop(Conversation(s), -KeepRecentTurns)
  }

  /** The session `summarize_and_prune` returns (and archives) for the clock reading `now`. */
  function Prune(s: Session, now: Instant): Session {
    if !Rotates(s) then s
    else s.(summary := Value(MergedSummary(Lookup(s.summary), Compress(Overflow(s)), now)),
            conversation := Value(Recent(s)))
  }

  /** `f"{session.get('session_id', 'session')}"`: "session" for an absent id, "None" for a null one. */
  function ArchiveStem(id: Field<string>): string {
    match id
    case Missing => "session"
    case Null => "None"
    case Value(v) => v
  }

  /** The archive file name: the id stem, "_", the compact UTC stamp, ".json". */
  function ArchiveName(s: Session, now: Instant): string {
    ArchiveStem(s.sessionId) + "_" + now.compact + ".json"
  }

  /** A conversation of at most 20 messages is left as it is. */
  lemma PruneBelowThreshold(s: Session, now: Instant)
    requires !Rotates(s)
    ensures Prune(s, now) == s
  {
  }

  /**
   * Past 20 messages the conversation becomes exactly its last 10; the removed prefix followed
   * by the kept suffix is the old conversation; the removed messages end the new summary; the
   * id, the timestamp and the other keys are unchanged.
   */
  lemma PruneSplitsConversation(s: Session, now: Instant)
    requires Rotates(s)
    ensures var p := Prune(s, now);
      var c := Conversation(s);
      && |Conversation(p)| == KeepRecentTurns
      && Conversation(p) == c[|c| - KeepRecentTurns..]
      && Overflow(s) + Conversation(p) == c
      && |Overflow(s)| == |c| - KeepRecentTurns
      && p.summary.Value? && EndsWith(p.summary.value, SummaryHeader(now) + Compress(Overflow(s)))
      && p.sessionId == s.sessionId && p.lastUpdated == s.lastUpdated && p.extra == s.extra
  {
    var c := Conversation(s);
    assert PyBound(|c|, -KeepRecentTurns) == |c| - KeepRecentTurns;
    assert Overflow(s) == c[..|c| - KeepRecentTurns];
    assert Recent(s) == c[|c| - KeepRecentTurns..];
    assert c[..|c| - KeepRecentTurns] + c[|c| - KeepRecentTurns..] == c;
    MergedSummaryFacts(Lookup(s.summary), Compress(Overflow(s)), now);
  }

  /** The length part of a rotation, on its own. */
  lemma PruneLength(s: Session, now: Instant)
    ensures |Conversation(Prune(s, now))| == if Rotates(s) then KeepRecentTurns else |Conversation(s)|
  {
    if Rotates(s) {
      var c := Conversation(s);
      assert PyBound(|c|, -KeepRecentTurns) == |c| - KeepRecentTurns;
    }
  }

  // ---------------------------------------------------------------- appending

  /** `role.strip().lower()`. */
  function NormalizeRole(role: string): string {
    Lower(Strip(role))
  }

  predicate ValidRole(role: string) {
    role == "user" || role == "assistant" || role == "system"
  }

  /**
   * `setdefault("conversation", [])`, `setdefault("summary", "")`, then the append, on a session
   * whose conversation is not null (`add_message` raises on a null one). `setdefault` leaves
   * a null summary null.
   */
  function WithMessage(s: Session, m: Message): Session {
    s.(conversation := Value(Conversation(s) + [m]),
       summary := if s.summary.Missing? then Value("") else s.summary)
  }

  /** The rotation changes the summary and the conversation only. */
  lemma PruneKeepsId(s: Session, now: Instant)
    ensures Prune(s, now).sessionId == s.sessionId && Prune(s, now).extra == s.extra
  {
  }

  /** The conversation part of one successful `add_message`: append, then rotate. */
  function AppendAndPrune(s: Session, m: Message, now: Instant): Session {
    Prune(WithMessage(s, m), now)
  }

  /**
   * Whatever the loaded conversation's length, after one append and the rotation check the
   * conversation has at most 20 messages and ends with the new message.
   */
  lemma AppendBounded(s: Session, m: Message, now: Instant)
    ensures var c := Conversation(AppendAndPrune(s, m, now));
      && 1 <= |c| <= MaxConversationTurns
      && c[|c| - 1] == m
      && (|Conversation(s)| >= MaxConversationTurns ==> |c| == KeepRecentTurns)
  {
    var w := WithMessage(s, m);
    if Rotates(w) {
      PruneSplitsConversation(w, now);
    }
  }

  /**
   * What an append and rotation keep is a suffix of the loaded conversation plus the new
   * message: all of it below 20 loaded messages, the last 10 from 20 on.
   */
  lemma AppendKeepsSuffix(s: Session, m: Message, now: Instant)
    ensures var c := Conversation(AppendAndPrune(s, m, now));
      var all := Conversation(s) + [m];
      && c == all[|all| - |c|..]
      && (|Conversation(s)| < MaxConversationTurns ==> c == all)
      && (|Conversation(s)| >= MaxConversationTurns ==> |c| == KeepRecentTurns)
  {
    var w := WithMessage(s, m);
    if Rotates(w) {
      PruneSplitsConversation(w, now);
    }
  }

  /**
   * An append never separates the new message from the one before it: when the conversation
   * was not empty, its last message is still there, directly before the new one.
   */
  lemma AppendFollowsLast(s: Session, m: Message, now: Instant)
    requires Conversation(s) != []
    ensures var c := Conversation(AppendAndPrune(s, m, now));
      |c| >= 2 && c[|c| - 2] == Conversation(s)[|Conversation(s)| - 1] && c[|c| - 1] == m
  {
    AppendBounded(s, m, now);
    AppendKeepsSuffix(s, m, now);
    var c1 := Conversation(s);
    var all := c1 + [m];
    var c := Conversation(AppendAndPrune(s, m, now));
    assert |c| >= 2 by {
      if |c1| >= MaxConversationTurns {
        assert |c| == KeepRecentTurns;
      }
    }
    SuffixEnds(all, c);
    assert all[|all| - 2] == c1[|c1| - 1];
  }

  /** A suffix of at least two elements ends with the same two elements. */
  lemma SuffixEnds<T>(all: seq<T>, c: seq<T>)
    requires 2 <= |c| <= |all| && c == all[|all| - |c|..]
    ensures c[|c| - 2] == all[|all| - 2] && c[|c| - 1] == all[|all| - 1]
  {
  }

  /** A run of `add_message` calls, one clock reading each, on the conversation part. */
  function AppendAll(s: Session, ms: seq<Message>, clock: seq<Instant>): Session
    requires !s.conversation.Null? && |clock| == |ms|
  {
    if ms == [] then s
    else AppendAndPrune(AppendAll(s, ms[..|ms| - 1], clock[..|ms| - 1]), ms[|ms| - 1], clock[|ms| - 1])
  }

  /** The conversation length after `n` appends starting from an empty conversation. */
  function LengthAfter(n: nat): nat {
    if n <= MaxConversationTurns then n else KeepRecentTurns + (n - MaxConversationTurns - 1) % (MaxConversationTurns - KeepRecentTurns + 1)
  }

  /**
   * Bounded growth: from an empty conversation, `n` appends leave `n` messages up to 20, and
   * from then on the length cycles through 10..20 (the 21st append rotates down to 10, the
   * 32nd again, and so on).
   */
  lemma {:induction false} LengthAfterAppends(s: Session, ms: seq<Message>, clock: seq<Instant>)
    requires Conversation(s) == [] && !s.conversation.Null?
    requires |clock| == |ms|
    ensures |Conversation(AppendAll(s, ms, clock))| == LengthAfter(|ms|)
    ensures |Conversation(AppendAll(s, ms, clock))| <= MaxConversationTurns
  {
    if ms != [] {
      var n := |ms|;
      LengthAfterAppends(s, ms[..n - 1], clock[..n - 1]);
      AppendAllLength(s, ms, clock);
      LengthAfterStep(n);
    }
  }

  /** One more append adds a message, or rotates down to 10 when that passes 20. */
  lemma AppendAllLength(s: Session, ms: seq<Message>, clock: seq<Instant>)
    requires !s.conversation.Null? && ms != [] && |clock| == |ms|
    ensures var k := |Conversation(AppendAll(s, ms[..|ms| - 1], clock[..|ms| - 1]))|;
      |Conversation(AppendAll(s, ms, clock))| == if k + 1 > MaxConversationTurns then KeepRecentTurns else k + 1
  {
    var n := |ms|;
    var w := WithMessage(AppendAll(s, ms[..n - 1], clock[..n - 1]), ms[n - 1]);
    PruneLength(w, clock[n - 1]);
  }

  /** The closed form follows the one-step rule: add one, and drop to 10 past 20. */
  lemma LengthAfterStep(n: nat)
    requires n >= 1
    ensures LengthAfter(n - 1) <= MaxConversationTurns
    ensures LengthAfter(n) == if LengthAfter(n - 1) + 1 > MaxConversationTurns then KeepRecentTurns else LengthAfter(n - 1) + 1
  {
    if n > MaxConversationTurns + 1 {
      var k := n - MaxConversationTurns - 2;
      assert LengthAfter(n - 1) == KeepRecentTurns + k % 11;
      assert LengthAfter(n) == KeepRecentTurns + (k + 1) % 11;
    }
  }

  /** Twenty-five appends to an empty session leave 14 messages: one rotation at the 21st. */
  lemma TwentyFiveAppends(s: Session, ms: seq<Message>, clock: seq<Instant>)
    requires Conversation(s) == [] && !s.conversation.Null?
    requires |ms| == 25 && |clock| == 25
    ensures |Conversation(AppendAll(s, ms, clock))| == 14
  {
    LengthAfterAppends(s, ms, clock);
    assert LengthAfter(25) == KeepRecentTurns + 4 % 11;
  }
}
