/**
 * The tmux integration of engine/tmux_manager.py: the session-name normaliser, the attach
 * command, and the decisions of `tmux_new_session` and `tmux_list_sessions`. The tmux program
 * itself is a parameter `tmux` from an argument list to what the process returned.
 */
module Tmux {
  import opened Wrappers
  import opened Text
  import opened Process

  const Prefix: string := "memora-"
  const MaxNameLength: int := 80
  const NewSessionFailed: string := "tmux new-session failed"

  /** The characters of `[a-zA-Z0-9_-]`. */
  predicate Allowed(c: char) {
    ('a' <= c <= 'z') || ('A' <= c <= 'Z') || ('0' <= c <= '9') || c == '_' || c == '-'
  }

  predicate AllAllowed(s: string) {
    forall i | 0 <= i < |s| :: Allowed(s[i])
  }

  // ---------------------------------------------------------------- session_to_tmux_name

  /** Length of the run of characters outside the allowed set that starts `s`. */
  function RunLength(s: string): (n: nat)
    ensures n <= |s|
    ensures forall k | 0 <= k < n :: !Allowed(s[k])
    ensures n < |s| ==> Allowed(s[n])
  {
    if s == [] || Allowed(s[0]) then 0 else 1 + RunLength(s[1..])
  }

  /** `re.sub(r"[^a-zA-Z0-9_-]+", "-", s)`: each maximal run of other characters becomes one "-". */
  function Normalize(s: string): (r: string)
    ensures AllAllowed(r)
    ensures |r| <= |s|
    ensures s != [] ==> r != []
    decreases |s|
  {
    if s == [] then ""
    else if Allowed(s[0]) then [s[0]] + Normalize(s[1..])
    else "-" + Normalize(s[RunLength(s)..])
  }

  predicate NoneAllowed(s: string) {
    forall i | 0 <= i < |s| :: !Allowed(s[i])
  }

  /** A run of other characters followed by the end or an allowed character is exactly the run. */
  lemma {:induction false} RunLengthOfRun(w: string, v: string)
    requires NoneAllowed(w)
    requires v == [] || Allowed(v[0])
    ensures RunLength(w + v) == |w|
  {
    if w == [] {
      assert w + v == v;
    } else {
      assert !Allowed(w[0]);
      assert (w + v)[0] == w[0] && (w + v)[1..] == w[1..] + v;
      RunLengthOfRun(w[1..], v);
    }
  }

  /**
   * The substitution, one run at a time: allowed characters before a maximal run of other
   * characters are kept in order, the whole run becomes a single "-", and the rest is
   * normalised on its own.
   */
  lemma {:induction false} NormalizeCollapse(u: string, w: string, v: string)
    requires AllAllowed(u)
    requires w != [] && NoneAllowed(w)
    requires v == [] || Allowed(v[0])
    ensures Normalize(u + w + v) == u + "-" + Normalize(v)
  {
    if u == [] {
      assert u + w + v == w + v;
      NormalizeRun(w, v);
    } else {
      var tail := u[1..];
      assert AllAllowed(tail) by {
        forall i | 0 <= i < |tail| ensures Allowed(tail[i]) {
          assert tail[i] == u[i + 1];
        }
      }
      assert u == [u[0]] + tail;
      ConsConcat(u[0], tail, w, v);
      assert u + w + v == [u[0]] + (tail + w + v);
      NormalizeKeepsAllowed(u[0], tail + w + v);
      NormalizeCollapse(tail, w, v);
      ConsConcat(u[0], tail, "-", Normalize(v));
      assert u + "-" + Normalize(v) == [u[0]] + (tail + "-" + Normalize(v));
    }
  }

  /** Regrouping a character in front of three joined strings. */
  lemma ConsConcat(c: char, a: string, b: string, d: string)
    ensures [c] + (a + b + d) == ([c] + a) + b + d
  {
  }

  /** An allowed character is kept, and the rest is normalised after it. */
  lemma NormalizeKeepsAllowed(c: char, rest: string)
    requires Allowed(c)
    ensures Normalize([c] + rest) == [c] + Normalize(rest)
  {
    assert ([c] + rest)[0] == c && ([c] + rest)[1..] == rest;
  }

  /** A maximal run at the start becomes one "-". */
  lemma NormalizeRun(w: string, v: string)
    requires w != [] && NoneAllowed(w)
    requires v == [] || Allowed(v[0])
    ensures Normalize(w + v) == "-" + Normalize(v)
  {
    var s := w + v;
    RunLengthOfRun(w, v);
    assert !Allowed(s[0]);
    assert s[|w|..] == v;
  }

  /** `session_to_tmux_name`. */
  function TmuxName(sessionId: string): string {
    PyTake(Prefix + Normalize(Strip(sessionId)), MaxNameLength)
  }

  /**
   * A tmux name starts with "memora-", has at most 80 characters, all of them in
   * `[a-zA-Z0-9_-]`, and what follows the prefix is the start of the normalised, stripped id.
   */
  lemma TmuxNameShape(sessionId: string)
    ensures var name := TmuxName(sessionId);
      && StartsWith(name, Prefix)
      && |name| <= MaxNameLength
      && AllAllowed(name)
      && StartsWith(Normalize(Strip(sessionId)), name[|Prefix|..])
  {
    var n := Normalize(Strip(sessionId));
    var full := Prefix + n;
    var b := PyBound(|full|, MaxNameLength);
    assert |Prefix| <= b;
    assert TmuxName(sessionId) == full[..b];
    assert AllAllowed(Prefix) by {
      assert Prefix == ['m', 'e', 'm', 'o', 'r', 'a', '-'];
    }
    AllowedPrefixOfConcat(Prefix, n, b);
  }

  /** A prefix, at least as long as `p`, of two allowed strings joined keeps `p` and is allowed. */
  lemma AllowedPrefixOfConcat(p: string, q: string, b: nat)
    requires AllAllowed(p) && AllAllowed(q)
    requires |p| <= b <= |p| + |q|
    ensures var name := (p + q)[..b];
      StartsWith(name, p) && AllAllowed(name) && StartsWith(q, name[|p|..])
  {
    var name := (p + q)[..b];
    assert name[..|p|] == p;
    assert name[|p|..] == q[..b - |p|];
    forall i | 0 <= i < |name| ensures Allowed(name[i]) {
      if i >= |p| {
        assert name[i] == q[i - |p|];
      }
    }
  }

  /** A string of allowed characters has no whitespace, so stripping leaves it as it is. */
  lemma StripAllowed(s: string)
    requires AllAllowed(s)
    ensures Strip(s) == s
  {
    assert LStrip(s) == s by {
      if s != [] {
        assert Allowed(s[0]);
      }
    }
    if s != [] {
      assert Allowed(s[|s| - 1]);
    }
  }

  /** Normalising a string of allowed characters changes nothing; so normalising is idempotent. */
  lemma {:induction false} NormalizeAllowed(s: string)
    requires AllAllowed(s)
    ensures Normalize(s) == s
  {
    if s != [] {
      assert Allowed(s[0]);
      NormalizeAllowed(s[1..]);
    }
  }

  lemma NormalizeIdempotent(s: string)
    ensures Normalize(Normalize(s)) == Normalize(s)
  {
    NormalizeAllowed(Normalize(s));
  }

  /** An id already made of allowed characters, of at most 73 of them, keeps its name: "memora-" + id. */
  lemma TmuxNameKeepsValidId(sessionId: string)
    requires AllAllowed(sessionId)
    requires |sessionId| <= MaxNameLength - |Prefix|
    ensures TmuxName(sessionId) == Prefix + sessionId
  {
    StripAllowed(sessionId);
    NormalizeAllowed(sessionId);
  }

  // ---------------------------------------------------------------- commands

  const TmuxWord: string := "tmux"
  const AttachWord: string := "attach-session"
  const TargetFlag: string := "-t"

  /** `tmux_attach_command`: "tmux attach-session -t " + name. */
  function AttachCommand(name: string): string {
    TmuxWord + " " + AttachWord + " " + TargetFlag + " " + name
  }

  /** Allowed characters are not whitespace. */
  lemma AllowedNoSpace(w: string)
    requires AllAllowed(w)
    ensures forall k | 0 <= k < |w| :: !IsSpace(w[k])
  {
    forall k | 0 <= k < |w| ensures !IsSpace(w[k]) {
      assert Allowed(w[k]);
    }
  }

  lemma CommandWords()
    ensures Word(TmuxWord) && Word(AttachWord) && Word(TargetFlag)
  {
    assert AllAllowed(TmuxWord) && AllAllowed(AttachWord) && AllAllowed(TargetFlag);
    AllowedNoSpace(TmuxWord);
    AllowedNoSpace(AttachWord);
    AllowedNoSpace(TargetFlag);
  }

  lemma AttachCommandNested(name: string)
    ensures AttachCommand(name) == TmuxWord + " " + (AttachWord + " " + (TargetFlag + " " + name))
  {
  }

  /** The attach command, split into words as a shell would, names the session as its last word. */
  lemma AttachCommandWords(name: string)
    requires name != [] && AllAllowed(name)
    ensures Split(AttachCommand(name)) == [TmuxWord, AttachWord, TargetFlag, name]
  {
    AllowedNoSpace(name);
    CommandWords();
    SplitFourWords(TmuxWord, AttachWord, TargetFlag, name);
    AttachCommandNested(name);
  }

  /** `tmux_has_session`. */
  function HasSessionArgs(name: string): seq<string> {
    ["has-session", "-t", name]
  }

  /** The arguments of `tmux new-session`; a non-empty command is appended. */
  function NewSessionArgs(name: string, command: Option<string>): seq<string> {
    ["new-session", "-d", "-s", name] + (if command.Some? && command.value != "" then [command.value] else [])
  }

  /** What `tmux_new_session` returns, with the tmux invocations it made, in order. */
  datatype NewSessionResult = NewSessionResult(ok: bool, message: string, calls: seq<seq<string>>)

  /** The error text of a failed `new-session`, as written: the first non-empty output, then stripped. */
  function FailureText(proc: ProcessResult): string {
    Strip(if proc.stderr != "" then proc.stderr else if proc.stdout != "" then proc.stdout else NewSessionFailed)
  }

  /** `tmux_new_session` as written. */
  function NewSession(name: string, command: Option<string>, tmux: seq<string> -> ProcessResult): NewSessionResult {
    if tmux(HasSessionArgs(name)).code == 0 then
      NewSessionResult(true, "already_exists:" + name, [HasSessionArgs(name)])
    else
      var proc := tmux(NewSessionArgs(name, command));
      var calls := [HasSessionArgs(name), NewSessionArgs(name, command)];
      if proc.code != 0 then NewSessionResult(false, FailureText(proc), calls)
      else NewSessionResult(true, "created:" + name, calls)
  }

  /**
   * An existing session is reported without a `new-session` call. Otherwise exactly one
   * `new-session` is issued, carrying the command when it is non-empty, and the result is
   * "created:" + name on exit code 0 and a failure otherwise.
   */
  lemma NewSessionOutcome(name: string, command: Option<string>, tmux: seq<string> -> ProcessResult)
    ensures var r := NewSession(name, command, tmux);
      && (tmux(["has-session", "-t", name]).code == 0 ==>
            r.ok && r.message == "already_exists:" + name && r.calls == [["has-session", "-t", name]])
      && (tmux(["has-session", "-t", name]).code != 0 ==>
            && |r.calls| == 2 && r.calls[1][..4] == ["new-session", "-d", "-s", name]
            && (|r.calls[1]| == 5 <==> command.Some? && command.value != "")
            && (|r.calls[1]| == 5 ==> r.calls[1][4] == command.value)
            && (r.ok <==> tmux(r.calls[1]).code == 0)
            && (r.ok ==> r.message == "created:" + name)
            && (!r.ok ==> r.message == FailureText(tmux(r.calls[1]))))
  {
  }

  /** As written, a failure with whitespace-only error output reports an empty message. */
  lemma FailureTextCanBeEmpty()
    ensures FailureText(ProcessResult(1, "", "\n")) == ""
  {
    assert IsSpace("\n"[0]);
    assert LStrip("\n") == "";
  }

  /** The first output that is non-blank once stripped, then the fixed text: never empty. */
  function FailureTextCorrected(proc: ProcessResult): (text: string)
    ensures text != ""
    ensures text == Strip(text)
  {
    StripEmptyIffBlank(proc.stderr);
    StripEmptyIffBlank(proc.stdout);
    StripIdempotent(proc.stderr);
    StripIdempotent(proc.stdout);
    if !Blank(proc.stderr) then Strip(proc.stderr)
    else if !Blank(proc.stdout) then Strip(proc.stdout)
    else NewSessionFailed
  }

  /** `tmux_new_session` with the corrected error text. */
  function NewSessionCorrected(name: string, command: Option<string>, tmux: seq<string> -> ProcessResult): NewSessionResult {
    var r := NewSession(name, command, tmux);
    if r.ok then r else r.(message := FailureTextCorrected(tmux(NewSessionArgs(name, command))))
  }

  /**
   * The corrected version keeps every success of the source and every failure message that was
   * non-blank, and never reports a failure with an empty message.
   */
  lemma NewSessionCorrectedFacts(name: string, command: Option<string>, tmux: seq<string> -> ProcessResult)
    ensures var r := NewSessionCorrected(name, command, tmux);
      var w := NewSession(name, command, tmux);
      && r.ok == w.ok && r.calls == w.calls
      && (r.ok ==> r.message == w.message)
      && (!r.ok ==> r.message != "")
      && (!r.ok && w.message != "" ==> r.message == w.message)
  {
    var proc := tmux(NewSessionArgs(name, command));
    StripEmptyIffBlank(proc.stderr);
    StripEmptyIffBlank(proc.stdout);
    FallbackUnpadded();
  }

  /** The fixed failure text has nothing to strip. */
  lemma FallbackUnpadded()
    ensures Strip(NewSessionFailed) == NewSessionFailed
  {
    assert !IsSpace(NewSessionFailed[0]) && !IsSpace(NewSessionFailed[|NewSessionFailed| - 1]);
    StripUnpadded(NewSessionFailed);
  }

  // ---------------------------------------------------------------- tmux_list_sessions

  /** What one line gives: its stripped text when that is non-empty. */
  function LineName(line: string): (r: seq<string>)
    ensures |r| <= 1
    ensures forall n | n in r :: n != "" && Strip(n) == n
  {
    StripIdempotent(line);
    if Strip(line) != "" then [Strip(line)] else []
  }

  /** `[line.strip() for line in lines if line.strip()]`. */
  function NonBlankStripped(lines: seq<string>): (r: seq<string>)
    ensures |r| <= |lines|
    ensures forall n | n in r :: n != "" && Strip(n) == n
  {
    if lines == [] then [] else LineName(lines[0]) + NonBlankStripped(lines[1..])
  }

  /** A single line contributes its stripped text when that is non-empty, and nothing otherwise. */
  lemma NonBlankStrippedLine(line: string)
    ensures NonBlankStripped([line]) == if Strip(line) != "" then [Strip(line)] else []
  {
    assert [line][1..] == [];
  }

  /** The filter works line by line: the names of joined line lists are the joined names, in order. */
  lemma {:induction false} NonBlankStrippedConcat(a: seq<string>, b: seq<string>)
    ensures NonBlankStripped(a + b) == NonBlankStripped(a) + NonBlankStripped(b)
  {
    if a == [] {
      assert a + b == b;
    } else {
      var s := a + b;
      assert s[0] == a[0] && s[1..] == a[1..] + b;
      NonBlankStrippedConcat(a[1..], b);
    }
  }

  /** Every non-blank line is listed, stripped. */
  lemma {:induction false} NonBlankStrippedListsAll(lines: seq<string>)
    ensures forall i | 0 <= i < |lines| && Strip(lines[i]) != "" :: Strip(lines[i]) in NonBlankStripped(lines)
  {
    if lines != [] {
      NonBlankStrippedListsAll(lines[1..]);
      forall i | 1 <= i < |lines| && Strip(lines[i]) != "" ensures Strip(lines[i]) in NonBlankStripped(lines) {
        assert lines[i] == lines[1..][i - 1];
      }
    }
  }

  /** Every listed name is some line, stripped. */
  lemma {:induction false} NonBlankStrippedOnlyLines(lines: seq<string>)
    ensures forall n | n in NonBlankStripped(lines) :: exists i | 0 <= i < |lines| :: n == Strip(lines[i])
  {
    if lines != [] {
      NonBlankStrippedOnlyLines(lines[1..]);
      forall n | n in NonBlankStripped(lines) ensures exists i | 0 <= i < |lines| :: n == Strip(lines[i]) {
        if n != Strip(lines[0]) {
          assert n in NonBlankStripped(lines[1..]);
          var j :| 0 <= j < |lines[1..]| && n == Strip(lines[1..][j]);
          assert n == Strip(lines[j + 1]);
        }
      }
    }
  }

  /** The `list-sessions` invocation. */
  const ListArgs: seq<string> := ["list-sessions", "-F", "#{session_name}"]

  /** `tmux_list_sessions`. */
  function ListSessions(tmux: seq<string> -> ProcessResult): seq<string> {
    var proc := tmux(ListArgs);
    if proc.code != 0 then [] else NonBlankStripped(SplitLines(proc.stdout))
  }

  /** Names made of allowed characters read back unchanged from one-per-line output. */
  lemma {:induction false} NonBlankStrippedNames(names: seq<string>)
    requires forall n | n in names :: n != "" && AllAllowed(n)
    ensures NonBlankStripped(names) == names
  {
    if names != [] {
      assert names[0] in names;
      StripAllowed(names[0]);
      assert forall n | n in names[1..] :: n in names;
      NonBlankStrippedNames(names[1..]);
    }
  }

  /**
   * A failed listing gives no names; when tmux prints the session names one per line, the
   * listing returns exactly those names, in order.
   */
  lemma ListSessionsReadsNames(tmux: seq<string> -> ProcessResult, names: seq<string>)
    requires names != [] && forall n | n in names :: n != "" && AllAllowed(n)
    ensures tmux(ListArgs).code != 0 ==> ListSessions(tmux) == []
    ensures tmux(ListArgs) == ProcessResult(0, Join("\n", names) + "\n", "") ==> ListSessions(tmux) == names
  {
    forall n | n in names ensures NoLineBreak(n) {
      forall i | 0 <= i < |n| ensures !IsLineBreak(n[i]) {
        assert Allowed(n[i]);
      }
    }
    SplitLinesTerminated(names);
    NonBlankStrippedNames(names);
  }

  /** The name a session gets is one the listing reads back as it is. */
  lemma TmuxNameListed(sessionId: string, tmux: seq<string> -> ProcessResult)
    requires tmux(ListArgs) == ProcessResult(0, TmuxName(sessionId) + "\n", "")
    ensures ListSessions(tmux) == [TmuxName(sessionId)]
  {
    var name := TmuxName(sessionId);
    TmuxNameShape(sessionId);
    assert name != "" by {
      assert |name| >= |Prefix|;
    }
    assert Join("\n", [name]) == name;
    ListSessionsReadsNames(tmux, [name]);
  }
}
