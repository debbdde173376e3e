/**
 * The Supabase sync helpers of `supabase_sync.py` (the src/memora and the engine copy hold the
 * same logic): reading the configuration from the environment, turning the long-term log into
 * rows, the push payload, the restore merge of a pulled session and the file a long-term pull
 * writes. HTTP is not modelled: what the server answers is a parameter.
 */
module Sync {
  import opened Wrappers
  import opened Text
  import opened Json
  import opened Sessions
  import opened SessionStore
  import opened Retrieval

  type Env = map<string, string>

  const UrlVar: string := "SUPABASE_URL"
  const KeyVar: string := "SUPABASE_SERVICE_ROLE_KEY"
  const SchemaVar: string := "SUPABASE_SCHEMA"
  const ServerIdVar: string := "SUPABASE_SERVER_ID"
  const DefaultSchema: string := "public"
  const MissingPrefix: string := "Missing required environment variables: "

  datatype Config = Config(url: string, serviceKey: string, schema: string, serverId: string)

  datatype SyncError =
    | MissingEnv(names: seq<string>)          // the RuntimeError of `load_config`
    | SessionFailed(sessionError: SessionStore.Error)
    | BadLogLine(line: string)                // a log line holding JSON that is not an object

  /** The message `load_config` raises with. */
  function MissingMessage(names: seq<string>): string {
    MissingPrefix + Join(", ", names)
  }

  // ---------------------------------------------------------------- configuration

  /** `_read_env`: the stripped value of a set, non-blank variable; `default` otherwise. */
  function ReadEnv(env: Env, name: string, default: Option<string>): Option<string> {
    if name in env && !Blank(env[name]) then Some(Strip(env[name])) else default
  }

  /** A set, non-blank variable reads as a non-empty piece of its value with no whitespace at either end. */
  lemma ReadEnvFacts(env: Env, name: string, default: Option<string>)
    ensures var r := ReadEnv(env, name, default);
      && (name !in env || Blank(env[name]) ==> r == default)
      && (name in env && !Blank(env[name]) ==>
            && r.Some? && r.value != ""
            && !IsSpace(r.value[0]) && !IsSpace(r.value[|r.value| - 1])
            && exists k :: OccursAt(env[name], r.value, k))
  {
    if name in env && !Blank(env[name]) {
      StripEmptyIffBlank(env[name]);
      StripShape(env[name]);
    }
  }

  /** Python's falsiness of `str | None`. */
  predicate Falsy(o: Option<string>) {
    o == None || o == Some("")
  }

  /** `o or default`. */
  function OrElse(o: Option<string>, default: string): string {
    if Falsy(o) then default else o.value
  }

  /** `s.rstrip("/")`. */
  function RStripSlash(s: string): (r: string)
    ensures |r| <= |s| && r == s[..|r|]
    ensures r == [] || r[|r| - 1] != '/'
    ensures forall k | |r| <= k < |s| :: s[k] == '/'
  {
    if s != [] && s[|s| - 1] == '/' then
      var r := RStripSlash(s[..|s| - 1]);
      assert s[..|s| - 1][..|r|] == s[..|r|];
      r
    else
      s
  }

  /** What `load_config` returns or raises. */
  function ConfigOf(env: Env, serverId: Option<string>, hostname: string): Result<Config, SyncError> {
    var url := ReadEnv(env, UrlVar, None);
    var key := ReadEnv(env, KeyVar, None);
    var schema := OrElse(ReadEnv(env, SchemaVar, Some(DefaultSchema)), DefaultSchema);
    var server := OrElse(serverId, ReadEnv(env, ServerIdVar, Some(hostname)).GetOr(hostname));
    var missing := (if Falsy(url) then [UrlVar] else []) + (if Falsy(key) then [KeyVar] else []);
    if missing != [] then Err(MissingEnv(missing))
    else Ok(Config(RStripSlash(url.value), key.value, schema, server))
  }

  /** `load_config`, with its `missing` list. */
  method LoadConfig(env: Env, serverId: Option<string>, hostname: string) returns (r: Result<Config, SyncError>)
    ensures r == ConfigOf(env, serverId, hostname)
  {
    var url := ReadEnv(env, UrlVar, None);
    var key := ReadEnv(env, KeyVar, None);
    var schema := OrElse(ReadEnv(env, SchemaVar, Some(DefaultSchema)), DefaultSchema);
    var server := OrElse(serverId, ReadEnv(env, ServerIdVar, Some(hostname)).GetOr(hostname));
    var missing: seq<string> := [];
    if Falsy(url) {
      missing := missing + [UrlVar];
    }
    if Falsy(key) {
      missing := missing + [KeyVar];
    }
    assert missing == (if Falsy(url) then [UrlVar] else []) + (if Falsy(key) then [KeyVar] else []);
    if missing != [] {
      return Err(MissingEnv(missing));
    }
    return Ok(Config(RStripSlash(url.value), key.value, schema, server));
  }

  predicate Unset(env: Env, name: string) {
    name !in env || Blank(env[name])
  }

  /**
   * `load_config` raises exactly when the URL or the service key is unset or blank, naming the
   * missing variables with the URL first. Otherwise the URL is the stripped variable without
   * trailing slashes, the key is the stripped variable, the schema is the stripped variable or
   * "public" (never empty), and the server id is the argument, else the stripped variable, else
   * the host name.
   */
  lemma ConfigOutcome(env: Env, serverId: Option<string>, hostname: string)
    ensures var r := ConfigOf(env, serverId, hostname);
      && (r.Err? <==> Unset(env, UrlVar) || Unset(env, KeyVar))
      && (Unset(env, UrlVar) && Unset(env, KeyVar) ==> r == Err(MissingEnv([UrlVar, KeyVar])))
      && (Unset(env, UrlVar) && !Unset(env, KeyVar) ==> r == Err(MissingEnv([UrlVar])))
      && (!Unset(env, UrlVar) && Unset(env, KeyVar) ==> r == Err(MissingEnv([KeyVar])))
      && (r.Ok? ==>
            && r.value.url == RStripSlash(Strip(env[UrlVar]))
            && (r.value.url == "" || r.value.url[|r.value.url| - 1] != '/')
            && r.value.serviceKey == Strip(env[KeyVar]) && r.value.serviceKey != ""
            && r.value.schema == (if Unset(env, SchemaVar) then DefaultSchema else Strip(env[SchemaVar]))
            && r.value.schema != ""
            && r.value.serverId ==
                 (if !Falsy(serverId) then serverId.value
                  else if !Unset(env, ServerIdVar) then Strip(env[ServerIdVar])
                  else hostname))
  {
    ReadEnvFacts(env, UrlVar, None);
    ReadEnvFacts(env, KeyVar, None);
    ReadEnvFacts(env, SchemaVar, Some(DefaultSchema));
    ReadEnvFacts(env, ServerIdVar, Some(hostname));
    assert [UrlVar] + [KeyVar] == [UrlVar, KeyVar];
    assert [UrlVar] + [] == [UrlVar];
    assert [] + [KeyVar] == [KeyVar];
  }

  // ---------------------------------------------------------------- long-term rows

  /** One row of `_load_longterm_rows`; `contentHash` is the hex SHA-256 of the text. */
  datatype LongtermRow = LongtermRow(text: string, metadata: map<string, JsonValue>, contentHash: string)

  /** `obj.get("metadata", {})`, wrapped as `{"value": m}` when it is not an object. */
  function MetadataOf(fields: map<string, JsonValue>): map<string, JsonValue> {
    if "metadata" !in fields then map[]
    else match fields["metadata"]
      case JObject(m) => m
      case other => map["value" := other]
  }

  /**
   * What one line of the log contributes: nothing for a blank line, a line that does not
   * parse, or a record whose stripped text is empty; a row otherwise; and the AttributeError of
   * `obj.get` for JSON that is not an object. `hash` is the SHA-256 hex digest.
   */
  function RowOf(line: string, decode: string -> Option<JsonValue>, render: JsonValue -> string, hash: string -> string): Result<Option<LongtermRow>, SyncError> {
    var stripped := Strip(line);
    if stripped == "" then Ok(None)
    else match decode(stripped)
      case None => Ok(None)
      case Some(JObject(fields)) =>
        var text := Strip(if "text" in fields then PyStr(fields["text"], render) else "");
        if text == "" then Ok(None) else Ok(Some(LongtermRow(text, MetadataOf(fields), hash(text))))
      case Some(_) => Err(BadLogLine(stripped))
  }

  function Optional(o: Option<LongtermRow>): seq<LongtermRow> {
    if o.None? then [] else [o.value]
  }

  /** The rows of `lines`, in order, or the error of the first line that raises. */
  function RowsOf(lines: seq<string>, decode: string -> Option<JsonValue>, render: JsonValue -> string, hash: string -> string): Result<seq<LongtermRow>, SyncError> {
    if lines == [] then Ok([])
    else Cons(RowOf(lines[0], decode, render, hash), RowsOf(lines[1..], decode, render, hash))
  }

  /** The rows of a first line followed by those of the rest, unless one of them raises. */
  function Cons(head: Result<Option<LongtermRow>, SyncError>, rest: Result<seq<LongtermRow>, SyncError>): Result<seq<LongtermRow>, SyncError> {
    if head.Err? then Err(head.error)
    else if rest.Err? then rest
    else Ok(Optional(head.value) + rest.value)
  }

  /** What `_load_longterm_rows` returns for the log's text (None: the file does not exist). */
  function LongtermRows(log: Option<string>, decode: string -> Option<JsonValue>, render: JsonValue -> string, hash: string -> string): Result<seq<LongtermRow>, SyncError> {
    if log.None? then Ok([]) else RowsOf(SplitLines(log.value), decode, render, hash)
  }

  /** `rows` followed by what is left, unless what is left raises. */
  function Glue(rows: seq<LongtermRow>, rest: Result<seq<LongtermRow>, SyncError>): Result<seq<LongtermRow>, SyncError> {
    if rest.Err? then rest else Ok(rows + rest.value)
  }

  lemma GlueEmpty(r: Result<seq<LongtermRow>, SyncError>)
    ensures Glue([], r) == r
  {
    if r.Ok? {
      assert [] + r.value == r.value;
    }
  }

  lemma GlueCons(rows: seq<LongtermRow>, head: Option<LongtermRow>, rest: Result<seq<LongtermRow>, SyncError>)
    ensures Glue(rows, Cons(Ok(head), rest)) == Glue(rows + Optional(head), rest)
    ensures head.None? ==> rows + Optional(head) == rows
    ensures head.Some? ==> rows + Optional(head) == rows + [head.value]
  {
    if rest.Ok? {
      assert rows + (Optional(head) + rest.value) == (rows + Optional(head)) + rest.value;
    }
    if head.None? {
      assert rows + [] == rows;
    }
  }

  /** `_load_longterm_rows`, with its append loop. */
  method LoadLongtermRows(log: Option<string>, decode: string -> Option<JsonValue>, render: JsonValue -> string, hash: string -> string)
    returns (r: Result<seq<LongtermRow>, SyncError>)
    ensures r == LongtermRows(log, decode, render, hash)
  {
    if log.None? {
      return Ok([]);
    }
    var lines := SplitLines(log.value);
    var rows: seq<LongtermRow> := [];
    assert lines[0..] == lines;
    GlueEmpty(RowsOf(lines, decode, render, hash));
    for i := 0 to |lines|
      invariant RowsOf(lines, decode, render, hash) == Glue(rows, RowsOf(lines[i..], decode, render, hash))
    {
      assert lines[i..][0] == lines[i] && lines[i..][1..] == lines[i + 1..];
      var row := RowOf(lines[i], decode, render, hash);
      if row.Err? {
        return Err(row.error);
      }
      GlueCons(rows, row.value, RowsOf(lines[i + 1..], decode, render, hash));
      if row.value.Some? {
        rows := rows + [row.value.value];
      }
    }
    assert lines[|lines|..] == [];
    assert rows + [] == rows;
    return Ok(rows);
  }

  /** A row's text is non-empty and already stripped, and its hash is the hash of that text. */
  predicate WellFormedRow(row: LongtermRow, hash: string -> string) {
    row.text != "" && Strip(row.text) == row.text && row.contentHash == hash(row.text)
  }

  lemma RowOfFacts(line: string, decode: string -> Option<JsonValue>, render: JsonValue -> string, hash: string -> string)
    ensures var r := RowOf(line, decode, render, hash);
      && (Blank(line) ==> r == Ok(None))
      && (!Blank(line) && decode(Strip(line)) == None ==> r == Ok(None))
      && (r.Err? <==> !Blank(line) && decode(Strip(line)).Some? && !decode(Strip(line)).value.JObject?)
      && (r.Ok? && r.value.Some? ==>
            && WellFormedRow(r.value.value, hash)
            && var fields := decode(Strip(line)).value.fields;
            && ("metadata" !in fields ==> r.value.value.metadata == map[])
            && ("metadata" in fields && fields["metadata"].JObject? ==> r.value.value.metadata == fields["metadata"].fields)
            && ("metadata" in fields && !fields["metadata"].JObject? ==> r.value.value.metadata == map["value" := fields["metadata"]]))
  {
    StripEmptyIffBlank(line);
    var r := RowOf(line, decode, render, hash);
    if r.Ok? && r.value.Some? {
      var fields := decode(Strip(line)).value.fields;
      StripIdempotent(if "text" in fields then PyStr(fields["text"], render) else "");
    }
  }

  /**
   * `_load_longterm_rows` raises exactly when some line holds JSON that is not an object.
   * Otherwise it returns at most one row per line, each well formed and each the row of one of
   * the lines, and every line's row is among them.
   */
  lemma {:induction false} RowsOfFacts(lines: seq<string>, decode: string -> Option<JsonValue>, render: JsonValue -> string, hash: string -> string)
    ensures var r := RowsOf(lines, decode, render, hash);
      && (r.Err? <==> exists l | l in lines :: RowOf(l, decode, render, hash).Err?)
      && (r.Ok? ==>
            && |r.value| <= |lines|
            && (forall row | row in r.value :: WellFormedRow(row, hash) && exists l | l in lines :: RowOf(l, decode, render, hash) == Ok(Some(row)))
            && (forall l | l in lines :: RowOf(l, decode, render, hash).Ok? &&
                  (RowOf(l, decode, render, hash).value.Some? ==> RowOf(l, decode, render, hash).value.value in r.value)))
  {
    if lines != [] {
      var head := RowOf(lines[0], decode, render, hash);
      RowOfFacts(lines[0], decode, render, hash);
      RowsOfFacts(lines[1..], decode, render, hash);
      assert lines[0] in lines;
      assert forall l | l in lines[1..] :: l in lines;
      assert forall l | l in lines :: l == lines[0] || l in lines[1..];
    }
  }

  // ---------------------------------------------------------------- push_longterm

  /** One record of the `push_longterm` payload. */
  datatype PushRecord = PushRecord(serverId: string, contentHash: string, text: string, metadata: map<string, JsonValue>)

  function Payload(serverId: string, rows: seq<LongtermRow>): (p: seq<PushRecord>)
    ensures |p| == |rows|
  {
    seq(|rows|, i requires 0 <= i < |rows| => PushRecord(serverId, rows[i].contentHash, rows[i].text, rows[i].metadata))
  }

  /** The answer of `push_longterm`, with the payload it posts (None: no request is made). */
  datatype PushReport = PushReport(serverId: string, request: Option<seq<PushRecord>>, rowsPushed: nat)

  /** `push_longterm`: the configuration, the rows, then at most one upsert. */
  function PushStep(config: Result<Config, SyncError>, log: Option<string>, decode: string -> Option<JsonValue>, render: JsonValue -> string, hash: string -> string): Result<PushReport, SyncError> {
    if config.Err? then Err(config.error)
    else
      var rows := LongtermRows(log, decode, render, hash);
      if rows.Err? then Err(rows.error)
      else
        var payload := Payload(config.value.serverId, rows.value);
        Ok(PushReport(config.value.serverId, if payload != [] then Some(payload) else None, |payload|))
  }

  /**
   * A push makes a request exactly when there is at least one valid row; it then posts one
   * record per row, in file order, tagged with the server id; it reports the number of rows.
   * A missing log pushes nothing.
   */
  lemma PushOutcome(config: Result<Config, SyncError>, log: Option<string>, decode: string -> Option<JsonValue>, render: JsonValue -> string, hash: string -> string)
    ensures var r := PushStep(config, log, decode, render, hash);
      var rows := LongtermRows(log, decode, render, hash);
      && (r.Err? <==> config.Err? || rows.Err?)
      && (r.Ok? ==>
            && r.value.serverId == config.value.serverId
            && r.value.rowsPushed == |rows.value|
            && (r.value.request.Some? <==> rows.value != [])
            && (r.value.request.Some? ==>
                  var p := r.value.request.value;
                  && |p| == |rows.value|
                  && forall i | 0 <= i < |p| ::
                       p[i].serverId == config.value.serverId && p[i].text == rows.value[i].text
                       && p[i].contentHash == rows.value[i].contentHash && p[i].metadata == rows.value[i].metadata))
      && (config.Ok? && log == None ==> r == Ok(PushReport(config.value.serverId, None, 0)))
  {
  }

  // ---------------------------------------------------------------- pull_session

  /** A column of the fetched row: absent from the row, JSON null, or a value. */
  datatype Column<T> = Absent | Null | Present(value: T)

  /** `row.get(key, default)`, as a Python value (None for a null column). */
  function Get<T>(c: Column<T>, default: Option<T>): Option<T> {
    match c
    case Absent => default
    case Null => None
    case Present(v) => Some(v)
  }

  /** A Python value stored under a session key: None becomes a null key. */
  function Stored<T>(v: Option<T>): Field<T> {
    if v.Some? then Value(v.value) else Field.Null
  }

  /** `session.get(key, default)` sent as a column: a missing key sends the default, a null one null. */
  function Sent<T>(f: Field<T>, default: T): Column<T> {
    match f
    case Missing => Present(default)
    case Null => Column.Null
    case Value(v) => Present(v)
  }

  /** The row of `ai_sessions` that `pull_session` selects. */
  datatype RemoteSession = RemoteSession(
    sessionId: Column<string>,
    lastUpdated: Column<string>,
    summary: Column<string>,
    conversation: Column<seq<Message>>,
    snapshot: Column<JsonValue>)

  /** The keys `pull_session` never takes from the snapshot. */
  const Reserved: set<string> := {"session_id", "summary", "conversation", "last_updated"}

  /** The snapshot keys merged by `restored.update`: those of an object snapshot outside `Reserved`. */
  function SnapshotExtra(snapshot: Column<JsonValue>): map<string, JsonValue> {
    match snapshot
    case Present(JObject(fields)) => map k | k in fields && k !in Reserved :: fields[k]
    case _ => map[]
  }

  /**
   * The `restored` session of `pull_session`, after its update with the snapshot. All four
   * keys are set, so a null column, or an absent id column with no resolved id, gives a null key.
   */
  function Restored(row: RemoteSession, resolved: Option<string>, local: Session): Session {
    Session(
      Stored(Get(row.sessionId, resolved)),
      Get(row.lastUpdated, local.lastUpdated),
      Stored(Get(row.conversation, Some([]))),
      Stored(Get(row.summary, Some(""))),
      SnapshotExtra(row.snapshot))
  }

  /** `session_id or local.get("session_id")`. */
  function ResolvedId(sessionId: Option<string>, local: Session): Option<string> {
    if Falsy(sessionId) then Lookup(local.sessionId) else sessionId
  }

  /**
   * Each reserved key comes from its column: a value is taken as it is and a null column
   * gives a null key (None for `last_updated`). An absent column gives the default: the
   * resolved id (a null key when there is none), the local `last_updated`, "" and [].
   * The snapshot never overrides these keys; every other key of an object snapshot is copied
   * with its value, and nothing else is added.
   */
  lemma RestoredFields(row: RemoteSession, resolved: Option<string>, local: Session, other: Column<JsonValue>)
    ensures var s := Restored(row, resolved, local);
      var t := Restored(row.(snapshot := other), resolved, local);
      && (row.sessionId.Present? ==> s.sessionId == Value(row.sessionId.value))
      && (row.sessionId.Null? ==> s.sessionId == Field.Null)
      && (row.sessionId.Absent? ==> s.sessionId == if resolved.Some? then Value(resolved.value) else Field.Null)
      && (row.lastUpdated.Present? ==> s.lastUpdated == Some(row.lastUpdated.value))
      && (row.lastUpdated.Null? ==> s.lastUpdated == None)
      && (row.lastUpdated.Absent? ==> s.lastUpdated == local.lastUpdated)
      && (row.summary.Present? ==> s.summary == Value(row.summary.value))
      && (row.summary.Null? ==> s.summary == Field.Null)
      && (row.summary.Absent? ==> s.summary == Value(""))
      && (row.conversation.Present? ==> s.conversation == Value(row.conversation.value))
      && (row.conversation.Null? ==> s.conversation == Field.Null)
      && (row.conversation.Absent? ==> s.conversation == Value([]))
      && s.sessionId == t.sessionId && s.lastUpdated == t.lastUpdated
      && s.summary == t.summary && s.conversation == t.conversation
      && (forall k | k in s.extra :: k !in Reserved)
      && (row.snapshot.Present? && row.snapshot.value.JObject? ==>
            forall k | k in row.snapshot.value.fields && k !in Reserved :: k in s.extra && s.extra[k] == row.snapshot.value.fields[k])
      && (forall k | k in s.extra :: row.snapshot.Present? && row.snapshot.value.JObject? && k in row.snapshot.value.fields)
  {
  }

  /** The row `upsert_session` sends for the session `s`; `encoded` is the session as a JSON object. */
  function UpsertRow(s: Session, encoded: map<string, JsonValue>): RemoteSession {
    RemoteSession(
      if s.sessionId.Value? then Present(s.sessionId.value) else Column.Null,
      if s.lastUpdated.None? then Column.Null else Present(s.lastUpdated.value),
      Sent(s.summary, ""),
      Sent(s.conversation, []),
      Present(JObject(encoded)))
  }

  /**
   * Upsert then pull restores the session: its timestamp, extra keys and null keys come back
   * as they were, a missing id comes back null (upsert sends None), and a missing summary or
   * conversation comes back as "" or [].
   */
  lemma UpsertThenRestore(s: Session, encoded: map<string, JsonValue>, resolved: Option<string>, local: Session)
    requires forall k | k in s.extra :: k !in Reserved
    requires forall k | k in encoded && k !in Reserved :: k in s.extra && encoded[k] == s.extra[k]
    requires forall k | k in s.extra :: k in encoded
    ensures Restored(UpsertRow(s, encoded), resolved, local)
         == s.(sessionId := if s.sessionId.Missing? then Field.Null else s.sessionId,
               summary := if s.summary.Missing? then Value("") else s.summary,
               conversation := if s.conversation.Missing? then Value([]) else s.conversation)
  {
    var extra := SnapshotExtra(UpsertRow(s, encoded).snapshot);
    assert extra == s.extra;
  }

  /** What `pull_session` answers: `ok` is false for "not_found". */
  datatype SessionPull = SessionPull(ok: bool, serverId: string, sessionId: Option<string>)

  /**
   * `pull_session` against the session files: the configuration, the local load, the fetch of
   * at most one row for (server id, resolved session id), then the save of the restored session.
   */
  function PullSessionStep(config: Result<Config, SyncError>, fs: Files, sessionId: Option<string>,
                           fetch: (string, Option<string>) -> seq<RemoteSession>, now: Instant): (Result<SessionPull, SyncError>, Files)
  {
    if config.Err? then (Err(config.error), fs)
    else
      var (local, fs1) := LoadStep(fs, now);
      if local.Err? then (Err(SessionFailed(local.error)), fs1)
      else
        var resolved := ResolvedId(sessionId, local.value);
        var rows := fetch(config.value.serverId, resolved);
        if rows == [] then (Ok(SessionPull(false, config.value.serverId, resolved)), fs1)
        else
          var restored := Restored(rows[0], resolved, local.value);
          (Ok(SessionPull(true, config.value.serverId, Lookup(restored.sessionId))), SaveStep(fs1, restored, now))
  }

  /** `pull_session`. */
  method PullSession(w: Workspace, config: Result<Config, SyncError>, sessionId: Option<string>,
                     fetch: (string, Option<string>) -> seq<RemoteSession>, now: Instant)
    returns (r: Result<SessionPull, SyncError>)
    modifies w
    ensures (r, w.sessionFiles) == PullSessionStep(config, old(w.sessionFiles), sessionId, fetch, now)
    ensures config.Ok? ==> w.coreMemory == LaidOut(w.copy, old(w.coreMemory))
    ensures config.Err? ==> w.coreMemory == old(w.coreMemory)
  {
    if config.Err? {
      return Err(config.error);
    }
    var local := w.LoadSession(now);
    if local.Err? {
      return Err(SessionFailed(local.error));
    }
    var resolved := ResolvedId(sessionId, local.value);
    var rows := fetch(config.value.serverId, resolved);
    if rows == [] {
      return Ok(SessionPull(false, config.value.serverId, resolved));
    }
    var restored := Restored(rows[0], resolved, local.value);
    var _ := w.SaveSession(restored, now);
    return Ok(SessionPull(true, config.value.serverId, Lookup(restored.sessionId)));
  }

  /**
   * With no remote row the pull answers not-found and saves nothing: the files are those the
   * local load left (unchanged when the active file was readable).
   */
  lemma PullNotFoundSavesNothing(config: Result<Config, SyncError>, fs: Files, sessionId: Option<string>,
                                 fetch: (string, Option<string>) -> seq<RemoteSession>, now: Instant)
    requires config.Ok? && LoadStep(fs, now).0.Ok?
    requires fetch(config.value.serverId, ResolvedId(sessionId, LoadStep(fs, now).0.value)) == []
    ensures var (r, fs') := PullSessionStep(config, fs, sessionId, fetch, now);
      && r.Ok? && !r.value.ok
      && fs' == LoadStep(fs, now).1
      && (Active in fs && fs[Active].Doc? ==> fs' == fs)
  {
  }

  /**
   * After a pull that found a row, the next load returns the restored session, stamped with the
   * pull's clock (the row's `last_updated` does not survive the save), the previous active file
   * is the backup, and the answer carries the restored id.
   */
  lemma PullRestores(config: Result<Config, SyncError>, fs: Files, sessionId: Option<string>,
                     fetch: (string, Option<string>) -> seq<RemoteSession>, now: Instant, later: Instant)
    requires config.Ok? && LoadStep(fs, now).0.Ok?
    requires fetch(config.value.serverId, ResolvedId(sessionId, LoadStep(fs, now).0.value)) != []
    ensures var (r, fs') := PullSessionStep(config, fs, sessionId, fetch, now);
      var (local, fs1) := LoadStep(fs, now);
      var resolved := ResolvedId(sessionId, local.value);
      var restored := Restored(fetch(config.value.serverId, resolved)[0], resolved, local.value);
      && r == Ok(SessionPull(true, config.value.serverId, Lookup(restored.sessionId)))
      && LoadStep(fs', later) == (Ok(Stamped(restored, now)), fs')
      && Stamped(restored, now).lastUpdated == Some(now.iso)
      && fs'[Backup] == fs1[Active]
  {
  }

  // ---------------------------------------------------------------- pull_longterm

  /** `row.get(key, default)` on a fetched JSON encoded. */
  function FieldOr(row: map<string, JsonValue>, key: string, default: JsonValue): JsonValue {
    if key in row then row[key] else default
  }

  /** The encoded `pull_longterm` dumps for one fetched row. */
  function PulledRecord(row: map<string, JsonValue>): JsonValue {
    JObject(map["text" := FieldOr(row, "text", JString("")), "metadata" := FieldOr(row, "metadata", JObject(map[]))])
  }

  /** The lines of the src copy's list comprehension; `dumps` is `json.dumps(..., ensure_ascii=False)`. */
  function PulledLines(rows: seq<map<string, JsonValue>>, dumps: JsonValue -> string): (lines: seq<string>)
    ensures |lines| == |rows|
  {
    seq(|rows|, i requires 0 <= i < |rows| => dumps(PulledRecord(rows[i])))
  }

  /** The text `pull_longterm` writes: the lines joined by "\n", plus "\n" when there is a line. */
  function PulledText(lines: seq<string>): string {
    Join("\n", lines) + (if lines != [] then "\n" else "")
  }

  /** The answer of `pull_longterm`. */
  datatype LongtermPull = LongtermPull(serverId: string, rowsPulled: nat)

  /**
   * `pull_longterm` (the engine copy's append loop): the answer, and the text written to the
   * long-term log (None when the configuration raises and nothing is written). `rows` is the
   * server's answer (None for an empty body).
   */
  method PullLongterm(config: Result<Config, SyncError>, rows: Option<seq<map<string, JsonValue>>>, dumps: JsonValue -> string)
    returns (r: Result<LongtermPull, SyncError>, written: Option<string>)
    ensures config.Err? ==> r == Err(config.error) && written == None
    ensures config.Ok? ==>
      && r == Ok(LongtermPull(config.value.serverId, |rows.GetOr([])|))
      && written == Some(PulledText(PulledLines(rows.GetOr([]), dumps)))
  {
    if config.Err? {
      return Err(config.error), None;
    }
    var fetched := rows.GetOr([]);
    var lines: seq<string> := [];
    for i := 0 to |fetched|
      invariant lines == PulledLines(fetched[..i], dumps)
    {
      assert fetched[..i + 1] == fetched[..i] + [fetched[i]];
      lines := lines + [dumps(PulledRecord(fetched[i]))];
    }
    assert fetched[..|fetched|] == fetched;
    var text := Join("\n", lines) + (if lines != [] then "\n" else "");
    return Ok(LongtermPull(config.value.serverId, |lines|)), Some(text);
  }

  /**
   * The pulled text is empty exactly when no row came back, ends with "\n" exactly when one did,
   * and, when no dumped line holds a line boundary, splits back into exactly the dumped lines.
   */
  lemma PulledTextLines(lines: seq<string>)
    ensures (PulledText(lines) == "") <==> lines == []
    ensures EndsWith(PulledText(lines), "\n") <==> lines != []
    ensures (forall l | l in lines :: NoLineBreak(l)) ==> SplitLines(PulledText(lines)) == lines
  {
    if lines != [] {
      ConcatEnds(Join("\n", lines), "\n");
      if forall l | l in lines :: NoLineBreak(l) {
        SplitLinesTerminated(lines);
      }
    }
  }

  /** What a dumped line reads back as, when `dumps` writes one clean line that `decode` undoes. */
  ghost predicate CleanCodec(dumps: JsonValue -> string, decode: string -> Option<JsonValue>) {
    forall v :: decode(dumps(v)) == Some(v) && dumps(v) != "" && Strip(dumps(v)) == dumps(v) && NoLineBreak(dumps(v))
  }

  /** The row `_load_longterm_rows` makes of the record pulled for `row`, if any. */
  function RecordRow(row: map<string, JsonValue>, render: JsonValue -> string, hash: string -> string): Option<LongtermRow> {
    var text := Strip(PyStr(FieldOr(row, "text", JString("")), render));
    if text == "" then None
    else Some(LongtermRow(text, MetadataOf(PulledRecord(row).fields), hash(text)))
  }

  /** The rows read back from a pull of `rows`: one per pulled row with non-blank text, in order. */
  function Reloaded(rows: seq<map<string, JsonValue>>, render: JsonValue -> string, hash: string -> string): (r: seq<LongtermRow>)
    ensures |r| <= |rows|
  {
    if rows == [] then [] else Optional(RecordRow(rows[0], render, hash)) + Reloaded(rows[1..], render, hash)
  }

  lemma RecordLine(row: map<string, JsonValue>, dumps: JsonValue -> string, decode: string -> Option<JsonValue>,
                   render: JsonValue -> string, hash: string -> string)
    requires CleanCodec(dumps, decode)
    ensures RowOf(dumps(PulledRecord(row)), decode, render, hash) == Ok(RecordRow(row, render, hash))
  {
    var line := dumps(PulledRecord(row));
    assert decode(line) == Some(PulledRecord(row));
    assert "text" in PulledRecord(row).fields;
  }

  /**
   * Pull, then load: when `dumps` writes each record as one clean line that `decode` reads back,
   * the rows a later push would send are exactly the pulled rows with non-blank text, in the
   * server's order, with their stripped text and metadata.
   */
  lemma {:induction false} PullThenLoad(rows: seq<map<string, JsonValue>>, dumps: JsonValue -> string,
                                        decode: string -> Option<JsonValue>, render: JsonValue -> string, hash: string -> string)
    requires CleanCodec(dumps, decode)
    ensures LongtermRows(Some(PulledText(PulledLines(rows, dumps))), decode, render, hash) == Ok(Reloaded(rows, render, hash))
  {
    var lines := PulledLines(rows, dumps);
    forall l | l in lines ensures NoLineBreak(l) {
      var i :| 0 <= i < |lines| && lines[i] == l;
      assert l == dumps(PulledRecord(rows[i]));
    }
    PulledTextLines(lines);
    if lines == [] {
      assert SplitLines(PulledText(lines)) == [];
    }
    PulledRowsRead(rows, dumps, decode, render, hash);
  }

  lemma {:induction false} PulledRowsRead(rows: seq<map<string, JsonValue>>, dumps: JsonValue -> string,
                                          decode: string -> Option<JsonValue>, render: JsonValue -> string, hash: string -> string)
    requires CleanCodec(dumps, decode)
    ensures RowsOf(PulledLines(rows, dumps), decode, render, hash) == Ok(Reloaded(rows, render, hash))
  {
    if rows != [] {
      var lines := PulledLines(rows, dumps);
      assert lines[1..] == PulledLines(rows[1..], dumps);
      RecordLine(rows[0], dumps, decode, render, hash);
      PulledRowsRead(rows[1..], dumps, decode, render, hash);
    }
  }
}
