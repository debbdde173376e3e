/**
 * The files behind `session_manager.py` (both the src/memora and the engine copy): the active
 * session, its backup, the archive, and the temporary files `_atomic_write_json` renames into
 * place. Each operation is specified by a step function on the file map; the `Workspace` class
 * performs the same writes one at a time and is proved to end in the state the step names.
 */
module SessionStore {
  import opened Wrappers
  import opened Sessions
  import opened Text

  /** The files of the sessions directory; `Tmp(p)` is `p` with ".tmp" appended to its suffix. */
  datatype SessionPath = Active | Backup | Archive(name: string) | Tmp(target: SessionPath)

  /** A session file either decodes as a JSON object or does not (a JSONDecodeError). */
  datatype Content = Doc(session: Session) | Garbled(raw: string)

  type Files = map<SessionPath, Content>

  /** The src/memora copy seeds the core memory file on every layout check; the engine copy does not. */
  datatype Copy = Src | Engine

  datatype Error =
    | InvalidRole            // ValueError("role must be one of: user, assistant, system")
    | CorruptBackup          // the JSONDecodeError of the backup, which nothing catches
    | NullValue(key: string) // the AttributeError or TypeError of using a null `key` as a list or string

  function Decode(c: Content): Option<Session> {
    if c.Doc? then Some(c.session) else None
  }

  /** The text of `DEFAULT_CORE_MEMORY` in src/memora/workspace.py. */
  const DefaultCoreMemory: string :=
    "# Master Core Memory\n\n"
    + "이 파일은 Memora 프롬프트에 항상 포함되는 핵심 메모리입니다.\n\n"
    + "- 프로젝트의 장기 목표\n- 개발 철학\n- 금지 규칙\n- 일관되게 유지할 아키텍처 원칙\n"

  /** The core memory file after `ensure_workspace_layout` (src) or `ensure_session_dirs` (engine). */
  function LaidOut(copy: Copy, core: Option<string>): Option<string> {
    if copy == Src && core == None then Some(DefaultCoreMemory) else core
  }

  // ---------------------------------------------------------------- the steps

  /** After `tmp_path.write_text(...)`. */
  function TempWritten(fs: Files, p: SessionPath, c: Content): Files {
    fs[Tmp(p) := c]
  }

  /** After `tmp_path.replace(path)`: the temporary file becomes `p`. */
  function Committed(fs: Files, p: SessionPath, c: Content): Files {
    (fs - {Tmp(p)})[p := c]
  }

  /** `load_session`: the session it returns (or the error it raises) and the files it leaves. */
  function LoadStep(fs: Files, now: Instant): (Result<Session, Error>, Files) {
    if Active !in fs then
      (Ok(DefaultSession(None, now)), Committed(fs, Active, Doc(DefaultSession(None, now))))
    else if fs[Active].Doc? then
      (Ok(fs[Active].session), fs)
    else if Backup in fs then
      if fs[Backup].Doc? then (Ok(fs[Backup].session), Committed(fs, Active, fs[Backup]))
      else (Err(CorruptBackup), fs)
    else
      (Ok(DefaultSession(None, now)), Committed(fs, Active, Doc(DefaultSession(None, now))))
  }

  /** `save_session`'s `last_updated` assignment. */
  function Stamped(s: Session, now: Instant): Session {
    s.(lastUpdated := Some(now.iso))
  }

  /** The files after the backup copy of `save_session`. */
  function BackedUp(fs: Files): Files {
    if Active in fs then fs[Backup := fs[Active]] else fs
  }

  /** `save_session`: the files after it. */
  function SaveStep(fs: Files, s: Session, now: Instant): Files {
    Committed(BackedUp(fs), Active, Doc(Stamped(s, now)))
  }

  /** `summarize_and_prune`: the session it returns and the files after its archive write. */
  function PruneStep(fs: Files, s: Session, now: Instant): (Session, Files) {
    if !Rotates(s) then (s, fs)
    else
      var p := Prune(s, now);
      (p, Committed(fs, Archive(ArchiveName(p, now)), Doc(p)))
  }

  /** `add_message`: the role check, the load, the append, the rotation and the save. */
  function AddMessageStep(fs: Files, role: string, content: string, now: Instant): (Result<Session, Error>, Files) {
    var r := NormalizeRole(role);
    if !ValidRole(r) then (Err(InvalidRole), fs)
    else
      var (loaded, fs1) := LoadStep(fs, now);
      if loaded.Err? then (loaded, fs1)
      else if loaded.value.conversation.Null? then (Err(NullValue("conversation")), fs1)
      else
        var (pruned, fs2) := PruneStep(fs1, WithMessage(loaded.value, Message(Some(r), content)), now);
        (Ok(Stamped(pruned, now)), SaveStep(fs2, pruned, now))
  }

  /** `init_session`. */
  function InitStep(fs: Files, id: Option<string>, overwrite: bool, now: Instant): (Result<Session, Error>, Files) {
    if Active in fs && !overwrite then LoadStep(fs, now)
    else (Ok(Stamped(DefaultSession(id, now), now)), SaveStep(fs, DefaultSession(id, now), now))
  }

  // ---------------------------------------------------------------- the files, in place

  class Workspace {
    const copy: Copy
    var sessionFiles: Files
    var coreMemory: Option<string>

    constructor (copy: Copy, sessionFiles: Files, coreMemory: Option<string>)
      ensures this.copy == copy && this.sessionFiles == sessionFiles && this.coreMemory == coreMemory
    {
      this.copy := copy;
      this.sessionFiles := sessionFiles;
      this.coreMemory := coreMemory;
    }

    /** `ensure_workspace_layout` (src) / `ensure_session_dirs` (engine); directories are implicit. */
    method EnsureLayout()
      modifies this
      ensures sessionFiles == old(sessionFiles)
      ensures coreMemory == LaidOut(copy, old(coreMemory))
    {
      if copy == Src && coreMemory == None {
        coreMemory := Some(DefaultCoreMemory);
      }
    }

    /** `Path.write_text`: creates or overwrites one file. */
    method WriteFile(p: SessionPath, c: Content)
      modifies this
      ensures sessionFiles == old(sessionFiles)[p := c]
      ensures coreMemory == old(coreMemory)
    {
      sessionFiles := sessionFiles[p := c];
    }

    /** `Path.replace`: renames `from` onto `to`, replacing what was there. */
    method ReplaceFile(from: SessionPath, to: SessionPath)
      requires from in sessionFiles
      modifies this
      ensures sessionFiles == (old(sessionFiles) - {from})[to := old(sessionFiles)[from]]
      ensures coreMemory == old(coreMemory)
    {
      sessionFiles := (sessionFiles - {from})[to := sessionFiles[from]];
    }

    /** `_atomic_write_json`: the temporary write, then the rename as the single commit point. */
    method AtomicWriteJson(p: SessionPath, s: Session)
      requires !p.Tmp?
      modifies this
      ensures sessionFiles == Committed(old(sessionFiles), p, Doc(s))
      ensures coreMemory == old(coreMemory)
    {
      WriteFile(Tmp(p), Doc(s));
      assert sessionFiles == TempWritten(old(sessionFiles), p, Doc(s));
      ReplaceFile(Tmp(p), p);
    }

    /** `load_session`. */
    method LoadSession(now: Instant) returns (r: Result<Session, Error>)
      modifies this
      ensures (r, sessionFiles) == LoadStep(old(sessionFiles), now)
      ensures coreMemory == LaidOut(copy, old(coreMemory))
    {
      EnsureLayout();
      if Active !in sessionFiles {
        var session := DefaultSession(None, now);
        AtomicWriteJson(Active, session);
        return Ok(session);
      }
      match sessionFiles[Active] {
        case Doc(s) =>
          return Ok(s);
        case Garbled(_) =>
          if Backup in sessionFiles {
            match sessionFiles[Backup] {
              case Doc(recovered) =>
                AtomicWriteJson(Active, recovered);
                return Ok(recovered);
              case Garbled(_) =>
                return Err(CorruptBackup);
            }
          }
          var session := DefaultSession(None, now);
          AtomicWriteJson(Active, session);
          return Ok(session);
      }
    }

    /** `save_session`; returns the session with its new `last_updated`. */
    method SaveSession(s: Session, now: Instant) returns (saved: Session)
      modifies this
      ensures saved == Stamped(s, now)
      ensures sessionFiles == SaveStep(old(sessionFiles), s, now)
      ensures coreMemory == LaidOut(copy, old(coreMemory))
    {
      EnsureLayout();
      saved := s.(lastUpdated := Some(now.iso));
      if Active in sessionFiles {
        WriteFile(Backup, sessionFiles[Active]);
      }
      AtomicWriteJson(Active, saved);
    }

    /** `summarize_and_prune`. */
    method SummarizeAndPrune(s: Session, now: Instant) returns (r: Session)
      modifies this
      ensures (r, sessionFiles) == PruneStep(old(sessionFiles), s, now)
      ensures coreMemory == old(coreMemory)
    {
      var conversation := Conversation(s);
      if |conversation| <= MaxConversationTurns {
        return s;
      }
      var oldMessages := conversation[..|conversation| - KeepRecentTurns];
      var recentMessages := conversation[|conversation| - KeepRecentTurns..];
      assert PyBound(|conversation|, -KeepRecentTurns) == |conversation| - KeepRecentTurns;
      assert oldMessages == Overflow(s) && recentMessages == Recent(s);
      var compressed := CompressMessages(oldMessages);
      r := s.(summary := Value(MergedSummary(Lookup(s.summary), compressed, now)));
      r := r.(conversation := Value(recentMessages));
      AtomicWriteJson(Archive(ArchiveName(r, now)), r);
    }

    /** `add_message`. */
    method AddMessage(role: string, content: string, now: Instant) returns (r: Result<Session, Error>)
      modifies this
      ensures (r, sessionFiles) == AddMessageStep(old(sessionFiles), role, content, now)
      ensures ValidRole(NormalizeRole(role)) ==> coreMemory == LaidOut(copy, old(coreMemory))
      ensures !ValidRole(NormalizeRole(role)) ==> coreMemory == old(coreMemory)
    {
      var normalized := NormalizeRole(role);
      if !ValidRole(normalized) {
        return Err(InvalidRole);
      }
      var loaded := LoadSession(now);
      if loaded.Err? {
        return loaded;
      }
      if loaded.value.conversation.Null? {
        return Err(NullValue("conversation"));
      }
      var session := WithMessage(loaded.value, Message(Some(normalized), content));
      session := SummarizeAndPrune(session, now);
      session := SaveSession(session, now);
      return Ok(session);
    }

    /** `init_session`. */
    method InitSession(id: Option<string>, overwrite: bool, now: Instant) returns (r: Result<Session, Error>)
      modifies this
      ensures (r, sessionFiles) == InitStep(old(sessionFiles), id, overwrite, now)
      ensures coreMemory == LaidOut(copy, old(coreMemory))
    {
      EnsureLayout();
      if Active in sessionFiles && !overwrite {
        r := LoadSession(now);
        return;
      }
      var session := SaveSession(DefaultSession(id, now), now);
      return Ok(session);
    }
  }
}
