/**
 * What the session store promises: the three outcomes of a load, the backup holding the
 * previous active file, the rename as the single commit point, the rotation's archive, the
 * role check before any write, and the bound on the stored conversation.
 */
module SessionStoreFacts {
  import opened Wrappers
  import opened Sessions
  import opened SessionStore

  /** `p` is present in both maps with the same content, or absent from both. */
  predicate Same(fs: Files, fs': Files, p: SessionPath) {
    (p in fs <==> p in fs') && (p in fs ==> fs[p] == fs'[p])
  }

  /** Every file outside `touched` is as it was. */
  ghost predicate AgreeOutside(fs: Files, fs': Files, touched: set<SessionPath>) {
    forall p | p !in touched :: Same(fs, fs', p)
  }

  // ---------------------------------------------------------------- load

  /**
   * A missing active file, or an unparseable one with no backup, gives the default session,
   * which is also written as the new active file; nothing else changes.
   */
  lemma LoadCreatesDefault(fs: Files, now: Instant)
    requires Active !in fs || (fs[Active].Garbled? && Backup !in fs)
    ensures var (r, fs') := LoadStep(fs, now);
      && r.Ok? && r.value.conversation == Value([]) && r.value.summary == Value("")
      && r.value.sessionId == Value(now.day + "-default")
      && Active in fs' && fs'[Active] == Doc(r.value) && Tmp(Active) !in fs'
      && AgreeOutside(fs, fs', {Active, Tmp(Active)})
  {
  }

  /** An unparseable active file with a parseable backup: the backup is returned and becomes the active file. */
  lemma LoadRecoversBackup(fs: Files, now: Instant)
    requires Active in fs && fs[Active].Garbled?
    requires Backup in fs && fs[Backup].Doc?
    ensures var (r, fs') := LoadStep(fs, now);
      && r == Ok(fs[Backup].session)
      && fs'[Active] == fs[Backup] && fs'[Backup] == fs[Backup]
      && AgreeOutside(fs, fs', {Active, Tmp(Active)})
  {
  }

  /** An unparseable backup is not recovered from: the load raises and writes nothing. */
  lemma LoadRaisesOnCorruptBackup(fs: Files, now: Instant)
    requires Active in fs && fs[Active].Garbled?
    requires Backup in fs && fs[Backup].Garbled?
    ensures LoadStep(fs, now) == (Err(CorruptBackup), fs)
  {
  }

  /**
   * Over all file states: a load raises exactly when both files are unparseable, and then
   * writes nothing; otherwise the session it returns is what the active file holds afterwards,
   * only the active file (and its temporary) may have changed, and it leaves a readable active
   * file in place (a parseable one is not rewritten).
   */
  lemma LoadOutcome(fs: Files, now: Instant)
    ensures var (r, fs') := LoadStep(fs, now);
      && (r.Err? <==> Active in fs && fs[Active].Garbled? && Backup in fs && fs[Backup].Garbled?)
      && (r.Err? ==> r.error == CorruptBackup && fs' == fs)
      && (r.Ok? ==> Active in fs' && Decode(fs'[Active]) == Some(r.value))
      && (Active in fs && fs[Active].Doc? ==> fs' == fs)
      && AgreeOutside(fs, fs', {Active, Tmp(Active)})
  {
  }

  /**
   * Loading again after a successful load returns the same session and writes nothing,
   * whatever the clock says the second time.
   */
  lemma LoadIdempotent(fs: Files, now: Instant, later: Instant)
    requires LoadStep(fs, now).0.Ok?
    ensures var (r, fs') := LoadStep(fs, now);
      LoadStep(fs', later) == (r, fs')
  {
    LoadOutcome(fs, now);
  }

  // ---------------------------------------------------------------- save

  /**
   * After a save the active file holds the session with the new timestamp, the backup holds
   * the previous active file verbatim (parseable or not) when there was one, no temporary file
   * of the active session is left, nothing else changes, and the next load returns the saved
   * session without writing.
   */
  lemma SaveOutcome(fs: Files, s: Session, now: Instant, later: Instant)
    ensures var fs' := SaveStep(fs, s, now);
      && fs'[Active] == Doc(s.(lastUpdated := Some(now.iso)))
      && (Active in fs ==> Backup in fs' && fs'[Backup] == fs[Active])
      && (Active !in fs ==> Same(fs, fs', Backup))
      && Tmp(Active) !in fs'
      && AgreeOutside(fs, fs', {Active, Backup, Tmp(Active)})
      && LoadStep(fs', later) == (Ok(s.(lastUpdated := Some(now.iso))), fs')
  {
  }

  /**
   * The backup pays off: if the active file is damaged after a save, the next load returns
   * the session that was active before that save (and makes it active again).
   */
  lemma BackupRecoversPrevious(fs: Files, s: Session, now: Instant, junk: string, later: Instant)
    requires Active in fs && fs[Active].Doc?
    ensures var damaged := SaveStep(fs, s, now)[Active := Garbled(junk)];
      LoadStep(damaged, later).0 == Ok(fs[Active].session)
  {
    var damaged := SaveStep(fs, s, now)[Active := Garbled(junk)];
    assert damaged[Backup] == fs[Active];
  }

  /**
   * The file states a save passes through, each a possible crash point: before anything, the
   * backup half-written (`torn`), the backup written, the temporary file half-written, the
   * temporary file written, and the rename.
   */
  function SaveTrace(fs: Files, s: Session, now: Instant, torn: string): seq<Files> {
    var backedUp := BackedUp(fs);
    var tornBackup := if Active in fs then fs[Backup := Garbled(torn)] else fs;
    [fs, tornBackup, backedUp,
     TempWritten(backedUp, Active, Garbled(torn)),
     TempWritten(backedUp, Active, Doc(Stamped(s, now))),
     SaveStep(fs, s, now)]
  }

  /**
   * Crash safety of a save: the rename is the only commit point. Every state before the last
   * has the old active file untouched, whatever it holds. When that file decodes or is missing,
   * a load after a crash anywhere in the save returns either the old session (the default one
   * if there was no active file) or the new one; for an active file that does not decode, see
   * `SaveCanDestroyBackup`.
   */
  lemma SaveCrashSafe(fs: Files, s: Session, now: Instant, torn: string, later: Instant)
    ensures var trace := SaveTrace(fs, s, now, torn);
      && trace[0] == fs && trace[|trace| - 1] == SaveStep(fs, s, now)
      && (forall i | 0 <= i < |trace| - 1 :: Same(fs, trace[i], Active))
      && ((Active !in fs || fs[Active].Doc?) ==>
            forall i | 0 <= i < |trace| ::
              var r := LoadStep(trace[i], later).0;
              || r == Ok(Stamped(s, now))
              || (Active in fs && r == Ok(fs[Active].session))
              || (Active !in fs && r == Ok(DefaultSession(None, later))))
  {
    var trace := SaveTrace(fs, s, now, torn);
    if Active !in fs || fs[Active].Doc? {
      forall i | 0 <= i < |trace|
        ensures var r := LoadStep(trace[i], later).0;
              || r == Ok(Stamped(s, now))
              || (Active in fs && r == Ok(fs[Active].session))
              || (Active !in fs && r == Ok(DefaultSession(None, later)))
      {
        if i < |trace| - 1 {
          assert Same(fs, trace[i], Active);
        }
      }
    }
  }

  /**
   * As written, a save copies the active file over the backup even when it does not decode.
   * `init_session(overwrite=True)` saves without loading first, so with a damaged active file
   * and a good backup, a crash after the backup copy leaves two damaged files: the load, which
   * returned the backup before the save, now raises. Without a backup the same crash turns a
   * load that created the default session into one that raises. A completed save leaves the
   * damaged copy as the backup too.
   */
  lemma SaveCanDestroyBackup(junk: string, b: Session, id: Option<string>, now: Instant, torn: string, later: Instant)
    ensures var fs := map[Active := Garbled(junk), Backup := Doc(b)];
      var initial := DefaultSession(id, now);
      && LoadStep(fs, later).0 == Ok(b)
      && InitStep(fs, id, true, now).1 == SaveStep(fs, initial, now)
      && LoadStep(SaveTrace(fs, initial, now, torn)[2], later).0 == Err(CorruptBackup)
      && SaveStep(fs, initial, now)[Backup] == Garbled(junk)
      && var bare := map[Active := Garbled(junk)];
      && LoadStep(bare, later).0 == Ok(DefaultSession(None, later))
      && LoadStep(SaveTrace(bare, initial, now, torn)[2], later).0 == Err(CorruptBackup)
  {
    var fs := map[Active := Garbled(junk), Backup := Doc(b)];
    assert BackedUp(fs) == map[Active := Garbled(junk), Backup := Garbled(junk)];
    var bare := map[Active := Garbled(junk)];
    assert BackedUp(bare) == map[Active := Garbled(junk), Backup := Garbled(junk)];
  }

  /** The corrected backup copy: only an active file that decodes replaces the backup. */
  function BackedUpCorrected(fs: Files): Files {
    if Active in fs && fs[Active].Doc? then fs[Backup := fs[Active]] else fs
  }

  /** `save_session` with the corrected backup copy. */
  function SaveStepCorrected(fs: Files, s: Session, now: Instant): (fs': Files)
    ensures Active in fs' && fs'[Active] == Doc(Stamped(s, now))
    ensures Backup in fs' ==> fs'[Backup].Doc? || (Backup in fs && fs'[Backup] == fs[Backup])
  {
    Committed(BackedUpCorrected(fs), Active, Doc(Stamped(s, now)))
  }

  /** The crash points of the corrected save, as in `SaveTrace`. */
  function SaveTraceCorrected(fs: Files, s: Session, now: Instant, torn: string): seq<Files> {
    var backedUp := BackedUpCorrected(fs);
    var tornBackup := if Active in fs && fs[Active].Doc? then fs[Backup := Garbled(torn)] else fs;
    [fs, tornBackup, backedUp,
     TempWritten(backedUp, Active, Garbled(torn)),
     TempWritten(backedUp, Active, Doc(Stamped(s, now))),
     SaveStepCorrected(fs, s, now)]
  }

  /**
   * The corrected save is crash safe for every file state: a load after a crash anywhere in it
   * returns what a load before the save returned, or the new session. It agrees with the
   * source whenever the active file decodes or is missing.
   */
  lemma SaveCorrectedCrashSafe(fs: Files, s: Session, now: Instant, torn: string, later: Instant)
    ensures var trace := SaveTraceCorrected(fs, s, now, torn);
      && trace[0] == fs && trace[|trace| - 1] == SaveStepCorrected(fs, s, now)
      && (forall i | 0 <= i < |trace| - 1 :: Same(fs, trace[i], Active))
      && (forall i | 0 <= i < |trace| ::
            var r := LoadStep(trace[i], later).0;
            r == Ok(Stamped(s, now)) || r == LoadStep(fs, later).0)
      && ((Active !in fs || fs[Active].Doc?) ==> SaveStepCorrected(fs, s, now) == SaveStep(fs, s, now))
  {
    var trace := SaveTraceCorrected(fs, s, now, torn);
    forall i | 0 <= i < |trace|
      ensures var r := LoadStep(trace[i], later).0;
            r == Ok(Stamped(s, now)) || r == LoadStep(fs, later).0
    {
      if i < |trace| - 1 {
        assert Same(fs, trace[i], Active);
        if Active in fs && !fs[Active].Doc? {
          assert Same(fs, trace[i], Backup);
        }
      }
    }
  }

  // ---------------------------------------------------------------- rotation and add_message

  /**
   * Below the threshold a rotation writes nothing. Past it, the archive file named after the
   * session id and the clock holds the already pruned session (ten messages and the merged
   * summary), and no other file changes.
   */
  lemma PruneArchivesPruned(fs: Files, s: Session, now: Instant)
    ensures var (p, fs') := PruneStep(fs, s, now);
      && (!Rotates(s) ==> p == s && fs' == fs)
      && (Rotates(s) ==>
            var name := Archive(ArchiveStem(s.sessionId) + "_" + now.compact + ".json");
            && name in fs' && fs'[name] == Doc(p)
            && |Conversation(p)| == KeepRecentTurns
            && AgreeOutside(fs, fs', {name, Tmp(name)}))
  {
    if Rotates(s) {
      PruneSplitsConversation(s, now);
    }
  }

  /** An invalid role raises before the session is loaded: no file changes. */
  lemma AddMessageRejectsRole(fs: Files, role: string, content: string, now: Instant)
    requires !ValidRole(NormalizeRole(role))
    ensures AddMessageStep(fs, role, content, now) == (Err(InvalidRole), fs)
  {
  }

  /**
   * A successful `add_message` stores at most 20 messages ending with the new one (role
   * normalised), keeps the loaded conversation plus the message when that had fewer than 20,
   * stamps the session, and leaves it as the active file with the loaded file as backup.
   * With a valid role it fails only at the corrupt-backup error of the load, or at the append
   * to a loaded conversation that is null, after the load's own writes.
   */
  lemma AddMessageOutcome(fs: Files, role: string, content: string, now: Instant)
    requires ValidRole(NormalizeRole(role))
    ensures var (r, fs') := AddMessageStep(fs, role, content, now);
      var (loaded, fs1) := LoadStep(fs, now);
      var m := Message(Some(NormalizeRole(role)), content);
      && (r.Err? <==> loaded.Err? || loaded.value.conversation.Null?)
      && (loaded.Err? ==> r.error == CorruptBackup && fs' == fs)
      && (loaded.Ok? && loaded.value.conversation.Null? ==> r.error == NullValue("conversation") && fs' == fs1)
      && (r.Ok? ==>
            var c := Conversation(r.value);
            && 1 <= |c| <= MaxConversationTurns && c[|c| - 1] == m
            && (|Conversation(loaded.value)| < MaxConversationTurns ==> c == Conversation(loaded.value) + [m])
            && r.value.lastUpdated == Some(now.iso)
            && r.value.sessionId == loaded.value.sessionId
            && Active in fs' && Backup in fs' && Active in fs1
            && fs'[Active] == Doc(r.value)
            && fs'[Backup] == fs1[Active])
  {
    var (loaded, fs1) := LoadStep(fs, now);
    LoadOutcome(fs, now);
    var m := Message(Some(NormalizeRole(role)), content);
    if loaded.Err? {
      assert AddMessageStep(fs, role, content, now) == (loaded, fs1);
    } else if loaded.value.conversation.Null? {
      assert AddMessageStep(fs, role, content, now) == (Err(NullValue("conversation")), fs1);
    } else {
      var (pruned, fs2) := PruneStep(fs1, WithMessage(loaded.value, m), now);
      AppendOnLoaded(fs1, loaded.value, m, now);
      assert AddMessageStep(fs, role, content, now) == (Ok(Stamped(pruned, now)), SaveStep(fs2, pruned, now));
    }
  }

  /** The append, rotation and save of `add_message` once a session with a conversation list is loaded. */
  lemma AppendOnLoaded(fs1: Files, s: Session, m: Message, now: Instant)
    requires Active in fs1 && !s.conversation.Null?
    ensures var (pruned, fs2) := PruneStep(fs1, WithMessage(s, m), now);
      var r := Stamped(pruned, now);
      var fs' := SaveStep(fs2, pruned, now);
      var c := Conversation(r);
      && 1 <= |c| <= MaxConversationTurns && c[|c| - 1] == m
      && (|Conversation(s)| < MaxConversationTurns ==> c == Conversation(s) + [m])
      && r.lastUpdated == Some(now.iso)
      && r.sessionId == s.sessionId
      && Active in fs' && Backup in fs'
      && fs'[Active] == Doc(r)
      && fs'[Backup] == fs1[Active]
  {
    var (pruned, fs2) := PruneStep(fs1, WithMessage(s, m), now);
    PruneStepAppends(fs1, s, m, now);
    AppendedSession(s, m, now);
    SaveOutcome(fs2, pruned, now, now);
  }

  /** The rotation step of `add_message` returns the appended, rotated session and keeps the active file. */
  lemma PruneStepAppends(fs1: Files, s: Session, m: Message, now: Instant)
    requires Active in fs1
    ensures var (pruned, fs2) := PruneStep(fs1, WithMessage(s, m), now);
      && pruned == AppendAndPrune(s, m, now)
      && Active in fs2 && fs2[Active] == fs1[Active]
  {
    PruneArchivesPruned(fs1, WithMessage(s, m), now);
  }

  /** The session `add_message` stores, on the conversation part. */
  lemma AppendedSession(s: Session, m: Message, now: Instant)
    requires !s.conversation.Null?
    ensures var r := Stamped(AppendAndPrune(s, m, now), now);
      var c := Conversation(r);
      && 1 <= |c| <= MaxConversationTurns && c[|c| - 1] == m
      && (|Conversation(s)| < MaxConversationTurns ==> c == Conversation(s) + [m])
      && r.lastUpdated == Some(now.iso)
      && r.sessionId == s.sessionId
  {
    var p := AppendAndPrune(s, m, now);
    assert p.sessionId == s.sessionId by {
      PruneKeepsId(WithMessage(s, m), now);
    }
    AppendBounded(s, m, now);
    AppendKeepsSuffix(s, m, now);
    assert Conversation(Stamped(p, now)) == Conversation(p);
  }

  /**
   * The stored conversation after a successful `add_message` is a suffix of the loaded one
   * plus the new message: from 20 loaded messages on, exactly its last 10.
   */
  lemma AddMessageKeepsSuffix(fs: Files, role: string, content: string, now: Instant)
    requires ValidRole(NormalizeRole(role))
    requires AddMessageStep(fs, role, content, now).0.Ok?
    ensures var loaded := LoadStep(fs, now).0.value;
      var c := Conversation(AddMessageStep(fs, role, content, now).0.value);
      var all := Conversation(loaded) + [Message(Some(NormalizeRole(role)), content)];
      && c == all[|all| - |c|..]
      && (|Conversation(loaded)| >= MaxConversationTurns ==> |c| == KeepRecentTurns)
  {
    AddMessageStored(fs, role, content, now);
    AppendKeepsSuffix(LoadStep(fs, now).0.value, Message(Some(NormalizeRole(role)), content), now);
  }

  /** A successful `add_message` stores the loaded session with the message appended, rotated and stamped. */
  lemma AddMessageStored(fs: Files, role: string, content: string, now: Instant)
    requires ValidRole(NormalizeRole(role))
    requires AddMessageStep(fs, role, content, now).0.Ok?
    ensures var loaded := LoadStep(fs, now).0;
      && loaded.Ok? && !loaded.value.conversation.Null?
      && AddMessageStep(fs, role, content, now).0.value
         == Stamped(AppendAndPrune(loaded.value, Message(Some(NormalizeRole(role)), content), now), now)
  {
    var (loaded, fs1) := LoadStep(fs, now);
    if loaded.Ok? {
      var m := Message(Some(NormalizeRole(role)), content);
      assert PruneStep(fs1, WithMessage(loaded.value, m), now).0 == AppendAndPrune(loaded.value, m, now);
    }
  }

  // ---------------------------------------------------------------- init

  /** Without `overwrite`, an existing readable active file is returned and nothing is written. */
  lemma InitKeepsExisting(fs: Files, id: Option<string>, now: Instant)
    requires Active in fs && fs[Active].Doc?
    ensures InitStep(fs, id, false, now) == (Ok(fs[Active].session), fs)
  {
  }

  /**
   * With `overwrite`, or with no active file, a fresh empty session with the given id (or the
   * dated default id) is saved and returned, and the old active file, if any, is the backup.
   */
  lemma InitWritesFresh(fs: Files, id: Option<string>, overwrite: bool, now: Instant)
    requires overwrite || Active !in fs
    ensures var (r, fs') := InitStep(fs, id, overwrite, now);
      && r.Ok? && r.value.conversation == Value([]) && r.value.summary == Value("")
      && r.value.sessionId == Value(DefaultSessionId(id, now))
      && fs'[Active] == Doc(r.value)
      && (Active in fs ==> fs'[Backup] == fs[Active])
  {
  }
}
