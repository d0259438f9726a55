/** `main` of the importer: create (or open) the database, import the Claude
    export, then the ChatGPT export, and close the connection. Each adapter
    commits at its end; an exception ends `main`, and the `finally` clause
    closes the connection without committing. */
module Importer {
  import opened Python
  import opened Schema
  import ClaudeImport
  import ChatGPTImport

  /** An export file as `main` finds it: absent (`os.path.exists` is false),
      present but not valid JSON (`json.load` raises), or decoded. */
  datatype ExportFile = Missing | Unparsable | Parsed(data: Value)

  /** What the database file holds after `main`, and whether `main` ended
      without an exception. */
  datatype Outcome = Outcome(stored: Tables, completed: bool)

  /** One adapter run on the committed tables `t`: a missing file is
      skipped, an exception leaves `t` as it was. */
  function Step(t: Tables, file: ExportFile, writes: Value -> Result<seq<Write>>): Outcome
  {
    match file
    case Missing => Outcome(t, true)
    case Unparsable => Outcome(t, false)
    case Parsed(data) =>
      match writes(data)
      case Raised => Outcome(t, false)
      case Ok(ws) => Outcome(Apply(t, ws), true)
  }

  /** Claude first, then ChatGPT, the second only if the first completed. */
  function Run(existing: StoredFile, claude: ExportFile, chatgpt: ExportFile,
               rt: Runtime, claudeIds: nat -> string, chatgptIds: nat -> string): Outcome
  {
    var first := Step(CreateTablesIfNotExists(existing), claude,
                      data => ClaudeImport.FileWrites(data, rt, claudeIds));
    if !first.completed then first
    else Step(first.stored, chatgpt, data => ChatGPTImport.FileWrites(data, rt, chatgptIds))
  }

  /** Runs one adapter on an open database. */
  method ImportOne(db: Database, file: ExportFile, chatgpt: bool, rt: Runtime, ids: nat -> string)
    returns (ok: bool)
    modifies db
    requires db.committed == db.Live()
    ensures ok ==> db.committed == db.Live()
    ensures Outcome(db.committed, ok)
         == Step(old(db.committed), file,
                 if chatgpt then data => ChatGPTImport.FileWrites(data, rt, ids)
                 else data => ClaudeImport.FileWrites(data, rt, ids))
  {
    match file
    case Missing => ok := true;
    case Unparsable => ok := false;
    case Parsed(data) =>
      if chatgpt {
        ok := ChatGPTImport.ImportFile(db, data, rt, ids);
      } else {
        ok := ClaudeImport.ImportFile(db, data, rt, ids);
      }
  }

  /** `main`: the committed tables, which the file keeps after `close`, are
      those Run describes. */
  method ImportAll(existing: StoredFile, claude: ExportFile, chatgpt: ExportFile,
                   rt: Runtime, claudeIds: nat -> string, chatgptIds: nat -> string)
    returns (db: Database, ok: bool)
    ensures Outcome(db.committed, ok) == Run(existing, claude, chatgpt, rt, claudeIds, chatgptIds)
  {
    db := new Database.Create(existing);
    ok := ImportOne(db, claude, false, rt, claudeIds);
    if ok {
      ok := ImportOne(db, chatgpt, true, rt, chatgptIds);
    }
  }

  /** With neither export present, `main` leaves the database as
      `create_database` made it. */
  lemma NothingToImport(existing: StoredFile, rt: Runtime, claudeIds: nat -> string, chatgptIds: nat -> string)
    ensures Run(existing, Missing, Missing, rt, claudeIds, chatgptIds)
         == Outcome(CreateTablesIfNotExists(existing), true)
  {
  }

  /** When the Claude import raises, the ChatGPT export is never read and
      the file keeps exactly what it held before `main`. */
  lemma ClaudeFailureStops(existing: StoredFile, claude: ExportFile, chatgpt: ExportFile,
                           rt: Runtime, claudeIds: nat -> string, chatgptIds: nat -> string)
    requires claude.Unparsable? || (claude.Parsed? && ClaudeImport.FileWrites(claude.data, rt, claudeIds).Raised?)
    ensures Run(existing, claude, chatgpt, rt, claudeIds, chatgptIds)
         == Outcome(CreateTablesIfNotExists(existing), false)
  {
  }

  /** The ChatGPT import runs after the Claude import: wherever both write a
      row under the same id, the ChatGPT row is the one stored. */
  lemma ChatGPTWritesLast(existing: StoredFile, claude: Value, chatgpt: Value,
                          rt: Runtime, claudeIds: nat -> string, chatgptIds: nat -> string)
    requires ClaudeImport.FileWrites(claude, rt, claudeIds).Ok?
    requires ChatGPTImport.FileWrites(chatgpt, rt, chatgptIds).Ok?
    ensures var out := Run(existing, Parsed(claude), Parsed(chatgpt), rt, claudeIds, chatgptIds);
      var last := Apply(EmptyTables(), ChatGPTImport.FileWrites(chatgpt, rt, chatgptIds).value);
      && out.completed
      && (forall id :: id in last.messages ==> id in out.stored.messages && out.stored.messages[id] == last.messages[id])
      && (forall id :: id in last.memories ==> id in out.stored.memories && out.stored.memories[id] == last.memories[id])
      && (forall id :: id in last.conversations ==>
            id in out.stored.conversations && out.stored.conversations[id] == last.conversations[id])
  {
    var t1 := Apply(CreateTablesIfNotExists(existing), ClaudeImport.FileWrites(claude, rt, claudeIds).value);
    ApplyIsOverlay(t1, ChatGPTImport.FileWrites(chatgpt, rt, chatgptIds).value);
  }
}
