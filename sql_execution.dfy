/** SqlExecutionService: runs uploaded SQL scripts on a named data source. It
    resolves the data-source definition, retrieves the password for it, builds
    the data source and runs each file in turn; every path yields one result
    per file, in the order of the files. */
module SqlExecution {
  import opened Lang
  import opened ScriptText
  import opened DataSourceModel
  import opened ConnectMgr
  import opened PasswordService

  /** `ScriptExecutionResult`: the outcome reported for one file. */
  datatype ScriptExecutionResult = ScriptExecutionResult(
    fileName: JString, success: bool, message: string, sqlExecuted: string)

  /** An uploaded file: its original name and its content as the lines read
      and joined, or the exception reading it threw. */
  datatype UploadedFile = UploadedFile(originalFilename: JString, content: Result<string, Exception>)

  /** What the data source is built from. */
  datatype DataSourceSettings = DataSourceSettings(
    url: JString, username: JString, password: string, driverClassName: JString)

  /** The database as the service sees it. `build(settings)` is the exception
      building the data source throws, if any; `execute(settings, history, sql)`
      is the exception executing `sql` throws after the statements `history`
      were sent through the same data source, if any. */
  datatype Jdbc = Jdbc(
    build: DataSourceSettings -> Option<Exception>,
    execute: (DataSourceSettings, seq<string>, string) -> Option<Exception>)

  const EmptyFileMessage: string := "File is empty or could not be read."
  const UnreadableContent: string := "Could not read content"

  function Failure(file: UploadedFile, message: string): ScriptExecutionResult {
    ScriptExecutionResult(file.originalFilename, false, message, "")
  }

  /** The result of every file when the scripts cannot run at all. */
  function FailAll(files: seq<UploadedFile>, message: string): (rs: seq<ScriptExecutionResult>)
    ensures |rs| == |files|
    ensures forall i :: 0 <= i < |files| ==>
      && rs[i].fileName == files[i].originalFilename && !rs[i].success && rs[i].message == message
      && rs[i].sqlExecuted == ""
  {
    seq(|files|, i requires 0 <= i < |files| => Failure(files[i], message))
  }

  // ---------------------------------------------------------------------------
  // One script
  // ---------------------------------------------------------------------------

  /** Running the statements of a plain script: the exception and statement it
      stopped at, if any, how many statements succeeded and every statement sent. */
  datatype PlainRun = PlainRun(failure: Option<(Exception, string)>, executed: nat, submitted: seq<string>)

  /** Runs the non-blank pieces, trimmed, in order, stopping at the first that throws. */
  function RunPieces(db: Jdbc, ds: DataSourceSettings, history: seq<string>, ps: seq<string>): PlainRun
    decreases ps
  {
    if ps == [] then PlainRun(None, 0, [])
    else
      var stmt := Trim(ps[0]);
      if stmt == [] then RunPieces(db, ds, history, ps[1..])
      else
        match db.execute(ds, history, stmt)
        case Some(e) => PlainRun(Some((e, stmt)), 0, [stmt])
        case None =>
          var rest := RunPieces(db, ds, history + [stmt], ps[1..]);
          PlainRun(rest.failure, rest.executed + 1, [stmt] + rest.submitted)
  }

  /** `sent` is where a run stopped in the statements of `stmts`: it sent a
      prefix of them, each after the ones before it; every one but a failing
      last one succeeded; without a failure it sent them all. */
  ghost predicate Stops(db: Jdbc, ds: DataSourceSettings, history: seq<string>, stmts: seq<string>, r: PlainRun) {
    && |r.submitted| <= |stmts| && r.submitted == stmts[..|r.submitted|]
    && (forall n :: 0 <= n < r.executed ==>
          n < |r.submitted| && db.execute(ds, history + r.submitted[..n], r.submitted[n]).None?)
    && (r.failure.None? ==> r.submitted == stmts && r.executed == |stmts|)
    && (r.failure.Some? ==>
          && |r.submitted| == r.executed + 1
          && r.failure.value.1 == r.submitted[r.executed]
          && db.execute(ds, history + r.submitted[..r.executed], r.failure.value.1) ==
               Some(r.failure.value.0))
  }

  /** A plain script sends its statements (the non-blank pieces, trimmed) one
      by one, each after those before it, and stops at the first that throws:
      with no failure every statement ran, and the count is their number. */
  lemma {:induction false} RunPiecesStops(db: Jdbc, ds: DataSourceSettings, history: seq<string>, ps: seq<string>)
    ensures Stops(db, ds, history, Statements(ps), RunPieces(db, ds, history, ps))
    decreases ps
  {
    if ps != [] {
      var stmt := Trim(ps[0]);
      var stmts := Statements(ps[1..]);
      if stmt == [] {
        RunPiecesStops(db, ds, history, ps[1..]);
        assert Statements(ps) == stmts;
      } else if db.execute(ds, history, stmt).None? {
        var rest := RunPieces(db, ds, history + [stmt], ps[1..]);
        RunPiecesStops(db, ds, history + [stmt], ps[1..]);
        StopsCons(db, ds, history, stmt, stmts, rest);
        assert Statements(ps) == [stmt] + stmts;
        assert RunPieces(db, ds, history, ps) ==
          PlainRun(rest.failure, rest.executed + 1, [stmt] + rest.submitted);
      } else {
        StopsFirst(db, ds, history, stmt, stmts);
        assert Statements(ps) == [stmt] + stmts;
      }
    } else {
      assert Statements(ps) == [];
    }
  }

  /** A first statement that throws ends the run. */
  lemma StopsFirst(db: Jdbc, ds: DataSourceSettings, history: seq<string>, stmt: string, stmts: seq<string>)
    requires db.execute(ds, history, stmt).Some?
    ensures Stops(db, ds, history, [stmt] + stmts,
      PlainRun(Some((db.execute(ds, history, stmt).value, stmt)), 0, [stmt]))
  {
    assert ([stmt] + stmts)[..1] == [stmt];
    assert history + [stmt][..0] == history;
  }

  /** A successful first statement in front of a run that stops correctly. */
  lemma StopsCons(db: Jdbc, ds: DataSourceSettings, history: seq<string>, stmt: string,
    stmts: seq<string>, rest: PlainRun)
    requires db.execute(ds, history, stmt).None?
    requires Stops(db, ds, history + [stmt], stmts, rest)
    ensures Stops(db, ds, history, [stmt] + stmts,
      PlainRun(rest.failure, rest.executed + 1, [stmt] + rest.submitted))
  {
    var r := PlainRun(rest.failure, rest.executed + 1, [stmt] + rest.submitted);
    forall n | 0 <= n < r.executed
      ensures n < |r.submitted| && db.execute(ds, history + r.submitted[..n], r.submitted[n]).None?
    {
      if n > 0 {
        assert history + r.submitted[..n] == history + [stmt] + rest.submitted[..n - 1];
      } else {
        assert history + r.submitted[..n] == history;
      }
    }
    if r.failure.Some? {
      assert history + r.submitted[..r.executed] == history + [stmt] + rest.submitted[..rest.executed];
    }
  }

  /** What running one script gives: its result and the statements it sent. */
  datatype ScriptRun = ScriptRun(result: ScriptExecutionResult, submitted: seq<string>)

  function FailedMessage(dataSourceName: JString, e: Exception): string {
    "Failed to execute script on " + Show(dataSourceName) + ": " + Show(e.message)
  }

  /** `executeSingleScript(file, jdbcTemplate, dataSourceName)`: an unreadable
      or blank file fails; otherwise the prepared script runs as a block or as
      plain statements. */
  function RunScript(db: Jdbc, ds: DataSourceSettings, history: seq<string>, file: UploadedFile,
    dataSourceName: JString): (r: ScriptRun)
    ensures r.result.fileName == file.originalFilename
  {
    var fileName := file.originalFilename;
    match file.content
    case Err(e) => ScriptRun(ScriptExecutionResult(fileName, false, FailedMessage(dataSourceName, e), UnreadableContent), [])
    case Ok(raw) =>
      if Trim(raw) == [] then ScriptRun(ScriptExecutionResult(fileName, false, EmptyFileMessage, ""), [])
      else
        var c := Prepare(raw);
        if IsPlSqlBlock(c) then RunBlock(db, ds, history, fileName, c, dataSourceName)
        else RunPlain(db, ds, history, fileName, c, dataSourceName)
  }

  /** The prepared script `c` sent once, whole. */
  function RunBlock(db: Jdbc, ds: DataSourceSettings, history: seq<string>, fileName: JString, c: string,
    dataSourceName: JString): (r: ScriptRun)
    ensures r.result.fileName == fileName && r.result.sqlExecuted == c && r.submitted == [c]
    ensures r.result.success <==> db.execute(ds, history, c).None?
  {
    match db.execute(ds, history, c)
    case Some(e) => ScriptRun(ScriptExecutionResult(fileName, false, FailedMessage(dataSourceName, e), c), [c])
    case None =>
      ScriptRun(ScriptExecutionResult(fileName, true,
        "PL/SQL block executed successfully on " + Show(dataSourceName) + ".", c), [c])
  }

  /** The prepared script `c` split and sent statement by statement. */
  function RunPlain(db: Jdbc, ds: DataSourceSettings, history: seq<string>, fileName: JString, c: string,
    dataSourceName: JString): (r: ScriptRun)
    ensures r.result.fileName == fileName && r.result.sqlExecuted == c
    ensures r.result.success <==> RunPieces(db, ds, history, Split(c)).failure.None?
    ensures r.submitted == RunPieces(db, ds, history, Split(c)).submitted
  {
    var run := RunPieces(db, ds, history, Split(c));
    match run.failure
    case Some((e, stmt)) =>
      ScriptRun(ScriptExecutionResult(fileName, false,
        "Error on " + Show(dataSourceName) + ": " + Show(e.message) + "\nProblematic statement: " + stmt, c),
        run.submitted)
    case None =>
      ScriptRun(ScriptExecutionResult(fileName, true,
        IntToString(run.executed) + " plain SQL statement(s) executed successfully on " +
        Show(dataSourceName) + ".", c),
        run.submitted)
  }

  /** Each of `stmts` succeeds when sent after those before it. */
  ghost predicate AllSucceed(db: Jdbc, ds: DataSourceSettings, history: seq<string>, stmts: seq<string>) {
    forall n :: 0 <= n < |stmts| ==> db.execute(ds, history + stmts[..n], stmts[n]).None?
  }

  /** A run that stops correctly in `stmts` succeeds exactly when every one
      of them succeeds after those before it, and then it sent them all; a
      failed run ends with the statement that threw. */
  lemma StopsSucceeds(db: Jdbc, ds: DataSourceSettings, history: seq<string>, stmts: seq<string>, run: PlainRun)
    requires Stops(db, ds, history, stmts, run)
    ensures run.failure.None? <==> run.submitted == stmts && AllSucceed(db, ds, history, stmts)
    ensures run.failure.None? ==> run.executed == |stmts|
    ensures run.failure.Some? ==>
      && |run.submitted| > 0 && run.failure.value.1 == run.submitted[|run.submitted| - 1]
      && db.execute(ds, history + run.submitted[..|run.submitted| - 1], run.failure.value.1).Some?
  {
    if run.failure.Some? {
      var k := run.executed;
      assert stmts[..k] == run.submitted[..k];
      assert stmts[k] == run.submitted[k];
    } else {
      forall n | 0 <= n < |stmts|
        ensures db.execute(ds, history + stmts[..n], stmts[n]).None?
      {
      }
    }
  }

  /** A run of pieces sends a prefix of their statements and succeeds exactly
      when every statement succeeds after those before it. */
  lemma RunPiecesSucceeds(db: Jdbc, ds: DataSourceSettings, history: seq<string>, ps: seq<string>)
    ensures var run := RunPieces(db, ds, history, ps);
      var stmts := Statements(ps);
      && |run.submitted| <= |stmts| && run.submitted == stmts[..|run.submitted|]
      && (run.failure.None? <==> run.submitted == stmts && AllSucceed(db, ds, history, stmts))
      && (run.failure.None? ==> run.executed == |stmts|)
      && (run.failure.Some? ==>
            && |run.submitted| > 0 && run.failure.value.1 == run.submitted[|run.submitted| - 1]
            && db.execute(ds, history + run.submitted[..|run.submitted| - 1], run.failure.value.1).Some?)
  {
    RunPiecesStops(db, ds, history, ps);
    StopsSucceeds(db, ds, history, Statements(ps), RunPieces(db, ds, history, ps));
  }

  /** A plain script sends a prefix of the statements between its separators,
      in order, and succeeds exactly when it sent them all and each succeeded;
      a success reports how many ran. */
  lemma RunPlainSends(db: Jdbc, ds: DataSourceSettings, history: seq<string>, fileName: JString, c: string,
    dataSourceName: JString)
    ensures var r := RunPlain(db, ds, history, fileName, c, dataSourceName);
      var stmts := Statements(Pieces(c));
      && |r.submitted| <= |stmts| && r.submitted == stmts[..|r.submitted|]
      && (r.result.success <==> r.submitted == stmts && AllSucceed(db, ds, history, stmts))
      && (r.result.success ==> StartsWith(r.result.message, IntToString(|stmts|)))
  {
    RunPiecesSucceeds(db, ds, history, Split(c));
    SplitStatements(c);
    var stmts := Statements(Pieces(c));
    var r := RunPlain(db, ds, history, fileName, c, dataSourceName);
    if r.result.success {
      var m := r.result.message;
      assert m[..|IntToString(|stmts|)|] == IntToString(|stmts|);
    }
  }

  /** A plain script that fails stopped at the last statement it sent: that
      one threw, and the message ends with it. */
  lemma RunPlainReports(db: Jdbc, ds: DataSourceSettings, history: seq<string>, fileName: JString, c: string,
    dataSourceName: JString)
    ensures var r := RunPlain(db, ds, history, fileName, c, dataSourceName);
      !r.result.success ==>
        && |r.submitted| > 0
        && db.execute(ds, history + r.submitted[..|r.submitted| - 1], r.submitted[|r.submitted| - 1]).Some?
        && EndsWith(r.result.message, "\nProblematic statement: " + r.submitted[|r.submitted| - 1])
  {
    var run := RunPieces(db, ds, history, Split(c));
    RunPiecesSucceeds(db, ds, history, Split(c));
    var r := RunPlain(db, ds, history, fileName, c, dataSourceName);
    if run.failure.Some? {
      var head := "Error on " + Show(dataSourceName) + ": " + Show(run.failure.value.0.message);
      var stmt := run.failure.value.1;
      assert r.result.message == head + "\nProblematic statement: " + stmt;
      AppendAssoc(head, "\nProblematic statement: ", stmt);
      AppendEnds(head, "\nProblematic statement: " + stmt);
    }
  }

  /** A script that cannot be read, or is blank, fails and sends nothing; a
      readable one reports the prepared text as executed, and a PL/SQL block
      is sent once, whole, and succeeds exactly when that succeeds. */
  lemma RunScriptSends(db: Jdbc, ds: DataSourceSettings, history: seq<string>, file: UploadedFile,
    dataSourceName: JString)
    ensures var r := RunScript(db, ds, history, file, dataSourceName);
      && r.result.fileName == file.originalFilename
      && (!Readable(file) ==> !r.result.success && r.submitted == [])
      && (Readable(file) ==> r.result.sqlExecuted == Prepare(file.content.value))
      && (Readable(file) && IsPlSqlBlock(Prepare(file.content.value)) ==>
            var c := Prepare(file.content.value);
            r.submitted == [c] && (r.result.success <==> db.execute(ds, history, c).None?))
      && (Readable(file) && !IsPlSqlBlock(Prepare(file.content.value)) ==>
            r == RunPlain(db, ds, history, file.originalFilename, Prepare(file.content.value), dataSourceName))
  {
    if Readable(file) && !IsPlSqlBlock(Prepare(file.content.value)) {
      RunPlainSends(db, ds, history, file.originalFilename, Prepare(file.content.value), dataSourceName);
    }
  }

  /** The file could be read and is not blank. */
  predicate Readable(file: UploadedFile) {
    file.content.Ok? && Trim(file.content.value) != []
  }

  // ---------------------------------------------------------------------------
  // All scripts
  // ---------------------------------------------------------------------------

  /** The results of running `files` in order, and every statement they sent. */
  datatype Batch = Batch(results: seq<ScriptExecutionResult>, submitted: seq<string>)

  function RunAll(db: Jdbc, ds: DataSourceSettings, history: seq<string>, files: seq<UploadedFile>,
    dataSourceName: JString): (b: Batch)
    ensures |b.results| == |files|
    ensures forall i :: 0 <= i < |files| ==> b.results[i].fileName == files[i].originalFilename
    decreases files
  {
    if files == [] then Batch([], [])
    else
      var first := RunScript(db, ds, history, files[0], dataSourceName);
      var rest := RunAll(db, ds, history + first.submitted, files[1..], dataSourceName);
      Batch([first.result] + rest.results, first.submitted + rest.submitted)
  }

  const NotFoundPrefix: string := "Data source definition not found: "

  function RetrievalFailedPrefix(name: JString): string {
    "Failed to retrieve password for data source " + Show(name) + ": "
  }

  function EmptyPasswordMessage(name: JString): string {
    "Retrieved password was empty for data source " + Show(name) + "."
  }

  function BuildFailedPrefix(name: JString): string {
    "Failed to create DataSource for " + Show(name) + ": "
  }

  /** The results once the definition `d` is found and the password retrieval
      gave `password`. */
  function Resolved(files: seq<UploadedFile>, d: DataSourceDefinition, password: Result<JString, Exception>,
    db: Jdbc): seq<ScriptExecutionResult>
  {
    match password
    case Err(e) => FailAll(files, RetrievalFailedPrefix(d.name) + Show(e.message))
    case Ok(p) =>
      if !HasText(p) then FailAll(files, RetrievalFailedPrefix(d.name) + EmptyPasswordMessage(d.name))
      else
        var settings := DataSourceSettings(d.url, d.username, p.value, d.driverClassName);
        match db.build(settings)
        case Some(e) => FailAll(files, BuildFailedPrefix(d.name) + Show(e.message))
        case None => RunAll(db, settings, [], files, d.name).results
  }

  /** Whatever happens, there is one result per file, in the order of the files. */
  lemma ResolvedOnePerFile(files: seq<UploadedFile>, d: DataSourceDefinition,
    password: Result<JString, Exception>, db: Jdbc)
    ensures var rs := Resolved(files, d, password, db);
      |rs| == |files| && forall i :: 0 <= i < |files| ==> rs[i].fileName == files[i].originalFilename
  {
  }

  /** Without a password that has text no data source is built and nothing
      runs: every file fails with the same message, whatever the database. */
  lemma NoPasswordNoDatabase(files: seq<UploadedFile>, d: DataSourceDefinition,
    password: Result<JString, Exception>, db: Jdbc, db': Jdbc)
    requires password.Err? || !HasText(password.value)
    ensures Resolved(files, d, password, db) == Resolved(files, d, password, db')
    ensures forall i :: 0 <= i < |files| ==>
      var r := Resolved(files, d, password, db)[i];
      !r.success && r.sqlExecuted == [] && StartsWith(r.message, RetrievalFailedPrefix(d.name))
  {
    var m := if password.Err? then RetrievalFailedPrefix(d.name) + Show(password.error.message)
      else RetrievalFailedPrefix(d.name) + EmptyPasswordMessage(d.name);
    assert StartsWith(m, RetrievalFailedPrefix(d.name)) by {
      assert m[..|RetrievalFailedPrefix(d.name)|] == RetrievalFailedPrefix(d.name);
    }
  }

  /** The password retrieval a definition calls for: the primary one for a
      definition named exactly "primary", with its user name; the general one,
      with the definition's broker parameters and name, for any other. */
  function PasswordFor(service: CustomPasswordRetrievalService, d: DataSourceDefinition, env: Environment):
    Result<JString, Exception>
    reads service, service.mgr
  {
    if d.name == Str(PrimaryName) then
      Retrieve(service.cndlMgrInitialized, NotInitializedMessage(true, Null), PrimaryLabel,
        service.mgr.Id(), service.PrimaryCall(d.username), env)
    else
      Retrieve(service.cndlMgrInitialized, NotInitializedMessage(false, d.name), Show(d.name),
        service.mgr.Id(),
        GetPasswdCall(d.cndlNdbType, d.cndlTns, d.username, d.cndlGetPasswdUrl, d.cndlGetPasswdDummyPassword),
        env)
  }

  /** The definition named "primary" is served by the primary configuration:
      its own broker parameters play no part, only its user name. */
  lemma PrimaryUsesServiceConfiguration(service: CustomPasswordRetrievalService,
    d: DataSourceDefinition, d': DataSourceDefinition, env: Environment)
    requires d.name == d'.name == Str(PrimaryName) && d.username == d'.username
    ensures PasswordFor(service, d, env) == PasswordFor(service, d', env)
    ensures PasswordFor(service, d, env).Ok? ==>
      PasswordFor(service, d, env).value == GetPasswdSpec(service.mgr.Id(), service.PrimaryCall(d.username), env)
  {
  }

  /** Any other definition has its own parameters forwarded, in order. */
  lemma NamedUsesDefinition(service: CustomPasswordRetrievalService, d: DataSourceDefinition, env: Environment)
    requires d.name != Str(PrimaryName)
    ensures PasswordFor(service, d, env).Ok? ==>
      PasswordFor(service, d, env).value == GetPasswdSpec(service.mgr.Id(),
        GetPasswdCall(d.cndlNdbType, d.cndlTns, d.username, d.cndlGetPasswdUrl, d.cndlGetPasswdDummyPassword), env)
    ensures PasswordFor(service, d, env).Err? && service.cndlMgrInitialized ==>
      StartsWith(PasswordFor(service, d, env).error.message.value, WrapPrefix(Show(d.name)))
  {
    if PasswordFor(service, d, env).Err? && service.cndlMgrInitialized {
      ErrorsAreWrapped(NotInitializedMessage(false, d.name), Show(d.name), service.mgr.Id(),
        GetPasswdCall(d.cndlNdbType, d.cndlTns, d.username, d.cndlGetPasswdUrl, d.cndlGetPasswdDummyPassword), env);
    }
  }

  /** A data source that cannot be built runs nothing: every file fails with
      the build error, whatever the statements would have done. */
  lemma BuildFailureRunsNothing(files: seq<UploadedFile>, d: DataSourceDefinition, p: JString, db: Jdbc, db': Jdbc)
    requires HasText(p) && db'.build == db.build
    requires db.build(DataSourceSettings(d.url, d.username, p.value, d.driverClassName)).Some?
    ensures Resolved(files, d, Ok(p), db) == Resolved(files, d, Ok(p), db')
    ensures forall i :: 0 <= i < |files| ==>
      var r := Resolved(files, d, Ok(p), db)[i];
      !r.success && StartsWith(r.message, BuildFailedPrefix(d.name))
  {
    var e := db.build(DataSourceSettings(d.url, d.username, p.value, d.driverClassName)).value;
    var m := BuildFailedPrefix(d.name) + Show(e.message);
    assert m[..|BuildFailedPrefix(d.name)|] == BuildFailedPrefix(d.name);
  }

  class SqlExecutionService {
    const dataSourceDefinitions: map<string, DataSourceDefinition>
    const passwordRetrievalService: CustomPasswordRetrievalService

    constructor (dataSourceDefinitions: map<string, DataSourceDefinition>,
      passwordRetrievalService: CustomPasswordRetrievalService)
      ensures this.dataSourceDefinitions == dataSourceDefinitions
      ensures this.passwordRetrievalService == passwordRetrievalService
    {
      this.dataSourceDefinitions := dataSourceDefinitions;
      this.passwordRetrievalService := passwordRetrievalService;
    }

    /** `executeSqlScripts(files, dataSourceName)`. */
    method ExecuteSqlScripts(files: seq<UploadedFile>, dataSourceName: JString, env: Environment, db: Jdbc)
      returns (results: seq<ScriptExecutionResult>)
      ensures |results| == |files|
      ensures EffectiveName(dataSourceName) !in dataSourceDefinitions ==>
        results == FailAll(files, NotFoundPrefix + EffectiveName(dataSourceName))
      ensures EffectiveName(dataSourceName) in dataSourceDefinitions ==>
        var d := dataSourceDefinitions[EffectiveName(dataSourceName)];
        results == Resolved(files, d, PasswordFor(passwordRetrievalService, d, env), db)
    {
      var effectiveDataSourceName := EffectiveName(dataSourceName);
      if effectiveDataSourceName !in dataSourceDefinitions {
        results := FailEach(files, NotFoundPrefix + effectiveDataSourceName);
        return;
      }
      var definition := dataSourceDefinitions[effectiveDataSourceName];
      results := RunDefinition(files, definition, env, db);
      ResolvedOnePerFile(files, definition, PasswordFor(passwordRetrievalService, definition, env), db);
    }

    /** The part of `executeSqlScripts` after the definition is found. */
    method RunDefinition(files: seq<UploadedFile>, definition: DataSourceDefinition, env: Environment, db: Jdbc)
      returns (results: seq<ScriptExecutionResult>)
      ensures results == Resolved(files, definition, PasswordFor(passwordRetrievalService, definition, env), db)
    {
      var password: Result<JString, Exception>;
      if definition.name == Str(PrimaryName) {
        password := passwordRetrievalService.RetrievePrimaryPassword(definition.username, env);
      } else {
        password := passwordRetrievalService.RetrievePassword(definition.username, definition.cndlNdbType,
          definition.cndlTns, definition.cndlGetPasswdUrl, definition.cndlGetPasswdDummyPassword,
          definition.name, env);
      }
      assert password == PasswordFor(passwordRetrievalService, definition, env);
      results := RunWithPassword(files, definition, password, db);
    }

    /** The rest of `executeSqlScripts` once the password retrieval gave `password`. */
    static method RunWithPassword(files: seq<UploadedFile>, definition: DataSourceDefinition,
      password: Result<JString, Exception>, db: Jdbc) returns (results: seq<ScriptExecutionResult>)
      ensures results == Resolved(files, definition, password, db)
    {
      if password.Err? {
        results := FailEach(files, RetrievalFailedPrefix(definition.name) + Show(password.error.message));
        return;
      }
      if !HasText(password.value) {
        results := FailEach(files, RetrievalFailedPrefix(definition.name) + EmptyPasswordMessage(definition.name));
        return;
      }
      var settings := DataSourceSettings(definition.url, definition.username, password.value.value,
        definition.driverClassName);
      var buildFailure := db.build(settings);
      if buildFailure.Some? {
        results := FailEach(files, BuildFailedPrefix(definition.name) + Show(buildFailure.value.message));
        return;
      }
      results := ExecuteAll(db, settings, files, definition.name);
    }

    /** The loop over the files, each run after the statements of those before it. */
    static method ExecuteAll(db: Jdbc, settings: DataSourceSettings, files: seq<UploadedFile>, name: JString)
      returns (results: seq<ScriptExecutionResult>)
      ensures results == RunAll(db, settings, [], files, name).results
    {
      results := [];
      var history := [];
      var rest := files;
      ghost var total := RunAll(db, settings, [], files, name);
      while rest != []
        invariant total == Behind(results, history, RunAll(db, settings, history, rest, name))
        decreases |rest|
      {
        var result, submitted := ExecuteSingleScript(rest[0], db, settings, history, name);
        assert total == Behind(results + [result], history + submitted,
          RunAll(db, settings, history + submitted, rest[1..], name)) by {
          BehindNext(db, settings, results, history, rest, name);
        }
        results := results + [result];
        history := history + submitted;
        rest := rest[1..];
      }
    }

    /** One failure per file, all with `message`. */
    static method FailEach(files: seq<UploadedFile>, message: string) returns (results: seq<ScriptExecutionResult>)
      ensures results == FailAll(files, message)
    {
      results := [];
      for i := 0 to |files|
        invariant |results| == i
        invariant forall k :: 0 <= k < i ==> results[k] == Failure(files[k], message)
      {
        results := results + [ScriptExecutionResult(files[i].originalFilename, false, message, "")];
      }
    }

    /** `executeSingleScript(file, jdbcTemplate, dataSourceName)`, with the
        statements sent before it as `history`; also returns what it sent. */
    static method ExecuteSingleScript(file: UploadedFile, db: Jdbc, ds: DataSourceSettings, history: seq<string>,
      dataSourceName: JString) returns (result: ScriptExecutionResult, submitted: seq<string>)
      ensures ScriptRun(result, submitted) == RunScript(db, ds, history, file, dataSourceName)
    {
      var fileName := file.originalFilename;
      submitted := [];
      if file.content.Err? {
        return ScriptExecutionResult(fileName, false, FailedMessage(dataSourceName, file.content.error),
          UnreadableContent), submitted;
      }
      var sqlContent := file.content.value;
      if Trim(sqlContent) == [] {
        return ScriptExecutionResult(fileName, false, EmptyFileMessage, ""), submitted;
      }
      if StartsWith(sqlContent, [Bom]) {
        sqlContent := sqlContent[1..];
      }
      sqlContent := Trim(sqlContent);
      assert sqlContent == Prepare(file.content.value);
      var isPlSqlBlock := IsPlSqlBlock(sqlContent);
      if isPlSqlBlock {
        result, submitted := ExecuteBlock(db, ds, history, fileName, sqlContent, dataSourceName);
      } else {
        result, submitted := ExecutePlain(db, ds, history, fileName, sqlContent, dataSourceName);
      }
    }

    /** The PL/SQL branch: the whole script in one call. */
    static method ExecuteBlock(db: Jdbc, ds: DataSourceSettings, history: seq<string>, fileName: JString,
      sqlContent: string, dataSourceName: JString) returns (result: ScriptExecutionResult, submitted: seq<string>)
      ensures ScriptRun(result, submitted) == RunBlock(db, ds, history, fileName, sqlContent, dataSourceName)
    {
      var failure := db.execute(ds, history, sqlContent);
      submitted := [sqlContent];
      if failure.Some? {
        return ScriptExecutionResult(fileName, false, FailedMessage(dataSourceName, failure.value), sqlContent),
          submitted;
      }
      return ScriptExecutionResult(fileName, true,
        "PL/SQL block executed successfully on " + Show(dataSourceName) + ".", sqlContent), submitted;
    }

    /** The plain branch: the statements one by one, stopping at the first that throws. */
    static method ExecutePlain(db: Jdbc, ds: DataSourceSettings, history: seq<string>, fileName: JString,
      sqlContent: string, dataSourceName: JString) returns (result: ScriptExecutionResult, submitted: seq<string>)
      ensures ScriptRun(result, submitted) == RunPlain(db, ds, history, fileName, sqlContent, dataSourceName)
    {
      var statements := Split(sqlContent);
      var failure, executedCount, sent := ExecuteStatements(db, ds, history, statements);
      if failure.Some? {
        var (e, trimmedStmt) := failure.value;
        return ScriptExecutionResult(fileName, false,
          "Error on " + Show(dataSourceName) + ": " + Show(e.message) +
          "\nProblematic statement: " + trimmedStmt, sqlContent), sent;
      }
      return ScriptExecutionResult(fileName, true,
        IntToString(executedCount) + " plain SQL statement(s) executed successfully on " +
        Show(dataSourceName) + ".", sqlContent), sent;
    }

    /** The loop of the plain branch: each non-blank piece, trimmed, is sent
        after those before it, until one throws. */
    static method ExecuteStatements(db: Jdbc, ds: DataSourceSettings, history: seq<string>, statements: seq<string>)
      returns (failure: Option<(Exception, string)>, executedCount: nat, sent: seq<string>)
      ensures PlainRun(failure, executedCount, sent) == RunPieces(db, ds, history, statements)
    {
      executedCount := 0;
      sent := [];
      var rest := statements;
      ghost var total := RunPieces(db, ds, history, statements);
      assert history + sent == history;
      while rest != []
        invariant total == After(executedCount, sent, RunPieces(db, ds, history + sent, rest))
        decreases |rest|
      {
        AfterStep(db, ds, history, sent, executedCount, rest);
        var trimmedStmt := Trim(rest[0]);
        if trimmedStmt != [] {
          var thrown := db.execute(ds, history + sent, trimmedStmt);
          sent := sent + [trimmedStmt];
          if thrown.Some? {
            return Some((thrown.value, trimmedStmt)), executedCount, sent;
          }
          executedCount := executedCount + 1;
        }
        rest := rest[1..];
      }
      return None, executedCount, sent;
    }
  }

  /** One piece of a plain run: skipped when blank, else sent and, unless it
      throws, followed by the run of the rest after it. */
  lemma RunPiecesStep(db: Jdbc, ds: DataSourceSettings, history: seq<string>, ps: seq<string>)
    requires ps != []
    ensures var stmt := Trim(ps[0]);
      var r := RunPieces(db, ds, history, ps);
      && (stmt == [] ==> r == RunPieces(db, ds, history, ps[1..]))
      && (stmt != [] && db.execute(ds, history, stmt).Some? ==>
            r == PlainRun(Some((db.execute(ds, history, stmt).value, stmt)), 0, [stmt]))
      && (stmt != [] && db.execute(ds, history, stmt).None? ==>
            var rest := RunPieces(db, ds, history + [stmt], ps[1..]);
            r == PlainRun(rest.failure, rest.executed + 1, [stmt] + rest.submitted))
  {
  }

  /** A run of pieces that follows `count` statements already executed and
      the statements `sent`. */
  function After(count: nat, sent: seq<string>, rest: PlainRun): (r: PlainRun)
    ensures r.executed == count + rest.executed && r.failure == rest.failure
    ensures r.submitted == sent + rest.submitted
  {
    PlainRun(rest.failure, count + rest.executed, sent + rest.submitted)
  }

  /** One piece of a run that follows `count` executed statements and the
      statements `sent`: a blank piece is skipped; a statement that throws ends
      the run, having been sent; one that succeeds counts, and the rest runs
      after it. */
  lemma AfterStep(db: Jdbc, ds: DataSourceSettings, history: seq<string>, sent: seq<string>, count: nat,
    ps: seq<string>)
    requires ps != []
    ensures var stmt := Trim(ps[0]);
      var r := After(count, sent, RunPieces(db, ds, history + sent, ps));
      && (stmt == [] ==> r == After(count, sent, RunPieces(db, ds, history + sent, ps[1..])))
      && (stmt != [] && db.execute(ds, history + sent, stmt).Some? ==>
            r == PlainRun(Some((db.execute(ds, history + sent, stmt).value, stmt)), count, sent + [stmt]))
      && (stmt != [] && db.execute(ds, history + sent, stmt).None? ==>
            r == After(count + 1, sent + [stmt], RunPieces(db, ds, history + (sent + [stmt]), ps[1..])))
  {
    var stmt := Trim(ps[0]);
    RunPiecesStep(db, ds, history + sent, ps);
    if stmt != [] && db.execute(ds, history + sent, stmt).None? {
      var rest := RunPieces(db, ds, history + sent + [stmt], ps[1..]);
      AppendAssoc(history, sent, [stmt]);
      AppendAssoc(sent, [stmt], rest.submitted);
    }
  }

  /** A batch that follows the results and the statements of the files before it. */
  function Behind(results: seq<ScriptExecutionResult>, sent: seq<string>, rest: Batch): (b: Batch)
    ensures b.results == results + rest.results && b.submitted == sent + rest.submitted
  {
    Batch(results + rest.results, sent + rest.submitted)
  }

  /** The first file of the rest moves behind. */
  lemma BehindNext(db: Jdbc, ds: DataSourceSettings, results: seq<ScriptExecutionResult>, sent: seq<string>,
    files: seq<UploadedFile>, name: JString)
    requires files != []
    ensures var first := RunScript(db, ds, sent, files[0], name);
      Behind(results, sent, RunAll(db, ds, sent, files, name)) ==
      Behind(results + [first.result], sent + first.submitted,
        RunAll(db, ds, sent + first.submitted, files[1..], name))
  {
    var first := RunScript(db, ds, sent, files[0], name);
    var rest := RunAll(db, ds, sent + first.submitted, files[1..], name);
    RunAllStep(db, ds, sent, files, name);
    AppendAssoc(results, [first.result], rest.results);
    AppendAssoc(sent, first.submitted, rest.submitted);
  }

  lemma AppendAssoc<T>(a: seq<T>, b: seq<T>, c: seq<T>)
    ensures a + (b + c) == a + b + c
  {
  }

  /** One file of a batch, followed by the batch of the rest after it. */
  lemma RunAllStep(db: Jdbc, ds: DataSourceSettings, history: seq<string>, files: seq<UploadedFile>,
    dataSourceName: JString)
    requires files != []
    ensures var first := RunScript(db, ds, history, files[0], dataSourceName);
      var rest := RunAll(db, ds, history + first.submitted, files[1..], dataSourceName);
      RunAll(db, ds, history, files, dataSourceName) ==
        Batch([first.result] + rest.results, first.submitted + rest.submitted)
  {
  }
}
