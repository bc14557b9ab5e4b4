/** CustomPasswordRetrievalService: gates password retrieval on a flag that
    `initialize()` sets once the broker client is initialised, forwards the
    caller's parameters to `CNLDBConnectMgr.getPasswd`, and turns a null password
    into an exception whose message names the data source. */
module PasswordService {
  import opened Lang
  import opened ConnectMgr

  /** The name the primary data source goes by in messages. */
  const PrimaryLabel: string := "primary"

  /** The message of the IllegalStateException thrown before `initialize()`. */
  function NotInitializedMessage(primary: bool, dsName: JString): string {
    if primary then "CNLDBConnectMgr not initialized for primary datasource."
    else "CNLDBConnectMgr not initialized for datasource: " + Show(dsName)
  }

  /** The prefix the outer catch puts before the message of anything thrown while
      retrieving for the data source `dsLabel`. */
  function WrapPrefix(dsLabel: string): string {
    "Error retrieving password for " + dsLabel + " datasource via CNLDBConnectMgr: "
  }

  /** The message of the RuntimeException thrown for a null password. */
  function NullMessage(dsLabel: string): string {
    "Failed to retrieve password for " + dsLabel + " datasource, CNLDBConnectMgr returned null."
  }

  /** A retrieve method's result: the IllegalStateException when the flag is
      down, otherwise the password `getPasswd` gives for `call`, or the wrapped
      exception when that is null. */
  function Retrieve(initialized: bool, notInitialized: string, dsLabel: string,
    id: Identity, call: GetPasswdCall, env: Environment): (r: Result<JString, Exception>)
    ensures !initialized ==> r == Err(Exception(IllegalState, Str(notInitialized)))
    ensures initialized ==> (r.Ok? <==> GetPasswdSpec(id, call, env) != Null)
    ensures r.Ok? ==> r.value == GetPasswdSpec(id, call, env)
    ensures initialized && r.Err? ==>
      r.error == Exception(Runtime, Str(WrapPrefix(dsLabel) + NullMessage(dsLabel)))
  {
    if !initialized then Err(Exception(IllegalState, Str(notInitialized)))
    else
      var password := GetPasswdSpec(id, call, env);
      if password == Null then Err(Exception(Runtime, Str(WrapPrefix(dsLabel) + NullMessage(dsLabel))))
      else Ok(password)
  }

  /** Before initialisation nothing is asked of the broker: the result is the
      same whatever the call, the environment or the identity. */
  lemma UninitializedIgnoresBroker(notInitialized: string, dsLabel: string,
    id: Identity, call: GetPasswdCall, env: Environment,
    id': Identity, call': GetPasswdCall, env': Environment)
    ensures Retrieve(false, notInitialized, dsLabel, id, call, env) ==
      Retrieve(false, notInitialized, dsLabel, id', call', env')
  {
  }

  /** A password handed back is one the broker's reply with result code 1
      decrypts to, with the key `randomCode + appCode`; an empty one included. */
  lemma RetrievedIsDecrypted(initialized: bool, notInitialized: string, dsLabel: string,
    id: Identity, call: GetPasswdCall, env: Environment)
    requires Retrieve(initialized, notInitialized, dsLabel, id, call, env).Ok?
    ensures var res := Reply(id, call, env).value;
      && initialized
      && Reply(id, call, env).Ok? && res.resultCode == ResponseBean.ResultFound
      && env.decrypt(res.dbUserpwd, Show(res.randomCode) + Show(id.appCheckCode)) ==
           Ok(Retrieve(initialized, notInitialized, dsLabel, id, call, env).value)
  {
    NonNullMeansDecrypted(id, call, env);
  }

  /** Every message thrown once initialised starts with the outer catch's prefix. */
  lemma ErrorsAreWrapped(notInitialized: string, dsLabel: string,
    id: Identity, call: GetPasswdCall, env: Environment)
    requires Retrieve(true, notInitialized, dsLabel, id, call, env).Err?
    ensures var e := Retrieve(true, notInitialized, dsLabel, id, call, env).error;
      e.kind == Runtime && e.message.Str? && StartsWith(e.message.value, WrapPrefix(dsLabel))
  {
    var e := Retrieve(true, notInitialized, dsLabel, id, call, env).error;
    assert e.message.value == WrapPrefix(dsLabel) + NullMessage(dsLabel);
  }

  class CustomPasswordRetrievalService {
    /** The injected configuration of the primary data source. */
    const cndlAuthFilePath: JString
    const primaryCndlNDbType: Int32
    const primaryCndlTns: JString
    const primaryCndlGetPasswdUrl: JString
    const primaryCndlGetPasswdDummyPassword: JString
    /** The process-wide state of CNLDBConnectMgr. */
    const mgr: CNLDBConnectMgr
    var cndlMgrInitialized: bool

    constructor (cndlAuthFilePath: JString, primaryCndlNDbType: Int32, primaryCndlTns: JString,
      primaryCndlGetPasswdUrl: JString, primaryCndlGetPasswdDummyPassword: JString, mgr: CNLDBConnectMgr)
      ensures this.cndlAuthFilePath == cndlAuthFilePath && this.primaryCndlNDbType == primaryCndlNDbType
      ensures this.primaryCndlTns == primaryCndlTns && this.primaryCndlGetPasswdUrl == primaryCndlGetPasswdUrl
      ensures this.primaryCndlGetPasswdDummyPassword == primaryCndlGetPasswdDummyPassword
      ensures this.mgr == mgr
      ensures !cndlMgrInitialized
    {
      this.cndlAuthFilePath := cndlAuthFilePath;
      this.primaryCndlNDbType := primaryCndlNDbType;
      this.primaryCndlTns := primaryCndlTns;
      this.primaryCndlGetPasswdUrl := primaryCndlGetPasswdUrl;
      this.primaryCndlGetPasswdDummyPassword := primaryCndlGetPasswdDummyPassword;
      this.mgr := mgr;
      cndlMgrInitialized := false;
    }

    /** The call `retrievePrimaryPassword(username)` makes. */
    function PrimaryCall(username: JString): (call: GetPasswdCall)
      ensures call.sUser == username && call.nDbType == primaryCndlNDbType
      ensures call.tns == primaryCndlTns && call.url == primaryCndlGetPasswdUrl
      ensures call.passwd == primaryCndlGetPasswdDummyPassword
    {
      GetPasswdCall(primaryCndlNDbType, primaryCndlTns, username, primaryCndlGetPasswdUrl,
        primaryCndlGetPasswdDummyPassword)
    }

    /** `initialize()`: initialises the broker client, then raises the flag. */
    method Initialize()
      modifies this, mgr
      ensures cndlMgrInitialized && mgr.Id() == Initialized
    {
      mgr.Init();
      cndlMgrInitialized := true;
    }

    /** `retrievePrimaryPassword(username)`, with the primary data source's configuration. */
    method RetrievePrimaryPassword(username: JString, env: Environment) returns (r: Result<JString, Exception>)
      ensures r == Retrieve(cndlMgrInitialized, NotInitializedMessage(true, Null), PrimaryLabel,
        mgr.Id(), PrimaryCall(username), env)
    {
      if !cndlMgrInitialized {
        return Err(Exception(IllegalState, Str(NotInitializedMessage(true, Null))));
      }
      var password := mgr.GetPasswd(primaryCndlNDbType, primaryCndlTns, username,
        primaryCndlGetPasswdUrl, primaryCndlGetPasswdDummyPassword, env);
      if password == Null {
        var inner := NullMessage(PrimaryLabel);
        return Err(Exception(Runtime, Str(WrapPrefix(PrimaryLabel) + inner)));
      }
      return Ok(password);
    }

    /** `retrievePassword(username, nDbType, tns, getPasswdUrl, dummyPassword, dsName)`. */
    method RetrievePassword(username: JString, nDbType: Int32, tns: JString, getPasswdUrl: JString,
      dummyPassword: JString, dsName: JString, env: Environment) returns (r: Result<JString, Exception>)
      ensures r == Retrieve(cndlMgrInitialized, NotInitializedMessage(false, dsName), Show(dsName),
        mgr.Id(), GetPasswdCall(nDbType, tns, username, getPasswdUrl, dummyPassword), env)
    {
      if !cndlMgrInitialized {
        return Err(Exception(IllegalState, Str(NotInitializedMessage(false, dsName))));
      }
      var password := mgr.GetPasswd(nDbType, tns, username, getPasswdUrl, dummyPassword, env);
      if password == Null {
        var inner := NullMessage(Show(dsName));
        return Err(Exception(Runtime, Str(WrapPrefix(Show(dsName)) + inner)));
      }
      return Ok(password);
    }
  }
}
