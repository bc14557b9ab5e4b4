/** CNLDBConnectMgr: fetches a database password from the broker. It fills a
    request bean from the call and the process-wide identity, encodes and posts
    it, decodes the reply and, only for result code 1, decrypts the returned
    password with the key `randomCode + appCode`. Every failure yields null. */
module ConnectMgr {
  import opened Lang
  import opened Xml
  import opened RequestBean
  import opened ResponseBean
  import opened DealXml
  import opened Uig

  /** The values `init()` assigns. */
  const InitAppCheckCode: string := "abcdefg"
  const InitAppName: string := "测试应用"
  const InitServerUrl: string :=
    "http://10.32.40.72:40001/securityserver-1.0-SNAPSHOT/security/querydbuserinfo.do"

  /** The message prefix of the DecodeException thrown for a result code other than 1. */
  const RefusedPrefix: string := "获取密码失败！！，错误信息：："

  /** The three static identity fields. */
  datatype Identity = Identity(appCheckCode: JString, appName: JString, serverUrl: JString)

  const Initialized: Identity := Identity(Str(InitAppCheckCode), Str(InitAppName), Str(InitServerUrl))

  /** The local host's address and name, as `InetAddress` gives them. */
  datatype HostAddress = HostAddress(ip: string, name: string)

  /** `HostUtil.getHostIp`: null when the local host could not be looked up. */
  function HostIp(host: Option<HostAddress>): (r: JString)
    ensures r == Null <==> host.None?
  {
    match host
    case None => Null
    case Some(h) => Str(h.ip)
  }

  /** `HostUtil.getHostName`: null when the local host could not be looked up. */
  function HostName(host: Option<HostAddress>): (r: JString)
    ensures r == Null <==> host.None?
  {
    match host
    case None => Null
    case Some(h) => Str(h.name)
  }

  /** The arguments of `getPasswd(nDbType, tns, sUser, url, passwd)`. */
  datatype GetPasswdCall = GetPasswdCall(nDbType: Int32, tns: JString, sUser: JString, url: JString, passwd: JString)

  /** What `getPasswd` depends on besides its arguments and the identity: the
      local host lookup, the XML writer and parser, the network and `DecodeUtil.decrypt`. */
  datatype Environment = Environment(
    host: Option<HostAddress>,
    xml: XmlUtil,
    net: Network,
    decrypt: (JString, string) -> Result<JString, Exception>)

  /** The bean `setReq` fills, with the configuration-file flag `getPasswd` then sets. */
  function RequestFor(id: Identity, call: GetPasswdCall, host: Option<HostAddress>): ReqInfo {
    RequestBean.Defaults.(
      dbType := call.nDbType, dbTns := call.tns, dbUser := call.sUser, dbUserpwd := call.passwd,
      url := id.serverUrl, hostApp := id.appName, appCode := id.appCheckCode,
      hostIp := HostIp(host), hostName := HostName(host), cfgFileFlag := Str(CfgFileOnHost))
  }

  /** Where `getPasswd` stops, and with what. */
  datatype Outcome =
    | EncodeFailed(e: Exception)
    | SendFailed(e: Exception)
    | ParseFailed(e: Exception)
    | DecodeFailed(f: DecodeFailure)
    | Refused(e: Exception)
    | DecryptFailed(e: Exception)
    | Decrypted(password: JString)

  /** The request text: what `encodeXML` gives for the bean, that is the
      exception `setText` throws for a null field, or the XML writer's result. */
  function RequestText(id: Identity, call: GetPasswdCall, env: Environment): Result<string, Exception> {
    var r := RequestFor(id, call, env.host);
    if Encodable(r) then env.xml.toXml(RequestDocument(r)) else Err(NullTextError)
  }

  /** The fields of the call and the identity that go into the envelope as
      text are non-null, and the local host was looked up. */
  predicate NoNullText(id: Identity, call: GetPasswdCall, host: Option<HostAddress>) {
    host.Some? && call.tns.Str? && call.sUser.Str? && call.passwd.Str? &&
    id.appName.Str? && id.appCheckCode.Str?
  }

  /** The bean `getPasswd` fills can be encoded exactly when no text it
      carries is null; the server url and the caller's url play no part. */
  lemma EncodableExactly(id: Identity, call: GetPasswdCall, host: Option<HostAddress>)
    ensures Encodable(RequestFor(id, call, host)) <==> NoNullText(id, call, host)
  {
  }

  /** A null text (a null argument, an uninitialised identity, a failed host
      lookup) makes `encodeXML` throw: `getPasswd` returns null, and it does
      so before anything is posted, whatever the network does. */
  lemma NullTextGivesNull(id: Identity, call: GetPasswdCall, env: Environment, net: Network)
    requires !NoNullText(id, call, env.host)
    ensures Pipeline(id, call, env) == EncodeFailed(NullTextError)
    ensures GetPasswdSpec(id, call, env) == Null
    ensures GetPasswdSpec(id, call, env.(net := net)) == Null
  {
    EncodableExactly(id, call, env.host);
  }

  /** The decoded reply, or where the pipeline stopped before it. */
  function Reply(id: Identity, call: GetPasswdCall, env: Environment): Result<ResInfo, Outcome> {
    match RequestText(id, call, env)
    case Err(e) => Err(EncodeFailed(e))
    case Ok(text) => ReplyTo(id.serverUrl, text, env)
  }

  /** The decoded reply to the request text `text` posted to `url`. */
  function ReplyTo(url: JString, text: string, env: Environment): Result<ResInfo, Outcome> {
    match PostMessage(url, "utf-8", text, env.net, 0).result
    case Err(e) => Err(SendFailed(e))
    case Ok(body) =>
      match env.xml.fromXml(body)
      case Err(e) => Err(ParseFailed(e))
      case Ok(doc) =>
        match DecodeResponse(doc)
        case Err(f) => Err(DecodeFailed(f))
        case Ok(res) => Ok(res)
  }

  /** The whole pipeline of `getPasswd`. */
  function Pipeline(id: Identity, call: GetPasswdCall, env: Environment): Outcome {
    Settle(Reply(id, call, env), id.appCheckCode, env)
  }

  /** The end of the pipeline: a reply with result code 1 is decrypted with
      the key `randomCode + appCode`; any other code is refused. */
  function Settle(reply: Result<ResInfo, Outcome>, appCode: JString, env: Environment): Outcome {
    match reply
    case Err(o) => o
    case Ok(res) =>
      if res.resultCode == ResultFound then
        match env.decrypt(res.dbUserpwd, Show(res.randomCode) + Show(appCode))
        case Err(e) => DecryptFailed(e)
        case Ok(p) => Decrypted(p)
      else
        Refused(Exception(Decode, Str(RefusedPrefix + Show(res.errorMsg))))
  }

  /** What `getPasswd` returns for an outcome: the password, or null. */
  function PasswordOf(o: Outcome): (r: JString)
    ensures r != Null ==> o.Decrypted?
  {
    match o
    case Decrypted(p) => p
    case _ => Null
  }

  /** `getPasswd`'s result: the decrypted password, or null wherever it stopped. */
  function GetPasswdSpec(id: Identity, call: GetPasswdCall, env: Environment): JString {
    PasswordOf(Pipeline(id, call, env))
  }

  /** What the broker reads from the request: the caller's database type, tns,
      user and password, the host's name and ip, the identity's application
      name and check code, and the flag 1, in the envelope's order; the
      caller's url is not among them. */
  lemma BrokerReadsCall(id: Identity, call: GetPasswdCall, host: Option<HostAddress>)
    requires NoNullText(id, call, host)
    ensures Encodable(RequestFor(id, call, host))
    ensures ParseRequest(RequestDocument(RequestFor(id, call, host))) ==
      Some(Request(call.nDbType, call.tns.value, call.sUser.value, host.value.name,
        host.value.ip, id.appName.value, id.appCheckCode.value, call.passwd.value,
        CfgFileOnHost))
  {
    RequestRoundTrip(RequestFor(id, call, host));
  }

  /** The `url` argument of `getPasswd` changes nothing. */
  lemma UrlIgnored(id: Identity, call: GetPasswdCall, env: Environment, url: JString)
    ensures Pipeline(id, call.(url := url), env) == Pipeline(id, call, env)
    ensures GetPasswdSpec(id, call.(url := url), env) == GetPasswdSpec(id, call, env)
  {
    assert RequestFor(id, call.(url := url), env.host) == RequestFor(id, call, env.host);
  }

  /** The network is asked only to post the rendered request, as utf-8, to
      the identity's server url, at most `MaxSendTimes` times: a network that
      answers those posts alike gives the same result, whatever else it does. */
  lemma PostsToServerUrl(id: Identity, call: GetPasswdCall, env: Environment, net: Network)
    requires RequestText(id, call, env).Ok?
    requires forall k :: 1 <= k <= MaxSendTimes ==>
      net(k, NewPost(id.serverUrl, "utf-8", RequestText(id, call, env).value)) ==
        env.net(k, NewPost(id.serverUrl, "utf-8", RequestText(id, call, env).value))
    ensures Pipeline(id, call, env.(net := net)) == Pipeline(id, call, env)
    ensures GetPasswdSpec(id, call, env.(net := net)) == GetPasswdSpec(id, call, env)
  {
    var text := RequestText(id, call, env).value;
    assert RequestText(id, call, env.(net := net)) == Ok(text);
    PostMessageSameNet(id.serverUrl, "utf-8", text, net, env.net, 0);
    assert ReplyTo(id.serverUrl, text, env.(net := net)) == ReplyTo(id.serverUrl, text, env);
  }

  /** Only a decoded reply with result code 1 is decrypted, with the key
      `randomCode + appCode`; the password it yields, null or empty included,
      is the result. A reply with any other code gives null whatever the cipher. */
  lemma OnlyResultOneDecrypts(id: Identity, call: GetPasswdCall, env: Environment,
    decrypt: (JString, string) -> Result<JString, Exception>)
    ensures Reply(id, call, env).Ok? && Reply(id, call, env).value.resultCode == ResultFound ==>
      var res := Reply(id, call, env).value;
      GetPasswdSpec(id, call, env) ==
        match env.decrypt(res.dbUserpwd, Show(res.randomCode) + Show(id.appCheckCode))
        case Ok(p) => p
        case Err(_) => Null
    ensures Reply(id, call, env).Ok? && Reply(id, call, env).value.resultCode != ResultFound ==>
      GetPasswdSpec(id, call, env) == Null &&
      GetPasswdSpec(id, call, env.(decrypt := decrypt)) == Null
    ensures Reply(id, call, env).Err? ==> GetPasswdSpec(id, call, env) == Null
  {
    ReplyIgnoresDecrypt(id, call, env, decrypt);
  }

  /** The cipher plays no part before the reply is decoded. */
  lemma ReplyIgnoresDecrypt(id: Identity, call: GetPasswdCall, env: Environment,
    decrypt: (JString, string) -> Result<JString, Exception>)
    ensures Reply(id, call, env.(decrypt := decrypt)) == Reply(id, call, env)
  {
    assert RequestText(id, call, env.(decrypt := decrypt)) == RequestText(id, call, env);
  }

  /** A non-null result is a decrypted password. */
  lemma NonNullMeansDecrypted(id: Identity, call: GetPasswdCall, env: Environment)
    requires GetPasswdSpec(id, call, env) != Null
    ensures Reply(id, call, env).Ok? && Reply(id, call, env).value.resultCode == ResultFound
    ensures var res := Reply(id, call, env).value;
      env.decrypt(res.dbUserpwd, Show(res.randomCode) + Show(id.appCheckCode)) ==
        Ok(GetPasswdSpec(id, call, env))
  {
  }

  /** When the first attempt is answered with status 200 and a body that
      parses to the document a broker writes for a found password, the result
      is that password decrypted with the reply's random code and the check code. */
  lemma FoundOnFirstAttempt(id: Identity, call: GetPasswdCall, env: Environment, body: JString, res: ResInfo)
    requires WellFormedReply(res) && res.resultCode == ResultFound
    requires RequestText(id, call, env).Ok?
    requires env.net(1, NewPost(id.serverUrl, "utf-8", RequestText(id, call, env).value)) ==
      Answered(StatusOk, body)
    requires env.xml.fromXml(body) == Ok(ReplyDocument(res))
    ensures GetPasswdSpec(id, call, env) ==
      match env.decrypt(res.dbUserpwd, Show(res.randomCode) + Show(id.appCheckCode))
      case Ok(p) => p
      case Err(_) => Null
  {
    var text := RequestText(id, call, env).value;
    PostMessageUnfold(id.serverUrl, "utf-8", text, env.net, 0);
    ReplyRoundTrip(res);
    assert Reply(id, call, env) == Ok(res);
  }

  /** The static state of CNLDBConnectMgr. */
  class CNLDBConnectMgr {
    var appCheckCode: JString
    var appName: JString
    var serverUrl: JString

    function Id(): Identity
      reads this
    {
      Identity(appCheckCode, appName, serverUrl)
    }

    /** Static fields start out null. */
    constructor ()
      ensures Id() == Identity(Null, Null, Null)
    {
      appCheckCode := Null;
      appName := Null;
      serverUrl := Null;
    }

    /** `init()`: assigns the fixed identity. */
    method Init()
      modifies this
      ensures Id() == Initialized
    {
      appCheckCode := Str(InitAppCheckCode);
      appName := Str(InitAppName);
      serverUrl := Str(InitServerUrl);
    }

    /** `setReq(nDbType, tns, sUser, passwd)`: a fresh bean filled through its setters. */
    method SetReq(nDbType: Int32, tns: JString, sUser: JString, passwd: JString, host: Option<HostAddress>)
      returns (bean: ReqInfoBean)
      ensures fresh(bean)
      ensures bean.View() ==
        RequestFor(Id(), GetPasswdCall(nDbType, tns, sUser, Null, passwd), host).(cfgFileFlag := Str(CfgFileOnHost))
    {
      bean := new ReqInfoBean();
      bean.SetDbType(nDbType);
      bean.SetDbTns(tns);
      bean.SetDbUser(sUser);
      bean.SetDbUserpwd(passwd);
      bean.SetUrl(serverUrl);
      bean.SetHostApp(appName);
      bean.SetAppCode(appCheckCode);
      bean.SetHostIp(HostIp(host));
      bean.SetHostName(HostName(host));
    }

    /** `getPasswd(nDbType, tns, sUser, url, passwd)`. */
    method GetPasswd(nDbType: Int32, tns: JString, sUser: JString, url: JString, passwd: JString, env: Environment)
      returns (r: JString)
      ensures r == GetPasswdSpec(Id(), GetPasswdCall(nDbType, tns, sUser, url, passwd), env)
    {
      ghost var call := GetPasswdCall(nDbType, tns, sUser, url, passwd);
      UrlIgnored(Id(), GetPasswdCall(nDbType, tns, sUser, Null, passwd), env, url);
      var reqInfoBean := SetReq(nDbType, tns, sUser, passwd, env.host);
      reqInfoBean.SetCfgFileFlag(Str(CfgFileOnHost));
      assert reqInfoBean.View() == RequestFor(Id(), call, env.host);
      var reqStr := EncodeXml(reqInfoBean, env.xml);
      if reqStr.Err? {
        return Null;
      }
      r := Exchange(reqStr.value, reqInfoBean.url, reqInfoBean.appCode, env);
    }

    /** The rest of `getPasswd` once the request text is rendered: post it to
        `url`, parse and decode the reply and decrypt with `appCode`, the
        values the request bean carries. */
    static method Exchange(reqStr: string, url: JString, appCode: JString, env: Environment)
      returns (r: JString)
      ensures r == PasswordOf(Settle(ReplyTo(url, reqStr, env), appCode, env))
    {
      var uigClient := new UigClient(url);
      var resMsg, outcomes, released := uigClient.RequestService(reqStr, env.net);
      if resMsg.Err? {
        return Null;
      }
      var doc := env.xml.fromXml(resMsg.value);
      if doc.Err? {
        return Null;
      }
      var decoded := DecodeXml(doc.value);
      if decoded.Err? {
        return Null;
      }
      r := Conclude(decoded.value, appCode, env);
    }

    /** The last step of `getPasswd`: a decoded reply with result code 1 is
        decrypted with the key `randomCode + appCode`; anything else is null. */
    static method Conclude(resInfoBean: ResInfoBean, appCode: JString, env: Environment) returns (r: JString)
      ensures r == PasswordOf(Settle(Ok(resInfoBean.View()), appCode, env))
    {
      if resInfoBean.resultCode == ResultFound {
        var desKey := Show(resInfoBean.randomCode) + Show(appCode);
        var decodePassword := env.decrypt(resInfoBean.dbUserpwd, desKey);
        if decodePassword.Err? {
          return Null;
        }
        return decodePassword.value;
      } else {
        return Null;
      }
    }
  }
}
