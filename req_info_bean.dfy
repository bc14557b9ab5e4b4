/** ReqInfoBean: the mutable record the broker client fills before encoding a
    password request. */
module RequestBean {
  import opened Lang
  import ObjectText

  /** The value held by a ReqInfoBean: its ten fields in declaration order. */
  datatype ReqInfo = ReqInfo(
    url: JString,
    dbType: Int32,
    dbTns: JString,
    dbUser: JString,
    hostName: JString,
    hostIp: JString,
    hostApp: JString,
    appCode: JString,
    dbUserpwd: JString,
    cfgFileFlag: JString)

  /** Database kind codes named in the bean's comments: 1 TT, 2 Oracle, 3 MySQL. */
  const DbTypeTT: Int32 := 1
  const DbTypeOracle: Int32 := 2
  const DbTypeMySql: Int32 := 3

  /** Configuration-file flag values: 1 the file is on the host, 2 inside the jar. */
  const CfgFileOnHost: string := "1"
  const CfgFileInJar: string := "2"

  /** The field initialisers: every string empty, Oracle, configuration on the host. */
  const Defaults: ReqInfo := ReqInfo(
    Str(""), DbTypeOracle, Str(""), Str(""), Str(""), Str(""), Str(""), Str(""), Str(""),
    Str(CfgFileOnHost))

  /** The fields as `toString` lists them. */
  function Fields(r: ReqInfo): (fs: seq<ObjectText.Field>)
    ensures |fs| == 10
  {
    [ObjectText.Field("url", ObjectText.Quoted(r.url)),
     ObjectText.Field("dbType", ObjectText.Number(r.dbType)),
     ObjectText.Field("dbTns", ObjectText.Quoted(r.dbTns)),
     ObjectText.Field("dbUser", ObjectText.Quoted(r.dbUser)),
     ObjectText.Field("hostName", ObjectText.Quoted(r.hostName)),
     ObjectText.Field("hostIp", ObjectText.Quoted(r.hostIp)),
     ObjectText.Field("hostApp", ObjectText.Quoted(r.hostApp)),
     ObjectText.Field("appCode", ObjectText.Quoted(r.appCode)),
     ObjectText.Field("dbUserpwd", ObjectText.Quoted(r.dbUserpwd)),
     ObjectText.Field("cfgFileFlag", ObjectText.Quoted(r.cfgFileFlag))]
  }

  /** The nine string fields of a request, shown as concatenation shows them. */
  function Shown(r: ReqInfo): seq<string> {
    [Show(r.url), Show(r.dbTns), Show(r.dbUser), Show(r.hostName), Show(r.hostIp),
     Show(r.hostApp), Show(r.appCode), Show(r.dbUserpwd), Show(r.cfgFileFlag)]
  }

  /** No string field contains a single quote. */
  predicate QuoteFree(r: ReqInfo) {
    ObjectText.QuoteFree(Fields(r))
  }

  /** `toString()`: `ReqInfoBean{` and the ten fields in declaration order,
      string fields in single quotes, the database type unquoted. */
  function Render(r: ReqInfo): string {
    ObjectText.Render("ReqInfoBean", Fields(r))
  }

  /** When no string field contains a single quote, the `toString` text
      determines the database type and how every string field is shown. */
  lemma RenderDeterminesFields(a: ReqInfo, b: ReqInfo)
    requires QuoteFree(a) && QuoteFree(b)
    requires Render(a) == Render(b)
    ensures a.dbType == b.dbType && Shown(a) == Shown(b)
  {
    var fa, fb := Fields(a), Fields(b);
    ObjectText.RenderDeterminesFields("ReqInfoBean", fa, fb);
    assert ObjectText.SameText(fa[1].value, fb[1].value);
    assert ObjectText.SameText(fa[0].value, fb[0].value);
    assert ObjectText.SameText(fa[2].value, fb[2].value);
    assert ObjectText.SameText(fa[3].value, fb[3].value);
    assert ObjectText.SameText(fa[4].value, fb[4].value);
    assert ObjectText.SameText(fa[5].value, fb[5].value);
    assert ObjectText.SameText(fa[6].value, fb[6].value);
    assert ObjectText.SameText(fa[7].value, fb[7].value);
    assert ObjectText.SameText(fa[8].value, fb[8].value);
    assert ObjectText.SameText(fa[9].value, fb[9].value);
  }

  /** The bean itself: private fields with initialisers, one setter per field.
      A Java getter is a read of the field. */
  class ReqInfoBean {
    var url: JString
    var dbType: Int32
    var dbTns: JString
    var dbUser: JString
    var hostName: JString
    var hostIp: JString
    var hostApp: JString
    var appCode: JString
    var dbUserpwd: JString
    var cfgFileFlag: JString

    function View(): ReqInfo
      reads this
    {
      ReqInfo(url, dbType, dbTns, dbUser, hostName, hostIp, hostApp, appCode, dbUserpwd,
        cfgFileFlag)
    }

    constructor ()
      ensures View() == Defaults
    {
      url := Str("");
      dbType := DbTypeOracle;
      dbTns := Str("");
      dbUser := Str("");
      hostName := Str("");
      hostIp := Str("");
      hostApp := Str("");
      appCode := Str("");
      dbUserpwd := Str("");
      cfgFileFlag := Str(CfgFileOnHost);
    }

    method SetUrl(url: JString)
      modifies this
      ensures View() == old(View()).(url := url)
    {
      this.url := url;
    }

    /** Any int is accepted, not only the three documented codes. */
    method SetDbType(dbType: Int32)
      modifies this
      ensures View() == old(View()).(dbType := dbType)
    {
      this.dbType := dbType;
    }

    method SetDbTns(dbTns: JString)
      modifies this
      ensures View() == old(View()).(dbTns := dbTns)
    {
      this.dbTns := dbTns;
    }

    method SetDbUser(dbUser: JString)
      modifies this
      ensures View() == old(View()).(dbUser := dbUser)
    {
      this.dbUser := dbUser;
    }

    method SetHostName(hostName: JString)
      modifies this
      ensures View() == old(View()).(hostName := hostName)
    {
      this.hostName := hostName;
    }

    method SetHostIp(hostIp: JString)
      modifies this
      ensures View() == old(View()).(hostIp := hostIp)
    {
      this.hostIp := hostIp;
    }

    method SetHostApp(hostApp: JString)
      modifies this
      ensures View() == old(View()).(hostApp := hostApp)
    {
      this.hostApp := hostApp;
    }

    method SetAppCode(appCode: JString)
      modifies this
      ensures View() == old(View()).(appCode := appCode)
    {
      this.appCode := appCode;
    }

    method SetDbUserpwd(dbUserpwd: JString)
      modifies this
      ensures View() == old(View()).(dbUserpwd := dbUserpwd)
    {
      this.dbUserpwd := dbUserpwd;
    }

    method SetCfgFileFlag(cfgFileFlag: JString)
      modifies this
      ensures View() == old(View()).(cfgFileFlag := cfgFileFlag)
    {
      this.cfgFileFlag := cfgFileFlag;
    }
  }
}
