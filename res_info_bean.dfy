/** ResInfoBean: the mutable record a decoded broker reply is stored in. */
module ResponseBean {
  import opened Lang
  import ObjectText

  /** The value held by a ResInfoBean: its six fields in declaration order. */
  datatype ResInfo = ResInfo(
    resultCode: Int32,
    errorMsg: JString,
    dbTns: JString,
    dbUser: JString,
    dbUserpwd: JString,
    randomCode: JString)

  /** The result code meaning the broker found the credentials. */
  const ResultFound: Int32 := 1
  /** The result code meaning the broker reports an error. */
  const ResultError: Int32 := 0

  /** The field initialisers: result code 1, every string empty. */
  const Defaults: ResInfo := ResInfo(ResultFound, Str(""), Str(""), Str(""), Str(""), Str(""))

  /** The fields as `toString` lists them. */
  function Fields(r: ResInfo): (fs: seq<ObjectText.Field>)
    ensures |fs| == 6
  {
    [ObjectText.Field("resultCode", ObjectText.Number(r.resultCode)),
     ObjectText.Field("errorMsg", ObjectText.Quoted(r.errorMsg)),
     ObjectText.Field("dbTns", ObjectText.Quoted(r.dbTns)),
     ObjectText.Field("dbUser", ObjectText.Quoted(r.dbUser)),
     ObjectText.Field("dbUserpwd", ObjectText.Quoted(r.dbUserpwd)),
     ObjectText.Field("randomCode", ObjectText.Quoted(r.randomCode))]
  }

  /** The five string fields, shown as concatenation shows them. */
  function Shown(r: ResInfo): seq<string> {
    [Show(r.errorMsg), Show(r.dbTns), Show(r.dbUser), Show(r.dbUserpwd), Show(r.randomCode)]
  }

  /** No string field contains a single quote. */
  predicate QuoteFree(r: ResInfo) {
    ObjectText.QuoteFree(Fields(r))
  }

  /** `toString()`: `ResInfoBean{` and the six fields in declaration order, the
      result code unquoted, string fields in single quotes. */
  function Render(r: ResInfo): string {
    ObjectText.Render("ResInfoBean", Fields(r))
  }

  /** When no string field contains a single quote, the `toString` text
      determines the result code and how every string field is shown. */
  lemma RenderDeterminesFields(a: ResInfo, b: ResInfo)
    requires QuoteFree(a) && QuoteFree(b)
    requires Render(a) == Render(b)
    ensures a.resultCode == b.resultCode && Shown(a) == Shown(b)
  {
    var fa, fb := Fields(a), Fields(b);
    ObjectText.RenderDeterminesFields("ResInfoBean", fa, fb);
    assert ObjectText.SameText(fa[0].value, fb[0].value);
    assert ObjectText.SameText(fa[1].value, fb[1].value);
    assert ObjectText.SameText(fa[2].value, fb[2].value);
    assert ObjectText.SameText(fa[3].value, fb[3].value);
    assert ObjectText.SameText(fa[4].value, fb[4].value);
    assert ObjectText.SameText(fa[5].value, fb[5].value);
  }

  /** The bean itself: private fields with initialisers, one setter per field.
      A Java getter is a read of the field. */
  class ResInfoBean {
    var resultCode: Int32
    var errorMsg: JString
    var dbTns: JString
    var dbUser: JString
    var dbUserpwd: JString
    var randomCode: JString

    function View(): ResInfo
      reads this
    {
      ResInfo(resultCode, errorMsg, dbTns, dbUser, dbUserpwd, randomCode)
    }

    constructor ()
      ensures View() == Defaults
    {
      resultCode := ResultFound;
      errorMsg := Str("");
      dbTns := Str("");
      dbUser := Str("");
      dbUserpwd := Str("");
      randomCode := Str("");
    }

    method SetResultCode(resultCode: Int32)
      modifies this
      ensures View() == old(View()).(resultCode := resultCode)
    {
      this.resultCode := resultCode;
    }

    method SetErrorMsg(errorMsg: JString)
      modifies this
      ensures View() == old(View()).(errorMsg := errorMsg)
    {
      this.errorMsg := errorMsg;
    }

    method SetDbTns(dbTns: JString)
      modifies this
      ensures View() == old(View()).(dbTns := dbTns)
    {
      this.dbTns := dbTns;
    }

    method SetDbUser(dbUser: JString)
      modifies this
      ensures View() == old(View()).(dbUser := dbUser)
    {
      this.dbUser := dbUser;
    }

    method SetDbUserpwd(dbUserpwd: JString)
      modifies this
      ensures View() == old(View()).(dbUserpwd := dbUserpwd)
    {
      this.dbUserpwd := dbUserpwd;
    }

    method SetRandomCode(randomCode: JString)
      modifies this
      ensures View() == old(View()).(randomCode := randomCode)
    {
      this.randomCode := randomCode;
    }
  }
}
