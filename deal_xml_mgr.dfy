/** DealXMLMgr: the request envelope the broker client sends and the reading of
    the broker's reply into a ResInfoBean. The broker side (reading a request,
    writing a reply) is modelled too, as the partner each direction is proved
    against. */
module DealXml {
  import opened Lang
  import opened Xml
  import opened RequestBean
  import opened ResponseBean

  const RequestRoot: string := "operation_in"
  const ContentTag: string := "content"

  /** The request leaves, in the order `encodeXML` adds them. */
  const RequestTags: seq<string> :=
    ["dbtype", "dbtns", "dbuser", "hostname", "hostip", "hostapp", "appcode", "dbuserpwd", "remark"]

  /** The text of each request leaf: the database type in decimal, the
      configuration-file flag as `remark`, every other field as it is. */
  function RequestTexts(r: ReqInfo): seq<JString> {
    [Str(IntToString(r.dbType)), r.dbTns, r.dbUser, r.hostName, r.hostIp, r.hostApp, r.appCode,
     r.dbUserpwd, r.cfgFileFlag]
  }

  /** Every field `encodeXML` sets as text is non-null: `setText(null)`
      throws, so these are the beans it can encode. */
  predicate Encodable(r: ReqInfo) {
    r.dbTns.Str? && r.dbUser.Str? && r.hostName.Str? && r.hostIp.Str? && r.hostApp.Str? &&
    r.appCode.Str? && r.dbUserpwd.Str? && r.cfgFileFlag.Str?
  }

  /** The leaves of `content`, one per tag of `RequestTags`. */
  function RequestLeaves(r: ReqInfo): (cs: seq<Element>)
    requires Encodable(r)
    ensures |cs| == |RequestTags|
    ensures forall i :: 0 <= i < |cs| ==>
      cs[i] == Leaf(RequestTags[i], RequestTexts(r)[i].value)
  {
    [Leaf("dbtype", IntToString(r.dbType)), Leaf("dbtns", r.dbTns.value), Leaf("dbuser", r.dbUser.value),
     Leaf("hostname", r.hostName.value), Leaf("hostip", r.hostIp.value), Leaf("hostapp", r.hostApp.value),
     Leaf("appcode", r.appCode.value), Leaf("dbuserpwd", r.dbUserpwd.value),
     Leaf("remark", r.cfgFileFlag.value)]
  }

  /** The document `encodeXML` builds for a bean holding `r`: the root
      `operation_in` with the single child `content`, holding the leaves. */
  function RequestDocument(r: ReqInfo): (d: Document)
    requires Encodable(r)
    ensures d.root.tag == RequestRoot && |d.root.children| == 1
    ensures d.root.children[0].tag == ContentTag
    ensures d.root.children[0].children == RequestLeaves(r)
  {
    Document(Element(RequestRoot, "", [Element(ContentTag, "", RequestLeaves(r))]))
  }

  /** `content.addElement(tag).setText(text)`: the new leaf, or what
      `setText` throws. */
  function AddLeaf(content: Element, tag: string, text: JString): (r: Result<Element, Exception>)
    ensures r.Err? <==> text == Null
    ensures r.Err? ==> r.error == NullTextError
    ensures r.Ok? ==> r.value == AddChild(content, Leaf(tag, text.value))
  {
    match SetText(NewElement(tag), text)
    case Err(e) => Err(e)
    case Ok(leaf) => Ok(AddChild(content, leaf))
  }

  /** No tag occurs twice among the request leaves. */
  lemma RequestTagsDistinct()
    ensures forall i, j :: 0 <= i < j < |RequestTags| ==> RequestTags[i] != RequestTags[j]
  {
  }

  /** `encodeXML(bean)`: grows the envelope one element at a time, then renders
      it with the supplied XML writer, whose failure is passed on. A null field
      makes `setText` throw, and nothing is rendered. */
  method EncodeXml(bean: ReqInfoBean, xml: XmlUtil) returns (r: Result<string, Exception>)
    ensures !Encodable(bean.View()) ==> r == Err(NullTextError)
    ensures Encodable(bean.View()) ==> r == xml.toXml(RequestDocument(bean.View()))
  {
    var root := NewElement(RequestRoot);
    var content := NewElement(ContentTag);
    content := AddChild(content, Leaf("dbtype", IntToString(bean.dbType)));
    var step := AddLeaf(content, "dbtns", bean.dbTns);
    if step.Err? { return Err(step.error); }
    step := AddLeaf(step.value, "dbuser", bean.dbUser);
    if step.Err? { return Err(step.error); }
    step := AddLeaf(step.value, "hostname", bean.hostName);
    if step.Err? { return Err(step.error); }
    step := AddLeaf(step.value, "hostip", bean.hostIp);
    if step.Err? { return Err(step.error); }
    step := AddLeaf(step.value, "hostapp", bean.hostApp);
    if step.Err? { return Err(step.error); }
    step := AddLeaf(step.value, "appcode", bean.appCode);
    if step.Err? { return Err(step.error); }
    step := AddLeaf(step.value, "dbuserpwd", bean.dbUserpwd);
    if step.Err? { return Err(step.error); }
    step := AddLeaf(step.value, "remark", bean.cfgFileFlag);
    if step.Err? { return Err(step.error); }
    content := step.value;
    root := AddChild(root, content);
    var doc := Document(root);
    assert content.children == RequestLeaves(bean.View());
    assert root == RequestDocument(bean.View()).root;
    r := xml.toXml(doc);
  }

  // ---------------------------------------------------------------------------
  // The broker reading a request
  // ---------------------------------------------------------------------------

  /** What the broker learns from a request: the database type and the texts
      of the other eight leaves, `remark` holding the configuration-file flag. */
  datatype Request = Request(dbType: Int32, dbTns: string, dbUser: string, hostName: string,
    hostIp: string, hostApp: string, appCode: string, dbUserpwd: string, remark: string)

  /** The text of the first `tag` child of the first `content` child of the root. */
  function ContentText(d: Document, tag: string): (r: Option<string>)
    ensures r.Some? ==> Child(d.root, ContentTag).Some?
  {
    match Child(d.root, ContentTag)
    case None => None
    case Some(c) => ChildText(c, tag)
  }

  /** The texts of the given leaves of `content`, if all are present. */
  function ContentTexts(d: Document, tags: seq<string>): (r: Option<seq<string>>)
    ensures r.Some? ==> |r.value| == |tags|
    ensures r.Some? <==> forall i :: 0 <= i < |tags| ==> ContentText(d, tags[i]).Some?
    ensures r.Some? ==> forall i :: 0 <= i < |tags| ==> ContentText(d, tags[i]) == Some(r.value[i])
  {
    if tags == [] then Some([])
    else
      match (ContentText(d, tags[0]), ContentTexts(d, tags[1..]))
      case (Some(t), Some(ts)) =>
        assert forall i :: 1 <= i < |tags| ==> tags[i] == tags[1..][i - 1];
        Some([t] + ts)
      case (_, _) =>
        assert forall i :: 1 <= i < |tags| ==> tags[i] == tags[1..][i - 1];
        None
  }

  /** A broker reading the envelope: the root must be `operation_in`, every
      leaf must be present and the database type must parse. */
  function ParseRequest(d: Document): Option<Request> {
    if d.root.tag != RequestRoot then None
    else
      match ContentTexts(d, RequestTags)
      case None => None
      case Some(ts) =>
        match ParseInt(ts[0])
        case None => None
        case Some(n) => Some(Request(n, ts[1], ts[2], ts[3], ts[4], ts[5], ts[6], ts[7], ts[8]))
  }

  lemma LeafAt(d: Document, r: ReqInfo, i: nat)
    requires Encodable(r) && d == RequestDocument(r) && i < |RequestTags|
    ensures ContentText(d, RequestTags[i]) == Some(RequestTexts(r)[i].value)
  {
    var c := d.root.children[0];
    ChildAt(d.root, 0);
    RequestTagsDistinct();
    ChildAt(c, i);
  }

  lemma LeavesRead(r: ReqInfo)
    requires Encodable(r)
    ensures forall i :: 0 <= i < |RequestTags| ==>
      ContentText(RequestDocument(r), RequestTags[i]) == Some(RequestTexts(r)[i].value)
  {
    forall i | 0 <= i < |RequestTags|
      ensures ContentText(RequestDocument(r), RequestTags[i]) == Some(RequestTexts(r)[i].value)
    {
      LeafAt(RequestDocument(r), r, i);
    }
  }

  /** The leaf texts of `r`, read back one by one. */
  lemma TextsRead(r: ReqInfo, ts: seq<string>)
    requires Encodable(r) && |ts| == |RequestTags|
    requires forall i :: 0 <= i < |RequestTags| ==> ts[i] == RequestTexts(r)[i].value
    ensures ParseInt(ts[0]) == Some(r.dbType)
    ensures ts[1] == r.dbTns.value && ts[2] == r.dbUser.value && ts[3] == r.hostName.value
    ensures ts[4] == r.hostIp.value && ts[5] == r.hostApp.value && ts[6] == r.appCode.value
    ensures ts[7] == r.dbUserpwd.value && ts[8] == r.cfgFileFlag.value
  {
    assert ts[0] == IntToString(r.dbType);
    ParseIntOfIntToString(r.dbType);
  }

  /** Any `operation_in` document whose leaves carry the texts of `r` is read as `r`. */
  lemma ParseLeaves(d: Document, r: ReqInfo)
    requires Encodable(r) && d.root.tag == RequestRoot
    requires forall i :: 0 <= i < |RequestTags| ==>
      ContentText(d, RequestTags[i]) == Some(RequestTexts(r)[i].value)
    ensures ParseRequest(d) ==
      Some(Request(r.dbType, r.dbTns.value, r.dbUser.value, r.hostName.value, r.hostIp.value,
        r.hostApp.value, r.appCode.value, r.dbUserpwd.value, r.cfgFileFlag.value))
  {
    var ts := ContentTexts(d, RequestTags).value;
    forall i | 0 <= i < |RequestTags| ensures ts[i] == RequestTexts(r)[i].value {
      assert ContentText(d, RequestTags[i]) == Some(ts[i]);
    }
    TextsRead(r, ts);
    ParseTexts(d, ts);
  }

  /** The request a document is read as, from the texts of its leaves. */
  lemma ParseTexts(d: Document, ts: seq<string>)
    requires d.root.tag == RequestRoot && ContentTexts(d, RequestTags) == Some(ts)
    requires ParseInt(ts[0]).Some?
    ensures ParseRequest(d) ==
      Some(Request(ParseInt(ts[0]).value, ts[1], ts[2], ts[3], ts[4], ts[5], ts[6], ts[7], ts[8]))
  {
  }

  /** A broker reads back from the envelope of an encodable bean the database
      type and the text of every other encoded field, in order; the url is not
      part of the envelope. */
  lemma RequestRoundTrip(r: ReqInfo)
    requires Encodable(r)
    ensures ParseRequest(RequestDocument(r)) ==
      Some(Request(r.dbType, r.dbTns.value, r.dbUser.value, r.hostName.value, r.hostIp.value,
        r.hostApp.value, r.appCode.value, r.dbUserpwd.value, r.cfgFileFlag.value))
  {
    LeavesRead(r);
    ParseLeaves(RequestDocument(r), r);
  }

  // ---------------------------------------------------------------------------
  // Reading the reply
  // ---------------------------------------------------------------------------

  /** Why `decodeXML` throws: an element it reads is missing (a null
      dereference), or the result code is not an int (NumberFormatException). */
  datatype DecodeFailure = MissingElement(tag: string) | BadResultCode(text: string)

  /** The reply leaves read when the result code is not 0. */
  const PayloadTags: seq<string> := ["dbtns", "dbuser", "dbuserpwd", "randomcode"]

  /** What `decodeXML` does once the result code `code` is read: code 0 stores
      only the error message, any other code stores the four payload fields. */
  function DecodeContent(d: Document, code: Int32): (r: Result<ResInfo, DecodeFailure>)
    ensures r.Ok? ==> r.value.resultCode == code
    ensures code == ResultError ==> (r.Ok? <==> ContentText(d, "errormsg").Some?)
    ensures code == ResultError && r.Ok? ==>
      r.value == ResponseBean.Defaults.(resultCode := code, errorMsg := Str(ContentText(d, "errormsg").value))
    ensures code != ResultError ==> (r.Ok? <==> ContentTexts(d, PayloadTags).Some?)
    ensures code != ResultError && r.Ok? ==>
      r.value.errorMsg == Str("") &&
      r.value.dbTns == Str(ContentText(d, PayloadTags[0]).value) &&
      r.value.dbUser == Str(ContentText(d, PayloadTags[1]).value) &&
      r.value.dbUserpwd == Str(ContentText(d, PayloadTags[2]).value) &&
      r.value.randomCode == Str(ContentText(d, PayloadTags[3]).value)
    ensures r.Err? ==> r.error.MissingElement? && ContentText(d, r.error.tag).None?
  {
    if code == ResultError then
      match ContentText(d, "errormsg")
      case None => Err(MissingElement("errormsg"))
      case Some(msg) => Ok(ResponseBean.Defaults.(resultCode := code, errorMsg := Str(msg)))
    else
      match ContentTexts(d, PayloadTags)
      case None =>
        Err(MissingElement(PayloadTags[FirstMissing(d, PayloadTags)]))
      case Some(ts) =>
        Ok(ResponseBean.Defaults.(resultCode := code, dbTns := Str(ts[0]), dbUser := Str(ts[1]),
          dbUserpwd := Str(ts[2]), randomCode := Str(ts[3])))
  }

  /** `decodeXML(doc)`, as the record it leaves in the fresh bean or the
      failure it throws: a missing `content` or `resultcode`, a result code that
      is not an int, or what reading the branch's elements gives. */
  function DecodeResponse(d: Document): (r: Result<ResInfo, DecodeFailure>)
    ensures ContentText(d, "resultcode").None? ==>
      r.Err? && r.error.MissingElement? && ContentText(d, r.error.tag).None?
    ensures ContentText(d, "resultcode").Some? ==>
      match ParseInt(ContentText(d, "resultcode").value)
      case None => r == Err(BadResultCode(ContentText(d, "resultcode").value))
      case Some(n) => r == DecodeContent(d, n)
    ensures r.Ok? ==>
      ContentText(d, "resultcode").Some? &&
      ParseInt(ContentText(d, "resultcode").value) == Some(r.value.resultCode)
  {
    if Child(d.root, ContentTag).None? then Err(MissingElement(ContentTag))
    else match ContentText(d, "resultcode")
      case None => Err(MissingElement("resultcode"))
      case Some(code) =>
        match ParseInt(code)
        case None => Err(BadResultCode(code))
        case Some(n) => DecodeContent(d, n)
  }

  /** The first of `tags` whose element is missing from `content`, or |tags|:
      the one at which reading them in order throws. */
  function FirstMissing(d: Document, tags: seq<string>): (k: nat)
    ensures k <= |tags|
    ensures k < |tags| ==> ContentText(d, tags[k]).None?
    ensures forall j :: 0 <= j < k ==> ContentText(d, tags[j]).Some?
  {
    if tags == [] then 0
    else if ContentText(d, tags[0]).None? then 0
    else
      var k := FirstMissing(d, tags[1..]);
      assert forall j :: 1 <= j < 1 + k ==> tags[j] == tags[1..][j - 1];
      1 + k
  }

  /** `decodeXML(doc)`: reads the result code, creates the bean, stores the code,
      then stores either the error message (code 0) or the four payload fields
      (any other code). */
  method DecodeXml(d: Document) returns (r: Result<ResInfoBean, DecodeFailure>)
    ensures r.Ok? <==> DecodeResponse(d).Ok?
    ensures r.Ok? ==> fresh(r.value) && r.value.View() == DecodeResponse(d).value
    ensures r.Err? ==> DecodeResponse(d) == Err(r.error)
  {
    var content := Child(d.root, ContentTag);
    if content.None? {
      return Err(MissingElement(ContentTag));
    }
    var codeText := ChildText(content.value, "resultcode");
    if codeText.None? {
      return Err(MissingElement("resultcode"));
    }
    var bean := new ResInfoBean();
    var code := ParseInt(codeText.value);
    if code.None? {
      return Err(BadResultCode(codeText.value));
    }
    bean.SetResultCode(code.value);
    if code.value == ResultError {
      var msg := ChildText(content.value, "errormsg");
      if msg.None? {
        return Err(MissingElement("errormsg"));
      }
      bean.SetErrorMsg(Str(msg.value));
    } else {
      var payload := ContentTexts(d, PayloadTags);
      if payload.None? {
        return Err(MissingElement(PayloadTags[FirstMissing(d, PayloadTags)]));
      }
      var ts := payload.value;
      bean.SetDbTns(Str(ts[0]));
      bean.SetDbUser(Str(ts[1]));
      bean.SetDbUserpwd(Str(ts[2]));
      bean.SetRandomCode(Str(ts[3]));
    }
    return Ok(bean);
  }

  // ---------------------------------------------------------------------------
  // The broker writing a reply
  // ---------------------------------------------------------------------------

  /** A reply a broker can send: an error with its message, or a payload. */
  predicate WellFormedReply(r: ResInfo) {
    if r.resultCode == ResultError then
      r.errorMsg.Str? && r == ResponseBean.Defaults.(resultCode := ResultError, errorMsg := r.errorMsg)
    else
      r.errorMsg == Str("") && r.dbTns.Str? && r.dbUser.Str? && r.dbUserpwd.Str? && r.randomCode.Str?
  }

  /** The reply document a broker writes for `r`. */
  function ReplyDocument(r: ResInfo): Document
    requires WellFormedReply(r)
  {
    var leaves :=
      if r.resultCode == ResultError then
        [Leaf("resultcode", IntToString(r.resultCode)), Leaf("errormsg", r.errorMsg.value)]
      else
        [Leaf("resultcode", IntToString(r.resultCode)), Leaf("dbtns", r.dbTns.value),
         Leaf("dbuser", r.dbUser.value), Leaf("dbuserpwd", r.dbUserpwd.value),
         Leaf("randomcode", r.randomCode.value)];
    Document(Element("operation_out", "", [Element(ContentTag, "", leaves)]))
  }

  /** The result code and the texts of `content` in a written reply. */
  lemma ReplyTexts(r: ResInfo)
    requires WellFormedReply(r)
    ensures ContentText(ReplyDocument(r), "resultcode") == Some(IntToString(r.resultCode))
    ensures r.resultCode == ResultError ==>
      ContentText(ReplyDocument(r), "errormsg") == Some(r.errorMsg.value)
    ensures r.resultCode != ResultError ==>
      forall i :: 0 <= i < |PayloadTags| ==>
        ContentText(ReplyDocument(r), PayloadTags[i]) ==
          Some([r.dbTns.value, r.dbUser.value, r.dbUserpwd.value, r.randomCode.value][i])
  {
    ReplyContent(r);
    if r.resultCode != ResultError {
      forall i | 0 <= i < |PayloadTags| ensures ContentText(ReplyDocument(r), PayloadTags[i]) ==
        Some([r.dbTns.value, r.dbUser.value, r.dbUserpwd.value, r.randomCode.value][i])
      {
        ReplyPayloadText(r, i);
      }
    }
  }

  /** `content` is found in a written reply, and its first leaves are read. */
  lemma ReplyContent(r: ResInfo)
    requires WellFormedReply(r)
    ensures Child(ReplyDocument(r).root, ContentTag) == Some(ReplyDocument(r).root.children[0])
    ensures ContentText(ReplyDocument(r), "resultcode") == Some(IntToString(r.resultCode))
    ensures r.resultCode == ResultError ==>
      ContentText(ReplyDocument(r), "errormsg") == Some(r.errorMsg.value)
  {
    var d := ReplyDocument(r);
    var c := d.root.children[0];
    ChildAt(d.root, 0);
    ChildAt(c, 0);
    if r.resultCode == ResultError {
      ChildAt(c, 1);
    }
  }

  /** One payload leaf of a written reply. */
  lemma ReplyPayloadText(r: ResInfo, i: nat)
    requires WellFormedReply(r) && r.resultCode != ResultError && i < |PayloadTags|
    ensures ContentText(ReplyDocument(r), PayloadTags[i]) ==
      Some([r.dbTns.value, r.dbUser.value, r.dbUserpwd.value, r.randomCode.value][i])
  {
    var d := ReplyDocument(r);
    ChildAt(d.root, 0);
    ChildAt(d.root.children[0], i + 1);
  }

  /** Decoding a well-formed reply gives back exactly the record it was written from. */
  lemma ReplyRoundTrip(r: ResInfo)
    requires WellFormedReply(r)
    ensures DecodeResponse(ReplyDocument(r)) == Ok(r)
  {
    var d := ReplyDocument(r);
    ReplyContent(r);
    ParseIntOfIntToString(r.resultCode);
    assert DecodeResponse(d) == DecodeContent(d, r.resultCode);
    if r.resultCode != ResultError {
      ReplyTexts(r);
      var got := DecodeContent(d, r.resultCode);
      assert got.Ok?;
      ReplyPayloadText(r, 0);
      ReplyPayloadText(r, 1);
      ReplyPayloadText(r, 2);
      ReplyPayloadText(r, 3);
    }
  }
}
