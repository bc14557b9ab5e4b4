# exsql: SQL script upload with broker-supplied passwords

This project models the core of exsql, a service that runs uploaded SQL
scripts on a named data source. Two parts make up the core.

**SQL execution.** `SqlExecutionService.executeSqlScripts`:

- resolves the effective data-source name;
- looks up its `DataSourceDefinition`;
- retrieves the database password through `CustomPasswordRetrievalService`;
- builds a data source;
- runs every file in order.

A file runs in one of two ways. A PL/SQL block is sent whole. Any other
script is split at the semicolons that lie outside single quotes, and its
statements are sent one by one.

**Password retrieval.** The password comes from a legacy broker client,
`CNLDBConnectMgr`, which works in these steps:

- It fills a `ReqInfoBean` from the caller's arguments, its own
  process-wide identity (check code, application name, server url) and the
  local host.
- It encodes the bean as an `operation_in` XML envelope (`DealXMLMgr`).
- It POSTs the envelope with up to three attempts (`UigClient`).
- It decodes the reply into a `ResInfoBean`.
- Only for result code 1, it decrypts the returned password with the key
  `randomCode + appCode`.

Every failure of the broker client gives `null`. One such failure is a request field that is null: dom4j's `setText` refuses null text. `CustomPasswordRetrievalService`
turns a `null` password into an exception.

## Layout

| module | what it holds |
|---|---|
| **Lang** | The Java notions the model is written in. `JString` is `Null \| Str(s)`, so a null reference is a value. The module also has `Int32`, exceptions, and `trim`, `isEmpty`, `StringUtils.hasText`, `toUpperCase`/`toLowerCase`, `String.valueOf(int)` and `Integer.parseInt`. |
| **Xml** | Documents as element trees. An element's text is a string, which is what `getText` reads. `setText` throws dom4j's `IllegalArgumentException` on null text. `addElement` and `element(name)` are defined here as well. `XMLUtil.toXML`/`fromXML` are supplied by the caller. |
| **ObjectText** | The `toString` layout both beans share, with a lemma that the text determines the fields. |
| **RequestBean**, **ResponseBean** | The two beans. Each is a `class` with one `var` per field, a `View()` of the whole record, a constructor with the Java field initialisers, and one setter per field. |
| **DealXml** | `encodeXML` as a method that builds the envelope element by element. `decodeXML` as a method that fills a fresh `ResInfoBean`. The broker's side is modelled too: reading a request and writing a reply. Each direction is proved against it. |
| **Uig** | `UigClient`: the retry loop as a method, proved against the recursive `postMessage` as a function. |
| **ConnectMgr** | `CNLDBConnectMgr`: its static state is a class instance. `init`, `setReq` and `getPasswd` are methods, proved against the pipeline function `GetPasswdSpec`. |
| **PasswordService** | `CustomPasswordRetrievalService`, with its `cndlMgrInitialized` flag. |
| **DataSourceModel** | `DataSourceDefinition`. |
| **ScriptText** | Text handling of the execution service: the effective name, preparing a script, the PL/SQL heuristic, and the regex split. |
| **SqlExecution** | `SqlExecutionService`. Its methods are proved against the functions `Resolved`, `RunAll`, `RunScript` and `RunPieces`. |

## What stands in for the environment

Things the core cannot compute itself are parameters.

- **`ConnectMgr.Environment`** holds:
  - the local host lookup;
  - the XML writer and parser;
  - the network, which gives the outcome of attempt *n* of a POST;
  - `DecodeUtil.decrypt`.
- **`SqlExecution.Jdbc`** holds:
  - `build(settings)`, the exception `DataSourceBuilder.build()` throws, if any;
  - `execute(settings, history, sql)`, the exception `jdbcTemplate.execute(sql)` throws. It may depend on every statement sent before through the same data source (`history`).
- **Uploaded files** are given as the text their lines join to, or the exception reading them threw.

## Model

| member | source | states |
|---|---|---|
| Lang.TrimInfix | src/main/java/com/example/exsql/service/SqlExecutionService.java:131 | `trim()` keeps one contiguous middle part of the string and removes only characters at or below U+0020 before and after it; by `Trim`'s own contract the part kept starts and ends above U+0020, so it is the largest such part |
| Lang.TrimEmpty | src/main/java/com/example/exsql/service/SqlExecutionService.java:121 | `trim().isEmpty()` holds exactly when every character is at or below U+0020 |
| Lang.TrimIdempotent | src/main/java/com/example/exsql/service/SqlExecutionService.java:131-138 | trimming the already trimmed script again (in the `endsWith("/")` test) changes nothing |
| Lang.ToUpperCase | src/main/java/com/example/exsql/service/SqlExecutionService.java:136-137 | upper-casing keeps the length |
| Lang.ToLowerCase | src/main/java/com/example/exsql/service/SqlExecutionService.java:41 | lower-casing keeps the length |
| Lang.IntToString | src/main/java/com/example/exsql/legacy/newland/DealXMLMgr.java:18 | `String.valueOf(int)` is never empty |
| Lang.ParseIntRejects | src/main/java/com/example/exsql/legacy/newland/DealXMLMgr.java:37 | `Integer.parseInt` fails on the empty string, on a lone sign, on a first character that is neither a digit nor a sign, on any later character that is not a digit, and on unsigned digits above `Integer.MAX_VALUE`; unsigned digits in range give their value |
| Lang.ParseIntOfIntToString | src/main/java/com/example/exsql/legacy/newland/DealXMLMgr.java:18 | parsing `String.valueOf(n)` gives `n` back, for every `int` |
| Lang.IntToStringInjective | src/main/java/com/example/exsql/legacy/newland/ReqInfoBean.java:128-129 | two ints with the same decimal text are equal |
| Xml.AddChild | src/main/java/com/example/exsql/legacy/newland/DealXMLMgr.java:15-16 | `addElement` appends one child after the others and changes nothing else |
| Xml.Child | src/main/java/com/example/exsql/legacy/newland/DealXMLMgr.java:34-35 | `element(tag)` finds a child exactly when some child has that tag; what it finds is such a child |
| Xml.ChildAt | src/main/java/com/example/exsql/legacy/newland/DealXMLMgr.java:35 | a child with no earlier namesake is the one `element(tag)` finds |
| ObjectText.FieldsTextDeterminesFields | src/main/java/com/example/exsql/legacy/newland/ReqInfoBean.java:123-155 | two field lists of the same shape with equal `name=value, ...}` text show every field alike, provided no string field holds a quote |
| ObjectText.RenderDeterminesFields | src/main/java/com/example/exsql/legacy/newland/ResInfoBean.java:76-96 | the same for the whole `Name{...}` text |
| RequestBean.RenderDeterminesFields | src/main/java/com/example/exsql/legacy/newland/ReqInfoBean.java:123-155 | equal `toString` texts of quote-free requests have the same database type and show every string field alike |
| RequestBean.ReqInfoBean.constructor | src/main/java/com/example/exsql/legacy/newland/ReqInfoBean.java:10-40 | a new bean holds the field initialisers: empty strings, database type 2 (Oracle), flag "1" |
| RequestBean.ReqInfoBean.SetUrl | src/main/java/com/example/exsql/legacy/newland/ReqInfoBean.java:46-48 | only `url` changes, to the argument |
| RequestBean.ReqInfoBean.SetDbType | src/main/java/com/example/exsql/legacy/newland/ReqInfoBean.java:54-56 | only `dbType` changes, to the argument |
| RequestBean.ReqInfoBean.SetDbTns | src/main/java/com/example/exsql/legacy/newland/ReqInfoBean.java:62-64 | only `dbTns` changes, to the argument |
| RequestBean.ReqInfoBean.SetDbUser | src/main/java/com/example/exsql/legacy/newland/ReqInfoBean.java:70-72 | only `dbUser` changes, to the argument |
| RequestBean.ReqInfoBean.SetHostName | src/main/java/com/example/exsql/legacy/newland/ReqInfoBean.java:78-80 | only `hostName` changes, to the argument |
| RequestBean.ReqInfoBean.SetHostIp | src/main/java/com/example/exsql/legacy/newland/ReqInfoBean.java:86-88 | only `hostIp` changes, to the argument |
| RequestBean.ReqInfoBean.SetHostApp | src/main/java/com/example/exsql/legacy/newland/ReqInfoBean.java:94-96 | only `hostApp` changes, to the argument |
| RequestBean.ReqInfoBean.SetAppCode | src/main/java/com/example/exsql/legacy/newland/ReqInfoBean.java:102-104 | only `appCode` changes, to the argument |
| RequestBean.ReqInfoBean.SetDbUserpwd | src/main/java/com/example/exsql/legacy/newland/ReqInfoBean.java:110-112 | only `dbUserpwd` changes, to the argument |
| RequestBean.ReqInfoBean.SetCfgFileFlag | src/main/java/com/example/exsql/legacy/newland/ReqInfoBean.java:118-120 | only `cfgFileFlag` changes, to the argument |
| ResponseBean.RenderDeterminesFields | src/main/java/com/example/exsql/legacy/newland/ResInfoBean.java:76-96 | equal `toString` texts of quote-free replies have the same result code and show every string field alike |
| ResponseBean.ResInfoBean.constructor | src/main/java/com/example/exsql/legacy/newland/ResInfoBean.java:10-25 | a new bean holds result code 1 and empty strings |
| ResponseBean.ResInfoBean.SetResultCode | src/main/java/com/example/exsql/legacy/newland/ResInfoBean.java:31-33 | only `resultCode` changes, to the argument |
| ResponseBean.ResInfoBean.SetErrorMsg | src/main/java/com/example/exsql/legacy/newland/ResInfoBean.java:39-41 | only `errorMsg` changes, to the argument |
| ResponseBean.ResInfoBean.SetDbTns | src/main/java/com/example/exsql/legacy/newland/ResInfoBean.java:47-49 | only `dbTns` changes, to the argument |
| ResponseBean.ResInfoBean.SetDbUser | src/main/java/com/example/exsql/legacy/newland/ResInfoBean.java:55-57 | only `dbUser` changes, to the argument |
| ResponseBean.ResInfoBean.SetDbUserpwd | src/main/java/com/example/exsql/legacy/newland/ResInfoBean.java:63-65 | only `dbUserpwd` changes, to the argument |
| ResponseBean.ResInfoBean.SetRandomCode | src/main/java/com/example/exsql/legacy/newland/ResInfoBean.java:71-73 | only `randomCode` changes, to the argument |
| DealXml.RequestLeaves | src/main/java/com/example/exsql/legacy/newland/DealXMLMgr.java:18-26 | the nine leaves of `content`, in order, each with its tag and the bean's text (the database type in decimal, the flag as `remark`) |
| DealXml.RequestDocument | src/main/java/com/example/exsql/legacy/newland/DealXMLMgr.java:14-26 | the envelope is an `operation_in` root with one `content` child holding exactly those leaves |
| DealXml.RequestTagsDistinct | src/main/java/com/example/exsql/legacy/newland/DealXMLMgr.java:18-26 | no request tag occurs twice, so each leaf can be found by its tag |
| Xml.SetText | src/main/java/com/example/exsql/legacy/newland/DealXMLMgr.java:18-26 | `setText` throws `IllegalArgumentException` ("Adding text to an XML document must not be null") exactly for null text; otherwise it replaces the element's text and keeps its tag and children |
| DealXml.AddLeaf | src/main/java/com/example/exsql/legacy/newland/DealXMLMgr.java:18-26 | `addElement(tag).setText(text)` adds one leaf with the tag and the text after the others, and throws `IllegalArgumentException` exactly when the text is null |
| DealXml.EncodeXml | src/main/java/com/example/exsql/legacy/newland/DealXMLMgr.java:13-29 | a bean with a null text field (any field but the database type) makes `setText` throw dom4j's `IllegalArgumentException` and nothing is rendered; any other bean gives exactly the writer's rendering of its envelope |
| DealXml.ContentTexts | src/main/java/com/example/exsql/legacy/newland/DealXMLMgr.java:34-45 | the texts of a list of `content` leaves are present exactly when every leaf is, and then each is that leaf's text |
| DealXml.RequestRoundTrip | src/main/java/com/example/exsql/legacy/newland/DealXMLMgr.java:13-29 | for a bean with no null text field, a broker reading the envelope gets back the database type and, in order, the text of every other encoded field; the url is not encoded |
| DealXml.DecodeContent | src/main/java/com/example/exsql/legacy/newland/DealXMLMgr.java:38-52 | code 0: succeeds exactly when `errormsg` exists and stores only it; any other code: succeeds exactly when the four payload leaves exist and stores them with an empty error message; a failure names a missing element |
| DealXml.DecodeResponse | src/main/java/com/example/exsql/legacy/newland/DealXMLMgr.java:32-53 | a missing `content` or `resultcode` fails on a missing element; an unparsable code fails with that text; a success stores the parsed code |
| DealXml.FirstMissing | src/main/java/com/example/exsql/legacy/newland/DealXMLMgr.java:42-45 | the payload leaf at which reading in order throws: every one before it is present and it is not |
| DealXml.DecodeXml | src/main/java/com/example/exsql/legacy/newland/DealXMLMgr.java:32-53 | the method succeeds exactly when `DecodeResponse` does, leaving its record in a fresh bean, and otherwise fails as it does |
| DealXml.ReplyRoundTrip | src/main/java/com/example/exsql/legacy/newland/DealXMLMgr.java:32-53 | decoding the document a broker writes for a well-formed reply gives back exactly that reply |
| Uig.NewPost | src/main/java/com/example/exsql/legacy/newland/UigClient.java:43-55 | every attempt posts the body to the client's url with the client's charset |
| Uig.PostMessage | src/main/java/com/example/exsql/legacy/newland/UigClient.java:38-78 | `postMessage(xml, sendTimes)` makes between one and `3 - sendTimes` attempts |
| Uig.PostMessageAttempts | src/main/java/com/example/exsql/legacy/newland/UigClient.java:38-76 | attempt k posts the same request and gets the network's k-th outcome; every attempt but the last threw |
| Uig.PostMessageResult | src/main/java/com/example/exsql/legacy/newland/UigClient.java:56-76 | an answer ends the exchange with the body for status 200 and "" for any other status; a throw ends it only at the third attempt and is passed on; one release per created post |
| Uig.PostMessageSameNet | src/main/java/com/example/exsql/legacy/newland/UigClient.java:38-78 | the exchange depends on the network only through its answers to this one request at the attempts still to come |
| Uig.UigClient.constructor | src/main/java/com/example/exsql/legacy/newland/UigClient.java:15-25 | the client keeps the url and uses charset "utf-8" |
| Uig.UigClient.RequestService | src/main/java/com/example/exsql/legacy/newland/UigClient.java:34-36 | the retry loop gives the same result, attempt outcomes and release count as the recursive `postMessage(xml, 0)` |
| ConnectMgr.HostIp | src/main/java/com/example/exsql/legacy/newland/HostUtil.java:25-31 | the ip is null exactly when the local host could not be looked up |
| ConnectMgr.HostName | src/main/java/com/example/exsql/legacy/newland/HostUtil.java:33-39 | the host name is null exactly when the local host could not be looked up |
| ConnectMgr.PasswordOf | src/main/java/com/newland/computer/boss/bossbiz/bosscomponent/cachestore/datasource/CNLDBConnectMgr.java:68-77 | a non-null result of `getPasswd` comes only from a decrypted password |
| ConnectMgr.BrokerReadsCall | src/main/java/com/newland/computer/boss/bossbiz/bosscomponent/cachestore/datasource/CNLDBConnectMgr.java:51-54 | when the host was looked up and no text of the call or the identity is null, the bean can be encoded and the broker reads the caller's type, tns, user and password, the host's name and ip, the application name, the check code and the flag "1" |
| ConnectMgr.EncodableExactly | src/main/java/com/newland/computer/boss/bossbiz/bosscomponent/cachestore/datasource/CNLDBConnectMgr.java:51-54 | the bean `getPasswd` fills can be encoded exactly when the host was looked up and the call's tns, user and password and the identity's application name and check code are non-null |
| ConnectMgr.NullTextGivesNull | src/main/java/com/newland/computer/boss/bossbiz/bosscomponent/cachestore/datasource/CNLDBConnectMgr.java:47-78 | a null tns, user, password, application name or check code, or a failed host lookup, makes `encodeXML` throw: `getPasswd` returns null, and does so whatever the network answers |
| ConnectMgr.UrlIgnored | src/main/java/com/newland/computer/boss/bossbiz/bosscomponent/cachestore/datasource/CNLDBConnectMgr.java:47-55 | the `url` argument of `getPasswd` changes nothing: the request goes to `serverUrl` |
| ConnectMgr.PostsToServerUrl | src/main/java/com/newland/computer/boss/bossbiz/bosscomponent/cachestore/datasource/CNLDBConnectMgr.java:55-57 | the network is asked only to post the rendered request, as utf-8, to the identity's `serverUrl`, at most three times: two networks that answer those posts alike give the same result |
| ConnectMgr.OnlyResultOneDecrypts | src/main/java/com/newland/computer/boss/bossbiz/bosscomponent/cachestore/datasource/CNLDBConnectMgr.java:61-77 | result code 1: the result is the decryption with `randomCode + appCode`, or null if it throws; any other code, or any earlier failure: null, whatever the cipher |
| ConnectMgr.NonNullMeansDecrypted | src/main/java/com/newland/computer/boss/bossbiz/bosscomponent/cachestore/datasource/CNLDBConnectMgr.java:61-68 | a non-null result is the decryption of a result-code-1 reply's password |
| ConnectMgr.FoundOnFirstAttempt | src/main/java/com/newland/computer/boss/bossbiz/bosscomponent/cachestore/datasource/CNLDBConnectMgr.java:54-68 | a first attempt answered with status 200 and a broker's found-password reply gives that password decrypted |
| ConnectMgr.CNLDBConnectMgr.constructor | src/main/java/com/newland/computer/boss/bossbiz/bosscomponent/cachestore/datasource/CNLDBConnectMgr.java:25-27 | the static identity fields start out null |
| ConnectMgr.CNLDBConnectMgr.Init | src/main/java/com/newland/computer/boss/bossbiz/bosscomponent/cachestore/datasource/CNLDBConnectMgr.java:39-44 | `init()` sets check code "abcdefg", the application name and the server url |
| ConnectMgr.CNLDBConnectMgr.SetReq | src/main/java/com/newland/computer/boss/bossbiz/bosscomponent/cachestore/datasource/CNLDBConnectMgr.java:82-100 | a fresh bean holding the call's fields, the identity and the host's ip and name |
| ConnectMgr.CNLDBConnectMgr.GetPasswd | src/main/java/com/newland/computer/boss/bossbiz/bosscomponent/cachestore/datasource/CNLDBConnectMgr.java:47-78 | the method returns exactly `GetPasswdSpec`, the pipeline the lemmas above are about: null when a text field is null, otherwise the password the broker exchange and the cipher give, or null |
| ConnectMgr.CNLDBConnectMgr.Exchange | src/main/java/com/newland/computer/boss/bossbiz/bosscomponent/cachestore/datasource/CNLDBConnectMgr.java:55-77 | posting, parsing, decoding and settling give the password the pipeline gives for the rendered request |
| ConnectMgr.CNLDBConnectMgr.Conclude | src/main/java/com/newland/computer/boss/bossbiz/bosscomponent/cachestore/datasource/CNLDBConnectMgr.java:61-73 | a decoded reply with result code 1 is decrypted with `randomCode + appCode`; anything else is null |
| PasswordService.Retrieve | src/main/java/com/example/exsql/service/CustomPasswordRetrievalService.java:59-100 | flag down: IllegalStateException with the message; flag up: succeeds exactly when `getPasswd` is non-null, with that password, else a RuntimeException whose message is the wrap prefix then the null message |
| PasswordService.UninitializedIgnoresBroker | src/main/java/com/example/exsql/service/CustomPasswordRetrievalService.java:60-64 | before `initialize()` the result does not depend on the call, the identity or the environment |
| PasswordService.RetrievedIsDecrypted | src/main/java/com/example/exsql/service/CustomPasswordRetrievalService.java:75-89 | a returned password, empty included, is one a result-code-1 reply decrypts to |
| PasswordService.ErrorsAreWrapped | src/main/java/com/example/exsql/service/CustomPasswordRetrievalService.java:140-153 | once initialised, every thrown message starts with the "Error retrieving password for ... via CNLDBConnectMgr: " prefix |
| PasswordService.CustomPasswordRetrievalService.constructor | src/main/java/com/example/exsql/service/CustomPasswordRetrievalService.java:17-33 | the injected configuration is kept and the flag starts down |
| PasswordService.CustomPasswordRetrievalService.PrimaryCall | src/main/java/com/example/exsql/service/CustomPasswordRetrievalService.java:76-82 | the primary call forwards the user name with the primary type, tns, url and dummy password |
| PasswordService.CustomPasswordRetrievalService.Initialize | src/main/java/com/example/exsql/service/CustomPasswordRetrievalService.java:36-56 | `initialize()` leaves the broker client initialised and the flag up |
| PasswordService.CustomPasswordRetrievalService.RetrievePrimaryPassword | src/main/java/com/example/exsql/service/CustomPasswordRetrievalService.java:59-100 | the method's result is `Retrieve` for the primary configuration, labelled "primary" |
| PasswordService.CustomPasswordRetrievalService.RetrievePassword | src/main/java/com/example/exsql/service/CustomPasswordRetrievalService.java:103-154 | the method's result is `Retrieve` for the given parameters, labelled with `dsName` |
| DataSourceModel.DataSourceDefinition.constructor | src/main/java/com/example/exsql/model/DataSourceDefinition.java:18-37 | the nine arguments are kept; the HTTP url starts null and the timeout 0 |
| DataSourceModel.DataSourceDefinition.SetHttpPasswordUrl | src/main/java/com/example/exsql/model/DataSourceDefinition.java:85-87 | only the HTTP password url changes |
| DataSourceModel.DataSourceDefinition.SetHttpPasswordRequestTimeoutMs | src/main/java/com/example/exsql/model/DataSourceDefinition.java:89-91 | only the timeout changes |
| ScriptText.EffectiveName | src/main/java/com/example/exsql/service/SqlExecutionService.java:41 | a null or blank name gives "primary"; any other name gives a name of the same length that is already lower-case and equals the given one up to case (it is not trimmed) |
| ScriptText.LowerKeepsBlank | src/main/java/com/example/exsql/service/SqlExecutionService.java:41 | lower-casing does not change whether a name is blank |
| Lang.LowerIdempotent | src/main/java/com/example/exsql/service/SqlExecutionService.java:41 | lower-casing twice is lower-casing once |
| ScriptText.EffectiveNameIdempotent | src/main/java/com/example/exsql/service/SqlExecutionService.java:41 | resolving an effective name again changes nothing |
| ScriptText.PrimaryIsLower | src/main/java/com/example/exsql/service/SqlExecutionService.java:41 | "primary" is not blank and is its own lower case |
| ScriptText.PrepareStrips | src/main/java/com/example/exsql/service/SqlExecutionService.java:126-131 | the executed text is the script after one leading byte order mark, if there is one, with only characters at or below U+0020 removed from its two ends |
| ScriptText.KeywordsIgnoreCase | src/main/java/com/example/exsql/service/SqlExecutionService.java:136-138 | lower- or upper-casing a script never changes whether it is run as one PL/SQL block |
| ScriptText.FindCut | src/main/java/com/example/exsql/service/SqlExecutionService.java:146 | the first place at or after `from` where the separator matches (a `;` followed by an even number of quotes), or the end |
| ScriptText.PiecesJoin | src/main/java/com/example/exsql/service/SqlExecutionService.java:146 | joining the pieces with `;` gives the script back |
| ScriptText.PiecesAtCuts | src/main/java/com/example/exsql/service/SqlExecutionService.java:146 | the pieces are cut exactly where the separator matches, so a `;` inside a quoted literal stays in its piece |
| ScriptText.DropTrailingEmpty | src/main/java/com/example/exsql/service/SqlExecutionService.java:146 | `String.split` drops exactly the empty pieces at the end and keeps the rest in order |
| ScriptText.SplitStatements | src/main/java/com/example/exsql/service/SqlExecutionService.java:146-151 | dropping the trailing empty pieces never changes the statements that run |
| SqlExecution.FailAll | src/main/java/com/example/exsql/service/SqlExecutionService.java:47-49 | one failed result per file, in order, named after the file, all with the message and an empty executed text |
| SqlExecution.RunPiecesStops | src/main/java/com/example/exsql/service/SqlExecutionService.java:148-161 | the plain loop sends a prefix of the statements (non-blank pieces, trimmed) in order, each after those before it; all before a failing last one succeeded; with no failure it sent them all and counts them |
| SqlExecution.StopsSucceeds | src/main/java/com/example/exsql/service/SqlExecutionService.java:148-162 | such a run succeeds exactly when every statement succeeds after those before it; a failure ends with the statement that threw |
| SqlExecution.RunPiecesSucceeds | src/main/java/com/example/exsql/service/SqlExecutionService.java:148-162 | the two above, for the run of any list of pieces |
| SqlExecution.RunScript | src/main/java/com/example/exsql/service/SqlExecutionService.java:112-168 | the result of a script is named after its file |
| SqlExecution.RunBlock | src/main/java/com/example/exsql/service/SqlExecutionService.java:140-143 | a PL/SQL block is sent once, whole, reports the script as executed, and succeeds exactly when that call does not throw |
| SqlExecution.RunPlain | src/main/java/com/example/exsql/service/SqlExecutionService.java:146-162 | a plain script reports the script as executed and succeeds exactly when the split's run does not fail |
| SqlExecution.RunPlainSends | src/main/java/com/example/exsql/service/SqlExecutionService.java:146-162 | it sends a prefix of the statements between the separators, succeeds exactly when it sent all and each succeeded, and then the message starts with their number |
| SqlExecution.RunPlainReports | src/main/java/com/example/exsql/service/SqlExecutionService.java:156-159 | a failed plain script sent something, the last statement sent threw, and the message ends with "Problematic statement: " and that statement |
| SqlExecution.RunScriptSends | src/main/java/com/example/exsql/service/SqlExecutionService.java:117-162 | an unreadable or blank file fails and sends nothing; a readable one reports the prepared text; a block is sent once; a plain script runs as `RunPlain` says |
| SqlExecution.RunAll | src/main/java/com/example/exsql/service/SqlExecutionService.java:106-109 | one result per file, in order, named after the file |
| SqlExecution.ResolvedOnePerFile | src/main/java/com/example/exsql/service/SqlExecutionService.java:55-109 | whatever happens after the definition is found, there is one result per file, in the order of the files |
| SqlExecution.NoPasswordNoDatabase | src/main/java/com/example/exsql/service/SqlExecutionService.java:73-84 | without a password that has text nothing is built or run: every file fails with the retrieval prefix, whatever the database |
| SqlExecution.PrimaryUsesServiceConfiguration | src/main/java/com/example/exsql/service/SqlExecutionService.java:57-61 | the definition named "primary" gets the primary configuration's password; only its user name matters |
| SqlExecution.NamedUsesDefinition | src/main/java/com/example/exsql/service/SqlExecutionService.java:62-72 | any other definition has its own broker parameters forwarded; once initialised, its errors carry the wrap prefix with its name |
| SqlExecution.BuildFailureRunsNothing | src/main/java/com/example/exsql/service/SqlExecutionService.java:86-101 | a data source that cannot be built runs nothing: every file fails with the build prefix, whatever the statements would do |
| SqlExecution.SqlExecutionService.constructor | src/main/java/com/example/exsql/service/SqlExecutionService.java:32-36 | the definitions map and the retrieval service are kept |
| SqlExecution.SqlExecutionService.ExecuteSqlScripts | src/main/java/com/example/exsql/service/SqlExecutionService.java:38-110 | one result per file; an unknown name fails every file with "Data source definition not found: " and the name; a known one gives `Resolved` for the password its dispatch retrieves |
| SqlExecution.SqlExecutionService.RunDefinition | src/main/java/com/example/exsql/service/SqlExecutionService.java:55-109 | the method's dispatch retrieves `PasswordFor` the definition, and its results are `Resolved` for it |
| SqlExecution.SqlExecutionService.RunWithPassword | src/main/java/com/example/exsql/service/SqlExecutionService.java:73-109 | the retrieval, blank-password and build checks, then the file loop, give `Resolved` |
| SqlExecution.SqlExecutionService.ExecuteAll | src/main/java/com/example/exsql/service/SqlExecutionService.java:106-109 | the loop over the files gives `RunAll`, each file run after the statements of those before it |
| SqlExecution.SqlExecutionService.FailEach | src/main/java/com/example/exsql/service/SqlExecutionService.java:47-49 | the loop gives `FailAll` |
| SqlExecution.SqlExecutionService.ExecuteSingleScript | src/main/java/com/example/exsql/service/SqlExecutionService.java:112-168 | the method gives the result and the statements `RunScript` gives |
| SqlExecution.SqlExecutionService.ExecuteBlock | src/main/java/com/example/exsql/service/SqlExecutionService.java:140-143 | the PL/SQL branch gives `RunBlock` |
| SqlExecution.SqlExecutionService.ExecutePlain | src/main/java/com/example/exsql/service/SqlExecutionService.java:146-162 | the plain branch gives `RunPlain` |
| SqlExecution.SqlExecutionService.ExecuteStatements | src/main/java/com/example/exsql/service/SqlExecutionService.java:148-161 | the statement loop gives the failure, the count and the statements sent that `RunPieces` gives |

## Left out

- Getters of the beans and of `DataSourceDefinition` are reads of the fields, so they have no members of their own.
- `CustomPasswordRetrievalService.initialize`'s catch block: `CNLDBConnectMgr.init()` as written only assigns three constants and cannot throw, so the catch is unreachable.
- `XMLUtil` (rendering and parsing XML text) and `DecodeUtil.decrypt` are not part of this model. `XMLUtil.toXML` and `fromXML` and the cipher are parameters of `ConnectMgr.Environment`.
- `XMLUtil.child` (DealXMLMgr.java line 34) is not part of this model and is not a parameter. The model takes it to return the first child with the given tag, as dom4j's `element(name)` does (`Xml.Child`). An `XMLUtil.child` that picks another child, or throws, would change what `decodeXML` reads.
- dom4j's `setText` also removes any text nodes mixed with child elements. An element here has a single text, so replacing it is the whole effect; `encodeXML` only sets the text of new leaves.
- The HTTP exchange is a parameter: one outcome per attempt. Headers and timeouts are recorded in the post request but have no effect. `releaseConnection` is counted; it is assumed not to throw.
- `synchronized` on `init()` and concurrency in general: the model is sequential.
- Logging (slf4j, `printStackTrace`) has no effect on results and is left out.
- `getPasswd` assigns the static `dealXMLMgr` field on every call. It holds no state, so the model calls the encoder and decoder directly.
- `getPasswd`'s catch-all also catches any runtime exception raised inside the pipeline. The model gives `null` for every failure it names: encoding, sending, parsing, decoding and decrypting.
- Lang.ToUpperCase, Lang.ToLowerCase: only ASCII letters are mapped. Java's full Unicode case tables, and locale rules, are not modelled.
- Lang.ParseInt: only ASCII digits are accepted. Java also accepts other Unicode decimal digits.
- Lang.IsJavaWhitespace: U+180E is not in the table.
- Strings are sequences of Unicode scalar values, not UTF-16 code units. Lengths and indices of text outside the Basic Multilingual Plane differ from Java's.
- Reading an uploaded file is an input: the text of its lines joined with the line separator, or the exception reading threw.
- `DataSourceBuilder` and `JdbcTemplate` are the `SqlExecution.Jdbc` parameter. Real databases, connections and transactions are not modelled.
- `DataSourceConfig` (how definitions are loaded) and `SqlUploadController` (the HTTP endpoint) are not part of this model. The definitions map is given and holds no null values.
- The XML document model is a value tree. Element identity and DOM mutation in place are not modelled.
- Exception causes (`new RuntimeException(msg, e)`) are not modelled, only kinds and messages.
- SqlExecution.RunPieces: `executedCount` is unbounded here. Java's `int` would wrap after 2^31 - 1 statements.
- SqlExecution.SqlExecutionService.ExecuteSingleScript: the Java method's branches are split into the helpers `ExecuteBlock`, `ExecutePlain` and `ExecuteStatements`. The statement loop returns the failure to `ExecutePlain` instead of returning the result from inside the loop.
- Two test assertions in `CustomPasswordRetrievalServiceTest` expect the message to contain "CNLDBConnectMgr returned null for primary user" (and "for secondary user"). The code's message is "Failed to retrieve password for <label> datasource, CNLDBConnectMgr returned null.", wrapped by the outer catch. The model follows the code.
- The optional `httpPasswordUrl` and `httpPasswordRequestTimeoutMs` of a definition are stored but never read by the core.
