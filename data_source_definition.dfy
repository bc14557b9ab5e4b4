/** DataSourceDefinition: the description of one target database. Nine fields
    are fixed by the constructor; the optional HTTP password url and timeout
    can be set afterwards and start out null and 0. */
module DataSourceModel {
  import opened Lang

  class DataSourceDefinition {
    const name: JString
    const url: JString
    const username: JString
    const driverClassName: JString
    const cndlAuthFilePath: JString
    const cndlNdbType: Int32
    const cndlTns: JString
    const cndlGetPasswdUrl: JString
    const cndlGetPasswdDummyPassword: JString
    var httpPasswordUrl: JString
    var httpPasswordRequestTimeoutMs: Int32

    constructor (name: JString, url: JString, username: JString, driverClassName: JString,
      cndlAuthFilePath: JString, cndlNdbType: Int32, cndlTns: JString,
      cndlGetPasswdUrl: JString, cndlGetPasswdDummyPassword: JString)
      ensures this.name == name && this.url == url && this.username == username
      ensures this.driverClassName == driverClassName && this.cndlAuthFilePath == cndlAuthFilePath
      ensures this.cndlNdbType == cndlNdbType && this.cndlTns == cndlTns
      ensures this.cndlGetPasswdUrl == cndlGetPasswdUrl
      ensures this.cndlGetPasswdDummyPassword == cndlGetPasswdDummyPassword
      ensures httpPasswordUrl == Null && httpPasswordRequestTimeoutMs == 0
    {
      this.name := name;
      this.url := url;
      this.username := username;
      this.driverClassName := driverClassName;
      this.cndlAuthFilePath := cndlAuthFilePath;
      this.cndlNdbType := cndlNdbType;
      this.cndlTns := cndlTns;
      this.cndlGetPasswdUrl := cndlGetPasswdUrl;
      this.cndlGetPasswdDummyPassword := cndlGetPasswdDummyPassword;
      httpPasswordUrl := Null;
      httpPasswordRequestTimeoutMs := 0;
    }

    method SetHttpPasswordUrl(httpPasswordUrl: JString)
      modifies this`httpPasswordUrl
      ensures this.httpPasswordUrl == httpPasswordUrl
    {
      this.httpPasswordUrl := httpPasswordUrl;
    }

    method SetHttpPasswordRequestTimeoutMs(httpPasswordRequestTimeoutMs: Int32)
      modifies this`httpPasswordRequestTimeoutMs
      ensures this.httpPasswordRequestTimeoutMs == httpPasswordRequestTimeoutMs
    {
      this.httpPasswordRequestTimeoutMs := httpPasswordRequestTimeoutMs;
    }
  }
}
