/**
 * The `Proxmox` client object as an immutable record, with one pure
 * transition per public operation. Login, the JSON decoder and the HTTP
 * transport of the base class are passed in as functions.
 */
module Proxmox {
  import opened Wrappers
  import opened Errors
  import opened Credentials
  import opened ResponseFormat
  import opened ProxmoxVE
  import Base64
  import Paths
  import ApiUrl

  type byte = Base64.byte

  /** The fields of one `Proxmox` object, including the inherited token slot. */
  datatype Client = Client(
    credentials: Credentials,
    responseType: string,
    fakeType: FakeType,
    apiUrl: string,
    authToken: Token)
  {
    function Negotiated(): Format
    {
      Format(responseType, fakeType)
    }
  }

  /** Format fields agree with each other; every transition keeps this. */
  predicate Valid(c: Client)
  {
    Consistent(c.Negotiated())
  }

  /** The cached base URL is the one the current credentials and format give. */
  predicate UrlFresh(c: Client)
  {
    c.apiUrl == ApiUrl.Build(c.credentials, c.responseType)
  }

  const LoginFailedMessage: string := "Can't login to Proxmox Server! Check your credentials."

  /**
   * `new Proxmox($credentials, $responseType)`. `login` stands for
   * `Credentials::login()`, which answers a token or a falsy value.
   */
  function New(input: CredentialInput, responseType: string, login: Credentials -> Option<Token>): (r: Result<Client, Error>)
    ensures r.Success? <==> Intake(input).Success? && login(Intake(input).value).Some?
    ensures Intake(input).Failure? ==> r == Failure(Intake(input).error)
    ensures Intake(input).Success? && login(Intake(input).value).None? ==> r == Failure(Runtime(LoginFailedMessage))
    ensures r.Success? ==>
              && Valid(r.value)
              && UrlFresh(r.value)
              && r.value.credentials == Intake(input).value
              && r.value.Negotiated() == Negotiate(responseType)
              && r.value.authToken == login(Intake(input).value).value
  {
    var creds :- Intake(input);
    var format := Negotiate(responseType);
    var apiUrl := ApiUrl.Build(creds, format.responseType);
    match login(creds)
    case None => Failure(Runtime(LoginFailedMessage))
    case Some(token) => Success(Client(creds, format.responseType, format.fakeType, apiUrl, token))
  }

  /** Bad credential input is rejected before login is attempted: the login oracle does not matter. */
  lemma NewRejectsBeforeLogin(input: CredentialInput, responseType: string,
                              login1: Credentials -> Option<Token>, login2: Credentials -> Option<Token>)
    requires Intake(input).Failure?
    ensures New(input, responseType, login1) == New(input, responseType, login2)
    ensures New(input, responseType, login1).Failure?
    ensures New(input, responseType, login1).error.InvalidArgument?
  {
  }

  /** `setResponseType($r)`: rewrites both format fields and nothing else; the cached URL stays. */
  function SetResponseType(c: Client, r: string): (c': Client)
    ensures c'.Negotiated() == Negotiate(r)
    ensures Valid(c')
    ensures c'.credentials == c.credentials && c'.apiUrl == c.apiUrl && c'.authToken == c.authToken
  {
    var format := Negotiate(r);
    c.(responseType := format.responseType, fakeType := format.fakeType)
  }

  /** `getResponseType()`: the pseudo-format if there is one, else the wire format. */
  function GetResponseType(c: Client): (r: string)
    ensures Valid(c) ==> Reportable(r) && Negotiate(r) == c.Negotiated()
  {
    Effective(c.Negotiated())
  }

  /**
   * Setting a format and asking for it back returns it exactly when the client
   * knows the name; otherwise the client reports "array".
   */
  lemma GetAfterSetResponseType(c: Client, r: string)
    ensures GetResponseType(SetResponseType(c, r)) == r <==> Reportable(r)
    ensures !Reportable(r) ==> GetResponseType(SetResponseType(c, r)) == DefaultResponseType
    ensures r in SupportedFormats ==> SetResponseType(c, r).responseType == r
    ensures !(r in SupportedFormats) ==> SetResponseType(c, r).responseType in ["png", "json"]
  {
    EffectiveAfterNegotiate(r);
  }

  /** Setting back the reported format leaves a valid client unchanged. */
  lemma SetGetResponseType(c: Client)
    requires Valid(c)
    ensures SetResponseType(c, GetResponseType(c)) == c
  {
  }

  /** `getAuthToken()` */
  function GetAuthToken(c: Client): Token
  {
    c.authToken
  }

  /** `setAuthToken($t)`: writes the token slot and nothing else. */
  function SetAuthToken(c: Client, t: Token): (c': Client)
    ensures GetAuthToken(c') == t
    ensures c'.credentials == c.credentials && c'.responseType == c.responseType
    ensures c'.fakeType == c.fakeType && c'.apiUrl == c.apiUrl
  {
    c.(authToken := t)
  }

  /** The last token written is the one read back, whatever was written before. */
  lemma AuthTokenLastWriteWins(c: Client, t1: Token, t2: Token)
    ensures SetAuthToken(SetAuthToken(c, t1), t2) == SetAuthToken(c, t2)
    ensures GetAuthToken(SetAuthToken(SetAuthToken(c, t1), t2)) == t2
  {
  }

  /** Writing back the token just read changes nothing. */
  lemma AuthTokenSetGet(c: Client)
    ensures SetAuthToken(c, GetAuthToken(c)) == c
  {
  }

  /**
   * The object after a call that may throw half-way: PHP keeps whatever was
   * assigned before the exception.
   */
  datatype Update = Update(client: Client, error: Option<Error>)

  /**
   * `setCredentials($credentials)`: the credentials are stored first, then
   * login is attempted; only a successful login replaces the token. The cached
   * URL is not recomputed.
   */
  function SetCredentials(c: Client, creds: Credentials, login: Credentials -> Option<Token>): (u: Update)
    ensures u.client.credentials == creds
    ensures u.error.None? <==> login(creds).Some?
    ensures login(creds).Some? ==> u.client.authToken == login(creds).value
    ensures login(creds).None? ==> u.error == Some(Runtime(LoginFailedMessage)) && u.client.authToken == c.authToken
    ensures u.client.responseType == c.responseType && u.client.fakeType == c.fakeType
    ensures u.client.apiUrl == c.apiUrl
  {
    var stored := c.(credentials := creds);
    match login(creds)
    case None => Update(stored, Some(Runtime(LoginFailedMessage)))
    case Some(token) => Update(SetAuthToken(stored, token), None)
  }

  /** A failed login still leaves the new credentials in place. */
  lemma FailedLoginKeepsNewCredentials(c: Client, creds: Credentials, login: Credentials -> Option<Token>)
    requires login(creds).None?
    requires creds != c.credentials
    ensures SetCredentials(c, creds, login).client != c
    ensures SetCredentials(c, creds, login).client == c.(credentials := creds)
  {
  }

  // ---------------------------------------------------------------------------
  // The four verbs

  datatype Verb = Get | Set | Create | Delete

  /** The HTTP method each verb is sent with (`parent::get/put/post/delete`). */
  function HttpMethod(v: Verb): string
  {
    match v
    case Get => "GET"
    case Set => "PUT"
    case Create => "POST"
    case Delete => "DELETE"
  }

  /** The message of the `InvalidArgumentException` each verb throws, spelling included. */
  function ParamsMessage(v: Verb): string
  {
    match v
    case Get => "GET params should be an associative array."
    case Set => "PUT params should be an associative array."
    case Create => "POST params should be an asociative array."
    case Delete => "DELETE params should be an associative array."
  }

  /** The `$params` argument: an array, or any other PHP value. */
  datatype Params = ArrayParams(entries: map<string, string>) | NotArray

  /** What is handed to the base class's transport for one call. */
  datatype Request = Request(httpMethod: string, url: string, params: map<string, string>, token: Token, timeout: nat)

  /** The checks and URL building a verb does before it hands over to the transport. */
  function Prepare(c: Client, verb: Verb, path: string, params: Params): (r: Result<Request, Error>)
    ensures r.Failure? <==> params.NotArray?
    ensures r.Failure? ==> r.error == InvalidArgument(ParamsMessage(verb))
    ensures r.Success? ==>
              && r.value.httpMethod == HttpMethod(verb)
              && r.value.url == c.apiUrl + Paths.Normalise(path)
              && r.value.params == params.entries
              && r.value.token == c.authToken
              && r.value.timeout == Timeout
  {
    match params
    case NotArray => Failure(InvalidArgument(ParamsMessage(verb)))
    case ArrayParams(entries) =>
      Success(Request(HttpMethod(verb), c.apiUrl + Paths.Normalise(path), entries, c.authToken, Timeout))
  }

  /** "nodes" and "/nodes" produce the same request. */
  lemma PrepareAbsorbsSlash(c: Client, verb: Verb, path: string, params: Params)
    requires !Paths.StartsWithSlash(path)
    ensures Prepare(c, verb, path, params) == Prepare(c, verb, "/" + path, params)
  {
  }

  /**
   * For a freshly built client every request URL is
   * `https://{hostname}:{port}/api2/{responseType}` followed by the normalised path.
   */
  lemma ConstructedRequestUrl(input: CredentialInput, responseType: string, login: Credentials -> Option<Token>,
                              verb: Verb, path: string, entries: map<string, string>)
    requires New(input, responseType, login).Success?
    ensures var c := New(input, responseType, login).value;
            Prepare(c, verb, path, ArrayParams(entries)).value.url
              == "https://" + c.credentials.hostname + ":" + c.credentials.port + "/api2/"
                 + Negotiate(responseType).responseType + Paths.Normalise(path)
  {
  }

  /** What a verb returns: the body as is, or the result of `json_decode`. */
  datatype Output<J> = Body(bytes: seq<byte>) | Decoded(value: J)

  /** ASCII text as a byte string. */
  function Ascii(s: string): (b: seq<byte>)
    requires forall i :: 0 <= i < |s| ==> s[i] as int < 128
    ensures |b| == |s|
    ensures forall i :: 0 <= i < |s| ==> b[i] == s[i] as int
  {
    if |s| == 0 then [] else [s[0] as int] + Ascii(s[1..])
  }

  const DataUriPrefix: seq<byte> := Ascii("data:image/png;base64,")

  /**
   * `processResponse($response)`: pseudo-formats are post-processed, real
   * formats pass the body through. `jsonDecode` stands for
   * `json_decode($response, true)`.
   */
  function ProcessResponse<J>(c: Client, body: seq<byte>, jsonDecode: seq<byte> -> J): (o: Output<J>)
    ensures c.fakeType.NoFake? ==> o == Body(body)
    ensures c.fakeType.PngB64? ==>
              && o.Body?
              && |DataUriPrefix| <= |o.bytes|
              && o.bytes[..|DataUriPrefix|] == DataUriPrefix
              && Base64.Decode(o.bytes[|DataUriPrefix|..]) == Some(body)
    ensures c.fakeType.ObjectFake? || c.fakeType.ArrayFake? ==> o == Decoded(jsonDecode(body))
  {
    match c.fakeType
    case NoFake => Body(body)
    case PngB64 =>
      var encoded := Base64.Encode(body);
      Base64.DecodeEncode(body);
      assert (DataUriPrefix + encoded)[|DataUriPrefix|..] == encoded;
      Body(DataUriPrefix + encoded)
    case _ => Decoded(jsonDecode(body))
  }

  /** The `pngb64` output is exactly the prefix followed by the Base64 encoding of the body. */
  lemma PngB64Output<J>(c: Client, body: seq<byte>, jsonDecode: seq<byte> -> J)
    requires c.fakeType == PngB64
    ensures ProcessResponse(c, body, jsonDecode) == Body(DataUriPrefix + Base64.Encode(body))
  {
    var o := ProcessResponse(c, body, jsonDecode);
    var suffix := o.bytes[|DataUriPrefix|..];
    Base64.EncodeDecode(suffix);
    assert o.bytes == o.bytes[..|DataUriPrefix|] + suffix;
  }

  /**
   * `get`, `set`, `create` and `delete`: validate the parameters, build the
   * URL, let the transport (`send`) perform the request, post-process the body.
   */
  function Call<J>(c: Client, verb: Verb, path: string, params: Params,
                   send: Request -> Result<seq<byte>, Error>, jsonDecode: seq<byte> -> J): (r: Result<Output<J>, Error>)
    ensures params.NotArray? ==> r == Failure(InvalidArgument(ParamsMessage(verb)))
    ensures params.ArrayParams? ==>
              var request := Prepare(c, verb, path, params).value;
              (send(request).Failure? ==> r == Failure(send(request).error))
              && (send(request).Success? ==> r == Success(ProcessResponse(c, send(request).value, jsonDecode)))
  {
    var request :- Prepare(c, verb, path, params);
    var body :- send(request);
    Success(ProcessResponse(c, body, jsonDecode))
  }

  /** Parameters that are not an array stop the call before any request is issued. */
  lemma NoRequestForBadParams<J>(c: Client, verb: Verb, path: string,
                                 send1: Request -> Result<seq<byte>, Error>,
                                 send2: Request -> Result<seq<byte>, Error>,
                                 jsonDecode: seq<byte> -> J)
    ensures Call(c, verb, path, NotArray, send1, jsonDecode) == Call(c, verb, path, NotArray, send2, jsonDecode)
    ensures Call(c, verb, path, NotArray, send1, jsonDecode) == Failure(InvalidArgument(ParamsMessage(verb)))
  {
  }

  /** The request a verb issues depends on the path only through its normalised form. */
  lemma CallSameForEquivalentPaths<J>(c: Client, verb: Verb, p: string, q: string, params: Params,
                                      send: Request -> Result<seq<byte>, Error>, jsonDecode: seq<byte> -> J)
    requires Paths.Normalise(p) == Paths.Normalise(q)
    ensures Call(c, verb, p, params, send, jsonDecode) == Call(c, verb, q, params, send, jsonDecode)
  {
  }

  // ---------------------------------------------------------------------------
  // Sequences of operations on an existing client

  datatype Op = SetFormat(name: string) | SetCreds(creds: Credentials) | PutToken(token: Token)

  /** Applies the operations in order; a failing `setCredentials` still leaves its state behind. */
  function Run(c: Client, ops: seq<Op>, login: Credentials -> Option<Token>): (c': Client)
    requires Valid(c)
    ensures Valid(c')
    ensures c'.apiUrl == c.apiUrl
    decreases |ops|
  {
    if |ops| == 0 then c
    else
      var next := match ops[0]
        case SetFormat(name) => SetResponseType(c, name)
        case SetCreds(creds) => SetCredentials(c, creds, login).client
        case PutToken(token) => SetAuthToken(c, token);
      Run(next, ops[1..], login)
  }

  // ---------------------------------------------------------------------------
  // The cached URL after a format or credential change

  /**
   * After `setResponseType` the cached URL still fits the client exactly when
   * the wire format did not change.
   */
  lemma StaleUrlAfterSetResponseType(c: Client, r: string)
    requires UrlFresh(c)
    ensures UrlFresh(SetResponseType(c, r)) <==> Negotiate(r).responseType == c.responseType
  {
    var c' := SetResponseType(c, r);
    if UrlFresh(c') {
      var u := ApiUrl.Build(c.credentials, c.responseType);
      assert u[|u| - |c.responseType|..] == c.responseType;
      assert u[|u| - |c'.responseType|..] == c'.responseType;
    }
  }

  /**
   * After `setCredentials` the cached URL still fits the client exactly when
   * host and port did not change, for hosts and ports `ApiUrl.Parse` can
   * read back (IPv6-literal hosts included).
   */
  lemma StaleUrlAfterSetCredentials(c: Client, creds: Credentials, login: Credentials -> Option<Token>)
    requires UrlFresh(c)
    requires ApiUrl.Separable(c.credentials) && ApiUrl.Separable(creds)
    ensures UrlFresh(SetCredentials(c, creds, login).client) <==>
              creds.hostname == c.credentials.hostname && creds.port == c.credentials.port
  {
    ApiUrl.BuildInjective(c.credentials, c.responseType, creds, c.responseType);
  }

  const SampleCredentials: Credentials := Credentials("pve", "root", "secret", "pam", "8006")
  const SampleToken: Token := Token("csrf", "ticket", "root@pam")

  /** A login oracle that accepts any credentials. */
  function AcceptingLogin(c: Credentials): Option<Token>
  {
    Some(SampleToken)
  }

  /** The client `new Proxmox([...], 'array')` yields for the sample credentials. */
  const SampleClient: Client :=
    Client(SampleCredentials, "json", ArrayFake, "https://pve:8006/api2/json", SampleToken)

  lemma SampleClientConstructed()
    ensures New(ArrayValue(AsArray(SampleCredentials)), DefaultResponseType, AcceptingLogin) == Success(SampleClient)
  {
    ArrayRoundTrip(SampleCredentials);
    assert Negotiate(DefaultResponseType) == Format("json", ArrayFake) by {
      assert DefaultResponseType !in SupportedFormats;
    }
    assert ApiUrl.Build(SampleCredentials, "json") == "https://pve:8006/api2/json";
    assert AcceptingLogin(SampleCredentials) == Some(SampleToken);
  }

  /**
   * The sample client switched to "png": it reports "png" but still requests
   * the JSON endpoint.
   */
  lemma StaleFormatExample()
    ensures GetResponseType(SetResponseType(SampleClient, "png")) == "png"
    ensures Prepare(SetResponseType(SampleClient, "png"), Get, "nodes", ArrayParams(map[])).value.url
              == "https://pve:8006/api2/json/nodes"
  {
    assert SupportedFormats[4] == "png";
    var png := SetResponseType(SampleClient, "png");
    assert png.Negotiated() == Format("png", NoFake);
    assert Paths.Normalise("nodes") == "/nodes";
  }

  /**
   * The sample client moved to another host with `setCredentials`: the login
   * goes to the new host, the requests still to the old one.
   */
  lemma StaleHostExample()
    ensures SetCredentials(SampleClient, SampleCredentials.(hostname := "other"), AcceptingLogin).client.credentials.hostname
              == "other"
    ensures Prepare(SetCredentials(SampleClient, SampleCredentials.(hostname := "other"), AcceptingLogin).client,
                    Get, "/nodes", ArrayParams(map[])).value.url
              == "https://pve:8006/api2/json/nodes"
  {
    assert Paths.Normalise("/nodes") == "/nodes";
  }

  /** `setResponseType` followed by the `$this->apiUrl = $this->getApiUrl()` the constructor does. */
  function SetResponseTypeRefreshed(c: Client, r: string): (c': Client)
    ensures UrlFresh(c') && Valid(c')
    ensures c'.Negotiated() == Negotiate(r)
    ensures c' == SetResponseType(c, r).(apiUrl := c'.apiUrl)
  {
    var changed := SetResponseType(c, r);
    changed.(apiUrl := ApiUrl.Build(changed.credentials, changed.responseType))
  }

  /** `setCredentials` with the base URL recomputed for the new host and port. */
  function SetCredentialsRefreshed(c: Client, creds: Credentials, login: Credentials -> Option<Token>): (u: Update)
    ensures UrlFresh(u.client)
    ensures u.client.credentials == creds
    ensures u.error == SetCredentials(c, creds, login).error
    ensures u.client == SetCredentials(c, creds, login).client.(apiUrl := u.client.apiUrl)
  {
    var u := SetCredentials(c, creds, login);
    u.(client := u.client.(apiUrl := ApiUrl.Build(creds, u.client.responseType)))
  }

  /** `Run` with the refreshed transitions: the cached URL then always fits the client. */
  function RunRefreshed(c: Client, ops: seq<Op>, login: Credentials -> Option<Token>): (c': Client)
    requires Valid(c) && UrlFresh(c)
    ensures Valid(c') && UrlFresh(c')
    decreases |ops|
  {
    if |ops| == 0 then c
    else
      var next := match ops[0]
        case SetFormat(name) => SetResponseTypeRefreshed(c, name)
        case SetCreds(creds) => SetCredentialsRefreshed(c, creds, login).client
        case PutToken(token) => SetAuthToken(c, token);
      RunRefreshed(next, ops[1..], login)
  }

  /** With the refreshed transitions every request goes to the current host, port and format. */
  lemma FreshRequestUrl(c: Client, verb: Verb, path: string, entries: map<string, string>)
    requires UrlFresh(c)
    ensures Prepare(c, verb, path, ArrayParams(entries)).value.url
              == "https://" + c.credentials.hostname + ":" + c.credentials.port + "/api2/"
                 + c.responseType + Paths.Normalise(path)
  {
  }
}
