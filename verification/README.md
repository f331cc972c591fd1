# ProxmoxVE PHP client: the bookkeeping around the requests

This project models the request-independent logic of the `Proxmox` client
class of the ProxmoxVE PHP API wrapper and of its base class `ProxmoxVE`:

- how the constructor accepts credentials;
- how a response type is negotiated into a wire format (`responseType`) and a
  client-side pseudo-format (`fakeType`);
- how the base API URL `https://{hostname}:{port}/api2/{format}` is built and
  cached;
- how `get`, `set`, `create` and `delete` check their parameters and normalise
  the resource path;
- how a response body is post-processed, including the `pngb64` data URI with
  Base64 as in section 4 of RFC 4648;
- the session-token slot, and the order of operations in `setCredentials`.

A client object is the immutable record `Proxmox.Client` (credentials,
responseType, fakeType, apiUrl, authToken), and every public operation is a
pure function from one record to the next. PHP exceptions are the `Errors.Error`
values inside a `Wrappers.Result`. `setCredentials` can throw after it has
already assigned a field; for that case it returns an `Update` that holds both
the new record and the error.

Three parts of the program are outside the model and are passed in as
functions:

- `Credentials::login()` becomes `login: Credentials -> Option<Token>`.
- `json_decode($response, true)` becomes `jsonDecode: seq<byte> -> J`.
- The base class's `get/put/post/delete` transport becomes
  `send: Request -> Result<seq<byte>, Error>`.

Modules:

- `Wrappers`: `Option` and `Result`.
- `Errors`: the three exception kinds.
- `Base64`: the encoder, a strict decoder, and proofs that each is the
  inverse of the other.
- `Credentials`: the credential record and the constructor's intake rule.
- `ResponseFormat`: format negotiation.
- `Paths`: path normalisation.
- `ApiUrl`: URL building, plus a parser that proves the URL shape.
- `ProxmoxVE`: `TIMEOUT` (30 seconds), `USER_AGENT` and the token record.
- `Proxmox`: the client.

Response bodies are byte strings (`seq<byte>`). Credential fields and URLs are
strings. The port is a string as well, because the client only ever
concatenates it into the URL.

The library's own tests, in tests/ProxmoxTest.php, expect more than the code
does. The model follows the code:

- The tests at tests/ProxmoxTest.php:100-128 expect an array holding only
  hostname, username and password to be accepted, with realm "pam" and port
  "8006" filled in. The code at src/Proxmox.php:69-75 rejects any array that
  lacks one of the five keys hostname, username, password, realm and port.
- The tests at tests/ProxmoxTest.php:80-97 reject credential objects that are
  incomplete or hide their properties, which suggests that a complete object of
  another class would be accepted. The code at src/Proxmox.php:65-88 accepts
  only a `Credentials` object or an array.
- The tests at tests/ProxmoxTest.php:38-97 expect
  `MalformedCredentialsException`. The code at src/Proxmox.php:74 and :87
  raises `InvalidArgumentException`.

Three further facts about the code shape the model:

- `setCredentials` stores the new credentials at src/Proxmox.php:167, before
  the login at :168. A failed login leaves them in place; only the token stays
  as it was.
- For a name that is neither a supported format nor "pngb64", the fake type
  becomes "array" at src/Proxmox.php:126 (unless the name is "object"), and
  `getResponseType()` at :144 reports that.
- `apiUrl` is assigned only at src/Proxmox.php:92, in the constructor, and
  every verb reads it (:199, :227, :256, :284). It is never recomputed (see
  Findings).

## Model

| member | source | states |
|---|---|---|
| Credentials.Intake | src/Proxmox.php:63-88 | input is accepted exactly when it is a Credentials object, or an array holding all five keys; every rejection is an InvalidArgumentException; an object is kept as is |
| Credentials.ArrayRoundTrip | src/Proxmox.php:68-83 | the array holding the five fields of c is accepted and yields c |
| Credentials.ExtraKeysIgnored | src/Proxmox.php:72-83 | extra array entries do not change the outcome |
| Credentials.MissingKeyRejected | src/Proxmox.php:69-75 | an array lacking any one of the five keys is rejected with the "PVE credentials needs ..." message |
| ResponseFormat.Negotiate | src/Proxmox.php:110-134 | a supported name gives (name, false); "pngb64" gives ("png", pngb64); any other name gives "json" with "object" or "array"; the result is always consistent: a supported wire format, with pseudo-formats on png or json |
| ResponseFormat.EffectiveAfterNegotiate | src/Proxmox.php:110-145 | the reported format equals the set name if and only if the name is a supported format, "pngb64", "object" or "array"; every other name reports "array" |
| ResponseFormat.NegotiateEffective | src/Proxmox.php:110-145 | re-setting the reported name of a consistent format restores that format |
| ResponseFormat.NegotiateSameIffEffectiveSame | src/Proxmox.php:110-145 | two names store the same fields exactly when they report the same name |
| Paths.Normalise | src/Proxmox.php:195-197 | the result starts with '/', ends with the input and is at most one character longer |
| Paths.NormaliseKeepsRooted | src/Proxmox.php:196-197 | a path that already starts with '/' is unchanged |
| Paths.NormaliseShortest | src/Proxmox.php:196-197 | no string that starts with '/' and ends with the path is shorter than the result |
| Paths.NormaliseIdempotent | src/Proxmox.php:224-225 | normalising twice equals normalising once |
| Paths.NormaliseAbsorbsSlash | src/Proxmox.php:252-254 | "nodes" and "/nodes" normalise alike, and so do "" and "/" |
| Paths.NormaliseSameIff | src/Proxmox.php:281-282 | two paths normalise alike exactly when they are equal or one is the other with the added '/' |
| ApiUrl.Build | src/Proxmox.php:295-299 | the URL starts with "https://", ends with the wire format, and its length is the sum of the pieces plus the fixed text |
| ApiUrl.ParseBuild | src/Proxmox.php:295-299 | for a host without '/' (it may hold ':', as an IPv6 literal does) and a port without ':' or '/', the URL reads back as exactly that host, port and format; the port is the text after the last ':' of the authority |
| ApiUrl.BuildParse | src/Proxmox.php:295-299 | every string the reader accepts is the URL built from what it read |
| ApiUrl.BuildInjective | src/Proxmox.php:295-299 | for hosts without '/' and ports without ':' or '/', two URLs are equal exactly when host, port and format agree |
| Base64.Char | src/Proxmox.php:313 | each 6-bit value maps to an alphabet character other than '=' that decodes back to it |
| Base64.Encode | src/Proxmox.php:313 | the output has four characters per started group of three bytes; each is an alphabet character or '=', and '=' appears only in the last two positions |
| Base64.VectorF | src/Proxmox.php:313 | "f" encodes as "Zg==" (section 10 of RFC 4648) |
| Base64.VectorFo | src/Proxmox.php:313 | "fo" encodes as "Zm8=" |
| Base64.VectorFoo | src/Proxmox.php:313 | "foo" encodes as "Zm9v" |
| Base64.VectorFoob | src/Proxmox.php:313 | "foob" encodes as "Zm9vYg==" |
| Base64.VectorFooba | src/Proxmox.php:313 | "fooba" encodes as "Zm9vYmE=" |
| Base64.VectorFoobar | src/Proxmox.php:313 | "foobar" encodes as "Zm9vYmFy" |
| Base64.VectorPlusSlash | src/Proxmox.php:313 | the octets 251, 255 encode as "+/8=", fixing the last two alphabet characters |
| Base64.DecodeVectorFoobar | src/Proxmox.php:312-314 | "Zm9vYmFy" decodes to "foobar" |
| Base64.DecodeVectorF | src/Proxmox.php:312-314 | "Zg==" decodes to "f" |
| Base64.DecodeRejectsInnerPad | src/Proxmox.php:312-314 | "Zg==Zg==", with padding before the end, is not a canonical encoding and is refused |
| Base64.DecodeEncode | src/Proxmox.php:312-314 | decoding the encoding of any byte string gives that byte string back |
| Base64.EncodeDecode | src/Proxmox.php:312-314 | whatever the strict decoder accepts is the encoding of what it returns |
| Base64.DecodeIffEncode | src/Proxmox.php:312-314 | Decode(s) is b if and only if Encode(b) is s |
| Base64.EncodeInjective | src/Proxmox.php:313 | distinct byte strings have distinct encodings |
| Proxmox.New | src/Proxmox.php:63-102 | construction succeeds exactly when intake succeeds and login returns a token; intake errors come first, then the login RuntimeException; the new client is valid, its URL is built from its credentials and negotiated format, and it holds the login token |
| Proxmox.NewRejectsBeforeLogin | src/Proxmox.php:63-94 | bad credential input fails with InvalidArgumentException whatever login would answer |
| Proxmox.SetResponseType | src/Proxmox.php:110-134 | the format fields become the negotiated pair and stay consistent; credentials, cached URL and token are untouched |
| Proxmox.GetResponseType | src/Proxmox.php:142-145 | on a valid client the reported name is one the client knows, and negotiating it reproduces the client's format fields |
| Proxmox.GetAfterSetResponseType | src/Proxmox.php:110-145 | reading back a set format returns it exactly when the name is known, and "array" otherwise; the wire format is the name itself when supported, else png or json |
| Proxmox.SetGetResponseType | src/Proxmox.php:110-145 | setting the reported format of a valid client changes nothing |
| Proxmox.GetAuthToken | src/ProxmoxVE.php:49-52 | reads the token slot; what it returns is stated by AuthTokenLastWriteWins and AuthTokenSetGet |
| Proxmox.SetAuthToken | src/ProxmoxVE.php:37-40 | the token read back is the one written; credentials, formats and cached URL are unchanged |
| Proxmox.AuthTokenLastWriteWins | src/ProxmoxVE.php:37-52 | of two writes only the last one is visible |
| Proxmox.AuthTokenSetGet | src/ProxmoxVE.php:37-52 | writing back the token just read changes nothing |
| Proxmox.SetCredentials | src/Proxmox.php:165-176 | the new credentials are always stored; the call fails exactly when login fails; a successful login installs its token and a failed one keeps the old token and raises RuntimeException; formats and cached URL are unchanged |
| Proxmox.FailedLoginKeepsNewCredentials | src/Proxmox.php:165-173 | after a failed login the client differs from before only in its credentials |
| Proxmox.Prepare | src/Proxmox.php:188-287 | a verb fails before any request exactly when params are not an array, with that verb's message; otherwise the request uses the verb's HTTP method, the cached URL plus the normalised path, the params, the current token and TIMEOUT |
| Proxmox.PrepareAbsorbsSlash | src/Proxmox.php:195-199 | a path and the same path with a leading '/' give the same request |
| Proxmox.ConstructedRequestUrl | src/Proxmox.php:91-92 | on a freshly built client every request URL is https://host:port/api2/format followed by the normalised path |
| Proxmox.ProcessResponse | src/Proxmox.php:309-324 | without a pseudo-format the body is returned unchanged; with pngb64 the output is the data-URI prefix followed by text that Base64-decodes to the body; with object or array it is the JSON decoding |
| Proxmox.PngB64Output | src/Proxmox.php:312-315 | the pngb64 output is exactly "data:image/png;base64," followed by the Base64 encoding of the body |
| Proxmox.Call | src/Proxmox.php:188-287 | non-array params fail with InvalidArgumentException; otherwise a transport error is passed through and a body is post-processed |
| Proxmox.NoRequestForBadParams | src/Proxmox.php:188-193 | with non-array params the outcome does not depend on the transport, so no request is made |
| Proxmox.CallSameForEquivalentPaths | src/Proxmox.php:195-201 | paths that normalise alike give identical calls |
| Proxmox.Run | src/Proxmox.php:92 | any sequence of format, credential and token changes keeps a valid client valid and never changes the cached URL |
| Proxmox.StaleUrlAfterSetResponseType | src/Proxmox.php:110-134 | after setResponseType the cached URL still fits the client exactly when the wire format did not change |
| Proxmox.StaleUrlAfterSetCredentials | src/Proxmox.php:165-176 | for hosts without '/' (IPv6 literals included) and ports without ':' or '/', after setCredentials the cached URL still fits exactly when host and port did not change |
| Proxmox.SampleClientConstructed | src/Proxmox.php:63-102 | the sample array credentials with the default format build the sample client |
| Proxmox.StaleFormatExample | src/Proxmox.php:110-134 | the sample client switched to "png" reports "png" but requests .../api2/json/nodes |
| Proxmox.StaleHostExample | src/Proxmox.php:165-176 | the sample client moved to host "other" still requests https://pve:8006/... |
| Proxmox.SetResponseTypeRefreshed | src/Proxmox.php:91-92 | like SetResponseType, but the cached URL is rebuilt and fits the client |
| Proxmox.SetCredentialsRefreshed | src/Proxmox.php:165-176 | like SetCredentials, same error, but the cached URL is rebuilt for the new host and port |
| Proxmox.RunRefreshed | src/Proxmox.php:91-92 | with the refreshed transitions, any sequence of operations keeps the client valid and its cached URL fitting |
| Proxmox.FreshRequestUrl | src/Proxmox.php:199 | on a client whose URL fits, every request goes to https://host:port/api2/format followed by the normalised path |

## Left out

- HTTP transport: the base class's `get`, `put`, `post` and `delete` are not part of this model. They are the `send` parameter. The `Request` record assumes they use the current token and `TIMEOUT`. They may raise BadResponseException, which is passed through unchanged.
- `parent::__construct($authToken)`: the base class shown has no constructor. The model assumes it stores the token, as `setAuthToken` does.
- `Credentials::login()`: network I/O in a class that is not part of this model. It is an oracle parameter.
- `json_decode`: a library call, kept as an uninterpreted parameter. The `object` pseudo-format decodes the same way as `array`, because the source does so.
- The `Credentials` and `AuthToken` classes are not part of this model. Their getters are assumed to return the values they were built with.
- PHP loose comparison (`in_array`, `==`) on values that are not strings. Format names are strings, and for the non-numeric names involved, loose comparison equals string equality.
- Array values that are not strings. Credential fields and params are modelled as strings, since the client only concatenates them or forwards them.
- `getCredentials()` and `USER_AGENT` carry no logic. They are the `credentials` field and the `ProxmoxVE.UserAgent` constant.
- BadResponseException: an empty exception class, represented by the single tag `Errors.BadResponse`.
- Proxmox.StaleUrlAfterSetCredentials: proved only for hosts without '/' and ports without ':' or '/'. Without such a restriction the equivalence is false: host "a:1" with port "2" and host "a" with port "1:2" give the same URL. Neither kind of string is a valid host name or port.
- Proxmox.ProcessResponse: for pngb64, the contract states only the prefix and that the rest Base64-decodes to the body. The exact output is stated by Proxmox.PngB64Output.

## Findings

| source | as written | input that shows it | evidently intended | confidence | as-written member | corrected member |
|---|---|---|---|---|---|---|
| src/Proxmox.php:110-134 | `setResponseType` changes `responseType` but leaves the URL cached at line 92 | build with `'array'`, call `setResponseType('png')`, then `get('nodes')`: `getResponseType()` is "png", yet the request goes to https://pve:8006/api2/json/nodes and the JSON body comes back raw | the URL suffix follows the current format, as the constructor arranges by setting the format before computing the URL | medium, not executed | Proxmox.StaleFormatExample | Proxmox.SetResponseTypeRefreshed |
| src/Proxmox.php:165-176 | `setCredentials` logs in with the new credentials but keeps the URL of the old host and port | sample client, `setCredentials` with hostname "other": requests still go to https://pve:8006/api2/json/... and carry the other host's token | requests go to the host the client is logged in to | high, not executed | Proxmox.StaleHostExample | Proxmox.SetCredentialsRefreshed |

The main model keeps the as-written `SetResponseType`, `SetCredentials` and
`Run`, because they are what the code does. `RunRefreshed` and
`FreshRequestUrl` are built on the corrected transitions, and prove that the
cached URL then always matches the current host, port and format.
