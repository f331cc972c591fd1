/**
 * Response-format negotiation (`setResponseType` / `getResponseType`): one
 * caller-facing name is split into the wire format put in the URL
 * (`responseType`) and a client-side pseudo-format (`fakeType`) that says how
 * the body is post-processed.
 */
module ResponseFormat {

  /** The formats the server understands, as `$supportedFormats` lists them. */
  const SupportedFormats: seq<string> := ["json", "html", "extjs", "text", "png"]

  /** The constructor's and `setResponseType`'s default argument. */
  const DefaultResponseType: string := "array"

  /**
   * The `fakeType` field: `false`, or one of the three strings the source
   * ever stores in it.
   */
  datatype FakeType = NoFake | PngB64 | ObjectFake | ArrayFake {
    /** The string stored in the PHP field, for the three string values. */
    function Name(): string
      requires !NoFake?
    {
      match this
      case PngB64 => "pngb64"
      case ObjectFake => "object"
      case ArrayFake => "array"
    }
  }

  /** The pair of fields `setResponseType` writes. */
  datatype Format = Format(responseType: string, fakeType: FakeType)

  /** `fakeType` and `responseType` agree: pseudo-formats ride on `png` or `json`. */
  predicate Consistent(f: Format)
  {
    && f.responseType in SupportedFormats
    && (f.fakeType == PngB64 ==> f.responseType == "png")
    && (f.fakeType.ObjectFake? || f.fakeType.ArrayFake? ==> f.responseType == "json")
  }

  /** What `setResponseType($r)` stores. */
  function Negotiate(r: string): (f: Format)
    ensures Consistent(f)
    ensures r in SupportedFormats ==> f == Format(r, NoFake)
    ensures r == "pngb64" ==> f == Format("png", PngB64)
    ensures r !in SupportedFormats && r != "pngb64" ==>
              f.responseType == "json" && f.fakeType == (if r == "object" then ObjectFake else ArrayFake)
  {
    if r !in SupportedFormats then
      if r == "pngb64" then Format("png", PngB64)
      else if r == "object" then Format("json", ObjectFake)
      else Format("json", ArrayFake)
    else
      Format(r, NoFake)
  }

  /** What `getResponseType()` reports: `$fakeType ?: $responseType`. */
  function Effective(f: Format): string
  {
    if f.fakeType.NoFake? then f.responseType else f.fakeType.Name()
  }

  /** The names `getResponseType` can report back unchanged after they were set. */
  predicate Reportable(r: string)
  {
    r in SupportedFormats || r in ["pngb64", "object", "array"]
  }

  /**
   * Setting a name and reading the format back gives that name exactly when it
   * is one the client knows; any other name reads back as the default
   * "array".
   */
  lemma EffectiveAfterNegotiate(r: string)
    ensures Effective(Negotiate(r)) == r <==> Reportable(r)
    ensures !Reportable(r) ==> Effective(Negotiate(r)) == DefaultResponseType
  {
  }

  /** Re-applying the reported name of a consistent format restores it. */
  lemma NegotiateEffective(f: Format)
    requires Consistent(f)
    ensures Negotiate(Effective(f)) == f
  {
  }

  /** Two names lead to the same stored format exactly when they report the same. */
  lemma NegotiateSameIffEffectiveSame(r1: string, r2: string)
    ensures Negotiate(r1) == Negotiate(r2) <==> Effective(Negotiate(r1)) == Effective(Negotiate(r2))
  {
    NegotiateEffective(Negotiate(r1));
    NegotiateEffective(Negotiate(r2));
  }
}
