/** The web app's request middleware: the double-submit CSRF check on
    state-changing requests and the issuing of a fresh token cookie. The 32
    random bytes and the production flag are parameters. */
module Middleware {
  import opened Wrappers
  import opened JsString

  type Byte = x: int | 0 <= x < 256

  /** What the middleware reads from a request: the method, the
      `x-csrf-token` header and the value of the `csrf-token` cookie. */
  datatype Request = Request(httpMethod: string, csrfHeader: Option<string>, csrfCookie: Option<string>)

  datatype SameSite = Strict | Lax | NoRestriction

  datatype CookieOptions = CookieOptions(httpOnly: bool, secure: bool, sameSite: SameSite, maxAge: nat)

  datatype SetCookie = SetCookie(name: string, value: string, options: CookieOptions)

  /** A 403 with its body, or the request passed on, possibly setting a cookie. */
  datatype Response = Forbidden(status: nat, body: string) | Next(setCookie: Option<SetCookie>)

  const TokenBytes: nat := 32
  const CookieMaxAge: nat := 60 * 60 * 24

  // ---------------------------------------------------------------------------
  // Base16
  // ---------------------------------------------------------------------------

  /** The two hex digits of a byte: a leading '0' below 16. */
  function HexByte(b: Byte): (r: string)
    ensures |r| == 2
    ensures IsHexDigit(r[0]) && IsHexDigit(r[1]) && !IsAsciiUpper(r[0]) && !IsAsciiUpper(r[1])
    ensures DigitValue(r[0]) * 16 + DigitValue(r[1]) == b
  {
    if b < 16 then
      DigitValueOfChar(b);
      DigitValueOfChar(0);
      ['0', DigitChar(b)]
    else
      assert NatToString(b, 16) == NatToString(b / 16, 16) + [DigitChar(b % 16)];
      assert NatToString(b / 16, 16) == [DigitChar(b / 16)];
      DigitValueOfChar(b / 16);
      DigitValueOfChar(b % 16);
      NatToString(b, 16)
  }

  /** The digits are `b.toString(16).padStart(2, '0')`. */
  lemma HexByteIsPadStart(b: Byte)
    ensures HexByte(b) == PadStart(NatToString(b, 16), 2, '0')
  {
    var digits := NatToString(b, 16);
    if b < 16 {
      assert digits == [DigitChar(b)];
      assert PadStart(digits, 2, '0') == ['0'] + digits;
    } else {
      assert digits == NatToString(b / 16, 16) + [DigitChar(b % 16)];
      assert NatToString(b / 16, 16) == [DigitChar(b / 16)];
    }
  }

  /** The bytes mapped to two hex digits each and joined with no separator. */
  function HexEncode(bytes: seq<Byte>): (r: string)
    ensures |r| == 2 * |bytes|
  {
    if bytes == [] then "" else HexByte(bytes[0]) + HexEncode(bytes[1..])
  }

  /** Reads a string of hex digit pairs back as bytes. */
  function HexDecode(s: string): seq<int>
    decreases |s|
  {
    if |s| < 2 then [] else [DigitValue(s[0]) * 16 + DigitValue(s[1])] + HexDecode(s[2..])
  }

  /** Every character of the encoding is a lower-case hex digit. */
  lemma {:induction false} HexEncodeDigits(bytes: seq<Byte>)
    ensures forall i :: 0 <= i < |HexEncode(bytes)| ==>
      IsHexDigit(HexEncode(bytes)[i]) && !IsAsciiUpper(HexEncode(bytes)[i])
  {
    if bytes != [] {
      HexEncodeDigits(bytes[1..]);
      var h, t := HexByte(bytes[0]), HexEncode(bytes[1..]);
      assert HexEncode(bytes) == h + t;
      forall i | 0 <= i < |h + t| ensures IsHexDigit((h + t)[i]) && !IsAsciiUpper((h + t)[i]) {
        if i >= 2 {
          assert (h + t)[i] == t[i - 2];
        }
      }
    }
  }

  /** Decoding the encoding gives back the bytes. */
  lemma {:induction false} HexRoundTrip(bytes: seq<Byte>)
    ensures HexDecode(HexEncode(bytes)) == bytes
  {
    if bytes != [] {
      var h, t := HexByte(bytes[0]), HexEncode(bytes[1..]);
      assert (h + t)[2..] == t;
      assert (h + t)[0] == h[0] && (h + t)[1] == h[1];
      HexRoundTrip(bytes[1..]);
    }
  }

  /** Different bytes give different tokens. */
  lemma HexEncodeInjective(a: seq<Byte>, b: seq<Byte>)
    requires HexEncode(a) == HexEncode(b)
    ensures a == b
  {
    HexRoundTrip(a);
    HexRoundTrip(b);
  }

  // ---------------------------------------------------------------------------
  // middleware
  // ---------------------------------------------------------------------------

  predicate IsSafeMethod(m: string)
  {
    m == "GET" || m == "HEAD"
  }

  /** A state-changing request is refused unless it carries a non-empty
      header token equal to the cookie token. */
  predicate CsrfRejects(req: Request)
  {
    && !IsSafeMethod(req.httpMethod)
    && (req.csrfHeader.None? || req.csrfHeader.value == "" || Some(req.csrfHeader.value) != req.csrfCookie)
  }

  /** `middleware(request)` with the random bytes the token would be made of
      and whether the app runs in production. */
  function HandleRequest(req: Request, randomBytes: seq<Byte>, production: bool): (r: Response)
    requires |randomBytes| == TokenBytes
    ensures r.Forbidden? <==> CsrfRejects(req)
    ensures r.Forbidden? ==> r.status == 403 && r.body == "Invalid CSRF token"
    ensures r.Next? ==> (r.setCookie.Some? <==> req.csrfCookie.None?)
  {
    if CsrfRejects(req) then Forbidden(403, "Invalid CSRF token")
    else if req.csrfCookie.None? then
      Next(Some(SetCookie("csrf-token", HexEncode(randomBytes),
        CookieOptions(true, production, Strict, CookieMaxAge))))
    else Next(None)
  }

  /** GET and HEAD are never refused. */
  lemma SafeMethodsPass(req: Request, randomBytes: seq<Byte>, production: bool)
    requires |randomBytes| == TokenBytes
    requires IsSafeMethod(req.httpMethod)
    ensures HandleRequest(req, randomBytes, production).Next?
  {
  }

  /** A state-changing request without the cookie is always refused, so a
      refused request never gets a cookie. */
  lemma NoCookieRejected(req: Request, randomBytes: seq<Byte>, production: bool)
    requires |randomBytes| == TokenBytes
    requires !IsSafeMethod(req.httpMethod) && req.csrfCookie.None?
    ensures HandleRequest(req, randomBytes, production) == Forbidden(403, "Invalid CSRF token")
  {
  }

  /** A state-changing request passes exactly when header and cookie hold
      the same non-empty token. */
  lemma UnsafeMethodPassesIff(req: Request, randomBytes: seq<Byte>, production: bool)
    requires |randomBytes| == TokenBytes
    requires !IsSafeMethod(req.httpMethod)
    ensures HandleRequest(req, randomBytes, production).Next? <==>
      exists t :: t != "" && req.csrfHeader == Some(t) && req.csrfCookie == Some(t)
  {
    if HandleRequest(req, randomBytes, production).Next? {
      var t := req.csrfHeader.value;
      assert t != "" && req.csrfHeader == Some(t) && req.csrfCookie == Some(t);
    }
  }

  /** A new session gets a 64-character lower-case hex token made of the
      random bytes, in an httpOnly, SameSite=strict cookie living one day,
      secure in production. */
  lemma NewSessionCookie(req: Request, randomBytes: seq<Byte>, production: bool)
    requires |randomBytes| == TokenBytes
    requires IsSafeMethod(req.httpMethod) && req.csrfCookie.None?
    ensures var r := HandleRequest(req, randomBytes, production);
      && r.Next? && r.setCookie.Some?
      && var c := r.setCookie.value;
      && c.name == "csrf-token"
      && |c.value| == 64
      && (forall i :: 0 <= i < |c.value| ==> IsHexDigit(c.value[i]) && !IsAsciiUpper(c.value[i]))
      && HexDecode(c.value) == randomBytes
      && c.options == CookieOptions(true, production, Strict, 86400)
  {
    HexEncodeDigits(randomBytes);
    HexRoundTrip(randomBytes);
  }
}
