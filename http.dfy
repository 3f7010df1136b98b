/** The parts of a web request and its per-request context that the
    authentication code reads and writes: cookies and headers of the request,
    the key/value store of the context, the JSON reply, the response headers,
    and whether the handler chain was aborted or continued. */
module Http {
  import opened Wrappers
  import opened Numbers
  import Sessions

  /** `cookies` holds each request cookie's value after URL unescaping, and ""
      for a value that does not unescape (the framework reads it as "").
      `headers` holds the first value of each request header under its
      canonical name (see `CanonicalKey`), as the server stores them. */
  datatype Request = Request(cookies: map<string, string>, headers: map<string, string>)

  /** A request cookie; reading an absent cookie is an error. */
  function Cookie(r: Request, name: string): Option<string> {
    if name in r.cookies then Some(r.cookies[name]) else None
  }

  /** The characters a header name may hold (the `token` of RFC 9110,
      section 5.6.2). */
  predicate IsTokenChar(ch: char) {
    ('a' <= ch <= 'z') || ('A' <= ch <= 'Z') || ('0' <= ch <= '9') || ch in "!#$%&'*+-.^_`|~"
  }

  /** A letter in upper case when it starts a word, in lower case otherwise;
      other characters are kept. */
  function CaseFor(ch: char, startsWord: bool): (out: char)
    ensures out == '-' <==> ch == '-'
  {
    if startsWord && 'a' <= ch <= 'z' then (ch as int - 32) as char
    else if !startsWord && 'A' <= ch <= 'Z' then (ch as int + 32) as char
    else ch
  }

  /** Every character of the name is a token character. */
  predicate IsToken(name: string) {
    forall i :: 0 <= i < |name| ==> IsTokenChar(name[i])
  }

  /** Changing the case of a letter keeps it a token character. */
  lemma CaseForKeepsToken(ch: char, startsWord: bool)
    requires IsTokenChar(ch)
    ensures IsTokenChar(CaseFor(ch, startsWord))
  {
  }

  /** Whether the character at index `i` starts a word of the name. */
  predicate StartsWord(name: string, i: int)
    requires 0 <= i < |name|
  {
    i == 0 || name[i - 1] == '-'
  }

  /** Every letter of the name put in the case its position asks for. */
  function Canonicalised(name: string): (key: string)
    ensures |key| == |name|
    ensures forall i :: 0 <= i < |name| ==> key[i] == CaseFor(name[i], StartsWord(name, i))
  {
    seq(|name|, i requires 0 <= i < |name| => CaseFor(name[i], StartsWord(name, i)))
  }

  /** The canonical form of a header name, as Go's `CanonicalMIMEHeaderKey`
      computes it: the first letter and every letter after a `-` in upper
      case, the other letters in lower case. A name holding a character
      outside the token set is kept as it is. */
  function CanonicalKey(name: string): (key: string)
    ensures |key| == |name|
    ensures IsToken(name) ==>
      forall i :: 0 <= i < |name| ==> key[i] == CaseFor(name[i], StartsWord(name, i))
    ensures !IsToken(name) ==> key == name
  {
    if IsToken(name) then Canonicalised(name) else name
  }

  /** A request header, looked up by the canonical form of the name asked
      for; an absent header reads as "". */
  function GetHeader(r: Request, name: string): (v: string)
    ensures CanonicalKey(name) in r.headers ==> v == r.headers[CanonicalKey(name)]
    ensures CanonicalKey(name) !in r.headers ==> v == ""
  {
    if CanonicalKey(name) in r.headers then r.headers[CanonicalKey(name)] else ""
  }

  /** Canonicalising a canonical name changes nothing. */
  lemma CanonicalKeyIdempotent(name: string)
    ensures CanonicalKey(CanonicalKey(name)) == CanonicalKey(name)
  {
    var key := CanonicalKey(name);
    if IsToken(name) {
      forall i | 0 <= i < |key| ensures IsTokenChar(key[i]) {
        CaseForKeepsToken(name[i], StartsWord(name, i));
      }
      assert IsToken(key);
    }
  }

  /** The canonical session header name is `X-Session-Id`. */
  lemma SessionHeaderCanonical()
    ensures CanonicalKey("X-Session-ID") == "X-Session-Id"
  {
    assert IsToken("X-Session-ID");
    var key := CanonicalKey("X-Session-ID");
    assert forall i :: 0 <= i < 12 ==> key[i] == "X-Session-Id"[i];
  }

  /** A lower-case spelling names the same header. */
  lemma LowerCaseSessionHeader()
    ensures CanonicalKey("x-session-id") == "X-Session-Id"
  {
    assert IsToken("x-session-id");
    var key := CanonicalKey("x-session-id");
    assert forall i :: 0 <= i < 12 ==> key[i] == "X-Session-Id"[i];
  }

  /** A name with a space is not canonicalised. */
  lemma NameWithSpaceKept()
    ensures CanonicalKey("X SESSION") == "X SESSION"
  {
    assert !IsTokenChar("X SESSION"[1]);
    assert !IsToken("X SESSION");
  }

  /** A user as the handlers return it (timestamps left out). A role name that
      the join did not find reads as "". */
  datatype User = User(
    id: string,
    email: string,
    username: string,
    firstName: string,
    lastName: string,
    roleId: string,
    roleName: string,
    active: bool)

  /** What the authentication code stores in a context. */
  datatype Value = SessionValue(session: Sessions.Session) | Text(text: string)

  /** The JSON replies of the authentication code. */
  datatype Reply =
    | Error(code: int, message: string)    // {"error": message}
    | LoginOk(sessionId: string, user: User)
    | LoggedOut                             // {"message": ..., "success": true}
    | AuthStatus(current: Option<User>)    // {"authenticated": current.Some?, "user": ...}
    | UserInfo(user: User)
    | Done(message: string)                 // {"message": message}
  {
    function Status(): int {
      if Error? then code else 200
    }
  }

  /** The values of a response header, in order; none when it was never set. */
  function HeaderValues(h: map<string, seq<string>>, name: string): seq<string> {
    if name in h then h[name] else []
  }

  /** The Set-Cookie line the framework's `SetCookie` writes, with no SameSite
      attribute (the default mode emits none): an empty path becomes "/", a
      negative age is written as `Max-Age=0` and a zero age not at all. */
  function CookieLine(name: string, value: string, maxAge: int, path: string, domain: string,
                      secure: bool, httpOnly: bool): (line: string)
    ensures |line| > |name|
  {
    name + "=" + value
      + "; Path=" + (if path == "" then "/" else path)
      + (if domain != "" then "; Domain=" + domain else "")
      + (if maxAge > 0 then "; Max-Age=" + Decimal(maxAge) else if maxAge < 0 then "; Max-Age=0" else "")
      + (if httpOnly then "; HttpOnly" else "")
      + (if secure then "; Secure" else "")
  }

  class Context {
    const request: Request
    var keys: map<string, Value>
    var reply: Option<Reply>
    /** The response headers: each name with its values, in order. */
    var headers: map<string, seq<string>>
    var aborted: bool
    /** The rest of the handler chain was invoked (`Next`). */
    var proceeded: bool

    constructor (request: Request)
      ensures this.request == request
      ensures keys == map[] && reply == None && headers == map[] && !aborted && !proceeded
    {
      this.request := request;
      keys := map[];
      reply := None;
      headers := map[];
      aborted := false;
      proceeded := false;
    }

    method Set(key: string, value: Value)
      modifies this`keys
      ensures keys == old(keys)[key := value]
    {
      keys := keys[key := value];
    }

    method JSON(r: Reply)
      modifies this`reply
      ensures reply == Some(r)
    {
      reply := Some(r);
    }

    /** `Header` sets the header to this one value, replacing any earlier
        values; an empty value deletes the header. */
    method Header(name: string, value: string)
      modifies this`headers
      ensures value == "" ==> headers == old(headers) - {name}
      ensures value != "" ==> headers == old(headers)[name := [value]]
    {
      if value == "" {
        headers := headers - {name};
        return;
      }
      headers := headers[name := [value]];
    }

    /** `SetCookie` adds one more Set-Cookie header after those already set.
        `value` is taken as already URL-escaped. */
    method SetCookie(name: string, value: string, maxAge: int, path: string, domain: string,
                     secure: bool, httpOnly: bool)
      modifies this`headers
      ensures headers == old(headers)["Set-Cookie" :=
        HeaderValues(old(headers), "Set-Cookie") + [CookieLine(name, value, maxAge, path, domain, secure, httpOnly)]]
    {
      var line := CookieLine(name, value, maxAge, path, domain, secure, httpOnly);
      headers := headers["Set-Cookie" := HeaderValues(headers, "Set-Cookie") + [line]];
    }

    method Abort()
      modifies this`aborted
      ensures aborted
    {
      aborted := true;
    }

    method Next()
      modifies this`proceeded
      ensures proceeded
    {
      proceeded := true;
    }
  }
}
