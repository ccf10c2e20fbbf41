/** The gate in front of every page and route: an allow-list of client
    addresses, then HTTP Basic authentication in the style of section 2 of
    RFC 7617 when a user name and a password are configured. The gate is a
    pure decision from the request, the configuration and a base64 decoder. */
module AccessGate {
  import opened Results
  import opened Strings
  import opened Decimal

  /** What the gate reads from a request. */
  datatype Request = Request(
    ip: Option<string>,             // the platform's `request.ip`
    forwardedFor: Option<string>,   // the `x-forwarded-for` header
    realIp: Option<string>,         // the `x-real-ip` header
    authorization: Option<string>)  // the `authorization` header

  /** The environment: `ALLOWED_IPS`, `BASIC_AUTH_USER`, `BASIC_AUTH_PASSWORD`. */
  datatype Config = Config(allowedIps: Option<string>, user: Option<string>, password: Option<string>)

  /** `atob`: `None` where it throws on a string that is not base64. */
  type Decoder = string -> Option<string>

  datatype Decision =
    | Allow                                             // `NextResponse.next()`
    | Forbidden(message: string)                        // 403, plain text
    | Unauthorized(message: string, challenge: string)  // 401 with `WWW-Authenticate`
    | Fault                                             // `atob` threw

  const DeniedMessage := "アクセスが拒否されました。許可されたIPアドレスからのみアクセス可能です。"
  const AuthRequired := "認証が必要です"
  const AuthFailed := "認証に失敗しました"
  const Challenge := "Basic realm=\"Secure Area\""

  // ------------------------------------------------------------------------
  // The address check

  /** The client address: the first of the three sources that is present
      and non-empty. */
  function ClientIp(req: Request): (r: Option<string>)
    ensures r.Some? <==> IsNonEmpty(req.ip) || IsNonEmpty(req.forwardedFor) || IsNonEmpty(req.realIp)
    ensures r.Some? ==> r.value != ""
    ensures IsNonEmpty(req.ip) ==> r == req.ip
    ensures !IsNonEmpty(req.ip) && IsNonEmpty(req.forwardedFor) ==> r == req.forwardedFor
    ensures r.Some? && !IsNonEmpty(req.ip) && !IsNonEmpty(req.forwardedFor) ==> r == req.realIp
  {
    if IsNonEmpty(req.ip) then req.ip
    else if IsNonEmpty(req.forwardedFor) then req.forwardedFor
    else NonEmptyOrNone(req.realIp)
  }

  function TrimEach(entries: seq<string>): (r: seq<string>)
    ensures |r| == |entries|
    ensures forall k :: 0 <= k < |r| ==> r[k] == Trim(entries[k])
  {
    if |entries| == 0 then [] else [Trim(entries[0])] + TrimEach(entries[1..])
  }

  /** The allow-list: the setting split at commas, each entry trimmed; no
      entries when the setting is absent. A setting that is present is never
      an empty list, even when it is the empty string. */
  function AllowList(setting: Option<string>): (list: seq<string>)
    ensures |list| > 0 <==> setting.Some?
    ensures setting.Some? ==> |list| == |Split(setting.value, ',')|
    ensures setting.Some? ==> forall k :: 0 <= k < |list| ==> list[k] == Trim(Split(setting.value, ',')[k])
  {
    if setting.Some? then TrimEach(Split(setting.value, ',')) else []
  }

  /** `Math.trunc(n / 8)`: division by eight rounded toward zero. */
  function TruncDiv8(n: int): (q: int)
    ensures n >= 0 ==> 0 <= 8 * q <= n < 8 * q + 8
    ensures n < 0 ==> 8 * q - 8 < n <= 8 * q <= 0
  {
    if n >= 0 then n / 8 else -((-n) / 8)
  }

  /** `xs.slice(0, end)`: the front of `xs` up to `end`, where a negative
      `end` leaves out that many elements at the back, and an `end` past
      either side is clamped. */
  function SliceTo<T>(xs: seq<T>, end: int): (r: seq<T>)
    ensures r <= xs
    ensures 0 <= end <= |xs| ==> |r| == end
    ensures end > |xs| ==> r == xs
    ensures end < 0 && -end <= |xs| ==> |xs[|r|..]| == -end
    ensures end < 0 && -end > |xs| ==> r == []
  {
    if end >= 0 then (if end < |xs| then xs[..end] else xs)
    else if |xs| + end > 0 then xs[..|xs| + end] else []
  }

  /** A non-negative end keeps the first `end` elements, or all of them. */
  lemma SliceToFront<T>(xs: seq<T>, n: nat)
    ensures SliceTo(xs, n) == xs[..if n < |xs| then n else |xs|]
  {
  }

  /** How many parts of the network `bits` keeps: `parseInt(bits) / 8`,
      with a `bits` that is not a number keeping none. */
  function KeptParts(bits: string): int {
    var n := ParseInt(bits);
    if n.Some? then TruncDiv8(n.value) else 0
  }

  /** The first `end` dot-separated parts of `network`, rejoined with dots. */
  function NetworkPrefix(network: string, end: int): string {
    var octets := Split(network, '.');
    Join(SliceTo(octets, end), '.')
  }

  /** The prefix an entry `network/bits` stands for. */
  function CidrPrefix(entry: string): string
    requires '/' in entry
  {
    var halves := Split(entry, '/');
    NetworkPrefix(halves[0], KeptParts(halves[1]))
  }

  /** An entry with `/` admits every address that starts with its prefix;
      any other entry admits only the address equal to it. */
  predicate EntryAdmits(entry: string, ip: string) {
    if '/' in entry then StartsWith(ip, CidrPrefix(entry)) else ip == entry
  }

  /** `allowedIps.some(...)` */
  function AnyAdmits(list: seq<string>, ip: string): (r: bool)
    ensures r <==> exists k :: 0 <= k < |list| && EntryAdmits(list[k], ip)
  {
    if |list| == 0 then false
    else EntryAdmits(list[0], ip) || AnyAdmits(list[1..], ip)
  }

  /** The address check passes when there is no allow-list, when the client
      address is unknown, or when some entry admits the address. */
  predicate AddressPasses(config: Config, req: Request) {
    var list := AllowList(config.allowedIps);
    var ip := ClientIp(req);
    !(|list| > 0 && ip.Some?) || AnyAdmits(list, ip.value)
  }

  // ------------------------------------------------------------------------
  // Basic authentication

  /** `authorization.split(' ')[1]`; a header without a space has no second
      field, and `atob` then receives `"undefined"`. */
  function Token(header: string): (r: string)
    ensures ' ' !in header ==> r == "undefined"
    ensures ' ' in header ==>
      var rest := header[IndexOf(header, ' ') + 1..];
      r <= rest && ' ' !in r && (r == rest || rest[|r|] == ' ')
  {
    var fields := Split(header, ' ');
    if |fields| >= 2 then
      TokenField(header);
      fields[1]
    else "undefined"
  }

  /** The second field of a header split at spaces runs from after the
      first space to the next space or the end. */
  lemma TokenField(header: string)
    requires ' ' in header
    ensures var rest := header[IndexOf(header, ' ') + 1..];
      var field := Split(header, ' ')[1];
      field <= rest && ' ' !in field && (field == rest || rest[|field|] == ' ')
  {
    var i := IndexOf(header, ' ');
    var rest := header[i + 1..];
    assert Split(header, ' ') == [header[..i]] + Split(rest, ' ');
    if ' ' in rest {
      var k := IndexOf(rest, ' ');
      assert Split(rest, ' ') == [rest[..k]] + Split(rest[k + 1..], ' ');
    }
  }

  /** The decoded credential split at every `:`: the first field must be
      the user and the second the password; further fields are ignored, and
      a missing second field never matches. */
  function CredentialsMatch(decoded: string, user: string, password: string): (r: bool)
    ensures r ==> ':' !in user && ':' !in password
  {
    var fields := Split(decoded, ':');
    |fields| >= 2 && fields[0] == user && fields[1] == password
  }

  /** Authentication is enforced only when both settings are non-empty. */
  predicate AuthEnforced(config: Config) {
    IsNonEmpty(config.user) && IsNonEmpty(config.password)
  }

  /** The middleware. */
  function Gate(config: Config, req: Request, decode: Decoder): (d: Decision)
    ensures d.Forbidden? <==> !AddressPasses(config, req)
    ensures d.Forbidden? ==> d.message == DeniedMessage
    ensures d.Unauthorized? ==> d.challenge == Challenge && d.message in {AuthRequired, AuthFailed}
    ensures (d.Unauthorized? || d.Fault?) ==> AuthEnforced(config)
    ensures d.Unauthorized? && d.message == AuthRequired <==>
      AddressPasses(config, req) && AuthEnforced(config) && !IsNonEmpty(req.authorization)
    ensures d == Allow && AuthEnforced(config) ==>
      && IsNonEmpty(req.authorization)
      && decode(Token(req.authorization.value)).Some?
      && CredentialsMatch(decode(Token(req.authorization.value)).value, config.user.value, config.password.value)
    ensures AddressPasses(config, req) && !AuthEnforced(config) ==> d == Allow
    ensures AddressPasses(config, req) && AuthEnforced(config) && IsNonEmpty(req.authorization) ==>
      var decoded := decode(Token(req.authorization.value));
      && (d.Fault? <==> decoded.None?)
      && (decoded.Some? ==> (d == Allow <==> CredentialsMatch(decoded.value, config.user.value, config.password.value)))
      && (decoded.Some? && d != Allow ==> d == Unauthorized(AuthFailed, Challenge))
  {
    if !AddressPasses(config, req) then Forbidden(DeniedMessage)
    else if AuthEnforced(config) then
      if !IsNonEmpty(req.authorization) then Unauthorized(AuthRequired, Challenge)
      else
        match decode(Token(req.authorization.value))
        case None => Fault
        case Some(text) =>
          if CredentialsMatch(text, config.user.value, config.password.value) then Allow
          else Unauthorized(AuthFailed, Challenge)
    else Allow
  }

  // ------------------------------------------------------------------------
  // Properties

  /** An entry `network/b` with a non-negative `b` spelled in decimal stands
      for the first `b / 8` dot-separated parts of `network`, or all of them
      when there are fewer. */
  lemma CidrPrefixOf(network: string, b: nat)
    requires '/' !in network
    ensures var octets := Split(network, '.');
      CidrPrefix(network + ("/" + IntToString(b)))
      == Join(octets[..if b / 8 < |octets| then b / 8 else |octets|], '.')
  {
    var digits := IntToString(b);
    DecimalSpelling(b);
    EntryHalves(network, digits);
    assert KeptParts(digits) == b / 8;
    SliceToFront(Split(network, '.'), b / 8);
  }

  /** A non-negative number spelled in decimal has no `/` and reads back. */
  lemma DecimalSpelling(b: nat)
    ensures '/' !in IntToString(b)
    ensures ParseInt(IntToString(b)) == Some(b)
  {
    var digits := IntToString(b);
    IntToStringShape(b);
    forall k | 0 <= k < |digits| ensures digits[k] != '/' {
      assert IsDigit(digits[k]);
    }
    ParseIntToString(b);
  }

  lemma EntryHalves(network: string, bits: string)
    requires '/' !in network && '/' !in bits
    ensures Split(network + ("/" + bits), '/') == [network, bits]
  {
    assert network + ("/" + bits) == network + ['/'] + bits;
    SplitAtFirst(network, bits, '/');
    assert Split(bits, '/') == [bits];
  }

  /** An entry ending in `/0` admits every address. */
  lemma ZeroBitsAdmitsAll(network: string, ip: string)
    requires '/' !in network
    ensures EntryAdmits(network + "/0", ip)
  {
    var entry := network + "/0";
    assert "/" + IntToString(0) == "/0" by {
      assert DigitChar(0) == '0';
    }
    assert entry[|network|] == '/';
    CidrPrefixOf(network, 0);
    assert Split(network, '.')[..0] == [];
    assert CidrPrefix(entry) == "";
  }

  lemma SplitThreeParts(b: string, c: string, d: string)
    requires '.' !in b && '.' !in c && '.' !in d
    ensures Split(b + ['.'] + (c + ['.'] + d), '.') == [b, c, d]
  {
    SplitAtFirst(b, c + ['.'] + d, '.');
    SplitAtFirst(c, d, '.');
    assert Split(d, '.') == [d];
  }

  /** Four dot-free parts joined with dots split back into the four. */
  lemma SplitFourParts(a: string, b: string, c: string, d: string)
    requires '.' !in a && '.' !in b && '.' !in c && '.' !in d
    ensures Split(a + ['.'] + (b + ['.'] + (c + ['.'] + d)), '.') == [a] + [b, c, d]
  {
    SplitAtFirst(a, b + ['.'] + (c + ['.'] + d), '.');
    SplitThreeParts(b, c, d);
  }

  lemma JoinThree(p: seq<string>, sep: char)
    requires |p| == 3
    ensures Join(p, sep) == p[0] + [sep] + (p[1] + [sep] + p[2])
  {
    assert p[1..][1..] == [p[2]];
    assert Join(p[1..][1..], sep) == p[2];
    assert Join(p[1..], sep) == p[1] + [sep] + p[2];
  }

  lemma NoSlashInParts(a: string, b: string, c: string, d: string)
    requires '/' !in a && '/' !in b && '/' !in c && '/' !in d
    ensures '/' !in a + ['.'] + (b + ['.'] + (c + ['.'] + d))
  {
  }

  /** The first three of four parts, rejoined. */
  lemma JoinFirstThree(a: string, b: string, c: string, d: string)
    ensures Join(([a] + [b, c, d])[..3], '.') == a + ['.'] + (b + ['.'] + c)
  {
    var p := ([a] + [b, c, d])[..3];
    assert |p| == 3 && p[0] == a && p[1] == b && p[2] == c;
    JoinThree(p, '.');
  }

  /** `String(24)` is `"24"`. */
  lemma IntToStringTwentyFour()
    ensures IntToString(24) == "24"
    ensures "/" + IntToString(24) == "/24"
  {
    assert DigitChar(2) == '2';
    assert DigitChar(4) == '4';
    assert NatToString(2) == "2";
    assert NatToString(24) == NatToString(2) + [DigitChar(4)];
  }

  /** An entry `a.b.c.d/bits` with `bits` from 24 to 31 keeps `a.b.c`. */
  lemma Prefix24(a: string, b: string, c: string, d: string, bits: nat)
    requires '.' !in a && '.' !in b && '.' !in c && '.' !in d
    requires '/' !in a && '/' !in b && '/' !in c && '/' !in d
    requires bits / 8 == 3
    ensures CidrPrefix(a + ['.'] + (b + ['.'] + (c + ['.'] + d)) + ("/" + IntToString(bits))) == a + ['.'] + (b + ['.'] + c)
  {
    var network := a + ['.'] + (b + ['.'] + (c + ['.'] + d));
    JoinFirstThree(a, b, c, d);
    NoSlashInParts(a, b, c, d);
    SplitFourParts(a, b, c, d);
    CidrPrefixOf(network, bits);
  }

  /** The example entry and address, spelled out part by part. */
  lemma ExampleSpelling()
    ensures "192" + ['.'] + ("168" + ['.'] + ("1" + ['.'] + "0")) + ("/" + IntToString(24)) == "192.168.1.0/24"
    ensures "192" + ['.'] + ("168" + ['.'] + "1") == "192.168.1"
    ensures '.' !in "192" && '.' !in "168" && '.' !in "1" && '.' !in "0"
    ensures '/' !in "192" && '/' !in "168" && '/' !in "1" && '/' !in "0"
    ensures '/' in "192.168.1.0/24"
    ensures "192.168.1" <= "192.168.10.5"
  {
    IntToStringTwentyFour();
    assert "192.168.1.0/24"[11] == '/';
  }

  /** The prefix match is on characters, not on whole parts:
      `192.168.1.0/24` also admits `192.168.10.5`. */
  lemma PrefixMatchIsTextual()
    ensures EntryAdmits("192.168.1.0/24", "192.168.10.5")
  {
    ExampleSpelling();
    Prefix24("192", "168", "1", "0", 24);
  }

  /** An address no entry admits is refused with 403 before authentication
      is looked at: the header and the decoder make no difference. */
  lemma AddressRefusalPrecedesAuth(config: Config, req: Request, decode1: Decoder, decode2: Decoder, header: Option<string>)
    requires !AddressPasses(config, req)
    ensures Gate(config, req, decode1) == Forbidden(DeniedMessage)
    ensures Gate(config, req.(authorization := header), decode2) == Forbidden(DeniedMessage)
  {
    assert AddressPasses(config, req.(authorization := header)) == AddressPasses(config, req);
  }

  /** `ALLOWED_IPS` set to the empty string allows no known address. */
  lemma EmptySettingRefusesKnownAddresses(config: Config, req: Request, decode: Decoder)
    requires config.allowedIps == Some("")
    requires ClientIp(req).Some?
    ensures Gate(config, req, decode) == Forbidden(DeniedMessage)
  {
    EmptySettingList();
    EmptyEntryAdmitsNothing(ClientIp(req).value);
  }

  lemma EmptySettingList()
    ensures AllowList(Some("")) == [""]
  {
    assert Split("", ',') == [""];
    assert Trim("") == "";
  }

  lemma EmptyEntryAdmitsNothing(ip: string)
    requires ip != ""
    ensures !AnyAdmits([""], ip)
  {
    assert !EntryAdmits("", ip);
  }

  /** A configured password containing `:` admits nobody. */
  lemma ColonInPasswordNeverAdmits(config: Config, req: Request, decode: Decoder)
    requires AuthEnforced(config) && ':' in config.password.value
    ensures Gate(config, req, decode) != Allow
  {
  }

  lemma SplitUserPassword(user: string, password: string)
    requires ':' !in user && ':' !in password
    ensures Split(user + [':'] + password, ':') == [user, password]
  {
    SplitAtFirst(user, password, ':');
    assert Split(password, ':') == [password];
  }

  lemma SplitUserPasswordExtra(user: string, password: string, extra: string)
    requires ':' !in user && ':' !in password
    ensures Split(user + [':'] + (password + [':'] + extra), ':') == [user] + ([password] + Split(extra, ':'))
  {
    SplitAtFirst(user, password + [':'] + extra, ':');
    SplitAtFirst(password, extra, ':');
  }

  /** The credentials `user:password` match when neither contains `:`. */
  lemma CredentialsAccepted(user: string, password: string)
    requires ':' !in user && ':' !in password
    ensures CredentialsMatch(user + ":" + password, user, password)
  {
    assert user + ":" + password == user + [':'] + password;
    SplitUserPassword(user, password);
  }

  /** Fields after a further `:` are ignored. */
  lemma ExtraFieldsIgnored(user: string, password: string, extra: string)
    requires ':' !in user && ':' !in password
    ensures CredentialsMatch(user + ":" + password + ":" + extra, user, password)
  {
    assert user + ":" + password + ":" + extra == user + [':'] + (password + [':'] + extra);
    SplitUserPasswordExtra(user, password, extra);
  }

  /** A matching credential starts with `user:password`, followed by the end
      of the text or by another `:`. */
  lemma CredentialsMatchShape(decoded: string, user: string, password: string)
    requires CredentialsMatch(decoded, user, password)
    ensures user + ":" + password <= decoded
    ensures |decoded| == |user| + 1 + |password| || decoded[|user| + 1 + |password|] == ':'
  {
    var fields := Split(decoded, ':');
    JoinSplit(decoded, ':');
    assert Join(fields, ':') == user + [':'] + Join(fields[1..], ':');
    if |fields| > 2 {
      assert Join(fields[1..], ':') == password + [':'] + Join(fields[2..], ':');
    } else {
      assert Join(fields[1..], ':') == password;
    }
  }

  /** A request from an admitted address carrying `Basic <token>`, where the
      token decodes to the configured `user:password`, passes. */
  lemma CorrectCredentialsPass(config: Config, req: Request, decode: Decoder, token: string)
    requires AddressPasses(config, req) && AuthEnforced(config)
    requires ':' !in config.user.value && ':' !in config.password.value
    requires ' ' !in token
    requires req.authorization == Some("Basic " + token)
    requires decode(token) == Some(config.user.value + ":" + config.password.value)
    ensures Gate(config, req, decode) == Allow
  {
    BasicToken(token);
    CredentialsAccepted(config.user.value, config.password.value);
  }

  /** The token of a `Basic <token>` header is what follows the space. */
  lemma BasicToken(token: string)
    requires ' ' !in token
    ensures Token("Basic " + token) == token
  {
    assert "Basic " + token == "Basic" + [' '] + token;
    SplitAtFirst("Basic", token, ' ');
    assert Split(token, ' ') == [token];
  }

  /** With no allow-list and no credentials configured, every request
      passes. */
  lemma UnconfiguredGateAllows(req: Request, decode: Decoder, user: Option<string>)
    ensures Gate(Config(None, user, None), req, decode) == Allow
  {
  }
}
