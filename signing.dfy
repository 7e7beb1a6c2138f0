/**
 * The request signing of src/lib/amazon.ts (`signRequest`): the string
 * assembly of AWS Signature Version 4 for the Product Advertising API. The
 * digests themselves, SHA-256 (FIPS 180-4) and HMAC-SHA-256 (RFC 2104), are
 * parameters; the lower-case hexadecimal rendering of `digest("hex")` is
 * modelled exactly.
 */
module AmazonSigning {
  import opened Wrappers
  import opened Strings

  newtype byte = x: int | 0 <= x < 256

  /** The three environment variables; a variable is usable when set and non-empty. */
  datatype Env = Env(accessKey: Option<string>, secretKey: Option<string>, associateTag: Option<string>)

  /** An HMAC key is either text (`"AWS4" + secret`) or the bytes of an earlier digest. */
  datatype HmacKey = TextKey(text: string) | BytesKey(bytes: seq<byte>)

  datatype Crypto = Crypto(sha256: string -> seq<byte>, hmac: (HmacKey, string) -> seq<byte>)

  const Host := "webservices.amazon.com"
  const Region := "us-east-1"
  const Service := "ProductAdvertisingAPI"
  const Target := "com.amazon.paapi5.v1." + "ProductAdvertisingAPIv1.GetItems"
  const Algorithm := "AWS4-HMAC-SHA256"
  const SignedHeaders := "content-encoding;content-type;" + "host;x-amz-date;x-amz-target"
  const JsonContentType := "application/json;" + " charset=utf-8"

  // ---------------------------------------------------------------------------
  // Hexadecimal rendering of digests

  /** `digest("hex")`: two lower-case hexadecimal digits per byte, high nibble first. */
  function Hex(b: seq<byte>): (r: string)
    ensures |r| == 2 * |b|
    ensures forall k :: 0 <= k < |r| ==> IsHexChar(r[k])
  {
    if b == [] then []
    else [HexDigit(b[0] as int / 16), HexDigit(b[0] as int % 16)] + Hex(b[1..])
  }

  /** Reads a hexadecimal rendering back into bytes. */
  function Unhex(s: string): (b: seq<byte>)
    requires |s| % 2 == 0
    requires forall k :: 0 <= k < |s| ==> IsHexChar(s[k])
    ensures |b| == |s| / 2
  {
    if s == [] then []
    else [(NibbleOf(s[0]) * 16 + NibbleOf(s[1])) as byte] + Unhex(s[2..])
  }

  /** The rendering loses nothing: reading it back gives the digest's bytes. */
  lemma {:induction false} UnhexHex(b: seq<byte>)
    ensures Unhex(Hex(b)) == b
  {
    if b != [] {
      var h := Hex(b);
      var hi, lo := b[0] as int / 16, b[0] as int % 16;
      assert h[0] == HexDigit(hi) && h[1] == HexDigit(lo);
      NibbleOfDigit(hi);
      NibbleOfDigit(lo);
      assert h[2..] == Hex(b[1..]);
      UnhexHex(b[1..]);
    }
  }

  // ---------------------------------------------------------------------------
  // Date stamp and request date

  /** `s.replace(/[...]/g, "")` for a set of single characters. */
  function WithoutChars(s: string, drop: set<char>): (r: string)
    ensures forall k :: 0 <= k < |r| ==> r[k] !in drop
    ensures |r| <= |s|
  {
    if s == [] then []
    else (if s[0] in drop then [] else [s[0]]) + WithoutChars(s[1..], drop)
  }

  lemma {:induction false} WithoutCharsAppend(a: string, b: string, drop: set<char>)
    ensures WithoutChars(a + b, drop) == WithoutChars(a, drop) + WithoutChars(b, drop)
  {
    if a == [] {
      assert a + b == b;
    } else {
      var head := if a[0] in drop then [] else [a[0]];
      assert (a + b)[0] == a[0];
      assert (a + b)[1..] == a[1..] + b;
      WithoutCharsAppend(a[1..], b, drop);
      assert WithoutChars(a + b, drop) == head + WithoutChars(a[1..] + b, drop);
    }
  }

  lemma {:induction false} WithoutCharsKeeps(s: string, drop: set<char>)
    requires forall k :: 0 <= k < |s| ==> s[k] !in drop
    ensures WithoutChars(s, drop) == s
  {
    if s != [] {
      WithoutCharsKeeps(s[1..], drop);
    }
  }

  /** `timestamp.split("T")[0].replace(/-/g, "")` */
  function DateStamp(timestamp: string): (r: string)
    ensures '-' !in r
  {
    WithoutChars(Split(timestamp, 'T')[0], {'-'})
  }

  /** `timestamp.replace(/[-:]/g, "").split(".")[0] + "Z"` */
  function AmzDate(timestamp: string): (r: string)
    ensures |r| >= 1 && r[|r| - 1] == 'Z'
    ensures forall k :: 0 <= k < |r| ==> r[k] != '-' && r[k] != ':' && r[k] != '.'
  {
    var parts := Split(WithoutChars(timestamp, {'-', ':'}), '.');
    assert '.' !in parts[0];
    parts[0] + "Z"
  }

  /** The first piece of a split is the text before the first separator. */
  lemma SplitHead(a: string, sep: char, b: string)
    requires sep !in a
    ensures Split(a + [sep] + b, sep)[0] == a
  {
    var s := a + [sep] + b;
    assert s[..|a|] == a;
    FirstIndexAt(s, sep, |a|);
  }

  lemma DigitsAvoid(s: string, drop: set<char>)
    requires AllDigits(s)
    requires forall c :: c in drop ==> !IsDigit(c)
    ensures forall k :: 0 <= k < |s| ==> s[k] !in drop
  {
  }

  /** Dropping characters from a concatenation of kept pieces and dropped separators. */
  lemma WithoutCharsStep(acc: string, sep: string, piece: string, drop: set<char>)
    requires forall k :: 0 <= k < |piece| ==> piece[k] !in drop
    ensures WithoutChars(acc + sep + piece, drop) == WithoutChars(acc, drop) + WithoutChars(sep, drop) + piece
  {
    WithoutCharsAppend(acc + sep, piece, drop);
    WithoutCharsAppend(acc, sep, drop);
    WithoutCharsKeeps(piece, drop);
  }

  /** For an ISO-8601 timestamp `YYYY-MM-DDT...`, the date stamp is `YYYYMMDD`. */
  lemma IsoDateStamp(y: string, mo: string, d: string, time: string)
    requires AllDigits(y) && AllDigits(mo) && AllDigits(d)
    ensures DateStamp(y + "-" + mo + "-" + d + "T" + time) == y + mo + d
  {
    DateHasNoT(y, mo, d);
    DatePart(y + "-" + mo + "-" + d, time);
    DashesDropped(y, mo, d);
  }

  lemma DatePart(date: string, time: string)
    requires 'T' !in date
    ensures DateStamp(date + "T" + time) == WithoutChars(date, {'-'})
  {
    assert date + "T" + time == date + ['T'] + time;
    SplitHead(date, 'T', time);
  }

  lemma DashesDropped(y: string, mo: string, d: string)
    requires AllDigits(y) && AllDigits(mo) && AllDigits(d)
    ensures WithoutChars(y + "-" + mo + "-" + d, {'-'}) == y + mo + d
  {
    var dash: set<char> := {'-'};
    DigitsAvoid(y, dash);
    DigitsAvoid(mo, dash);
    DigitsAvoid(d, dash);
    WithoutCharsKeeps(y, dash);
    assert WithoutChars("-", dash) == [];
    WithoutCharsStep(y, "-", mo, dash);
    assert WithoutChars(y + "-" + mo, dash) == y + mo;
    WithoutCharsStep(y + "-" + mo, "-", d, dash);
  }

  lemma DateHasNoT(y: string, mo: string, d: string)
    requires AllDigits(y) && AllDigits(mo) && AllDigits(d)
    ensures 'T' !in y + "-" + mo + "-" + d
  {
    DigitsAvoid(y, {'T'});
    DigitsAvoid(mo, {'T'});
    DigitsAvoid(d, {'T'});
  }

  lemma SeparatorsOfTime()
    ensures WithoutChars("-", {'-', ':'}) == [] && WithoutChars(":", {'-', ':'}) == []
    ensures WithoutChars("T", {'-', ':'}) == "T" && WithoutChars(".", {'-', ':'}) == "."
    ensures WithoutChars("Z", {'-', ':'}) == "Z"
  {
  }

  lemma KeepDigits(piece: string)
    requires AllDigits(piece)
    ensures WithoutChars(piece, {'-', ':'}) == piece
  {
    WithoutCharsKeeps(piece, {'-', ':'});
  }

  /** One more separator and digit group of the timestamp; the separator is dropped or kept whole. */
  lemma TimeStep(acc: string, sep: string, piece: string)
    requires AllDigits(piece)
    requires WithoutChars(sep, {'-', ':'}) == [] || WithoutChars(sep, {'-', ':'}) == sep
    ensures WithoutChars(sep, {'-', ':'}) == [] ==>
      WithoutChars(acc + sep + piece, {'-', ':'}) == WithoutChars(acc, {'-', ':'}) + piece
    ensures WithoutChars(sep, {'-', ':'}) == sep ==>
      WithoutChars(acc + sep + piece, {'-', ':'}) == WithoutChars(acc, {'-', ':'}) + sep + piece
  {
    KeepDigits(piece);
    WithoutCharsAppend(acc + sep, piece, {'-', ':'});
    WithoutCharsAppend(acc, sep, {'-', ':'});
    assert WithoutChars(acc, {'-', ':'}) + [] == WithoutChars(acc, {'-', ':'});
  }

  /** Removing `-` and `:` from `YYYY-MM-DDTHH:MM:SS.fffZ` leaves `YYYYMMDDTHHMMSS.fffZ`. */
  lemma IsoCompact(y: string, mo: string, d: string, h: string, mi: string, s: string, f: string)
    requires AllDigits(y) && AllDigits(mo) && AllDigits(d) && AllDigits(h) && AllDigits(mi) && AllDigits(s) && AllDigits(f)
    ensures WithoutChars(y + "-" + mo + "-" + d + "T" + h + ":" + mi + ":" + s + "." + f + "Z", {'-', ':'})
            == y + mo + d + "T" + h + mi + s + "." + f + "Z"
  {
    SeparatorsOfTime();
    KeepDigits(y);
    TimeStep(y, "-", mo);
    TimeStep(y + "-" + mo, "-", d);
    TimeStep(y + "-" + mo + "-" + d, "T", h);
    TimeStep(y + "-" + mo + "-" + d + "T" + h, ":", mi);
    TimeStep(y + "-" + mo + "-" + d + "T" + h + ":" + mi, ":", s);
    TimeStep(y + "-" + mo + "-" + d + "T" + h + ":" + mi + ":" + s, ".", f);
    WithoutCharsAppend(y + "-" + mo + "-" + d + "T" + h + ":" + mi + ":" + s + "." + f, "Z", {'-', ':'});
  }

  /** The first piece of a split ends before the first separator. */
  lemma SplitHeadAt(s: string, sep: char, i: nat)
    requires i < |s| && s[i] == sep && sep !in s[..i]
    ensures Split(s, sep)[0] == s[..i]
  {
    FirstIndexAt(s, sep, i);
  }

  /** For an ISO-8601 timestamp `YYYY-MM-DDTHH:MM:SS.fffZ`, the request date is `YYYYMMDDTHHMMSSZ`. */
  lemma IsoAmzDate(y: string, mo: string, d: string, h: string, mi: string, s: string, f: string)
    requires AllDigits(y) && AllDigits(mo) && AllDigits(d) && AllDigits(h) && AllDigits(mi) && AllDigits(s) && AllDigits(f)
    ensures AmzDate(y + "-" + mo + "-" + d + "T" + h + ":" + mi + ":" + s + "." + f + "Z")
            == y + mo + d + "T" + h + mi + s + "Z"
  {
    var compact := y + mo + d + "T" + h + mi + s;
    IsoCompact(y, mo, d, h, mi, s, f);
    var w := compact + "." + f + "Z";
    assert w[..|compact|] == compact;
    assert w[|compact|] == '.';
    assert '.' !in compact;
    SplitHeadAt(w, '.', |compact|);
  }

  // ---------------------------------------------------------------------------
  // Canonical request, string to sign, signing key, authorization header

  function CanonicalHeaderLines(amzDate: string): seq<string> {
    ["content-encoding:amz-1.0",
     "content-type:" + JsonContentType,
     "host:" + Host,
     "x-amz-date:" + amzDate,
     "x-amz-target:" + Target]
  }

  function CanonicalRequest(verb: string, path: string, amzDate: string, payloadHash: string): string {
    Join([verb, path, "", Join(CanonicalHeaderLines(amzDate), "\n"), "", SignedHeaders, payloadHash], "\n")
  }

  /** A line-free value: it cannot shift the lines of the canonical request. */
  predicate OneLine(s: string) {
    '\n' !in s
  }

  /**
   * Read line by line, the canonical request is the method, the path, the
   * empty query string, the five canonical headers, an empty line, the signed
   * header names and the payload hash.
   */
  lemma CanonicalRequestLines(verb: string, path: string, amzDate: string, payloadHash: string)
    requires OneLine(verb) && OneLine(path) && OneLine(amzDate) && OneLine(payloadHash)
    ensures Split(CanonicalRequest(verb, path, amzDate, payloadHash), '\n')
            == [verb, path, ""] + CanonicalHeaderLines(amzDate) + ["", SignedHeaders, payloadHash]
  {
    var headers := CanonicalHeaderLines(amzDate);
    var lines := [verb, path, ""] + headers + ["", SignedHeaders, payloadHash];
    CanonicalRequestJoin(verb, path, amzDate, payloadHash);
    HeaderLinesOneLine(amzDate);
    assert OneLine(SignedHeaders);
    forall k | 0 <= k < |lines| ensures '\n' !in lines[k] {
      if 3 <= k < 8 {
        assert lines[k] == headers[k - 3];
      }
    }
    SplitJoin(lines, '\n');
  }

  /** The canonical request joins its seven parts, the headers block being five lines itself. */
  lemma CanonicalRequestJoin(verb: string, path: string, amzDate: string, payloadHash: string)
    ensures Join([verb, path, ""] + CanonicalHeaderLines(amzDate) + ["", SignedHeaders, payloadHash], "\n")
            == CanonicalRequest(verb, path, amzDate, payloadHash)
  {
    var headers := CanonicalHeaderLines(amzDate);
    var front := [verb, path, ""];
    var tail := ["", SignedHeaders, payloadHash];
    var block := Join(headers, "\n");
    JoinAppend(front, [block], "\n");
    JoinAppend(front + [block], tail, "\n");
    JoinAppend(front, headers, "\n");
    JoinAppend(front + headers, tail, "\n");
    assert front + [block] + tail == [verb, path, "", block, "", SignedHeaders, payloadHash];
  }

  lemma TargetOneLine()
    ensures OneLine("x-amz-target:" + Target)
  {
    NotInAppend("com.amazon.paapi5.v1.", "ProductAdvertisingAPIv1.GetItems", '\n');
    NotInAppend("x-amz-target:", Target, '\n');
  }

  lemma ContentTypeOneLine()
    ensures OneLine("content-type:" + JsonContentType)
  {
    NotInAppend("application/json;", " charset=utf-8", '\n');
    NotInAppend("content-type:", JsonContentType, '\n');
  }

  lemma HeaderLinesOneLine(amzDate: string)
    requires OneLine(amzDate)
    ensures forall k :: 0 <= k < 5 ==> OneLine(CanonicalHeaderLines(amzDate)[k])
  {
    var headers := CanonicalHeaderLines(amzDate);
    TargetOneLine();
    ContentTypeOneLine();
    NotInAppend("host:", Host, '\n');
    NotInAppend("x-amz-date:", amzDate, '\n');
    assert OneLine(headers[0]);
  }

  /** `${date}/${region}/${service}/aws4_request` */
  function CredentialScope(date: string): string {
    date + "/" + Region + "/" + Service + "/aws4_request"
  }

  lemma ScopeJoin(date: string)
    ensures Join([date, Region, Service, "aws4_request"], "/") == CredentialScope(date)
  {
    JoinFour(date, Region, Service, "aws4_request", "/");
  }

  lemma ScopeNames()
    ensures '/' !in Region && '/' !in Service && '/' !in "aws4_request"
  {
  }

  /** The scope splits on `/` into the date, region, service and terminator. */
  lemma CredentialScopeParts(date: string)
    requires '/' !in date
    ensures Split(CredentialScope(date), '/') == [date, Region, Service, "aws4_request"]
  {
    var parts := [date, Region, Service, "aws4_request"];
    ScopeJoin(date);
    ScopeNames();
    assert forall k :: 0 <= k < |parts| ==> '/' !in parts[k];
    SplitJoin(parts, '/');
  }

  lemma JoinFour(a: string, b: string, c: string, d: string, sep: string)
    ensures Join([a, b, c, d], sep) == a + sep + b + sep + c + sep + d
  {
    JoinAppend([a], [b, c, d], sep);
    JoinAppend([b], [c, d], sep);
    JoinAppend([c], [d], sep);
    assert [a] + [b, c, d] == [a, b, c, d];
    assert [b] + [c, d] == [b, c, d];
    assert [c] + [d] == [c, d];
  }

  function StringToSign(amzDate: string, scope: string, canonicalRequest: string, crypto: Crypto): string {
    Join([Algorithm, amzDate, scope, Hex(crypto.sha256(canonicalRequest))], "\n")
  }

  /** The string to sign has four lines: algorithm, request date, scope and the request's hash. */
  lemma StringToSignLines(amzDate: string, scope: string, canonicalRequest: string, crypto: Crypto)
    requires OneLine(amzDate) && OneLine(scope)
    ensures Split(StringToSign(amzDate, scope, canonicalRequest, crypto), '\n')
            == [Algorithm, amzDate, scope, Hex(crypto.sha256(canonicalRequest))]
  {
    var lines := [Algorithm, amzDate, scope, Hex(crypto.sha256(canonicalRequest))];
    var h := lines[3];
    assert '\n' !in h by {
      forall k | 0 <= k < |h| ensures h[k] != '\n' {
        assert IsHexChar(h[k]);
      }
    }
    SplitJoin(lines, '\n');
  }

  /** The HMAC chain: date, region, service, terminator, seeded with `"AWS4" + secret`. */
  function SigningKey(secret: string, date: string, crypto: Crypto): seq<byte> {
    var kDate := crypto.hmac(TextKey("AWS4" + secret), date);
    var kRegion := crypto.hmac(BytesKey(kDate), Region);
    var kService := crypto.hmac(BytesKey(kRegion), Service);
    crypto.hmac(BytesKey(kService), "aws4_request")
  }

  /** Every request signed on the same day uses the same signing key. */
  lemma SigningKeyPerDay(secret: string, t1: string, t2: string, crypto: Crypto)
    requires Split(t1, 'T')[0] == Split(t2, 'T')[0]
    ensures SigningKey(secret, DateStamp(t1), crypto) == SigningKey(secret, DateStamp(t2), crypto)
  {
  }

  /** The `Credential=` field: access key and scope, followed by a comma. */
  function CredentialField(accessKey: string, scope: string): string {
    "Credential=" + accessKey + "/" + scope + ","
  }

  const SignedHeadersField := "SignedHeaders=" + SignedHeaders + ","

  /**
   * `${algorithm} Credential=${accessKey}/${scope}, SignedHeaders=${signedHeaders}, Signature=${signature}`:
   * four space-separated fields.
   */
  function Authorization(accessKey: string, scope: string, signature: string): string {
    Join([Algorithm, CredentialField(accessKey, scope), SignedHeadersField, "Signature=" + signature], " ")
  }

  lemma SignedHeadersFieldNoSpace()
    ensures ' ' !in SignedHeadersField
  {
    NotInAppend("content-encoding;content-type;", "host;x-amz-date;x-amz-target", ' ');
    NotInAppend("SignedHeaders=", SignedHeaders, ' ');
    NotInAppend("SignedHeaders=" + SignedHeaders, ",", ' ');
  }

  lemma CredentialFieldNoSpace(accessKey: string, scope: string)
    requires ' ' !in accessKey && ' ' !in scope
    ensures ' ' !in CredentialField(accessKey, scope)
  {
    NotInAppend("Credential=", accessKey, ' ');
    NotInAppend("Credential=" + accessKey, "/", ' ');
    NotInAppend("Credential=" + accessKey + "/", scope, ' ');
    NotInAppend("Credential=" + accessKey + "/" + scope, ",", ' ');
  }

  lemma HexNoSpace(b: seq<byte>)
    ensures ' ' !in Hex(b)
  {
    var h := Hex(b);
    forall k | 0 <= k < |h| ensures h[k] != ' ' {
      assert IsHexChar(h[k]);
    }
  }

  /**
   * Split on spaces, the header names the algorithm, then the credential
   * (access key and scope), the signed header names and the signature.
   */
  lemma AuthorizationFields(accessKey: string, scope: string, signature: string)
    requires ' ' !in accessKey && ' ' !in scope && ' ' !in signature
    ensures Split(Authorization(accessKey, scope, signature), ' ')
            == [Algorithm, CredentialField(accessKey, scope), SignedHeadersField, "Signature=" + signature]
  {
    var fields := [Algorithm, CredentialField(accessKey, scope), SignedHeadersField, "Signature=" + signature];
    CredentialFieldNoSpace(accessKey, scope);
    SignedHeadersFieldNoSpace();
    NotInAppend("Signature=", signature, ' ');
    assert ' ' !in Algorithm;
    assert forall k :: 0 <= k < |fields| ==> ' ' !in fields[k];
    SplitJoin(fields, ' ');
  }

  /** `signRequest`: None when it throws for a missing access or secret key, else the six headers. */
  function SignRequest(env: Env, verb: string, path: string, payload: string, timestamp: string,
                       crypto: Crypto): (r: Option<seq<(string, string)>>)
    ensures r.None? <==> !Present(env.accessKey) || !Present(env.secretKey)
    ensures r.Some? ==> (|r.value| == 6
      && r.value[0] == ("content-encoding", "amz-1.0")
      && r.value[1] == ("content-type", JsonContentType)
      && r.value[2] == ("host", Host)
      && r.value[3] == ("x-amz-date", AmzDate(timestamp))
      && r.value[4] == ("x-amz-target", Target)
      && r.value[5].0 == "authorization")
  {
    if !Present(env.accessKey) || !Present(env.secretKey) then None
    else
      var date := DateStamp(timestamp);
      var amzDate := AmzDate(timestamp);
      var payloadHash := Hex(crypto.sha256(payload));
      var canonicalRequest := CanonicalRequest(verb, path, amzDate, payloadHash);
      var scope := CredentialScope(date);
      var stringToSign := StringToSign(amzDate, scope, canonicalRequest, crypto);
      var signingKey := SigningKey(env.secretKey.value, date, crypto);
      var signature := Hex(crypto.hmac(BytesKey(signingKey), stringToSign));
      Some([("content-encoding", "amz-1.0"),
            ("content-type", JsonContentType),
            ("host", Host),
            ("x-amz-date", amzDate),
            ("x-amz-target", Target),
            ("authorization", Authorization(env.accessKey.value, scope, signature))])
  }

  /**
   * The authorization header's second field names the access key and the
   * credential scope of the request's day, and its last field carries the
   * HMAC of the string to sign under that day's key, in hexadecimal.
   */
  lemma SignedCredential(env: Env, verb: string, path: string, payload: string, timestamp: string,
                         crypto: Crypto)
    requires Present(env.accessKey) && Present(env.secretKey)
    requires ' ' !in env.accessKey.value && ' ' !in DateStamp(timestamp)
    ensures var fields := Split(SignRequest(env, verb, path, payload, timestamp, crypto).value[5].1, ' ');
      |fields| == 4 && fields[0] == Algorithm
      && fields[1] == "Credential=" + env.accessKey.value + "/" + CredentialScope(DateStamp(timestamp)) + ","
      && fields[2] == "SignedHeaders=" + SignedHeaders + ","
      && fields[3] == "Signature=" + Hex(crypto.hmac(BytesKey(SigningKey(env.secretKey.value, DateStamp(timestamp), crypto)),
            StringToSign(AmzDate(timestamp), CredentialScope(DateStamp(timestamp)),
              CanonicalRequest(verb, path, AmzDate(timestamp), Hex(crypto.sha256(payload))), crypto)))
  {
    var date := DateStamp(timestamp);
    var scope := CredentialScope(date);
    var signature := Hex(crypto.hmac(BytesKey(SigningKey(env.secretKey.value, date, crypto)),
      StringToSign(AmzDate(timestamp), scope, CanonicalRequest(verb, path, AmzDate(timestamp), Hex(crypto.sha256(payload))), crypto)));
    NotInAppend(date, "/", ' ');
    NotInAppend(date + "/", Region, ' ');
    NotInAppend(date + "/" + Region, "/", ' ');
    NotInAppend(date + "/" + Region + "/", Service, ' ');
    NotInAppend(date + "/" + Region + "/" + Service, "/aws4_request", ' ');
    HexNoSpace(crypto.hmac(BytesKey(SigningKey(env.secretKey.value, date, crypto)),
      StringToSign(AmzDate(timestamp), scope, CanonicalRequest(verb, path, AmzDate(timestamp), Hex(crypto.sha256(payload))), crypto)));
    AuthorizationFields(env.accessKey.value, scope, signature);
  }
}
