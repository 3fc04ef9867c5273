/** helpers/cloudinary.go: how an uploaded photo is named in the remote store, how a stored URL is
    turned back into that name for deletion, and the store itself as a set of public ids that
    UploadToCloudinary adds to and DestroyFromCloudinary removes from.

    The SDK's answers (success with the delivery version and detected format, or an error) and the
    random UUID come in as parameters. */
module Cloudinary {
  import opened Wrappers
  import opened Text

  // ---- character classes ----

  predicate IsLetter(c: char) {
    'a' <= c <= 'z' || 'A' <= c <= 'Z'
  }

  predicate IsHexLower(c: char) {
    '0' <= c <= '9' || 'a' <= c <= 'f'
  }

  /** A byte net/url refuses anywhere in a URL. */
  predicate IsControl(c: char) {
    (c as int) < 0x20 || (c as int) == 0x7F
  }

  /** Letters, digits, '-' and '_': never a separator in a URL or a path. */
  predicate Plain(s: string) {
    forall c | c in s :: IsLetter(c) || IsDigit(c) || c == '-' || c == '_'
  }

  predicate HasControl(s: string) {
    exists c | c in s :: IsControl(c)
  }

  /** No character that would end or break the path part of a URL. */
  predicate PathSafe(s: string) {
    forall c | c in s :: !IsControl(c) && c != '#' && c != '?'
  }

  predicate IsUuidText(s: string) {
    |s| == 36 &&
    forall i :: 0 <= i < |s| ==>
      if i == 8 || i == 13 || i == 18 || i == 23 then s[i] == '-' else IsHexLower(s[i])
  }

  /** uuid.New().String(): 8-4-4-4-12 lower-case hex digits. */
  type UuidText = s: string | IsUuidText(s) witness "00000000-0000-0000-0000-000000000000"

  /** The account's cloud name, which appears as the first path segment of delivery URLs. */
  type CloudName = s: string | s != "" && Plain(s) witness "mygram"

  /** The format Cloudinary detects for an upload ("png", "jpg", "webp", ...). */
  type Format = s: string | s != "" && Plain(s) witness "png"

  lemma UuidIsPlain(u: UuidText)
    ensures Plain(u)
  {
    forall c | c in u ensures IsLetter(c) || IsDigit(c) || c == '-' || c == '_' {
      var i :| 0 <= i < |u| && u[i] == c;
    }
  }

  lemma PlainIsPathSafe(s: string)
    requires Plain(s)
    ensures PathSafe(s) && '/' !in s && '.' !in s && '%' !in s
  {
  }

  lemma DecimalTextIsPlain(n: nat)
    ensures Plain(DecimalText(n))
  {
    var s := DecimalText(n);
    forall c | c in s ensures IsDigit(c) {
      var i :| 0 <= i < |s| && s[i] == c;
    }
  }

  // ---- naming ----

  const Folder: string := "photos"

  /** publicIdPath: every asset lives in the "photos" folder. */
  function PublicIdPath(fileName: string): (id: string)
    ensures HasPrefix(id, Folder + "/") && id[|Folder| + 1..] == fileName
  {
    Folder + "/" + fileName
  }

  /** The delivery URL Cloudinary answers an upload with. */
  function SecureUrl(cloud: CloudName, version: nat, publicId: string, format: Format): string {
    "https://res.cloudinary.com/" + cloud + "/image/upload/v" + DecimalText(version) + "/" + publicId + "." + format
  }

  // ---- url.Parse ----

  datatype SchemeSplit = NoScheme | WithScheme(scheme: string, rest: string) | MissingScheme

  /** getScheme in net/url, scanning from position `i`. */
  function SchemeScan(s: string, i: nat): SchemeSplit
    requires i <= |s|
    decreases |s| - i
  {
    if i == |s| then NoScheme
    else if IsLetter(s[i]) then SchemeScan(s, i + 1)
    else if IsDigit(s[i]) || s[i] == '+' || s[i] == '-' || s[i] == '.' then
      (if i == 0 then NoScheme else SchemeScan(s, i + 1))
    else if s[i] == ':' then
      (if i == 0 then MissingScheme else WithScheme(s[..i], s[i + 1..]))
    else NoScheme
  }

  /** The prefix of `s` before the first `c`, or all of `s` (strings.Cut's first half). */
  function Before(s: string, c: char): (r: string)
    ensures c !in r && HasPrefix(s, r)
    ensures c !in s ==> r == s
  {
    match IndexOf(s, c)
    case None => s
    case Some(i) => s[..i]
  }

  /** The part of `s` after the first `c`, or "" when there is none (strings.Cut's second half). */
  function After(s: string, c: char): (r: string)
    ensures c !in s ==> r == ""
  {
    match IndexOf(s, c)
    case None => ""
    case Some(i) => s[i + 1..]
  }

  /** Position of the first "%25" in `s` (strings.Index(s, "%25")). */
  function IndexOfZone(s: string): (r: Option<nat>)
    ensures r.Some? ==> r.value + 3 <= |s|
    decreases |s|
  {
    if |s| < 3 then None
    else if s[..3] == "%25" then Some(0)
    else
      match IndexOfZone(s[1..])
      case None => None
      case Some(i) => Some(i + 1)
  }

  predicate IsHex(c: char) {
    '0' <= c <= '9' || 'a' <= c <= 'f' || 'A' <= c <= 'F'
  }

  function HexValue(c: char): (v: nat)
    requires IsHex(c)
    ensures v < 16
  {
    if '0' <= c <= '9' then (c as int - '0' as int) as nat
    else if 'a' <= c <= 'f' then (c as int - 'a' as int + 10) as nat
    else (c as int - 'A' as int + 10) as nat
  }

  /** The character a well-formed escape "%XX" at the start of `s` stands for. */
  function EscapedChar(s: string): (c: char)
    requires |s| >= 3 && IsHex(s[1]) && IsHex(s[2])
    ensures (c as int) < 0x100
  {
    (16 * HexValue(s[1]) + HexValue(s[2])) as char
  }

  /** The modes in which url.Parse unescapes the parts of a URL. */
  datatype Encoding = EncodePath | EncodeHost | EncodeZone | EncodeUserPassword | EncodeFragment

  /** shouldEscape(c, encodeHost): a character a host may not hold as it is. */
  predicate HostMustEscape(c: char) {
    !(IsLetter(c) || IsDigit(c) || c in "!$&'()*+,;=:[]<>\"" || c in "-_.~")
  }

  /** Whether unescape(s, mode) succeeds. Every '%' must start two hex digits. A host may escape
      only bytes from 0x80 up, or '%' itself as "%25", and may hold unescaped only the ASCII
      characters shouldEscape allows it; an IPv6 zone may escape those, a space and '%'. */
  predicate UnescapeOk(s: string, mode: Encoding)
    decreases |s|
  {
    if s == [] then true
    else if s[0] == '%' then
      && |s| >= 3 && IsHex(s[1]) && IsHex(s[2])
      && (mode == EncodeHost ==> HexValue(s[1]) >= 8 || s[..3] == "%25")
      && (mode == EncodeZone ==> s[..3] == "%25" || EscapedChar(s) == ' ' || !HostMustEscape(EscapedChar(s)))
      && UnescapeOk(s[3..], mode)
    else
      && ((mode == EncodeHost || mode == EncodeZone) && (s[0] as int) < 0x80 ==> !HostMustEscape(s[0]))
      && UnescapeOk(s[1..], mode)
  }

  /** unescape's result: every escape "%XX" replaced by the character with code XX. */
  function Unescape(s: string): (r: string)
    requires UnescapeOk(s, EncodePath)
    ensures '%' !in s ==> r == s
    decreases |s|
  {
    if s == [] then []
    else if s[0] == '%' then [EscapedChar(s)] + Unescape(s[3..])
    else
      assert s == [s[0]] + s[1..];
      [s[0]] + Unescape(s[1..])
  }

  /** validOptionalPort: nothing, or ':' followed by digits only. */
  predicate ValidOptionalPort(p: string) {
    p == "" || (p[0] == ':' && forall i | 1 <= i < |p| :: IsDigit(p[i]))
  }

  /** parseHost succeeds: a bracketed IPv6 literal with an optional port after the ']', its zone
      (from "%25") checked in zone mode; otherwise an optional numeric port after the last ':',
      and the whole host checked in host mode. */
  predicate HostOk(h: string) {
    if HasPrefix(h, "[") then
      match LastIndexOf(h, ']')
      case None => false
      case Some(i) =>
        && ValidOptionalPort(h[i + 1..])
        && match IndexOfZone(h[..i])
           case Some(z) => UnescapeOk(h[..z], EncodeHost) && UnescapeOk(h[z..i], EncodeZone) && UnescapeOk(h[i..], EncodeHost)
           case None => UnescapeOk(h, EncodeHost)
    else
      && (match LastIndexOf(h, ':') case None => true case Some(i) => ValidOptionalPort(h[i..]))
      && UnescapeOk(h, EncodeHost)
  }

  /** validUserinfo: the characters a user name and password may hold. */
  predicate UserinfoChar(c: char) {
    IsLetter(c) || IsDigit(c) || c in "-._:~!$&'()*+,;=%@"
  }

  /** The user-information part parses: allowed characters only, and well-formed escapes in the
      name and in the password after the first ':'. */
  predicate UserinfoOk(u: string) {
    && (forall c | c in u :: UserinfoChar(c))
    && if ':' in u then UnescapeOk(Before(u, ':'), EncodeUserPassword) && UnescapeOk(After(u, ':'), EncodeUserPassword)
       else UnescapeOk(u, EncodeUserPassword)
  }

  /** parseAuthority succeeds: the host after the last '@', and the user information before it. */
  predicate AuthorityOk(a: string) {
    match LastIndexOf(a, '@')
    case None => HostOk(a)
    case Some(i) => HostOk(a[i + 1..]) && UserinfoOk(a[..i])
  }

  /** setPath: the decoded path, or None on a malformed escape. */
  function DecodedPath(p: string): (r: Option<string>)
    ensures r.Some? <==> UnescapeOk(p, EncodePath)
  {
    if UnescapeOk(p, EncodePath) then Some(Unescape(p)) else None
  }

  /** The Path field url.Parse produces, or None where it returns an error: a control character
      before the fragment, a URL starting with ':' (missing scheme), a relative URL whose first
      segment has a ':', an authority parseAuthority refuses, or a malformed escape in the path or
      the fragment. */
  function UrlPath(raw: string): (r: Option<string>)
    ensures r.Some? ==> !HasControl(Before(raw, '#')) && UnescapeOk(After(raw, '#'), EncodeFragment)
  {
    var u := Before(raw, '#');
    if HasControl(u) then None
    else
      var path :=
        if u == "*" then Some("*")
        else
          match SchemeScan(u, 0)
          case MissingScheme => None
          case NoScheme => RestPath(false, Before(u, '?'))
          case WithScheme(_, rest) => RestPath(true, Before(rest, '?'));
      if path.Some? && UnescapeOk(After(raw, '#'), EncodeFragment) then path else None
  }

  /** The part of url.Parse after the scheme and the query are cut off. */
  function RestPath(hasScheme: bool, rest: string): Option<string> {
    if !HasPrefix(rest, "/") then
      if hasScheme then Some("")               // opaque URL: Path stays empty
      else if ':' in Before(rest, '/') then None
      else DecodedPath(rest)
    else if HasPrefix(rest, "//") && (hasScheme || !HasPrefix(rest, "///")) then
      var authority := Before(rest[2..], '/');
      if !AuthorityOk(authority) then None
      else DecodedPath(rest[2 + |authority|..])
    else DecodedPath(rest)
  }

  // ---- path.Base, filepath.Ext ----

  function TrimTrailingSlashes(p: string): (r: string)
    ensures HasPrefix(p, r)
    ensures r == "" || r[|r| - 1] != '/'
    ensures |p| > 0 && p[|p| - 1] != '/' ==> r == p
  {
    if |p| > 0 && p[|p| - 1] == '/' then TrimTrailingSlashes(p[..|p| - 1]) else p
  }

  /** path.Base: the last element of a slash-separated path. */
  function PathBase(p: string): (r: string)
    ensures r != ""
    ensures r != "/" ==> '/' !in r
  {
    if p == "" then "."
    else
      var q := TrimTrailingSlashes(p);
      var last := match LastIndexOf(q, '/') case None => q case Some(i) => q[i + 1..];
      if last == "" then "/" else last
  }

  /** filepath.Ext: the suffix from the final '.' of the last element, or "" when it has none. */
  function Ext(name: string): (ext: string)
    ensures ext == "" || (ext[0] == '.' && HasSuffix(name, ext) && '.' !in ext[1..] && '/' !in ext)
  {
    match LastIndexOf(name, '.')
    case None => ""
    case Some(i) => if '/' in name[i + 1..] then "" else
      assert name[i..][1..] == name[i + 1..];
      name[i..]
  }

  /** The file name a path ends in, without its final extension. */
  function FileNameFromPath(p: string): string {
    var base := PathBase(p);
    TrimSuffix(base, Ext(base))
  }

  /** getFileNameFromUrl; None where url.Parse fails, which the Go code answers with log.Fatal. */
  function FileNameFromUrl(url: string): (r: Option<string>)
    ensures r.None? <==> UrlPath(url).None?
  {
    match UrlPath(url)
    case None => None
    case Some(p) => Some(FileNameFromPath(p))
  }

  // ---- the round trip: destroy targets the id that was uploaded ----

  lemma IndexOfAt(a: string, c: char, b: string)
    requires c !in a
    ensures IndexOf(a + [c] + b, c) == Some(|a|)
  {
    var s := a + [c] + b;
    assert s[|a|] == c;
    assert s[..|a|] == a;
  }

  lemma LastIndexOfAt(a: string, c: char, b: string)
    requires c !in b
    ensures LastIndexOf(a + [c] + b, c) == Some(|a|)
  {
    var s := a + [c] + b;
    assert s[|a|] == c;
    assert s[|a| + 1..] == b;
  }

  lemma PathBaseOf(dir: string, tail: string)
    requires tail != "" && '/' !in tail
    ensures PathBase(dir + "/" + tail) == tail
  {
    var p := dir + "/" + tail;
    assert p == dir + ['/'] + tail;
    assert p[|p| - 1] == tail[|tail| - 1];
    assert TrimTrailingSlashes(p) == p;
    LastIndexOfAt(dir, '/', tail);
    assert p[|dir| + 1..] == tail;
  }

  lemma ExtOf(name: string, format: string)
    requires '/' !in name && '/' !in format && '.' !in format
    ensures Ext(name + "." + format) == "." + format
  {
    var tail := name + "." + format;
    assert tail == name + ['.'] + format;
    assert LastIndexOf(tail, '.') == Some(|name|) by { LastIndexOfAt(name, '.', format); }
    assert tail[|name| + 1..] == format;
    assert tail[|name|..] == "." + format;
  }

  /** A path ending in "/<name>.<format>" yields <name>, whatever comes before. */
  lemma {:induction false} FileNameFromPathOf(dir: string, name: string, format: string)
    requires '/' !in name && '/' !in format && '.' !in format
    ensures FileNameFromPath(dir + "/" + name + "." + format) == name
  {
    var tail := name + "." + format;
    var p := dir + "/" + name + "." + format;
    assert p == dir + "/" + tail;
    FileNameFromPathSplit(dir, tail, name, format);
  }

  lemma FileNameFromPathSplit(dir: string, tail: string, name: string, format: string)
    requires '/' !in name && '/' !in format && '.' !in format && tail == name + "." + format
    ensures FileNameFromPath(dir + "/" + tail) == name
  {
    assert PathBase(dir + "/" + tail) == tail by { PathBaseOf(dir, tail); }
    assert Ext(tail) == "." + format by { ExtOf(name, format); }
    assert TrimSuffix(tail, "." + format) == name by {
      assert tail[|tail| - |"." + format|..] == "." + format;
    }
  }

  lemma SchemeScanHttps(s: string)
    requires HasPrefix(s, "https:")
    ensures SchemeScan(s, 0) == WithScheme("https", s[6..])
  {
    assert s[..6] == "https:";
    assert s[0] == 'h' && s[1] == 't' && s[2] == 't' && s[3] == 'p' && s[4] == 's' && s[5] == ':';
    assert SchemeScan(s, 5) == WithScheme(s[..5], s[6..]);
    assert SchemeScan(s, 4) == SchemeScan(s, 5);
    assert SchemeScan(s, 3) == SchemeScan(s, 4);
    assert SchemeScan(s, 2) == SchemeScan(s, 3);
    assert SchemeScan(s, 1) == SchemeScan(s, 2);
    assert s[..5] == "https";
  }

  /** A host name of letters, digits, dots and dashes, as Cloudinary's delivery host is. */
  predicate PlainHost(h: string) {
    forall c | c in h :: IsLetter(c) || IsDigit(c) || c == '.' || c == '-'
  }

  lemma {:induction false} PlainHostUnescapes(h: string)
    requires PlainHost(h)
    ensures UnescapeOk(h, EncodeHost)
  {
    if h != [] {
      assert h[0] in h;
      assert !HostMustEscape(h[0]);
      PlainHostUnescapes(h[1..]);
    }
  }

  lemma PlainHostParses(h: string)
    requires PlainHost(h)
    ensures AuthorityOk(h)
  {
    assert '@' !in h && ':' !in h;
    if |h| > 0 {
      assert h[0] in h;
      assert h[..1] != "[";
    }
    PlainHostUnescapes(h);
  }

  /** Without any '%', a path unescapes to itself. */
  lemma {:induction false} UnescapesWithoutPercent(s: string)
    requires '%' !in s
    ensures UnescapeOk(s, EncodePath)
  {
    if s != [] {
      UnescapesWithoutPercent(s[1..]);
    }
  }

  lemma RestPathOfAuthority(authority: string, path: string)
    requires '/' !in authority && HasPrefix(path, "/")
    ensures RestPath(true, "//" + authority + path) == if AuthorityOk(authority) then DecodedPath(path) else None
  {
    var rest := "//" + authority + path;
    assert rest[..1] == "/" && rest[..2] == "//";
    assert rest[2..] == authority + ['/'] + path[1..] by {
      assert path == [path[0]] + path[1..];
    }
    IndexOfAt(authority, '/', path[1..]);
    assert Before(rest[2..], '/') == authority;
    assert rest[2 + |authority|..] == path;
  }

  /** url.Parse of "https://<authority><path>", for an authority and a path that nothing in them
      ends: an error when parseAuthority refuses the authority, otherwise the path with its escapes
      decoded, or an error exactly when one of them is malformed. */
  lemma {:induction false} UrlPathOfAuthority(authority: string, path: string)
    requires PathSafe(authority) && '/' !in authority
    requires PathSafe(path) && HasPrefix(path, "/")
    ensures UrlPath("https://" + authority + path) == if AuthorityOk(authority) then DecodedPath(path) else None
  {
    var raw := "https://" + authority + path;
    var rest := "//" + authority + path;
    assert raw == "https:" + rest;
    assert PathSafe(rest);
    assert '#' !in raw && !HasControl(raw) && '?' !in rest;
    assert Before(raw, '#') == raw && After(raw, '#') == "";
    assert raw != "*" by { assert |raw| > 1; }
    assert HasPrefix(raw, "https:") && raw[6..] == rest;
    SchemeScanHttps(raw);
    assert Before(rest, '?') == rest;
    RestPathOfAuthority(authority, path);
  }

  /** url.Parse of "https://<host><path>" for a plain host: the path with its escapes decoded, or
      an error exactly when one of them is malformed. */
  lemma UrlPathOfHttps(host: string, path: string)
    requires PlainHost(host)
    requires PathSafe(path) && HasPrefix(path, "/")
    ensures UrlPath("https://" + host + path) == DecodedPath(path)
  {
    assert PathSafe(host) by {
      forall c | c in host ensures !IsControl(c) && c != '#' && c != '?' {
      }
    }
    PlainHostParses(host);
    UrlPathOfAuthority(host, path);
  }

  /** The directory part of a delivery URL's path, in front of "/<uuid>.<format>". */
  function DeliveryDir(cloud: CloudName, version: nat): string {
    "/" + cloud + "/image/upload/v" + DecimalText(version) + "/" + Folder
  }

  lemma DeliveryDirSafe(cloud: CloudName, version: nat)
    ensures PathSafe(DeliveryDir(cloud, version)) && '%' !in DeliveryDir(cloud, version)
  {
    PlainIsPathSafe(cloud);
    DecimalTextIsPlain(version);
    PlainIsPathSafe(DecimalText(version));
  }

  lemma SecureUrlShape(cloud: CloudName, version: nat, fileName: string, format: Format)
    ensures SecureUrl(cloud, version, PublicIdPath(fileName), format)
         == "https://" + "res.cloudinary.com" + (DeliveryDir(cloud, version) + "/" + fileName + "." + format)
  {
    assert "https://res.cloudinary.com/" == "https://" + "res.cloudinary.com" + "/";
    Regroup("https://", "res.cloudinary.com", "/", cloud, "/image/upload/v", DecimalText(version), Folder, fileName,
            ".", format);
  }

  /** The concatenation SecureUrl builds, regrouped as scheme, host and path. */
  lemma Regroup<T>(a: seq<T>, b: seq<T>, s: seq<T>, c: seq<T>, m: seq<T>, d: seq<T>, f: seq<T>, n: seq<T>,
                   dot: seq<T>, e: seq<T>)
    ensures (a + b + s) + c + m + d + s + (f + s + n) + dot + e == a + b + (s + c + m + d + s + f + s + n + dot + e)
  {
  }

  /** The destroy round trip: the file name read back from a delivery URL is the UUID the upload
      was named with, so DestroyFromCloudinary targets the public id UploadToCloudinary used. */
  lemma {:induction false} FileNameFromSecureUrl(cloud: CloudName, version: nat, fileName: UuidText, format: Format)
    ensures FileNameFromUrl(SecureUrl(cloud, version, PublicIdPath(fileName), format)) == Some(fileName)
    ensures PublicIdOfUrl(SecureUrl(cloud, version, PublicIdPath(fileName), format)) == Some(PublicIdPath(fileName))
  {
    var dir := DeliveryDir(cloud, version);
    var path := dir + "/" + fileName + "." + format;
    assert PathSafe(path) by {
      UuidIsPlain(fileName);
      PlainIsPathSafe(fileName);
      PlainIsPathSafe(format);
      DeliveryDirSafe(cloud, version);
    }
    assert '%' !in path by {
      UuidIsPlain(fileName);
      PlainIsPathSafe(fileName);
      PlainIsPathSafe(format);
      DeliveryDirSafe(cloud, version);
    }
    assert HasPrefix(path, "/") by { assert path[..1] == "/"; }
    assert UrlPath(SecureUrl(cloud, version, PublicIdPath(fileName), format)) == Some(path) by {
      SecureUrlShape(cloud, version, fileName, format);
      assert PlainHost("res.cloudinary.com");
      UrlPathOfHttps("res.cloudinary.com", path);
      UnescapesWithoutPercent(path);
    }
    assert FileNameFromPath(path) == fileName by {
      UuidIsPlain(fileName);
      PlainIsPathSafe(fileName);
      PlainIsPathSafe(format);
      FileNameFromPathOf(dir, fileName, format);
    }
  }

  /** The public id DestroyFromCloudinary deletes for a stored URL. */
  function PublicIdOfUrl(url: string): (r: Option<string>)
    ensures r.Some? ==> HasPrefix(r.value, Folder + "/")
  {
    match FileNameFromUrl(url)
    case None => None
    case Some(n) => Some(PublicIdPath(n))
  }

  // ---- url.Parse on URLs of other shapes ----

  /** A path without '%' in front of the rest leaves unescaping to the rest. */
  lemma {:induction false} UnescapeAfterPlain(a: string, b: string)
    requires '%' !in a
    ensures UnescapeOk(a + b, EncodePath) == UnescapeOk(b, EncodePath)
    ensures UnescapeOk(b, EncodePath) ==> Unescape(a + b) == a + Unescape(b)
  {
    if a != [] {
      assert (a + b)[0] == a[0] && (a + b)[1..] == a[1..] + b;
      UnescapeAfterPlain(a[1..], b);
      assert a == [a[0]] + a[1..];
    } else {
      assert a + b == b;
    }
  }

  /** "%2F" between two plain parts unescapes to '/'. */
  lemma UnescapeEscapedSlash(head: string, tail: string)
    requires '%' !in head && '%' !in tail
    ensures UnescapeOk(head + "%2F" + tail, EncodePath)
    ensures Unescape(head + "%2F" + tail) == head + "/" + tail
  {
    var escaped := "%2F" + tail;
    assert escaped[0] == '%' && IsHex(escaped[1]) && IsHex(escaped[2]) && escaped[3..] == tail;
    assert EscapedChar(escaped) == '/';
    UnescapesWithoutPercent(tail);
    assert UnescapeOk(escaped, EncodePath);
    assert Unescape(escaped) == "/" + tail;
    assert head + "%2F" + tail == head + escaped;
    UnescapeAfterPlain(head, escaped);
  }

  /** An escaped slash is decoded before path.Base reads the path, so it ends the file name: the
      public id destroyed for ".../<a>%2F<b>.<format>" is "photos/<b>", not one built from the
      whole last segment. */
  lemma EscapedSlashSplitsName(host: string, dir: string, a: string, b: string, format: string)
    requires PlainHost(host) && HasPrefix(dir, "/")
    requires PathSafe(dir) && PathSafe(a) && PathSafe(b) && PathSafe(format)
    requires '%' !in dir && '%' !in a && '%' !in b && '%' !in format
    requires '/' !in b && '/' !in format && '.' !in format
    ensures FileNameFromUrl("https://" + host + (dir + "/" + a + "%2F" + b + "." + format)) == Some(b)
  {
    var head := dir + "/" + a;
    var tail := b + "." + format;
    var path := head + "%2F" + tail;
    assert path == dir + "/" + a + "%2F" + b + "." + format;
    assert PathSafe(head) && '%' !in head;
    assert PathSafe(tail) && '%' !in tail;
    assert PathSafe(path) by { assert PathSafe("%2F"); }
    assert HasPrefix(path, "/") by { assert path[..1] == dir[..1]; }
    UrlPathOfHttps(host, path);
    UnescapeEscapedSlash(head, tail);
    assert head + "/" + tail == head + "/" + b + "." + format;
    FileNameFromPathOf(head, b, format);
  }

  /** A malformed escape in the path of a stored URL makes url.Parse fail, and the destroy ends
      the process before calling the store. */
  lemma MalformedPathEscapeExits(host: string, path: string, reply: DestroyReply)
    requires PlainHost(host) && PathSafe(path) && HasPrefix(path, "/")
    requires !UnescapeOk(path, EncodePath)
    ensures DestroyResult("https://" + host + path, reply) == Fatal
  {
    UrlPathOfHttps(host, path);
  }

  /** A port that is not all digits makes url.Parse fail, and the destroy ends the process. */
  lemma NonNumericPortExits(host: string, port: string, path: string, reply: DestroyReply)
    requires PlainHost(host) && PathSafe(path) && HasPrefix(path, "/")
    requires PathSafe(port) && '/' !in port && '@' !in port && ':' !in port
    requires exists i | 0 <= i < |port| :: !IsDigit(port[i])
    ensures DestroyResult("https://" + host + ":" + port + path, reply) == Fatal
  {
    var authority := host + ":" + port;
    assert "https://" + host + ":" + port + path == "https://" + authority + path;
    assert PathSafe(authority) && '/' !in authority by {
      forall c | c in authority ensures !IsControl(c) && c != '#' && c != '?' && c != '/' {
        assert c in host || c in port || c == ':';
      }
    }
    NonNumericPortRefused(host, port);
    UrlPathOfAuthority(authority, path);
  }

  lemma NonNumericPortRefused(host: string, port: string)
    requires PlainHost(host) && '@' !in port && ':' !in port
    requires exists i | 0 <= i < |port| :: !IsDigit(port[i])
    ensures !AuthorityOk(host + ":" + port)
  {
    var authority := host + ":" + port;
    assert authority == host + [':'] + port;
    assert '@' !in authority by {
      forall c | c in authority ensures c != '@' { assert c in host || c in port || c == ':'; }
    }
    assert !HasPrefix(authority, "[") by {
      if |host| > 0 { assert authority[0] == host[0] && host[0] in host; } else { assert authority[0] == ':'; }
    }
    LastIndexOfAt(host, ':', port);
    assert authority[|host|..] == ":" + port;
    var i :| 0 <= i < |port| && !IsDigit(port[i]);
    assert (":" + port)[i + 1] == port[i];
  }

  /** A malformed escape in the fragment makes url.Parse fail as well, whatever comes before it. */
  lemma MalformedFragmentExits(u: string, fragment: string, reply: DestroyReply)
    requires '#' !in u && !UnescapeOk(fragment, EncodeFragment)
    ensures DestroyResult(u + "#" + fragment, reply) == Fatal
  {
    IndexOfAt(u, '#', fragment);
    assert u + "#" + fragment == u + ['#'] + fragment;
    assert (u + ['#'] + fragment)[|u| + 1..] == fragment;
  }

  /** Three of the URLs above, as a caller could store them: each makes the destroy end the process. */
  lemma MalformedPathEscapeExample(reply: DestroyReply)
    ensures DestroyResult("https://h/%zz.png", reply) == Fatal
  {
    var bad := "/%zz.png";
    assert bad[1..] == "%zz.png" && !IsHex(bad[1..][1]);
    assert !UnescapeOk(bad, EncodePath);
    assert PlainHost("h") && PathSafe(bad);
    assert "https://h/%zz.png" == "https://" + "h" + bad;
    MalformedPathEscapeExits("h", bad, reply);
  }

  lemma NonNumericPortExample(reply: DestroyReply)
    ensures DestroyResult("https://h:port/x.png", reply) == Fatal
  {
    var host, port, path := "h", "port", "/x.png";
    assert !IsDigit(port[0]);
    assert PlainHost(host) && PathSafe(path) && HasPrefix(path, "/");
    assert PathSafe(port) && '/' !in port && '@' !in port && ':' !in port;
    assert "https://h:port/x.png" == "https://" + host + ":" + port + path;
    NonNumericPortExits(host, port, path, reply);
  }

  lemma MalformedFragmentExample(reply: DestroyReply)
    ensures DestroyResult("https://h/x.png#%zz", reply) == Fatal
  {
    assert !UnescapeOk("%zz", EncodeFragment) by { assert !IsHex("%zz"[1]); }
    assert "https://h/x.png#%zz" == "https://h/x.png" + "#" + "%zz";
    MalformedFragmentExits("https://h/x.png", "%zz", reply);
  }

  // ---- the remote store ----

  /** What the SDK answers an upload with: the stored asset; an error the API reported in the
      response body (resp.Error) with no Go error; or a Go error. */
  datatype UploadReply = Uploaded(version: nat, format: Format) | UploadDeclined(message: string) | UploadRefused(reason: string)

  /** What the SDK answers a destroy with, in the same three ways. Destroying an id that is not
      stored is accepted and changes nothing. */
  datatype DestroyReply = DestroyAccepted | DestroyDeclined(message: string) | DestroyRefused(reason: string)

  /** DestroyFromCloudinary's outcome; `Fatal` is log.Fatal on a URL url.Parse rejects. */
  datatype DestroyOutcome = DestroyOk | DestroyErr(reason: string) | Fatal

  /** UploadToCloudinary's result: the delivery URL for the id "photos/<fileName>", or the SDK's Go
      error. The helper tests only the Go error, so an upload the API declined in the response
      body returns that response's empty SecureURL as a success. */
  function UploadResult(cloud: CloudName, fileName: UuidText, reply: UploadReply): (r: Result<string, string>)
    ensures r.Ok? <==> !reply.UploadRefused?
    ensures reply.Uploaded? ==> r.Ok? && PublicIdOfUrl(r.value) == Some(PublicIdPath(fileName))
    ensures reply.UploadDeclined? ==> r == Ok("")
    ensures reply.UploadRefused? ==> r == Err(reply.reason)
  {
    match reply
    case Uploaded(v, f) =>
      FileNameFromSecureUrl(cloud, v, fileName, f);
      Ok(SecureUrl(cloud, v, PublicIdPath(fileName), f))
    case UploadDeclined(_) => Ok("")
    case UploadRefused(reason) => Err(reason)
  }

  /** The stored ids after an upload: the new id is added only when the asset was stored. */
  function BlobsAfterUpload(blobs: set<string>, fileName: UuidText, reply: UploadReply): (r: set<string>)
    ensures reply.Uploaded? ==> r == blobs + {PublicIdPath(fileName)}
    ensures !reply.Uploaded? ==> r == blobs
  {
    if reply.Uploaded? then blobs + {PublicIdPath(fileName)} else blobs
  }

  /** DestroyFromCloudinary's result: Fatal before any SDK call when the URL does not parse,
      otherwise the SDK's Go error passed through unchanged; a destroy the API declined in the
      response body reports no error. */
  function DestroyResult(url: string, reply: DestroyReply): (r: DestroyOutcome)
    ensures r == Fatal <==> UrlPath(url).None?
    ensures UrlPath(url).Some? && reply.DestroyRefused? ==> r == DestroyErr(reply.reason)
    ensures UrlPath(url).Some? && !reply.DestroyRefused? ==> r == DestroyOk
  {
    if FileNameFromUrl(url).None? then Fatal
    else if reply.DestroyRefused? then DestroyErr(reply.reason)
    else DestroyOk
  }

  /** The stored ids after a destroy: the URL's public id is gone when the API accepted the call.
      A destroy reported as DestroyOk may still have removed nothing. */
  function BlobsAfterDestroy(blobs: set<string>, url: string, reply: DestroyReply): (r: set<string>)
    ensures reply.DestroyAccepted? && PublicIdOfUrl(url).Some? ==> r == blobs - {PublicIdOfUrl(url).value}
    ensures !reply.DestroyAccepted? || PublicIdOfUrl(url).None? ==> r == blobs
    ensures r != blobs ==> DestroyResult(url, reply) == DestroyOk
  {
    match PublicIdOfUrl(url)
    case None => blobs
    case Some(id) => if reply.DestroyAccepted? then blobs - {id} else blobs
  }

  /** A destroy removes at most the URL's own public id and adds nothing. */
  lemma BlobsAfterDestroyRemovesAtMostOne(blobs: set<string>, url: string, reply: DestroyReply)
    requires PublicIdOfUrl(url).Some?
    ensures var r := BlobsAfterDestroy(blobs, url, reply);
      r == blobs || r == blobs - {PublicIdOfUrl(url).value}
  {
  }

  /** The Cloudinary account: the public ids currently stored in it. */
  class BlobStore {
    const cloud: CloudName
    var blobs: set<string>

    constructor (cloud: CloudName, blobs: set<string>)
      ensures this.cloud == cloud && this.blobs == blobs
    {
      this.cloud := cloud;
      this.blobs := blobs;
    }

    /** UploadToCloudinary: the public id is "photos/" + a fresh UUID, never taken from the request. */
    method Upload(fileName: UuidText, reply: UploadReply) returns (r: Result<string, string>)
      modifies this
      ensures r == UploadResult(cloud, fileName, reply)
      ensures blobs == BlobsAfterUpload(old(blobs), fileName, reply)
    {
      r := UploadResult(cloud, fileName, reply);
      if reply.Uploaded? {
        blobs := blobs + {PublicIdPath(fileName)};
      }
    }

    /** DestroyFromCloudinary: the id to delete is recomputed from the stored URL. */
    method Destroy(url: string, reply: DestroyReply) returns (r: DestroyOutcome)
      modifies this
      ensures r == DestroyResult(url, reply)
      ensures blobs == BlobsAfterDestroy(old(blobs), url, reply)
    {
      var id := PublicIdOfUrl(url);
      r := DestroyResult(url, reply);
      if id.Some? && reply.DestroyAccepted? {
        blobs := blobs - {id.value};
      }
    }
  }
}
