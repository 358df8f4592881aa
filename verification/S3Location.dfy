/**
 The two computations of where a volume's objects live: CreatePod renders a storage URL into the
 ZeroFS configuration (pkg/csi/zerofs.go:138), DeleteVolume parses the configured URL and joins the
 volume ID to its path (pkg/csi/s3_cleanup.go:31-54, pkg/csi/controller_delete.go:56-60).
 */
module S3Location {
  import opened GoStrings

  // ---- url.Parse ----

  /** What url.Parse answers. Percent escapes, user information and bracketed hosts are not modelled. */
  datatype Parsed = Url(scheme: string, host: string, path: string) | BadUrl | NotModelled

  predicate IsControl(c: char) { c < ' ' || c == '\U{7f}' }

  predicate HasControl(s: string) { exists c | c in s :: IsControl(c) }

  predicate IsLetter(c: char) { 'a' <= c <= 'z' || 'A' <= c <= 'Z' }

  predicate IsDigit(c: char) { '0' <= c <= '9' }

  predicate IsSchemeChar(c: char) { IsLetter(c) || IsDigit(c) || c == '+' || c == '-' || c == '.' }

  /** ASCII characters that a host may not hold. */
  predicate BreaksHost(c: char) { c in " #/?@\\^`{|}" }

  /** The first position whose character cannot stand in a scheme. */
  function SchemeEnd(s: string): (k: nat)
    ensures k <= |s| && (k < |s| ==> !IsSchemeChar(s[k])) && forall j :: 0 <= j < k ==> IsSchemeChar(s[j])
  {
    if s == "" || !IsSchemeChar(s[0]) then 0 else 1 + SchemeEnd(s[1..])
  }

  predicate HasScheme(s: string) {
    var k := SchemeEnd(s);
    0 < k < |s| && s[k] == ':' && IsLetter(s[0])
  }

  predicate ValidPort(authority: string) {
    ':' !in authority || forall c | c in AfterLast(authority, ':') :: IsDigit(c)
  }

  function AfterLast(s: string, c: char): (r: string)
    requires c in s
    ensures c !in r && |r| < |s| && s[|s| - |r| - 1] == c && s[|s| - |r|..] == r
    decreases |s|
  {
    if s[|s| - 1] == c then "" else AfterLast(s[..|s| - 1], c) + [s[|s| - 1]]
  }

  function ParseHier(scheme: string, rest: string): Parsed {
    if !("/" <= rest) && scheme != "" then Url(scheme, "", "")
    else if !("/" <= rest) && ':' in Before(rest, '/') then BadUrl
    else if "//" <= rest && (scheme != "" || !("///" <= rest)) then
      var authority := Before(rest[2..], '/');
      ParseAuthority(scheme, authority, rest[2 + |authority|..])
    else Url(scheme, "", rest)
  }

  function ParseAuthority(scheme: string, authority: string, path: string): Parsed {
    if '@' in authority || '[' in authority then NotModelled
    else if !ValidPort(authority) || exists c | c in authority :: BreaksHost(c) then BadUrl
    else Url(scheme, authority, path)
  }

  function ParseUnfragmented(u: string): Parsed {
    if HasControl(u) then BadUrl
    else if u == "*" then Url("", "", "*")
    else if ":" <= u then BadUrl
    else if HasScheme(u) then
      ParseHier(ToLower(u[..SchemeEnd(u)]), Before(u[SchemeEnd(u) + 1..], '?'))
    else ParseHier("", Before(u, '?'))
  }

  function ParseUrl(raw: string): Parsed {
    if '%' in raw then NotModelled else ParseUnfragmented(Before(raw, '#'))
  }

  // ---- The two sides ----

  datatype Location = Location(bucket: string, prefix: string)

  datatype Target = Located(loc: Location) | Refused | Unknown

  function ParseS3Location(storageURL: string): Target {
    match ParseUrl(storageURL)
    case NotModelled => Unknown
    case BadUrl => Refused
    case Url(scheme, host, path) =>
      if scheme != "s3" || host == "" then Refused else Located(Location(host, TrimPrefix(path, "/")))
  }

  /** path.Join on a base that is not rooted is path.Clean of the two with a slash between them. */
  function JoinS3Prefix(basePrefix: string, volumeID: string): string {
    var base := Trim(TrimSpace(basePrefix), IsSlash);
    var id := Trim(TrimSpace(volumeID), IsSlash);
    if base == "" then id else Clean(base + "/" + id)
  }

  /** The storage URL that CreatePod writes into the ZeroFS configuration. */
  function RenderStorageURL(storageURL: string, volumeID: string): string {
    (if storageURL == "" then "s3://zerofs" else storageURL) + "/" + volumeID
  }

  /** Where the volume's pod is told to write. */
  function WriteTarget(storageURL: string, volumeID: string): Target {
    ParseS3Location(RenderStorageURL(storageURL, volumeID))
  }

  /** What DeleteVolume deletes. */
  function DeleteTarget(storageURL: string, volumeID: string): Target {
    match ParseS3Location(storageURL)
    case Located(loc) => Located(loc.(prefix := JoinS3Prefix(loc.prefix, volumeID)))
    case other => other
  }

  /** A volume ID is one path segment. */
  predicate IsSegment(id: string) {
    id != "" && id != "." && id != ".." && '/' !in id && TrimSpace(id) == id
  }

  /** The characters of a volume ID that a URL would not take literally. */
  predicate UrlSafe(id: string) { '?' !in id && '#' !in id && '%' !in id && !HasControl(id) }

  /** A URL path that path.Clean and the trimming leave alone. */
  predicate CleanPath(path: string) {
    || path == ""
    || (&& |path| > 1 && path[0] == '/'
        && Trim(TrimSpace(path[1..]), IsSlash) == path[1..] && Normal(Split(path[1..])))
  }

  // ---- Parsing ----

  lemma EmptyUrlIsRefused()
    ensures ParseS3Location("") == Refused
  {
    assert !HasScheme("");
  }

  predicate IsBucket(b: string) { b != "" && forall c | c in b :: IsLetter(c) || IsDigit(c) || c == '-' || c == '.' }

  predicate IsScheme(s: string) { s != "" && IsLetter(s[0]) && forall c | c in s :: IsSchemeChar(c) }

  lemma SchemeParses(scheme: string, rest: string)
    requires IsScheme(scheme) && !HasControl(rest)
    ensures ParseUnfragmented(scheme + ":" + rest) == ParseHier(ToLower(scheme), Before(rest, '?'))
  {
    var u, k := scheme + ":" + rest, |scheme|;
    assert forall j :: 0 <= j < k ==> u[j] == scheme[j];
    assert u[k] == ':' && SchemeEnd(u) == k;
    assert u[k + 1..] == rest && u[..k] == scheme;
    assert !HasControl(scheme);
    NoControlConcat(scheme, ":");
    NoControlConcat(scheme + ":", rest);
    UnfragmentedParts(u, k, scheme, rest);
  }

  /** Any scheme and authority, and a path that is taken literally. */
  lemma AuthorityParses(scheme: string, authority: string, path: string)
    requires IsScheme(scheme) && UrlSafe(authority) && '/' !in authority
    requires UrlSafe(path) && (path == "" || path[0] == '/')
    ensures ParseUrl(scheme + "://" + authority + path) == ParseAuthority(ToLower(scheme), authority, path)
  {
    var rest := "//" + authority + path;
    var raw := scheme + ":" + rest;
    assert raw == scheme + "://" + authority + path;
    SchemeIsSafe(scheme);
    SafeConcat("//", authority);
    SafeConcat("//" + authority, path);
    SafeConcat(scheme, ":");
    SafeConcat(scheme + ":", rest);
    IndexOfAbsent(raw, '#');
    IndexOfAbsent(rest, '?');
    SchemeParses(scheme, rest);
    HierParts(ToLower(scheme), rest, authority, path);
  }

  /** Any scheme, with a bucket or none. */
  lemma SchemedUrlParses(scheme: string, bucket: string, path: string)
    requires IsScheme(scheme) && (bucket == "" || IsBucket(bucket)) && UrlSafe(path) && (path == "" || path[0] == '/')
    ensures ParseUrl(scheme + "://" + bucket + path) == Url(ToLower(scheme), bucket, path)
  {
    BucketIsSafe(bucket);
    AuthorityParses(scheme, bucket, path);
  }

  lemma SchemeIsSafe(scheme: string)
    requires IsScheme(scheme)
    ensures UrlSafe(scheme)
  {
  }

  /** The documented form: s3://bucket and a path that is taken literally. */
  lemma PlainUrlParses(bucket: string, path: string)
    requires IsBucket(bucket) && UrlSafe(path) && (path == "" || path[0] == '/')
    ensures ParseUrl("s3://" + bucket + path) == Url("s3", bucket, path)
    ensures ParseS3Location("s3://" + bucket + path) == Located(Location(bucket, TrimPrefix(path, "/")))
  {
    assert "s3" + "://" == "s3://";
    SchemedUrlParses("s3", bucket, path);
  }

  /** The location that a URL with a scheme names: s3 in either case, and a bucket, are required. */
  lemma OnlyS3IsLocated(scheme: string, bucket: string, path: string)
    requires IsScheme(scheme) && (bucket == "" || IsBucket(bucket)) && UrlSafe(path) && (path == "" || path[0] == '/')
    ensures (scheme == "s3" || scheme == "S3") && bucket != "" ==>
              ParseS3Location(scheme + "://" + bucket + path) == Located(Location(bucket, TrimPrefix(path, "/")))
    ensures !(scheme == "s3" || scheme == "S3") || bucket == "" ==>
              ParseS3Location(scheme + "://" + bucket + path) == Refused
  {
    SchemedUrlParses(scheme, bucket, path);
    if |scheme| == 2 {
      assert scheme == [scheme[0], scheme[1]];
    }
  }

  /** A URL that holds a control character before its fragment is refused. */
  lemma ControlIsRefused(url: string, i: nat)
    requires '%' !in url && i < |url| && '#' !in url[..i + 1] && (url[i] < ' ' || url[i] == '\U{7f}')
    ensures ParseS3Location(url) == Refused
  {
    assert forall j :: 0 <= j <= i ==> url[..i + 1][j] == url[j];
    assert Index(url, '#') > i;
    assert Before(url, '#')[i] == url[i];
    assert url[i] in Before(url, '#') && IsControl(url[i]);
  }

  lemma {:induction false} AfterLastOf(host: string, port: string, c: char)
    requires c !in port
    ensures AfterLast(host + [c] + port, c) == port
  {
    var s := host + [c] + port;
    if port == "" {
      assert s[|s| - 1] == c;
    } else {
      var n := |port| - 1;
      assert port[n] in port && s[|s| - 1] == port[n] && s[..|s| - 1] == host + [c] + port[..n];
      AfterLastOf(host, port[..n], c);
    }
  }

  /** A host with a port is taken whole, if the port is digits. */
  lemma PortIsJudged(host: string, port: string)
    requires ':' !in port
    ensures ValidPort(host + ":" + port) <==> forall c :: c in port ==> '0' <= c <= '9'
    ensures ':' !in host ==> ValidPort(host)
  {
    assert (host + ":" + port)[|host|] == ':';
    AfterLastOf(host, port, ':');
  }

  /** No space, backslash, caret, backtick, brace or bar. */
  predicate IsHostText(s: string) { forall c :: c in s ==> c !in " \\^`{|}" }

  /** Which hosts are taken: those without a character that a host may not hold and with no port
      but digits. */
  lemma HostIsJudged(authority: string, path: string)
    requires UrlSafe(authority) && '/' !in authority && '@' !in authority && '[' !in authority && authority != ""
    requires UrlSafe(path) && (path == "" || path[0] == '/')
    ensures ParseS3Location("s3://" + authority + path) ==
              if ValidPort(authority) && IsHostText(authority)
              then Located(Location(authority, TrimPrefix(path, "/"))) else Refused
  {
    assert "s3" + "://" == "s3://";
    AuthorityParses("s3", authority, path);
    assert ToLower("s3") == "s3";
    HostBreakers(authority);
  }

  lemma HostBreakers(authority: string)
    requires UrlSafe(authority) && '/' !in authority && '@' !in authority
    ensures (exists c | c in authority :: BreaksHost(c)) <==> !IsHostText(authority)
  {
    assert forall c: char :: c in authority ==> (BreaksHost(c) <==> c in " \\^`{|}");
  }

  lemma SafeConcat(s: string, t: string)
    requires UrlSafe(s) && UrlSafe(t)
    ensures UrlSafe(s + t)
  {
    NoControlConcat(s, t);
  }

  lemma BucketIsSafe(bucket: string)
    requires bucket == "" || IsBucket(bucket)
    ensures UrlSafe(bucket) && '/' !in bucket && '@' !in bucket && '[' !in bucket && ':' !in bucket
    ensures !exists c | c in bucket :: BreaksHost(c)
  {
  }

  lemma BeforeConcat(s: string, t: string, c: char)
    ensures Before(s + t, c) == if c in s then Before(s, c) else s + Before(t, c)
  {
    var i := Index(s, c);
    assert forall j :: 0 <= j < |s| ==> (s + t)[j] == s[j];
    if c in s {
      assert i < |s| && Index(s + t, c) == i;
    } else {
      var k := Index(t, c);
      assert forall j :: 0 <= j < |t| ==> (s + t)[|s| + j] == t[j];
      assert Index(s + t, c) == |s| + k;
    }
  }

  lemma SchemeConcat(s: string, t: string)
    requires SchemeEnd(s) < |s|
    ensures SchemeEnd(s + t) == SchemeEnd(s)
    ensures HasScheme(s + t) == HasScheme(s)
  {
    assert forall j :: 0 <= j < |s| ==> (s + t)[j] == s[j];
  }

  lemma HierParts(scheme: string, rest: string, authority: string, path: string)
    requires scheme != "" && rest == "//" + authority + path && '/' !in authority && (path == "" || path[0] == '/')
    ensures ParseHier(scheme, rest) == ParseAuthority(scheme, authority, path)
  {
    assert rest[2..] == authority + path;
    BeforeConcat(authority, path, '/');
    assert rest[2 + |authority|..] == path;
  }

  /** Text appended after the authority lands in the path. */
  lemma HierConcat(scheme: string, rest: string, t: string)
    requires "/" <= t
    requires var p := ParseHier(scheme, rest); p.Url? && p.host != "" && scheme != ""
    ensures ParseHier(scheme, rest + t) == ParseHier(scheme, rest).(path := ParseHier(scheme, rest).path + t)
  {
    var authority := Before(rest[2..], '/');
    var path := rest[2 + |authority|..];
    assert rest == "//" + authority + path;
    assert rest + t == "//" + authority + (path + t);
    HierParts(scheme, rest + t, authority, path + t);
  }

  lemma NoControlConcat(s: string, t: string)
    ensures HasControl(s + t) == (HasControl(s) || HasControl(t))
  {
    if HasControl(s) {
      var c :| c in s && IsControl(c);
      assert c in s + t;
    } else if HasControl(t) {
      var c :| c in t && IsControl(c);
      assert c in s + t;
    }
  }

  lemma UnfragmentedParts(u: string, k: nat, scheme: string, rest: string)
    requires !HasControl(u) && HasScheme(u) && k == SchemeEnd(u) && scheme == u[..k] && rest == u[k + 1..]
    ensures ParseUnfragmented(u) == ParseHier(ToLower(scheme), Before(rest, '?'))
  {
    assert |u| > 1;
  }

  lemma ConcatParts(u: string, t: string, k: nat)
    requires !HasControl(u) && !HasControl(t) && HasScheme(u) && k == SchemeEnd(u)
    ensures ParseUnfragmented(u + t) == ParseHier(ToLower(u[..k]), Before(u[k + 1..] + t, '?'))
  {
    NoControlConcat(u, t);
    SchemeConcat(u, t);
    ConcatSlices(u, t, k);
    UnfragmentedParts(u + t, k, u[..k], u[k + 1..] + t);
  }

  lemma ConcatSlices(u: string, t: string, k: nat)
    requires k < |u|
    ensures (u + t)[..k] == u[..k] && (u + t)[k + 1..] == u[k + 1..] + t
  {
  }

  /** A URL with scheme and host keeps both when text is appended to it. */
  lemma UnfragmentedConcat(u: string, t: string)
    requires "/" <= t && HasScheme(u) && !HasControl(u) && !HasControl(t)
    requires ParseUnfragmented(u).Url? && ParseUnfragmented(u).host != ""
    ensures var p := ParseUnfragmented(u);
            ParseUnfragmented(u + t) == p.(path := p.path + if '?' in u then "" else Before(t, '?'))
  {
    var k := SchemeEnd(u);
    var rest, scheme := u[k + 1..], ToLower(u[..k]);
    UnfragmentedParts(u, k, u[..k], rest);
    ConcatParts(u, t, k);
    BeforeConcat(rest, t, '?');
    QuestionAfterScheme(u);
    if '?' !in u {
      IndexOfAbsent(rest, '?');
      assert "/" <= Before(t, '?');
      HierConcat(scheme, rest, Before(t, '?'));
    }
  }

  lemma QuestionAfterScheme(u: string)
    requires HasScheme(u)
    ensures '?' in u <==> '?' in u[SchemeEnd(u) + 1..]
  {
    if '?' in u {
      var i :| 0 <= i < |u| && u[i] == '?';
      assert i > SchemeEnd(u);
      assert u[SchemeEnd(u) + 1..][i - SchemeEnd(u) - 1] == '?';
    }
  }

  /** A URL that names a host keeps it, and a volume ID appended after a slash ends up in the path,
      up to the first character that starts a query or a fragment. */
  lemma RenderedUrlParses(url: string, id: string)
    requires '%' !in url && '%' !in id
    requires var p := ParseUrl(url); p.Url? && p.host != "" && p.scheme != ""
    ensures var p := ParseUrl(url);
            ParseUrl(url + "/" + id) ==
              if '#' in url then p
              else if HasControl(Before(id, '#')) then BadUrl
              else p.(path := p.path + if '?' in url then "" else "/" + Before(Before(id, '#'), '?'))
  {
    CutRendered(url, id);
    assert '%' !in url + "/" + id;
    if '#' !in url {
      IndexOfAbsent(url, '#');
      RenderedUnfragmented(url, Before(id, '#'));
    }
  }

  lemma CutRendered(url: string, id: string)
    ensures Before(url + "/" + id, '#') == if '#' in url then Before(url, '#') else url + ("/" + Before(id, '#'))
  {
    var t := "/" + id;
    assert url + "/" + id == url + t;
    BeforeConcat(url, t, '#');
    BeforeConcat("/", id, '#');
  }

  lemma RenderedUnfragmented(u: string, x: string)
    requires ParseUnfragmented(u).Url? && ParseUnfragmented(u).host != "" && ParseUnfragmented(u).scheme != ""
    ensures var p := ParseUnfragmented(u);
            ParseUnfragmented(u + ("/" + x)) ==
              if HasControl(x) then BadUrl else p.(path := p.path + if '?' in u then "" else "/" + Before(x, '?'))
  {
    BeforeConcat("/", x, '?');
    NoControlConcat("/", x);
    if HasControl(x) {
      NoControlConcat(u, "/" + x);
    } else {
      UnfragmentedConcat(u, "/" + x);
    }
  }

  // ---- The joined prefix ----

  lemma CleanSnoc(base: string, id: string)
    requires IsSegment(id)
    ensures Clean(base + "/" + id) == Join(Normalize(Split(base)) + [id])
  {
    SplitAppend(base, id);
    assert (Split(base) + [id])[..|Split(base)|] == Split(base);
  }

  lemma SegmentUntrimmed(id: string)
    requires IsSegment(id)
    ensures Trim(TrimSpace(id), IsSlash) == id
  {
    assert id[0] in id && id[|id| - 1] in id;
  }

  /** What joinS3Prefix puts before the volume ID: nothing, or a cleaned base and a slash. */
  function BasePath(basePrefix: string): string {
    var base := Trim(TrimSpace(basePrefix), IsSlash);
    var segs := Normalize(Split(base));
    if base == "" || segs == [] then "" else Join(segs) + "/"
  }

  /** The joined prefix ends in the whole volume ID, behind something that does not depend on it. */
  lemma JoinedPrefixShape(basePrefix: string, id: string)
    requires IsSegment(id)
    ensures JoinS3Prefix(basePrefix, id) == BasePath(basePrefix) + id
  {
    var base := Trim(TrimSpace(basePrefix), IsSlash);
    SegmentUntrimmed(id);
    if base != "" {
      CleanSnoc(base, id);
      JoinSnoc(Normalize(Split(base)), id);
    }
  }

  /** Joining is plain concatenation exactly for a base that needs neither trimming nor cleaning. */
  lemma JoinIsConcatenation(p: string, id: string)
    requires IsSegment(id)
    ensures JoinS3Prefix(p, id) == p + "/" + id <==>
            p != "" && Trim(TrimSpace(p), IsSlash) == p && Normal(Split(p))
  {
    var base := Trim(TrimSpace(p), IsSlash);
    SegmentUntrimmed(id);
    if base == "" {
      assert |JoinS3Prefix(p, id)| == |id|;
    } else {
      CleanFixpoint(base + "/" + id);
      SplitAppend(base, id);
      NormalSnoc(Split(base), id);
      if base != p {
        assert |base| < |p|;
        assert |JoinS3Prefix(p, id)| < |p + "/" + id|;
      }
    }
  }

  /** Neither spaces nor slashes at its ends. */
  predicate IsTrimmed(p: string) {
    p == "" || (!IsSpace(p[0]) && !IsSpace(p[|p| - 1]) && p[0] != '/' && p[|p| - 1] != '/')
  }

  lemma TrimmedBase(a: string, x: string, p: string, y: string, b: string)
    requires (forall c :: c in a ==> IsSpace(c)) && (forall c :: c in b ==> IsSpace(c))
    requires (forall c :: c in x ==> c == '/') && (forall c :: c in y ==> c == '/')
    requires IsTrimmed(p)
    ensures Trim(TrimSpace(a + (x + p + y) + b), IsSlash) == p
  {
    var t := x + p + y;
    if p == "" {
      assert forall c :: c in t ==> c == '/';
      assert t != "" ==> t[0] in t && t[|t| - 1] in t;
    } else {
      assert if x != "" then x[0] in x && t[0] == x[0] else t[0] == p[0];
      assert if y != "" then y[|y| - 1] in y && t[|t| - 1] == y[|y| - 1] else t[|t| - 1] == p[|p| - 1];
    }
    TrimOf(a, t, b, IsSpace);
    TrimOf(x, p, y, IsSlash);
  }

  /** Whatever spaces and, inside them, slashes surround it: a base that needs no cleaning is
      followed by a slash and the ID, and no base at all by the ID alone. */
  lemma JoinTrims(a: string, x: string, p: string, y: string, b: string, id: string)
    requires (forall c :: c in a ==> IsSpace(c)) && (forall c :: c in b ==> IsSpace(c))
    requires (forall c :: c in x ==> c == '/') && (forall c :: c in y ==> c == '/')
    requires IsTrimmed(p) && (p == "" || Normal(Split(p))) && IsSegment(id)
    ensures JoinS3Prefix(a + (x + p + y) + b, id) == if p == "" then id else p + "/" + id
  {
    TrimmedBase(a, x, p, y, b);
    JoinWithBase(a + (x + p + y) + b, p, id);
  }

  lemma JoinWithBase(s: string, p: string, id: string)
    requires Trim(TrimSpace(s), IsSlash) == p && (p == "" || Normal(Split(p))) && IsSegment(id)
    ensures JoinS3Prefix(s, id) == if p == "" then id else p + "/" + id
  {
    SegmentUntrimmed(id);
    if p != "" {
      CleanFixpoint(p + "/" + id);
      SplitAppend(p, id);
      NormalSnoc(Split(p), id);
    }
  }

  /** A slash behind the base changes nothing, unless the base ends in a space. */
  lemma TrailingSlashIsTrimmed(p: string, id: string)
    requires p == "" || !IsSpace(p[|p| - 1])
    ensures JoinS3Prefix(p + "/", id) == JoinS3Prefix(p, id)
  {
    SpaceTrimmed(p);
    SlashTrimmed(TrimSpace(p));
  }

  lemma SpaceTrimmed(p: string)
    requires p == "" || !IsSpace(p[|p| - 1])
    ensures TrimSpace(p + "/") == TrimSpace(p) + "/"
  {
    var a := TrimStartParts(p, IsSpace);
    var t := TrimStart(p, IsSpace);
    assert p != "" ==> p[|p| - 1] in p;
    assert t != "" ==> t[|t| - 1] == p[|p| - 1];
    assert p == a + t + "" && p + "/" == a + (t + "/") + "";
    TrimOf(a, t, "", IsSpace);
    TrimOf(a, t + "/", "", IsSpace);
  }

  lemma SlashTrimmed(t: string)
    ensures Trim(t + "/", IsSlash) == Trim(t, IsSlash)
  {
    var x, y := TrimParts(t, IsSlash);
    assert t + "/" == x + Trim(t, IsSlash) + (y + "/");
    TrimOf(x, Trim(t, IsSlash), y + "/", IsSlash);
  }

  /** Behind a space it keeps the space from being trimmed. */
  lemma SlashKeepsSpace(x: string, space: char, id: string)
    requires IsSegment(x) && IsSpace(space) && IsSegment(id)
    ensures JoinS3Prefix(x + [space], id) == x + "/" + id
    ensures JoinS3Prefix(x + [space] + "/", id) == x + [space] + "/" + id
  {
    SegmentUntrimmed(id);
    SegmentUntrimmed(x);
    TrimOf("", x, [space], IsSpace);
    assert "" + x + [space] == x + [space];
    PlainSegmentJoins(x, id);
    SpacedBase(x, space);
    PlainSegmentJoins(x + [space], id);
  }

  lemma SpacedBase(x: string, space: char)
    requires IsSegment(x) && IsSpace(space)
    ensures Trim(TrimSpace(x + [space] + "/"), IsSlash) == x + [space]
  {
    var p := x + [space] + "/";
    assert x[0] in x && p[0] == x[0] && p[|p| - 1] == '/';
    assert TrimSpace(p) == p;
    assert "" + (x + [space]) + "/" == p;
    TrimOf("", x + [space], "/", IsSlash);
  }

  lemma PlainSegmentJoins(x: string, id: string)
    requires x != "" && x != "." && x != ".." && '/' !in x && IsSegment(id)
    ensures Clean(x + "/" + id) == x + "/" + id
  {
    SplitAppend(x, id);
    IndexOfAbsent(x, '/');
    assert Split(x + "/" + id) == [x, id];
    CleanFixpoint(x + "/" + id);
  }

  // ---- Agreement ----

  predicate Agree(url: string, id: string) { WriteTarget(url, id) == DeleteTarget(url, id) }

  lemma PathOfHier(scheme: string, rest: string)
    requires ParseHier(scheme, rest).Url? && ParseHier(scheme, rest).host != ""
    ensures var path := ParseHier(scheme, rest).path;
            (path == "" || path[0] == '/') && forall c :: c in path ==> c in rest
  {
    var authority := Before(rest[2..], '/');
    assert rest[2 + |authority|..] == rest[2..][|authority|..];
  }

  /** The path of a URL with a host is empty or rooted, and made of the URL's characters. */
  lemma PathOfUrl(url: string)
    requires ParseS3Location(url).Located?
    ensures var path := ParseUrl(url).path;
            (path == "" || path[0] == '/') && forall c :: c in path ==> c in url
  {
    var u := Before(url, '#');
    var k := SchemeEnd(u);
    var rest := Before(u[k + 1..], '?');
    UnfragmentedParts(u, k, u[..k], u[k + 1..]);
    PathOfHier(ToLower(u[..k]), rest);
    assert forall c :: c in rest ==> c in url;
  }

  lemma PathAgreement(path: string, id: string)
    requires IsSegment(id) && (path == "" || path[0] == '/')
    ensures TrimPrefix(path + ("/" + id), "/") == JoinS3Prefix(TrimPrefix(path, "/"), id) <==> CleanPath(path)
  {
    var p := TrimPrefix(path, "/");
    if path == "" {
      SegmentUntrimmed(id);
      assert TrimPrefix("/" + id, "/") == id;
    } else {
      assert path == "/" + p;
      assert path + ("/" + id) == "/" + (p + "/" + id);
      JoinIsConcatenation(p, id);
    }
  }

  /** An ID cut short by the URL syntax leaves the pod writing somewhere else. */
  lemma CutIdDisagrees(path: string, id: string, c: char)
    requires IsSegment(id) && c in id && c !in path && c != '/'
    requires c == '?' || c == '#'
    ensures TrimPrefix(path + ("/" + Before(Before(id, '#'), '?')), "/") != JoinS3Prefix(TrimPrefix(path, "/"), id)
  {
    var cut := Before(Before(id, '#'), '?');
    JoinedPrefixShape(TrimPrefix(path, "/"), id);
    assert c in JoinS3Prefix(TrimPrefix(path, "/"), id);
    CutLacks(id);
    LackingStaysLacking(path + ("/" + cut), c);
  }

  lemma CutLacks(id: string)
    ensures '#' !in Before(Before(id, '#'), '?') && '?' !in Before(Before(id, '#'), '?')
  {
    var x := Before(id, '#');
    assert Before(x, '?') <= x;
  }

  lemma LackingStaysLacking(s: string, c: char)
    requires c !in s
    ensures c !in TrimPrefix(s, "/")
  {
  }

  /** The agreement spelled out on the parsed URL. */
  lemma AgreementOnPaths(url: string, id: string)
    requires '%' !in url && '%' !in id && ParseS3Location(url).Located?
    ensures var path := ParseUrl(url).path;
            Agree(url, id) <==>
            var written := if '#' in url || '?' in url then path else path + ("/" + Before(Before(id, '#'), '?'));
            && ('#' in url || !HasControl(Before(id, '#')))
            && TrimPrefix(written, "/") == JoinS3Prefix(TrimPrefix(path, "/"), id)
  {
    RenderedUrlParses(url, id);
    EmptyUrlIsRefused();
  }

  /** For a URL that deletion accepts and that has no query or fragment, deletion looks where the pod
      writes exactly when the URL's path is clean and the ID means itself inside a URL. */
  lemma LocationsAgreeIffClean(url: string, id: string)
    requires '%' !in url && '?' !in url && '#' !in url && '%' !in id
    requires ParseS3Location(url).Located? && IsSegment(id)
    ensures Agree(url, id) <==> CleanPath(ParseUrl(url).path) && UrlSafe(id)
  {
    var path := ParseUrl(url).path;
    PathOfUrl(url);
    AgreementOnPaths(url, id);
    if '#' in id {
      CutIdDisagrees(path, id, '#');
    } else if '?' in id {
      CutIdDisagrees(path, id, '?');
    } else {
      IndexOfAbsent(id, '#');
      IndexOfAbsent(id, '?');
      PathAgreement(path, id);
    }
  }

  /** The same for the documented form of the URL. */
  lemma DocumentedUrlAgreesIffClean(bucket: string, path: string, id: string)
    requires IsBucket(bucket) && UrlSafe(path) && (path == "" || path[0] == '/')
    requires IsSegment(id) && UrlSafe(id)
    ensures Agree("s3://" + bucket + path, id) <==> CleanPath(path)
  {
    PlainUrlParses(bucket, path);
    BucketIsSafe(bucket);
    SafeConcat("s3://", bucket);
    SafeConcat("s3://" + bucket, path);
    LocationsAgreeIffClean("s3://" + bucket + path, id);
  }

  /** A trailing slash is enough to part the two: the pod writes under "/id", deletion looks under "id". */
  lemma TrailingSlashDisagrees(bucket: string, id: string)
    requires IsBucket(bucket) && IsSegment(id) && UrlSafe(id)
    ensures !Agree("s3://" + bucket + "/", id)
  {
    DocumentedUrlAgreesIffClean(bucket, "/", id);
  }

  /** Different volumes have different deletion targets. */
  lemma DeleteTargetsDiffer(url: string, id: string, other: string)
    requires IsSegment(id) && IsSegment(other) && id != other && ParseS3Location(url).Located?
    ensures DeleteTarget(url, id) != DeleteTarget(url, other)
  {
    var p := ParseS3Location(url).loc.prefix;
    JoinedPrefixShape(p, id);
    JoinedPrefixShape(p, other);
    assert (BasePath(p) + id)[|BasePath(p)|..] == id;
    assert (BasePath(p) + other)[|BasePath(p)|..] == other;
  }

  /** A query or a fragment swallows the volume ID: every volume writes to one place. */
  lemma QuerySwallowsVolume(url: string, id: string, other: string)
    requires '%' !in url && UrlSafe(id) && UrlSafe(other) && ('?' in url || '#' in url)
    requires ParseS3Location(url).Located?
    ensures WriteTarget(url, id) == WriteTarget(url, other) == ParseS3Location(url)
  {
    EmptyUrlIsRefused();
    IndexOfAbsent(id, '#');
    IndexOfAbsent(other, '#');
    RenderedUrlParses(url, id);
    RenderedUrlParses(url, other);
  }

  ghost predicate AgreesForAll(url: string) {
    forall id :: IsSegment(id) && UrlSafe(id) ==> Agree(url, id)
  }

  /** Over all volumes, a URL that deletion accepts is safe exactly when it is plain and clean. */
  lemma UrlIsSafeIffPlain(url: string)
    requires '%' !in url && ParseS3Location(url).Located?
    ensures AgreesForAll(url) <==> '?' !in url && '#' !in url && CleanPath(ParseUrl(url).path)
  {
    var a, b := TwoSegments();
    if '?' in url || '#' in url {
      QuerySwallowsVolume(url, a, b);
      DeleteTargetsDiffer(url, a, b);
      assert !(Agree(url, a) && Agree(url, b));
    } else {
      forall id | IsSegment(id) && UrlSafe(id)
        ensures Agree(url, id) <==> CleanPath(ParseUrl(url).path)
      {
        LocationsAgreeIffClean(url, id);
      }
      assert Agree(url, a) <==> CleanPath(ParseUrl(url).path);
    }
  }

  lemma TwoSegments() returns (a: string, b: string)
    ensures IsSegment(a) && IsSegment(b) && UrlSafe(a) && UrlSafe(b) && a != b
  {
    a, b := "a", "b";
  }

  /** With no storage URL configured the pod writes to the default bucket, and deletion is refused. */
  lemma UnsetUrlNeverDeletes(id: string)
    requires IsSegment(id) && UrlSafe(id)
    ensures DeleteTarget("", id) == Refused
    ensures WriteTarget("", id) == Located(Location("zerofs", id))
  {
    EmptyUrlIsRefused();
    var bucket := "zerofs";
    assert RenderStorageURL("", id) == "s3://" + bucket + ("/" + id);
    SafeConcat("/", id);
    PlainUrlParses(bucket, "/" + id);
    assert TrimPrefix("/" + id, "/") == id;
  }

  // ---- Neighbouring volumes ----

  /** Deletion lists by bare prefix, so it reaches a key of another volume of the same base exactly
      when its own ID begins that volume's ID. */
  lemma SiblingIsReachedIffIdIsPrefix(base: string, id: string, other: string, rest: string)
    requires IsSegment(id) && IsSegment(other)
    ensures JoinS3Prefix(base, id) <= JoinS3Prefix(base, other) + "/" + rest <==> id <= other
  {
    JoinedPrefixShape(base, id);
    KeyUnderBase(base, other, rest);
    PrefixUnderBase(BasePath(base), id, other + "/" + rest);
    PrefixStopsAtSlash(id, other, rest);
  }

  lemma KeyUnderBase(base: string, id: string, rest: string)
    requires IsSegment(id)
    ensures JoinS3Prefix(base, id) + "/" + rest == BasePath(base) + (id + "/" + rest)
  {
    JoinedPrefixShape(base, id);
  }

  lemma PrefixStopsAtSlash(x: string, y: string, rest: string)
    requires '/' !in x
    ensures x <= y + "/" + rest <==> x <= y
  {
    var k := y + "/" + rest;
    assert k[|y|] == '/' && k[..|y|] == y;
    assert |x| <= |y| ==> k[..|x|] == y[..|x|];
    if x <= k {
      assert forall i :: 0 <= i < |x| ==> x[i] == k[i];
    }
  }

  lemma PrefixUnderBase(b: string, x: string, y: string)
    ensures b + x <= b + y <==> x <= y
  {
    assert |x| <= |y| ==> (b + y)[..|b + x|] == b + y[..|x|];
    if b + x <= b + y {
      assert (b + x)[|b|..] == x && (b + y[..|x|])[|b|..] == y[..|x|];
    }
  }

  /** Two ordinary volume IDs of which one reaches the other. */
  lemma SiblingCanBeReached()
    ensures JoinS3Prefix("", "pvc-1") <= JoinS3Prefix("", "pvc-10") + "/" + "wal"
  {
    assert IsSegment("pvc-1") && IsSegment("pvc-10");
    SiblingIsReachedIffIdIsPrefix("", "pvc-1", "pvc-10", "wal");
  }
}
