/** Provider addresses: splitting a URL as Python's `urllib.parse` does, and the one form every accepted
    address is stored in. An address is screened as text first, then split into scheme, authority, path,
    query and fragment; the host must be a host name or a loopback literal, a default port is dropped, and
    the path loses a trailing slash. */
module ProviderUrls {
  import opened Basics
  import opened Results
  import opened Decimals

  /** What is not written here: whether text is an IP address, whether a bracketed host is well formed, and
      whether text looks like a credential. */
  datatype Library = Library(isIp: string -> bool, bracketsOk: string -> bool, secret: string -> bool)

  // --- Text ---

  function LowerChar(c: char): char {
    if 'A' <= c <= 'Z' then c - 'A' + 'a' else c
  }

  function Lower(s: string): (r: string)
    ensures |r| == |s| && forall i :: 0 <= i < |s| ==> r[i] == LowerChar(s[i])
  {
    seq(|s|, i requires 0 <= i < |s| => LowerChar(s[i]))
  }

  /** Where `c` first stands in `s`, or the end of `s`. */
  function Find(s: string, c: char): (i: nat)
    ensures i <= |s| && c !in s[..i]
    ensures i < |s| ==> s[i] == c
    ensures i == |s| <==> c !in s
  {
    if s == "" || s[0] == c then 0 else 1 + Find(s[1..], c)
  }

  /** The text after the first `c`, if there is one. */
  function AfterFirst(s: string, c: char): string {
    if Find(s, c) < |s| then s[Find(s, c) + 1..] else ""
  }

  function SplitOn(s: string, c: char): seq<string> {
    if c in s then [s[..Find(s, c)]] + SplitOn(s[Find(s, c) + 1..], c) else [s]
  }

  predicate EndsWith(s: string, tail: string) {
    |tail| <= |s| && s[|s| - |tail|..] == tail
  }

  predicate HasPair(s: string, c: char) {
    exists i :: 0 <= i < |s| - 1 && s[i] == c && s[i + 1] == c
  }

  function StripRight(s: string, c: char): string {
    if s != "" && s[|s| - 1] == c then StripRight(s[..|s| - 1], c) else s
  }

  predicate IsDigit(c: char) { '0' <= c <= '9' }

  predicate IsLowerAlnum(c: char) { IsDigit(c) || 'a' <= c <= 'z' }

  predicate IsAlpha(c: char) { 'a' <= c <= 'z' || 'A' <= c <= 'Z' }

  // --- Splitting a URL ---

  datatype Parts = Parts(scheme: string, netloc: string, path: string, query: string, fragment: string)

  function DropLeading(s: string): string {
    if s != "" && s[0] <= ' ' then DropLeading(s[1..]) else s
  }

  function DropBreaks(s: string): string {
    if s == "" then ""
    else if s[0] == '\t' || s[0] == '\r' || s[0] == '\n' then DropBreaks(s[1..])
    else [s[0]] + DropBreaks(s[1..])
  }

  predicate IsSchemeChar(c: char) {
    IsAlpha(c) || IsDigit(c) || c == '+' || c == '-' || c == '.'
  }

  /** How much of `s` is its scheme; 0 when it has none. */
  function SchemeLength(s: string): (n: nat)
    ensures n == 0 || (n < |s| && s[n] == ':' && ':' !in s[..n])
  {
    var i := Find(s, ':');
    if 0 < i < |s| && IsAlpha(s[0]) && forall k :: 0 <= k < i ==> IsSchemeChar(s[k]) then i else 0
  }

  function NetlocEnd(s: string): (n: nat)
    ensures n <= |s| && '/' !in s[..n]
    ensures n < |s| ==> s[n] in "/?#"
  {
    Smaller(Find(s, '/'), Smaller(Find(s, '?'), Find(s, '#')))
  }

  predicate BracketsMatch(lib: Library, netloc: string) {
    ('[' in netloc <==> ']' in netloc) && ('[' in netloc ==> lib.bracketsOk(netloc))
  }

  function Cleaned(text: string): string {
    DropBreaks(DropLeading(text))
  }

  function AfterScheme(s: string): string {
    if SchemeLength(s) == 0 then s else s[SchemeLength(s) + 1..]
  }

  predicate HasNetloc(rest: string) {
    |rest| >= 2 && rest[0] == '/' && rest[1] == '/'
  }

  function NetlocOf(rest: string): string {
    if HasNetloc(rest) then rest[2..][..NetlocEnd(rest[2..])] else ""
  }

  function TailOf(rest: string): string {
    if HasNetloc(rest) then rest[2..][NetlocEnd(rest[2..])..] else rest
  }

  /** The text up to the first `c`. */
  function UpTo(s: string, c: char): string {
    s[..Find(s, c)]
  }

  /** Python's `urlsplit`; None is its `ValueError`. */
  function SplitUrl(lib: Library, text: string): Option<Parts> {
    var s := Cleaned(text);
    var rest := AfterScheme(s);
    var tail := TailOf(rest);
    if !BracketsMatch(lib, NetlocOf(rest)) then None else
      Some(Parts(Lower(s[..SchemeLength(s)]), NetlocOf(rest), UpTo(UpTo(tail, '#'), '?'),
                 AfterFirst(UpTo(tail, '#'), '?'), AfterFirst(tail, '#')))
  }

  // --- Host and port ---

  function HostText(netloc: string): string {
    if '[' in netloc then
      UpTo(AfterFirst(netloc, '['), ']')
    else UpTo(netloc, ':')
  }

  function PortText(netloc: string): string {
    if '[' in netloc then AfterFirst(AfterFirst(AfterFirst(netloc, '['), ']'), ':') else AfterFirst(netloc, ':')
  }

  /** The host name in lower case, but for the zone of an IPv6 address. */
  function HostOf(netloc: string): string {
    var host := HostText(netloc);
    Lower(UpTo(host, '%')) + host[Find(host, '%')..]
  }

  predicate AllDigits(s: string) {
    forall c <- s :: IsDigit(c)
  }

  predicate PortReads(text: string) {
    text == "" || (AllDigits(text) && 0 <= ReadDecimal(text) <= 65_535)
  }

  function PortOf(text: string): Option<nat>
    requires PortReads(text)
  {
    if text == "" then None else Some(ReadDecimal(text))
  }

  predicate IsLabel(s: string) {
    && 1 <= |s| <= 63
    && IsLowerAlnum(s[0]) && IsLowerAlnum(s[|s| - 1])
    && forall c <- s :: IsLowerAlnum(c) || c == '-'
  }

  predicate IsHostName(s: string) {
    1 <= |s| <= 253 && forall part <- SplitOn(s, '.') :: IsLabel(part)
  }

  predicate IsLoopback(host: string) {
    host == "127.0.0.1" || host == "::1"
  }

  predicate IsLocalhost(host: string) {
    host == "localhost" || EndsWith(host, ".localhost")
  }

  // --- The stored form ---

  datatype Address = Address(scheme: string, host: string, port: Option<nat>, path: string) {
    predicate Local() {
      IsLoopback(host)
    }

    function Netloc(): string {
      (if ':' in host then "[" + host + "]" else host) + (if port.Some? then ":" + Decimal(port.value) else "")
    }

    function Render(): string {
      scheme + "://" + Netloc() + path
    }

    /** The port the address is served on. */
    function Served(): nat {
      if port.Some? then port.value else DefaultPort(scheme)
    }
  }

  function DefaultPort(scheme: string): nat {
    if scheme == "http" then 80 else 443
  }

  predicate PlainChar(c: char) {
    '!' <= c <= '~' && c != '\\' && c != '?' && c != '#'
  }

  const MAX_ADDRESS := 2_048

  /** What is asked of the text of an address before it is split. */
  predicate Screened(lib: Library, raw: string) {
    raw != "" && |raw| <= MAX_ADDRESS && (forall c <- raw :: PlainChar(c)) && !lib.secret(raw)
  }

  predicate PathAllowed(path: string) {
    '%' !in path && !HasPair(path, '/') && "." !in SplitOn(path, '/') && ".." !in SplitOn(path, '/')
  }

  predicate HostAllowed(lib: Library, scheme: string, netloc: string) {
    var host := HostOf(netloc);
    && host != ""
    && (IsHostName(host) || lib.isIp(host))
    && !IsLocalhost(Lower(host))
    && (lib.isIp(Lower(host)) ==> IsLoopback(Lower(host)))
    && (IsLoopback(Lower(host)) || scheme == "https")
  }

  /** Python's `normalize_provider_origin`, before the result is rendered. */
  function Normalized(lib: Library, raw: string): Option<Address> {
    if !Screened(lib, raw) || SplitUrl(lib, raw).None? then None else
      var parts := SplitUrl(lib, raw).value;
      if (parts.scheme != "http" && parts.scheme != "https") || parts.netloc == "" || EndsWith(parts.netloc, ":")
         || '@' in parts.netloc || parts.query != "" || parts.fragment != ""
         || !PortReads(PortText(parts.netloc)) || !HostAllowed(lib, parts.scheme, parts.netloc)
      then None else
        var port := PortOf(PortText(parts.netloc));
        if port == Some(0) || !PathAllowed(parts.path) then None else
          Some(Address(
                 parts.scheme, Lower(HostOf(parts.netloc)),
                 if port == Some(DefaultPort(parts.scheme)) then None else port,
                 StripRight(parts.path, '/')))
  }
}
