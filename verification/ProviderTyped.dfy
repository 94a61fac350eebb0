/** What an operator may leave out of an address: the scheme, and for this machine its number. Without a scheme an
    address is completed to https, or to http where it names this machine, so the stored form of a remote https
    address and of a local http address may be typed without it. The name `localhost`, in any letters, stands for
    this machine's number, and keeps its port and path. The answers are addresses, so that both ways of completing
    what was typed are told without the functions that do it. */
module ProviderTyped {
  import opened Decimals
  import opened Results
  import opened ProviderUrls
  import opened ProviderNormal
  import opened ProviderPolicy
  import opened ProviderRegistry

  /** What stands before the path may have no slash in it. */
  lemma TypedAuthority(netloc: string, path: string)
    requires '/' !in netloc && (path == "" || path[0] == '/')
    ensures UpTo(netloc + path, '/') == netloc
  {
    assert (netloc + path)[..|netloc|] == netloc;
    FindIs(netloc + path, '/', |netloc|);
  }

  lemma SchemePair(text: string)
    requires Contains(text, "://")
    ensures HasPair(text, '/')
  {
    var i: nat :| i <= |text| && StartsWith(text[i..], "://");
    assert text[i..][..3][1] == text[i + 1] && text[i..][..3][2] == text[i + 2];
  }

  lemma PairInPath(netloc: string, path: string)
    requires '/' !in netloc && HasPair(netloc + path, '/')
    ensures HasPair(path, '/')
  {
    var text := netloc + path;
    var i :| 0 <= i < |text| - 1 && text[i] == '/' && text[i + 1] == '/';
    assert forall k :: 0 <= k < |netloc| ==> text[k] == netloc[k];
    assert path[i - |netloc|] == '/' && path[i - |netloc| + 1] == '/';
  }

  lemma NoSchemeIn(netloc: string, path: string)
    requires '/' !in netloc && !HasPair(path, '/')
    ensures !Contains(netloc + path, "://")
  {
    hide HasPair;
    if Contains(netloc + path, "://") {
      SchemePair(netloc + path);
      PairInPath(netloc, path);
    }
  }

  ghost predicate Names(authority: string, name: string) {
    authority == name || StartsWith(authority, name + ":")
  }

  lemma NamedHost(host: string, port: Option<nat>, name: string)
    requires ':' !in host && ':' !in name && Names(host + PortSuffix(port), name)
    ensures host == name
  {
    hide Decimal;
    var text := host + PortSuffix(port);
    assert port.Some? ==> text[|host|] == ':';
    if StartsWith(text, name + ":") {
      assert text[..|name|] == (name + ":")[..|name|] == name && text[|name|] == (name + ":")[|name|];
      FindIs(text, ':', |name|);
      FindIs(text, ':', |host|);
    }
  }

  lemma HostNamed(host: string, port: Option<nat>)
    ensures Names(host + PortSuffix(port), host)
  {
    hide Decimal;
    var text := host + PortSuffix(port);
    assert port.Some? ==> text[..|host| + 1] == host + ":";
  }

  /** An authority without brackets that is a name, or a name and a colon and more, has that host. */
  lemma NamesAuthority(host: string, port: Option<nat>, name: string)
    requires ':' !in host && ':' !in name
    ensures Names(host + PortSuffix(port), name) <==> host == name
  {
    hide Names;
    HostNamed(host, port);
    if Names(host + PortSuffix(port), name) {
      NamedHost(host, port, name);
    }
  }

  lemma LowerAuthority(lib: Library, a: Address)
    requires HostStored(lib, a.scheme, a.host)
    ensures Lower(a.Netloc()) == a.Netloc()
  {
    hide Decimal, HostStored, QuietHost;
    StoredHostQuiet(lib, a.scheme, a.host);
    SuffixFacts(a.port);
    assert forall i :: 0 <= i < |a.host| ==> LowerChar(a.host[i]) == Lower(a.host)[i];
    LowerKeeps(a.Netloc());
  }

  /** The authority says that this machine is meant exactly when it is. */
  lemma LocalAuthority(lib: Library, a: Address)
    requires HostStored(lib, a.scheme, a.host)
    ensures SaysLoopback(a.Netloc()) <==> a.Local()
  {
    hide Decimal, IsHostName, QuietHost;
    StoredHostQuiet(lib, a.scheme, a.host);
    if a.host == "::1" {
      assert a.Netloc()[..5] == "[::1]";
    } else {
      assert a.Netloc() == a.host + PortSuffix(a.port);
      NamesAuthority(a.host, a.port, "127.0.0.1");
      NamesAuthority(a.host, a.port, "localhost");
      assert "127.0.0.1" + ":" == "127.0.0.1:" && "localhost" + ":" == "localhost:";
      NotBracketed(lib, a);
    }
  }

  lemma NotBracketed(lib: Library, a: Address)
    requires HostStored(lib, a.scheme, a.host) && a.host != "::1"
    ensures !StartsWith(a.Netloc(), "[::1]")
  {
    hide Decimal, HostStored;
    StoredHostQuiet(lib, a.scheme, a.host);
    assert a.Netloc()[0] == a.host[0] && a.host[0] in a.host;
  }

  /** An address typed without its scheme gets http for this machine and https for any other. */
  lemma SchemeCompleted(lib: Library, a: Address)
    requires Addressed(lib, a)
    ensures WithScheme(a.Netloc() + a.path) == (if a.Local() then "http" else "https") + "://" + a.Netloc() + a.path
  {
    hide HostStored, Address.Netloc, Address.Local, SaysLoopback, Lower, Contains, UpTo, HasPair;
    NetlocReadsBack(lib, a);
    NoSchemeIn(a.Netloc(), a.path);
    TypedAuthority(a.Netloc(), a.path);
    LowerAuthority(lib, a);
    LocalAuthority(lib, a);
  }

  lemma SameUrlTyped(lib: Library, text: string, other: string)
    requires Plain(text) && Plain(other) && text != "" && other != ""
    requires |text| <= MAX_ADDRESS && |other| <= MAX_ADDRESS && WithScheme(text) == WithScheme(other)
    ensures OperatorUrl(lib, text) == OperatorUrl(lib, other)
  {
    hide Plain, StripBack, StripFront, WithScheme, SplitUrl, HostOf, AfterLast;
    PlainStrip(text);
    PlainStrip(other);
  }

  lemma JoinPlain(s: string, t: string)
    requires Plain(s) && Plain(t)
    ensures Plain(s + t)
  {}

  lemma TypedPlain(lib: Library, a: Address)
    requires Sane(lib) && Addressed(lib, a)
    ensures Plain(a.Netloc() + a.path) && Plain(a.Render()) && a.Netloc() != ""
  {
    hide Sane, HostStored, Address.Netloc, ReadsBack, PathAllowed, SplitUrl;
    RenderSplits(lib, a);
    NetlocReadsBack(lib, a);
    JoinPlain(a.Netloc(), a.path);
  }

  /** An address typed without the scheme that is meant is the address typed in full. */
  lemma UnschemedTyped(lib: Library, a: Address)
    requires Sane(lib) && Addressed(lib, a) && |a.Render()| <= MAX_ADDRESS
    requires a.scheme == if a.Local() then "http" else "https"
    ensures OperatorUrl(lib, a.Netloc() + a.path) == Some(a.Render())
  {
    hide Sane, Addressed, Address.Netloc, Address.Local, OperatorUrl, WithScheme, Plain;
    TypedPlain(lib, a);
    SchemeCompleted(lib, a);
    HasScheme(a.scheme, a.Netloc() + a.path);
    assert a.scheme + "://" + (a.Netloc() + a.path) == a.Render();
    SameUrlTyped(lib, a.Netloc() + a.path, a.Render());
    StoredTyped(lib, a);
  }

  /** What becomes of a stored address when it is typed: the approval is for that very address, unless its text looks
      like a credential or it is served by this machine on a refused port. */
  function Answer(cfg: Config, a: Address): Option<Address> {
    if cfg.lib.secret(a.Render()) || (a.Local() && a.Served() in cfg.refused) then None else Some(a)
  }

  /** Leaving out `https://` before a remote host, or `http://` before this machine's number, changes nothing. */
  lemma TypedWithoutScheme(cfg: Config, a: Address)
    requires Sane(cfg.lib) && Canonical(cfg.lib, a) && |a.Render()| <= MAX_ADDRESS
    requires a.scheme == if a.Local() then "http" else "https"
    ensures Admitted(cfg, a.Netloc() + a.path) == Admitted(cfg, a.Render()) == Answer(cfg, a)
  {
    hide Sane, Canonical, Addressed, Address.Netloc, Address.Render, Address.Local, OperatorUrl, Normalized;
    CanonicalAddressed(cfg.lib, a);
    UnschemedTyped(cfg.lib, a);
    StoredTyped(cfg.lib, a);
    CanonicalIsFixed(cfg.lib, a);
  }

  // --- localhost ---

  /** However its letters are typed. */
  ghost predicate IsLocalName(name: string) {
    Lower(name) == "localhost"
  }

  lemma LocalNameQuiet(name: string)
    requires IsLocalName(name)
    ensures QuietHost(name) && name != "" && ':' !in name && Plain(name)
  {
    forall c | c in name
      ensures PlainChar(c) && c != '/' && c != '@' && c != '=' && c != '[' && c != ']' && c != '%' && c != ':'
    {
      var i :| 0 <= i < |name| && name[i] == c;
      assert Lower(name)[i] == LowerChar(c);
      assert forall d <- "localhost" :: 'a' <= d <= 'z';
      assert Lower(name)[i] in "localhost";
    }
    assert |Lower(name)| == |name|;
  }

  lemma LowerParts(s: string, t: string)
    ensures Lower(s + t) == Lower(s) + Lower(t)
  {}

  lemma SuffixQuiet(port: Option<nat>)
    ensures Lower(PortSuffix(port)) == PortSuffix(port) && Plain(PortSuffix(port))
    ensures '/' !in PortSuffix(port) && '@' !in PortSuffix(port) && '[' !in PortSuffix(port) && ']' !in PortSuffix(port)
  {
    hide PortSuffix;
    SuffixFacts(port);
    LowerKeeps(PortSuffix(port));
  }

  lemma {:induction false} CountNone(s: string, c: char)
    requires c !in s
    ensures Count(s, c) == 0
  {
    if s != "" {
      assert forall d <- s[1..] :: d in s;
      assert s[0] in s;
      CountNone(s[1..], c);
    }
  }

  lemma {:induction false} CountParts(s: string, t: string, c: char)
    ensures Count(s + t, c) == Count(s, c) + Count(t, c)
  {
    if s == "" {
      assert s + t == t;
    } else {
      assert (s + t)[1..] == s[1..] + t;
      CountParts(s[1..], t, c);
    }
  }

  lemma CountColons(name: string, port: Option<nat>)
    requires ':' !in name
    ensures Count(name + PortSuffix(port), ':') == if port.Some? then 1 else 0
  {
    hide Decimal;
    CountNone(name, ':');
    CountParts(name, PortSuffix(port), ':');
    if port.Some? {
      DecimalDigits(port.value);
      CountNone(Decimal(port.value), ':');
      assert PortSuffix(port)[1..] == Decimal(port.value);
    }
  }

  lemma LocalNameHost(name: string, port: Option<nat>)
    requires IsLocalName(name)
    ensures HostOf(AfterLast(name + PortSuffix(port), '@')) == "localhost"
    ensures AfterFirst(name + PortSuffix(port), ':') == AfterFirst(PortSuffix(port), ':')
  {
    hide Lower, QuietHost, PortSuffix, Plain;
    LocalNameQuiet(name);
    SuffixQuiet(port);
    SuffixNoBracket(port);
    BareAuthority(name, port);
    BracketFree(name, port);
    assert UpTo(name, '%') == name by { assert '%' !in name by { NoPercent(name); } }
  }

  lemma NoPercent(name: string)
    requires QuietHost(name)
    ensures '%' !in name && '@' !in name && '[' !in name && ']' !in name && '/' !in name
  {
    hide PlainChar;
  }

  lemma BracketFree(name: string, port: Option<nat>)
    requires QuietHost(name)
    ensures var netloc := name + PortSuffix(port);
            '[' !in netloc && ']' !in netloc && '/' !in netloc && '@' !in netloc
  {
    hide PortSuffix, QuietHost;
    NoPercent(name);
    SuffixQuiet(port);
  }

  /** The address that `localhost` stands for, with the port as it was typed. */
  function ThisMachine(port: Option<nat>, path: string): Address {
    Address("http", "127.0.0.1", port, path)
  }

  lemma ThisMachineAddressed(lib: Library, port: Option<nat>, path: string)
    requires PathStored(path) && (port.Some? ==> 1 <= port.value <= 65_535)
    ensures Addressed(lib, ThisMachine(port, path)) && ThisMachine(port, path).Local()
  {
    hide IsHostName, PathStored, IsLocalhost;
    LoopbackIsHostName();
    LoopbackNotLocalhost();
  }

  lemma LocalNameSplits(lib: Library, name: string, port: Option<nat>, path: string)
    requires IsLocalName(name) && PathStored(path)
    ensures var netloc := name + PortSuffix(port);
            && Plain(netloc + path) && Plain("http://" + netloc + path) && netloc != ""
            && SplitUrl(lib, "http://" + netloc + path) == Some(Parts("http", netloc, path, "", ""))
  {
    hide Lower, QuietHost, PortSuffix, Plain, SplitUrl, PathAllowed;
    LocalNameQuiet(name);
    SuffixQuiet(port);
    JoinPlain(name, PortSuffix(port));
    JoinPlain(name + PortSuffix(port), path);
    BracketFree(name, port);
    WebSchemes("http");
    JoinSplits(lib, "http", name + PortSuffix(port), path);
    assert "http" + "://" + (name + PortSuffix(port)) + path == "http://" + (name + PortSuffix(port)) + path;
  }

  lemma LocalhostSays(port: Option<nat>)
    ensures SaysLoopback("localhost" + PortSuffix(port))
  {
    hide PortSuffix;
    HostNamed("localhost", port);
    assert "localhost" + ":" == "localhost:";
  }

  lemma LocalAuthorityText(name: string, port: Option<nat>, path: string)
    requires IsLocalName(name) && PathStored(path)
    ensures var text := name + PortSuffix(port) + path;
            !Contains(text, "://") && Lower(UpTo(text, '/')) == "localhost" + PortSuffix(port)
  {
    hide Lower, QuietHost, PortSuffix, Plain, PlainChar, Contains, HasPair, UpTo;
    var netloc := name + PortSuffix(port);
    LocalNameQuiet(name);
    BracketFree(name, port);
    NoSchemeIn(netloc, path);
    TypedAuthority(netloc, path);
    LowerParts(name, PortSuffix(port));
    SuffixQuiet(port);
  }

  lemma LocalNameCompleted(name: string, port: Option<nat>, path: string)
    requires IsLocalName(name) && PathStored(path)
    ensures WithScheme(name + PortSuffix(port) + path) == "http://" + (name + PortSuffix(port)) + path
  {
    hide Lower, IsLocalName, PathStored, PortSuffix, Contains, UpTo, SaysLoopback;
    LocalAuthorityText(name, port, path);
    LocalhostSays(port);
    assert "http" + "://" + (name + PortSuffix(port) + path) == "http://" + (name + PortSuffix(port)) + path;
  }

  lemma TypedPort(name: string, port: Option<nat>)
    requires IsLocalName(name)
    ensures var netloc := name + PortSuffix(port);
            var typed := if Count(netloc, ':') == 1 then AfterFirst(netloc, ':') else "";
            (if typed == "" then "" else ":" + typed) == PortSuffix(port)
  {
    hide IsLocalName, QuietHost, Plain, Decimal, AfterFirst, Count, HostOf, AfterLast;
    LocalNameQuiet(name);
    LocalNameHost(name, port);
    CountColons(name, port);
    SuffixFacts(port);
    if port.Some? {
      DecimalDigits(port.value);
    }
  }

  lemma MachineNetloc(port: Option<nat>, path: string)
    ensures ThisMachine(port, path).Netloc() == "127.0.0.1" + PortSuffix(port)
  {
    hide Decimal;
    assert ':' !in "127.0.0.1";
  }

  lemma Unsplitting(netloc: string, path: string)
    requires path == "" || path[0] == '/'
    ensures Unsplit(Parts("http", netloc, path, "", "")) == "http" + "://" + netloc + path
  {
    assert "http:" + "//" == "http" + "://";
    assert Unsplit(Parts("http", netloc, path, "", "")) == "http:" + "//" + netloc + path + "" + "";
  }

  lemma MachineRendered(port: Option<nat>, path: string)
    requires path == "" || path[0] == '/'
    ensures ThisMachine(port, path).Render() == "http" + "://" + ("127.0.0.1" + PortSuffix(port)) + path
    ensures Unsplit(Parts("http", "127.0.0.1" + PortSuffix(port), path, "", "")) == ThisMachine(port, path).Render()
  {
    hide PortSuffix, Unsplit, Address.Netloc;
    MachineNetloc(port, path);
    Unsplitting("127.0.0.1" + PortSuffix(port), path);
  }

  /** `localhost`, whatever follows it, is completed to this machine's number. */
  lemma LocalNameTyped(lib: Library, name: string, port: Option<nat>, path: string, text: string)
    requires IsLocalName(name) && PathStored(path) && |ThisMachine(port, path).Render()| <= MAX_ADDRESS
    requires text == name + PortSuffix(port) + path || text == "http://" + (name + PortSuffix(port)) + path
    ensures OperatorUrl(lib, text) == Some(ThisMachine(port, path).Render())
  {
    hide IsLocalName, PortSuffix, Plain, SplitUrl, PathAllowed, WithScheme, Unsplit, HostOf, AfterLast, Count;
    hide AfterFirst;
    hide ThisMachine, Address.Render;
    LocalNameLength(name);
    LocalNameSplits(lib, name, port, path);
    LocalNameCompleted(name, port, path);
    HasScheme("http", name + PortSuffix(port) + path);
    assert "http" + "://" + (name + PortSuffix(port) + path) == "http://" + (name + PortSuffix(port)) + path;
    LocalNameHost(name, port);
    TypedPort(name, port);
    MachineRendered(port, path);
    PlainStrip(text);
  }

  lemma LocalNameLength(name: string)
    requires IsLocalName(name)
    ensures |name| == |"127.0.0.1"|
  {
    assert |Lower(name)| == |"localhost"|;
  }

  /** Typing `localhost`, with or without `http://`, a port and a path, is answered with this machine's address, on
      that port and path. */
  lemma LocalhostTyped(cfg: Config, name: string, port: Option<nat>, path: string, text: string)
    requires Sane(cfg.lib) && IsLocalName(name) && PathStored(path)
    requires port.Some? ==> 1 <= port.value <= 65_535
    requires text == name + PortSuffix(port) + path || text == "http://" + (name + PortSuffix(port)) + path
    requires |ThisMachine(port, path).Render()| <= MAX_ADDRESS
    ensures Admitted(cfg, text) ==
            if cfg.lib.secret(ThisMachine(port, path).Render()) then None
            else if port.Some? && port.value != 80 then
              (if port.value in cfg.refused then None else Some(Address("http", "127.0.0.1", port, path)))
            else if 80 in cfg.refused then None else Some(Address("http", "127.0.0.1", None, path))
  {
    hide Sane, IsLocalName, PathStored, OperatorUrl, Normalized, Addressed, Address.Render, PortSuffix;
    LocalNameTyped(cfg.lib, name, port, path, text);
    ThisMachineAddressed(cfg.lib, port, path);
    DefaultPortDropped(cfg.lib, ThisMachine(port, path));
    assert ThisMachine(port, path).(port := None) == Address("http", "127.0.0.1", None, path);
  }
}
