/** The live provider registry: it starts from a policy and only grows, one approved address at a time.
    `LiveRegistry` is the object; what one call makes of it is the function `Approved`, about which
    everything else is proved: what a call keeps, what any run of calls keeps, that an address has one
    approval however often and however it is typed, and which addresses the guard on the server's own
    ports really looks at. */
module ProviderRegistry {
  import opened Basics
  import Decimals
  import opened Orders
  import opened Results
  import opened ProviderUrls
  import opened ProviderNormal
  import opened ProviderPolicy
  import opened ProviderPrinted

  const MAX_ORIGINS := 20

  // --- What an operator typed ---

  function StripFront(s: string): string {
    if s != "" && IsSpace(s[0]) then StripFront(s[1..]) else s
  }

  function StripBack(s: string): string {
    if s != "" && IsSpace(s[|s| - 1]) then StripBack(s[..|s| - 1]) else s
  }

  predicate StartsWith(s: string, head: string) {
    |head| <= |s| && s[..|head|] == head
  }

  predicate Contains(s: string, part: string) {
    exists i: nat :: i <= |s| && StartsWith(s[i..], part)
  }

  predicate SaysLoopback(authority: string) {
    || StartsWith(authority, "[::1]")
    || authority == "127.0.0.1" || StartsWith(authority, "127.0.0.1:")
    || authority == "localhost" || StartsWith(authority, "localhost:")
  }

  /** What is typed without a scheme is taken for https, and for http where it names this machine. */
  function WithScheme(text: string): string {
    if Contains(text, "://") then text
    else (if SaysLoopback(Lower(UpTo(text, '/'))) then "http" else "https") + "://" + text
  }

  /** The text after the last `c`, or all of it. */
  function AfterLast(s: string, c: char): string {
    if c in s then AfterLast(AfterFirst(s, c), c) else s
  }

  function Count(s: string, c: char): nat {
    if s == "" then 0 else (if s[0] == c then 1 else 0) + Count(s[1..], c)
  }

  /** Python's `urlunsplit`, for parts with an authority. */
  function Unsplit(p: Parts): string {
    var path := if p.path != "" && p.path[0] != '/' then "/" + p.path else p.path;
    (if p.scheme == "" then "" else p.scheme + ":") + "//" + p.netloc + path
    + (if p.query == "" then "" else "?" + p.query) + (if p.fragment == "" then "" else "#" + p.fragment)
  }

  /** Python's `_operator_url`: the alias `localhost` becomes 127.0.0.1. */
  function OperatorUrl(lib: Library, raw: string): Option<string> {
    var text := StripBack(StripFront(raw));
    if text == "" || |text| > MAX_ADDRESS || exists c <- text :: c > '\U{007F}' then None else
      var url := WithScheme(text);
      var parts := SplitUrl(lib, url);
      if parts.None? then None
      else if HostOf(AfterLast(parts.value.netloc, '@')) != "localhost" then Some(url)
      else
        var netloc := parts.value.netloc;
        var port := if Count(netloc, ':') == 1 then AfterFirst(netloc, ':') else "";
        Some(Unsplit(parts.value.(netloc := "127.0.0.1" + if port == "" then "" else ":" + port)))
  }

  // --- The registry ---

  /** `derive` names an approval after its address; `refused` are the server's own ports. */
  datatype Config = Config(lib: Library, derive: (string, bool) -> string, refused: set<nat>)

  datatype Registry = Registry(origins: seq<string>, keys: seq<string>, policy: Policy)

  /** The first approval of the list with this address. */
  function WithUrl(origins: seq<Approval>, url: string): Option<Approval> {
    if origins == [] then None else if origins[0].url == url then Some(origins[0]) else WithUrl(origins[1..], url)
  }

  function WithId(origins: seq<Approval>, id: string): Option<Approval> {
    if origins == [] then None else if origins[0].id == id then Some(origins[0]) else WithId(origins[1..], id)
  }

  /** The port the registry compares with the server's own. */
  function GuardedPort(a: Address): nat {
    if a.port.Some? then a.port.value else 80
  }

  /** The address an operator's text stands for, when it may be approved at all. */
  function Admitted(cfg: Config, raw: string): Option<Address> {
    var typed := OperatorUrl(cfg.lib, raw);
    if typed.None? then None else
      var a := Normalized(cfg.lib, typed.value);
      if a.None? || (a.value.Local() && GuardedPort(a.value) in cfg.refused) then None else a
  }

  /** What adding one address makes of the registry, or None when it is refused. */
  ghost function Added(cfg: Config, r: Registry, a: Address): Option<Registry> {
    var id := cfg.derive(a.Render(), a.Local());
    var origins := r.origins + [id + "=" + a.Render()];
    if |r.policy.origins| >= MAX_ORIGINS || WithId(r.policy.origins, id).Some? then None else
      var policy := PolicyOf(cfg.lib, origins, r.keys);
      if policy.None? then None else Some(Registry(origins, r.keys, policy.value))
  }

  /** Python's `approve`: the approval, or None when it raises, and the registry afterwards. */
  ghost function Approved(cfg: Config, r: Registry, raw: string): (Option<Approval>, Registry) {
    var a := Admitted(cfg, raw);
    if a.None? then (None, r) else
      var url := a.value.Render();
      var known := WithUrl(r.policy.origins, url);
      if known.Some? then (known, r) else
        var added := Added(cfg, r, a.value);
        if added.None? then (None, r)
        else (WithId(added.value.policy.origins, cfg.derive(url, a.value.Local())), added.value)
  }

  ghost predicate Sound(cfg: Config, r: Registry) {
    PolicyOf(cfg.lib, r.origins, r.keys) == Some(r.policy)
  }

  class LiveRegistry {
    const cfg: Config
    var origins: seq<string>
    var keys: seq<string>
    var policy: Policy

    ghost function State(): Registry reads this {
      Registry(origins, keys, policy)
    }

    ghost predicate Valid() reads this {
      Sound(cfg, State())
    }

    constructor (cfg: Config, origins: seq<string>, keys: seq<string>, policy: Policy)
      requires PolicyOf(cfg.lib, origins, keys) == Some(policy)
      ensures Valid() && this.cfg == cfg && State() == Registry(origins, keys, policy)
    {
      this.cfg, this.origins, this.keys, this.policy := cfg, origins, keys, policy;
    }

    method Approve(raw: string) returns (approval: Option<Approval>)
      requires Valid()
      modifies this
      ensures Valid()
      ensures (approval, State()) == Approved(cfg, old(State()), raw)
    {
      hide PolicyOf, Admitted;
      var a := Admitted(cfg, raw);
      if a.None? {
        return None;
      }
      var url := a.value.Render();
      approval := WithUrl(policy.origins, url);
      if approval.Some? || |policy.origins| >= MAX_ORIGINS {
        return;
      }
      var id := cfg.derive(url, a.value.Local());
      if WithId(policy.origins, id).Some? {
        return None;
      }
      var bindings := origins + [id + "=" + url];
      var built := BuildPolicy(cfg.lib, bindings, keys);
      if built.None? {
        return None;
      }
      origins, policy := bindings, built.value;
      approval := WithId(policy.origins, id);
    }
  }

  /** Starting a registry raises when the bindings make no policy. */
  method Start(cfg: Config, origins: seq<string>, keys: seq<string>) returns (r: Option<LiveRegistry>)
    ensures r.Some? <==> PolicyOf(cfg.lib, origins, keys).Some?
    ensures r.Some? ==> fresh(r.value) && r.value.Valid() && r.value.cfg == cfg
                        && r.value.origins == origins && r.value.keys == keys
  {
    var policy := BuildPolicy(cfg.lib, origins, keys);
    if policy.None? {
      return None;
    }
    var registry := new LiveRegistry(cfg, origins, keys, policy.value);
    r := Some(registry);
  }

  // --- What approving keeps ---

  lemma {:induction false} WithIdFinds(xs: seq<Approval>, x: Approval)
    requires DistinctIds(xs) && x in xs
    ensures WithId(xs, x.id) == Some(x)
  {
    if xs[0] != x {
      var i :| 0 <= i < |xs| && xs[i] == x;
      assert xs[1..][i - 1] == x;
      assert xs[0].id != x.id;
      WithIdFinds(xs[1..], x);
    }
  }

  ghost predicate ById(xs: seq<Approval>) {
    forall i, j :: 0 <= i < j < |xs| ==> TextLeq(xs[i].id, xs[j].id)
  }

  /** The approval with the least id among those with this address. */
  ghost predicate LeastWithUrl(xs: seq<Approval>, url: string, x: Approval) {
    x in xs && x.url == url && forall y <- xs :: y.url == url ==> TextLeq(x.id, y.id)
  }

  lemma {:induction false} WithUrlLeast(xs: seq<Approval>, url: string)
    requires ById(xs)
    ensures WithUrl(xs, url).Some? ==> LeastWithUrl(xs, url, WithUrl(xs, url).value)
    ensures WithUrl(xs, url).None? ==> forall x <- xs :: x.url != url
  {
    if xs != [] {
      var rest := xs[1..];
      assert forall x <- xs :: x == xs[0] || x in rest;
      if xs[0].url == url {
        TextLeqTotal(xs[0].id, xs[0].id);
        forall y <- rest ensures TextLeq(xs[0].id, y.id) {
          var i :| 0 <= i < |rest| && rest[i] == y;
          assert xs[i + 1] == y;
        }
      } else {
        WithUrlLeast(rest, url);
      }
    }
  }

  lemma OriginsById(m: map<string, Approval>)
    requires forall id <- m :: m[id].id == id
    ensures ById(Origins(m))
  {
    hide Sorted, TextLeq, Distinct;
    var ids := SortedIds(m);
    SortedIdsFacts(m);
    assert forall i :: 0 <= i < |ids| ==> ids[i] in ids;
  }

  /** Adding an approval of another address does not change which approval an address has. */
  lemma AddKeepsUrl(m: map<string, Approval>, x: Approval, url: string)
    requires (forall id <- m :: m[id].id == id) && x.id !in m && x.url != url
    requires WithUrl(Origins(m), url).Some?
    ensures WithUrl(Origins(m[x.id := x]), url) == WithUrl(Origins(m), url)
  {
    hide Origins, TextLeq, DistinctIds, ById;
    var m' := m[x.id := x];
    OriginsById(m);
    OriginsById(m');
    OriginsFacts(m);
    OriginsFacts(m');
    WithUrlLeast(Origins(m), url);
    WithUrlLeast(Origins(m'), url);
    var was := WithUrl(Origins(m), url).value;
    assert m'[was.id] == was;
    assert was in Origins(m');
    var now := WithUrl(Origins(m'), url).value;
    assert now in Origins(m);
    TextLeqTotal(was.id, now.id);
  }

  lemma OneEquals(id: string, url: string)
    requires '=' !in AfterFirst(id + "=" + url, '=')
    ensures '=' !in id && '=' !in url && UpTo(id + "=" + url, '=') == id && AfterFirst(id + "=" + url, '=') == url
  {
    var raw := id + "=" + url;
    if '=' in id {
      FindIs(raw, '=', Find(id, '='));
      AfterHas(raw, '=', |id|);
    } else {
      AfterFirstOf(id, '=', url);
    }
  }

  lemma {:induction false} KeysMonotone(lib: Library, m: map<string, Approval>, m': map<string, Approval>,
                                        raws: seq<string>)
    requires Keys(lib, m, raws).Some? && forall id <- m :: id in m' && m'[id] == m[id]
    ensures Keys(lib, m', raws) == Keys(lib, m, raws)
  {
    hide SplitBinding;
    if raws != [] {
      KeysMonotone(lib, m, m', raws[..|raws| - 1]);
    }
  }

  /** An addition adds exactly one approval, of the given address, under a new id. */
  lemma AddedFacts(cfg: Config, r: Registry, a: Address)
    requires Sane(cfg.lib) && Sound(cfg, r) && Canonical(cfg.lib, a) && |a.Render()| <= MAX_ADDRESS
             && Added(cfg, r, a).Some?
    ensures var m, id := Approvals(cfg.lib, r.origins).value, cfg.derive(a.Render(), a.Local());
            var r' := Added(cfg, r, a).value;
            id !in m && Sound(cfg, r') && r'.policy.keys == r.policy.keys
            && Stored(cfg.lib, m[id := ApprovalOf(id, a)])
            && r'.policy.origins == Origins(m[id := ApprovalOf(id, a)])
  {
    hide Sane, Canonical, Normalized, IsPortable, Keys, Origins, KeyBindings, UpTo, AfterFirst, WithId, Find;
    var m, id := Approvals(cfg.lib, r.origins).value, cfg.derive(a.Render(), a.Local());
    var raw := id + "=" + a.Render();
    var origins := r.origins + [raw];
    assert origins[..|origins| - 1] == r.origins;
    ApprovalsStored(cfg.lib, r.origins);
    ApprovalsStored(cfg.lib, origins);
    OneEquals(id, a.Render());
    CanonicalIsFixed(cfg.lib, a);
    KeysMonotone(cfg.lib, m, m[id := ApprovalOf(id, a)], r.keys);
  }

  lemma AdmittedStored(cfg: Config, raw: string)
    requires Sane(cfg.lib) && Admitted(cfg, raw).Some?
    ensures Canonical(cfg.lib, Admitted(cfg, raw).value) && |Admitted(cfg, raw).value.Render()| <= MAX_ADDRESS
  {
    hide OperatorUrl, Normalized, Sane, Canonical;
    var typed := OperatorUrl(cfg.lib, raw).value;
    NormalizedIsCanonical(cfg.lib, typed);
    NormalizedScreened(cfg.lib, typed);
  }

  /** Every origin of the policy is still there, unchanged, and ids stay unique. */
  ghost predicate Grown(r: Registry, r': Registry) {
    && (forall x <- r.policy.origins :: x in r'.policy.origins)
    && (forall x <- r.policy.origins :: WithId(r'.policy.origins, x.id) == Some(x))
    && r'.policy.keys == r.policy.keys
  }

  lemma SoundOrigins(cfg: Config, r: Registry)
    requires Sane(cfg.lib) && Sound(cfg, r)
    ensures var m := Approvals(cfg.lib, r.origins).value;
            Stored(cfg.lib, m) && r.policy.origins == Origins(m)
    ensures DistinctIds(r.policy.origins) && Grown(r, r)
  {
    hide Sane, Stored, Origins, Approvals, WithId;
    ApprovalsStored(cfg.lib, r.origins);
    StoredIds(cfg.lib, Approvals(cfg.lib, r.origins).value);
    OriginsFacts(Approvals(cfg.lib, r.origins).value);
    forall x <- r.policy.origins ensures WithId(r.policy.origins, x.id) == Some(x) {
      WithIdFinds(r.policy.origins, x);
    }
  }

  lemma StoredIds(lib: Library, m: map<string, Approval>)
    requires Stored(lib, m)
    ensures forall id <- m :: m[id].id == id
  {}

  /** Adding keeps every approval and gives the new one back by its id. */
  lemma AddedGrows(cfg: Config, r: Registry, a: Address)
    requires Sane(cfg.lib) && Sound(cfg, r) && Canonical(cfg.lib, a) && |a.Render()| <= MAX_ADDRESS
             && Added(cfg, r, a).Some?
    ensures var r', x := Added(cfg, r, a).value, ApprovalOf(cfg.derive(a.Render(), a.Local()), a);
            Sound(cfg, r') && Grown(r, r') && DistinctIds(r'.policy.origins)
            && x in r'.policy.origins && WithId(r'.policy.origins, x.id) == Some(x)
            && |r'.policy.origins| == |r.policy.origins| + 1 <= MAX_ORIGINS
  {
    hide Sane, Stored, Origins, Approvals, WithId, Keys, Canonical;
    var m := Approvals(cfg.lib, r.origins).value;
    var x := ApprovalOf(cfg.derive(a.Render(), a.Local()), a);
    var r' := Added(cfg, r, a).value;
    AddedFacts(cfg, r, a);
    SoundOrigins(cfg, r);
    StoredIds(cfg.lib, m);
    OriginsFacts(m);
    var m' := m[x.id := x];
    OriginsFacts(m');
    assert m'[x.id] == x;
    assert |m'| == |m| + 1;
    forall y | y in r.policy.origins || y == x
      ensures y in r'.policy.origins && WithId(r'.policy.origins, y.id) == Some(y) {
      assert m'[y.id] == y;
      WithIdFinds(r'.policy.origins, y);
    }
  }

  /** Two addresses written the same are the same address. */
  lemma RenderInjective(lib: Library, a: Address, b: Address)
    requires Sane(lib) && Canonical(lib, a) && Canonical(lib, b) && a.Render() == b.Render()
             && |a.Render()| <= MAX_ADDRESS
    ensures a == b
  {
    hide Normalized, Address.Render, PathStored;
    var open := lib.(secret := s => false);
    CanonicalIsFixed(open, a);
    CanonicalIsFixed(open, b);
  }

  const LOCAL_ADDRESS := Address("http", "127.0.0.1", Some(11_434), "/v1")

  lemma LocalPort()
    ensures Decimals.Decimal(11_434) == "11434"
  {
    assert Decimals.Decimal(1) == "1";
    assert Decimals.Decimal(11) == "1" + "1";
    assert Decimals.Decimal(114) == "11" + "4";
    assert Decimals.Decimal(1143) == "114" + "3";
  }

  lemma LocalPath()
    ensures PathStored("/v1")
  {
    FindIs("/v1", '/', 0);
    assert "/v1"[..0] == "" && "/v1"[1..] == "v1";
    assert SplitOn("v1", '/') == ["v1"];
    assert SplitOn("/v1", '/') == [""] + ["v1"];
    assert "/v1"[2..][0] == '1';
  }

  /** The built-in approval is a stored address too. */
  lemma LocalIsStored(lib: Library)
    ensures Canonical(lib, LOCAL_ADDRESS) && LOCAL_ADDRESS.Render() == LOCAL_URL
  {
    hide PathStored, IsHostName, IsLocalhost, Address.Render;
    LoopbackIsHostName();
    LoopbackNotLocalhost();
    LocalPath();
    LocalRender();
  }

  lemma LocalRender()
    ensures LOCAL_ADDRESS.Render() == LOCAL_URL
  {
    hide Decimals.Decimal;
    LocalPort();
    assert LOCAL_ADDRESS.Netloc() == "127.0.0.1" + (":" + "11434");
    assert LOCAL_ADDRESS.Render() == "http" + "://" + ("127.0.0.1" + (":" + "11434")) + "/v1";
  }

  lemma LoopbackNotLocalhost()
    ensures !IsLocalhost("127.0.0.1")
  {
    assert "127.0.0.1"[0] == '1';
  }

  /** Each approval of a sound registry is some stored address. */
  lemma OriginAddress(cfg: Config, r: Registry, x: Approval) returns (a: Address)
    requires Sane(cfg.lib) && Sound(cfg, r) && x in r.policy.origins
    ensures Canonical(cfg.lib, a) && |a.Render()| <= MAX_ADDRESS && x == ApprovalOf(x.id, a)
  {
    hide Sane, Canonical, Origins, Approvals, Address.Render;
    var m := Approvals(cfg.lib, r.origins).value;
    SoundOrigins(cfg, r);
    StoredIds(cfg.lib, m);
    OriginsFacts(m);
    if x.id == LOCAL_ID {
      LocalIsStored(cfg.lib);
      a := LOCAL_ADDRESS;
    } else {
      a :| Canonical(cfg.lib, a) && |a.Render()| <= MAX_ADDRESS && x == ApprovalOf(x.id, a);
    }
  }

  /** Approving: a refusal changes nothing; otherwise every approval stays as it was, ids stay unique, and the
      operator gets an approval of exactly the address typed, which the policy now holds. */
  lemma ApproveGrows(cfg: Config, r: Registry, raw: string)
    requires Sane(cfg.lib) && Sound(cfg, r)
    ensures var (x, r') := Approved(cfg, r, raw);
            && Sound(cfg, r') && Grown(r, r') && DistinctIds(r'.policy.origins)
            && (x.None? ==> r' == r)
            && (r' != r ==> |r.policy.origins| < |r'.policy.origins| <= MAX_ORIGINS)
            && (x.Some? ==> Admitted(cfg, raw).Some? && x.value in r'.policy.origins
                            && x.value == ApprovalOf(x.value.id, Admitted(cfg, raw).value))
  {
    hide Sane, Sound, Canonical, Address.Render, Added, Grown, DistinctIds, Admitted;
    SoundOrigins(cfg, r);
    var a := Admitted(cfg, raw);
    if a.Some? {
      AdmittedStored(cfg, raw);
      var known := WithUrl(r.policy.origins, a.value.Render());
      if known.Some? {
        WithUrlIn(r.policy.origins, a.value.Render());
        var b := OriginAddress(cfg, r, known.value);
        RenderInjective(cfg.lib, a.value, b);
      } else if Added(cfg, r, a.value).Some? {
        AddedGrows(cfg, r, a.value);
      }
    }
  }

  lemma {:induction false} WithUrlIn(xs: seq<Approval>, url: string)
    ensures WithUrl(xs, url).Some? ==> WithUrl(xs, url).value in xs && WithUrl(xs, url).value.url == url
  {
    if xs != [] && xs[0].url != url {
      WithUrlIn(xs[1..], url);
    }
  }

  // --- Over any run of approvals ---

  ghost function AfterAll(cfg: Config, r: Registry, raws: seq<string>): Registry {
    if raws == [] then r else Approved(cfg, AfterAll(cfg, r, raws[..|raws| - 1]), raws[|raws| - 1]).1
  }

  /** An addition, as a change of the approvals by id. */
  lemma AddedMap(cfg: Config, r: Registry, a: Address) returns (m: map<string, Approval>, x: Approval)
    requires Sane(cfg.lib) && Sound(cfg, r) && Canonical(cfg.lib, a) && |a.Render()| <= MAX_ADDRESS
             && Added(cfg, r, a).Some?
    ensures x == ApprovalOf(cfg.derive(a.Render(), a.Local()), a) && x.id !in m && forall id <- m :: m[id].id == id
    ensures r.policy.origins == Origins(m) && Added(cfg, r, a).value.policy.origins == Origins(m[x.id := x])
  {
    hide Sane, Canonical, Address.Render, Origins, Added, Approvals, Keys;
    AddedFacts(cfg, r, a);
    SoundOrigins(cfg, r);
    m := Approvals(cfg.lib, r.origins).value;
    x := ApprovalOf(cfg.derive(a.Render(), a.Local()), a);
    StoredIds(cfg.lib, m);
  }

  /** Once an address has an approval, no later approval gives it another. */
  lemma ApproveKeepsUrl(cfg: Config, r: Registry, raw: string, url: string)
    requires Sane(cfg.lib) && Sound(cfg, r) && WithUrl(r.policy.origins, url).Some?
    ensures WithUrl(Approved(cfg, r, raw).1.policy.origins, url) == WithUrl(r.policy.origins, url)
  {
    hide Sane, Sound, Canonical, Address.Render, Admitted, WithUrl, Added, Origins, Address.Local;
    var a := Admitted(cfg, raw);
    if a.Some? && WithUrl(r.policy.origins, a.value.Render()).None? && Added(cfg, r, a.value).Some? {
      AdmittedStored(cfg, raw);
      var m, x := AddedMap(cfg, r, a.value);
      AddKeepsUrl(m, x, url);
    }
  }

  lemma GrownOn(r: Registry, r': Registry, r'': Registry)
    requires Grown(r, r') && Grown(r', r'')
    ensures Grown(r, r'')
  {
    hide WithId;
  }

  /** However many approvals follow, every earlier one persists under its id, and no id is used twice. */
  lemma {:induction false} EveryApprovalPersists(cfg: Config, r: Registry, raws: seq<string>)
    requires Sane(cfg.lib) && Sound(cfg, r)
    ensures var r' := AfterAll(cfg, r, raws);
            Sound(cfg, r') && Grown(r, r') && DistinctIds(r'.policy.origins)
  {
    hide Sane, Sound, Approved, DistinctIds, WithId, Grown;
    SoundOrigins(cfg, r);
    if raws != [] {
      var before := AfterAll(cfg, r, raws[..|raws| - 1]);
      EveryApprovalPersists(cfg, r, raws[..|raws| - 1]);
      ApproveGrows(cfg, before, raws[|raws| - 1]);
      GrownOn(r, before, AfterAll(cfg, r, raws));
    }
  }

  lemma {:induction false} AllKeepUrl(cfg: Config, r: Registry, raws: seq<string>, url: string)
    requires Sane(cfg.lib) && Sound(cfg, r) && WithUrl(r.policy.origins, url).Some?
    ensures WithUrl(AfterAll(cfg, r, raws).policy.origins, url) == WithUrl(r.policy.origins, url)
  {
    hide Sane, Sound, Approved, WithUrl;
    if raws != [] {
      AllKeepUrl(cfg, r, raws[..|raws| - 1], url);
      EveryApprovalPersists(cfg, r, raws[..|raws| - 1]);
      ApproveKeepsUrl(cfg, AfterAll(cfg, r, raws[..|raws| - 1]), raws[|raws| - 1], url);
    }
  }

  /** After an approval the address it was given for has that approval. */
  lemma ApprovedIsFound(cfg: Config, r: Registry, raw: string)
    requires Sane(cfg.lib) && Sound(cfg, r) && Approved(cfg, r, raw).0.Some?
    ensures WithUrl(Approved(cfg, r, raw).1.policy.origins, Admitted(cfg, raw).value.Render()) ==
              Approved(cfg, r, raw).0
  {
    hide Sane, Sound, Canonical, Address.Render, Admitted, WithId, WithUrl, Added, Origins, Address.Local;
    var a := Admitted(cfg, raw).value;
    if WithUrl(r.policy.origins, a.Render()).None? {
      AdmittedStored(cfg, raw);
      AddedGrows(cfg, r, a);
      var m, x := AddedMap(cfg, r, a);
      OnlyNewHasUrl(m, x);
    }
  }

  lemma OnlyNewHasUrl(m: map<string, Approval>, x: Approval)
    requires (forall id <- m :: m[id].id == id) && x.id !in m && WithUrl(Origins(m), x.url).None?
    ensures WithUrl(Origins(m[x.id := x]), x.url) == Some(x)
  {
    hide Origins, TextLeq, DistinctIds, ById;
    var m' := m[x.id := x];
    OriginsById(m);
    OriginsById(m');
    OriginsFacts(m);
    OriginsFacts(m');
    WithUrlLeast(Origins(m), x.url);
    WithUrlLeast(Origins(m'), x.url);
    assert m'[x.id] in Origins(m');
    assert forall id <- m :: m[id] in Origins(m) && m[id].url != x.url;
  }

  /** The same address, typed again in any way and after any other approvals, gets the same approval and
      changes nothing. */
  lemma OneAddressOneApproval(cfg: Config, r: Registry, raw: string, between: seq<string>, again: string)
    requires Sane(cfg.lib) && Sound(cfg, r) && Approved(cfg, r, raw).0.Some?
             && Admitted(cfg, again) == Admitted(cfg, raw)
    ensures var (x, r') := Approved(cfg, r, raw);
            var later := AfterAll(cfg, r', between);
            Approved(cfg, later, again) == (x, later)
  {
    hide Sane, Sound, Admitted, Added, AfterAll, Address.Render, WithUrl;
    var r' := Approved(cfg, r, raw).1;
    ApproveGrows(cfg, r, raw);
    ApprovedIsFound(cfg, r, raw);
    AllKeepUrl(cfg, r', between, Admitted(cfg, raw).value.Render());
  }

  // --- Starting from a policy, and from stored addresses ---

  /** `from_policy`: a registry started from a policy that was built has exactly that policy, unless a stored
      address looks like a credential; then it cannot be started. */
  lemma FromPolicyRebuilds(cfg: Config, r: Registry)
    requires Sane(cfg.lib) && Sound(cfg, r)
    ensures var printed := Registry(PrintedOrigins(r.policy.origins), PrintedKeys(r.policy.keys), r.policy);
            if AllClean(cfg.lib, r.policy.origins) then Sound(cfg, printed)
            else PolicyOf(cfg.lib, printed.origins, printed.keys).None?
  {
    hide PolicyOf, Sane, AllClean;
    PolicyRebuilds(cfg.lib, r.origins, r.keys);
  }

  lemma PlainStrip(s: string)
    requires Plain(s)
    ensures StripBack(StripFront(s)) == s && forall c <- s :: c <= '\U{007F}'
  {
    if s != "" {
      assert s[0] in s && s[|s| - 1] in s;
    }
  }

  lemma HasScheme(scheme: string, rest: string)
    ensures WithScheme(scheme + "://" + rest) == scheme + "://" + rest
  {
    hide SaysLoopback, Lower, UpTo;
    var text := scheme + "://" + rest;
    assert text[|scheme|..][..3] == "://";
    assert StartsWith(text[|scheme|..], "://");
  }

  /** A stored address, typed, is taken as it is. */
  lemma StoredTyped(lib: Library, a: Address)
    requires Sane(lib) && Addressed(lib, a) && |a.Render()| <= MAX_ADDRESS
    ensures OperatorUrl(lib, a.Render()) == Some(a.Render())
  {
    hide Sane, SplitUrl, HostOf, Plain, StripBack, StripFront, WithScheme, IsHostName, Address.Netloc, HostAllowed;
    hide PathStored, ReadsBack;
    RenderSplits(lib, a);
    NetlocReadsBack(lib, a);
    PlainStrip(a.Render());
    HasScheme(a.scheme, a.Netloc() + a.path);
    assert a.scheme + "://" + (a.Netloc() + a.path) == a.Render();
    assert HostText(a.Netloc()) == a.host by { ReadsBackHost(a); }
    HostReadsBack(lib, a);
  }

  lemma ReadsBackHost(a: Address)
    requires ReadsBack(a.Netloc(), a.host, a.port)
    ensures HostText(a.Netloc()) == a.host
  {}
}
