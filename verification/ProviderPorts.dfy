/** The guard that keeps the registry from approving the ports the server itself listens on. */
module ProviderPorts {
  import opened Results
  import opened ProviderUrls
  import opened ProviderNormal
  import opened ProviderPolicy
  import opened ProviderPrinted
  import opened ProviderRegistry

  /** The guard takes an https address without a port to be on port 80, and it is on 443: this matters where
      the one is refused and the other is not. */
  predicate Mistaken(a: Address, refused: set<nat>) {
    a.scheme == "https" && a.port.None? && (443 in refused) != (80 in refused)
  }

  /** A local address an operator typed is admitted exactly when the port it is served on is not refused,
      unless the guard mistakes its port; then it is the other way round. */
  lemma PortGuardExact(cfg: Config, raw: string, a: Address)
    requires Sane(cfg.lib) && a.Local()
    requires OperatorUrl(cfg.lib, raw).Some? && Normalized(cfg.lib, OperatorUrl(cfg.lib, raw).value) == Some(a)
    ensures if Mistaken(a, cfg.refused) then Admitted(cfg, raw) == (if a.Served() in cfg.refused then Some(a) else None)
            else Admitted(cfg, raw) == (if a.Served() in cfg.refused then None else Some(a))
  {
    hide OperatorUrl, Normalized, Sane, HostStored, PathStored, Address.Local;
    NormalizedIsCanonical(cfg.lib, OperatorUrl(cfg.lib, raw).value);
  }

  const HTTPS_LOOPBACK := Address("https", "127.0.0.1", None, "")

  lemma HttpsLoopbackStored(lib: Library)
    ensures Canonical(lib, HTTPS_LOOPBACK) && HTTPS_LOOPBACK.Render() == "https://127.0.0.1"
  {
    hide IsHostName, IsLocalhost, SplitOn;
    LoopbackIsHostName();
    LoopbackNotLocalhost();
    EmptyPath();
    assert HTTPS_LOOPBACK.Netloc() == "127.0.0.1";
  }

  /** What an operator types is not approved as a local address on a refused port. */
  ghost predicate GuardHolds(cfg: Config, raw: string) {
    Admitted(cfg, raw).Some? && Admitted(cfg, raw).value.Local() ==> Admitted(cfg, raw).value.Served() !in cfg.refused
  }

  lemma AdmittedServed(cfg: Config, raw: string)
    requires Sane(cfg.lib) && (443 in cfg.refused ==> 80 in cfg.refused)
    ensures GuardHolds(cfg, raw)
  {
    hide OperatorUrl, Normalized, Sane;
    if Admitted(cfg, raw).Some? && Admitted(cfg, raw).value.Local() {
      PortGuardExact(cfg, raw, Admitted(cfg, raw).value);
    }
  }

  /** An https loopback address on the refused port 443 is admitted, as long as port 80 is not refused. */
  lemma HttpsLoopbackPassesGuard(cfg: Config)
    requires Sane(cfg.lib) && !cfg.lib.secret("https://127.0.0.1") && 443 in cfg.refused && 80 !in cfg.refused
    ensures Admitted(cfg, "https://127.0.0.1") == Some(HTTPS_LOOPBACK)
    ensures HTTPS_LOOPBACK.Local() && HTTPS_LOOPBACK.Served() in cfg.refused
  {
    hide Sane, Canonical, Addressed, Normalized, OperatorUrl;
    HttpsLoopbackStored(cfg.lib);
    CanonicalAddressed(cfg.lib, HTTPS_LOOPBACK);
    StoredTyped(cfg.lib, HTTPS_LOOPBACK);
    CanonicalIsFixed(cfg.lib, HTTPS_LOOPBACK);
  }

  /** The guard keeps every refused port exactly when 443 is refused only together with 80. */
  lemma GuardHoldsIff(cfg: Config)
    requires Sane(cfg.lib) && !cfg.lib.secret("https://127.0.0.1")
    ensures (forall raw :: GuardHolds(cfg, raw)) <==> (443 in cfg.refused ==> 80 in cfg.refused)
  {
    hide Sane, Admitted;
    if 443 in cfg.refused ==> 80 in cfg.refused {
      forall raw ensures GuardHolds(cfg, raw) {
        AdmittedServed(cfg, raw);
      }
    } else {
      HttpsLoopbackPassesGuard(cfg);
      assert !GuardHolds(cfg, "https://127.0.0.1");
    }
  }

  // --- Over any run of calls ---

  /** A remote approval, or a local one that is not served on a refused port. */
  ghost predicate OffPorts(cfg: Config, x: Approval) {
    x.local ==> exists a: Address :: Canonical(cfg.lib, a) && x.url == a.Render() && a.Served() !in cfg.refused
  }

  lemma ApproveAddsAtMost(cfg: Config, r: Registry, raw: string)
    requires Sane(cfg.lib) && Sound(cfg, r)
    ensures forall y <- Approved(cfg, r, raw).1.policy.origins ::
              y in r.policy.origins || (Admitted(cfg, raw).Some? && y == ApprovalOf(y.id, Admitted(cfg, raw).value))
  {
    hide Sane, Sound, Canonical, Address.Render, Admitted, WithUrl, WithId, Added, Origins, Address.Local;
    var a := Admitted(cfg, raw);
    if a.Some? && WithUrl(r.policy.origins, a.value.Render()).None? && Added(cfg, r, a.value).Some? {
      AdmittedStored(cfg, raw);
      var m, x := AddedMap(cfg, r, a.value);
      OriginsFacts(m);
      OriginsFacts(m[x.id := x]);
    }
  }

  /** Where 443 is refused only together with 80, no run of calls ever adds a local approval that is served
      on a refused port. */
  lemma {:induction false} ApprovalsOffPorts(cfg: Config, r: Registry, raws: seq<string>)
    requires Sane(cfg.lib) && Sound(cfg, r) && (443 in cfg.refused ==> 80 in cfg.refused)
    ensures forall x <- AfterAll(cfg, r, raws).policy.origins :: x in r.policy.origins || OffPorts(cfg, x)
  {
    hide Sane, Sound, Approved, Canonical, Address.Render, Address.Local, Address.Served, Admitted, Grown, DistinctIds;
    if raws != [] {
      var before, raw := AfterAll(cfg, r, raws[..|raws| - 1]), raws[|raws| - 1];
      ApprovalsOffPorts(cfg, r, raws[..|raws| - 1]);
      EveryApprovalPersists(cfg, r, raws[..|raws| - 1]);
      ApproveAddsAtMost(cfg, before, raw);
      AdmittedServed(cfg, raw);
      if Admitted(cfg, raw).Some? {
        AdmittedStored(cfg, raw);
      }
    }
  }
}
