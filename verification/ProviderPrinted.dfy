/** A policy printed back as bindings rebuilds itself, unless the credential screen refuses a stored
    address. Every approval that came from a binding has a portable id and a canonical address without an
    equals sign, so its printed form splits where it was joined; the printed lists fill the two
    dictionaries again, entry by entry. */
module ProviderPrinted {
  import opened Orders
  import opened Results
  import opened ProviderUrls
  import opened ProviderNormal
  import opened ProviderPolicy

  /** What an approval that came from a binding is. */
  ghost predicate StoredAs(lib: Library, x: Approval) {
    && IsPortable(x.id) && !lib.secret(x.id)
    && exists a: Address ::
         Canonical(lib, a) && |a.Render()| <= MAX_ADDRESS && '=' !in a.Render() && x == ApprovalOf(x.id, a)
  }

  ghost predicate Stored(lib: Library, m: map<string, Approval>) {
    && LOCAL_ID in m && m[LOCAL_ID] == START[LOCAL_ID]
    && forall id <- m :: m[id].id == id && (id != LOCAL_ID ==> StoredAs(lib, m[id]))
  }

  lemma BindingStored(lib: Library, raw: string)
    requires Sane(lib) && SplitBinding(lib, raw).Some? && Normalized(lib, SplitBinding(lib, raw).value.1).Some?
    ensures var (id, url) := SplitBinding(lib, raw).value; StoredAs(lib, ApprovalOf(id, Normalized(lib, url).value))
  {
    hide Normalized, Canonical, Sane, IsPortable;
    var (id, url) := SplitBinding(lib, raw).value;
    NoNewEquals(lib, url);
    NormalizedIsCanonical(lib, url);
    NormalizedScreened(lib, url);
    var a := Normalized(lib, url).value;
    assert ApprovalOf(id, a) == ApprovalOf(id, a);
  }

  lemma NormalizedScreened(lib: Library, url: string)
    requires Normalized(lib, url).Some?
    ensures |url| <= MAX_ADDRESS
  {}

  lemma {:induction false} ApprovalsStored(lib: Library, raws: seq<string>)
    requires Sane(lib) && Approvals(lib, raws).Some?
    ensures Stored(lib, Approvals(lib, raws).value)
  {
    hide Sane, StoredAs, Normalized, SplitBinding;
    if raws != [] {
      ApprovalsStored(lib, raws[..|raws| - 1]);
      BindingStored(lib, raws[|raws| - 1]);
    }
  }

  // --- Printing ---

  function OriginText(x: Approval): string {
    x.id + "=" + x.url
  }

  /** The origin bindings `from_policy` prints: all but the built-in one. */
  function PrintedOrigins(xs: seq<Approval>): seq<string> {
    if xs == [] then [] else
      var last := xs[|xs| - 1];
      PrintedOrigins(xs[..|xs| - 1]) + if last.id == LOCAL_ID then [] else [OriginText(last)]
  }

  function KeyText(b: KeyBinding): string {
    b.id + "=" + b.variable
  }

  function PrintedKeys(bs: seq<KeyBinding>): (r: seq<string>)
    ensures |r| == |bs|
  {
    seq(|bs|, i requires 0 <= i < |bs| => KeyText(bs[i]))
  }

  /** No stored address looks like a credential. */
  predicate AllClean(lib: Library, xs: seq<Approval>) {
    forall x <- xs :: x.id == LOCAL_ID || !lib.secret(x.url)
  }

  function Collected(xs: seq<Approval>): map<string, Approval> {
    if xs == [] then START else
      var last := xs[|xs| - 1];
      if last.id == LOCAL_ID then Collected(xs[..|xs| - 1]) else Collected(xs[..|xs| - 1])[last.id := last]
  }

  ghost predicate DistinctIds(xs: seq<Approval>) {
    forall i, j :: 0 <= i < j < |xs| ==> xs[i].id != xs[j].id
  }

  lemma PortableHasNoEquals(id: string)
    requires IsPortable(id)
    ensures '=' !in id
  {}

  lemma JoinedBinding(lib: Library, id: string, value: string)
    requires IsPortable(id) && !lib.secret(id) && '=' !in value && value != ""
    ensures SplitBinding(lib, id + "=" + value) == Some((id, value))
  {
    hide IsPortable;
    PortableHasNoEquals(id);
    AfterFirstOf(id, '=', value);
    assert (id + "=" + value)[|id|] == '=';
  }

  /** A printed origin reads back as itself, unless the screen refuses its address. */
  lemma OriginReadsBack(lib: Library, approvals: map<string, Approval>, x: Approval)
    requires Sane(lib) && StoredAs(lib, x) && x.id !in approvals
    ensures WithOrigin(lib, approvals, OriginText(x)) == if lib.secret(x.url) then None else Some(approvals[x.id := x])
  {
    hide Sane, Canonical, Normalized, IsPortable, SplitBinding;
    var a: Address :|
      Canonical(lib, a) && |a.Render()| <= MAX_ADDRESS && '=' !in a.Render() && x == ApprovalOf(x.id, a);
    JoinedBinding(lib, x.id, x.url);
    CanonicalIsFixed(lib, a);
  }

  lemma {:induction false} CollectedHolds(xs: seq<Approval>, id: string)
    ensures LOCAL_ID in Collected(xs)
    ensures id in Collected(xs) <==> id == LOCAL_ID || exists x :: x in xs && x.id == id
    ensures Collected(xs)[LOCAL_ID] == START[LOCAL_ID]
    ensures id in Collected(xs) ==> Collected(xs)[id] in xs || id == LOCAL_ID
  {
    if xs != [] {
      var front, last := xs[..|xs| - 1], xs[|xs| - 1];
      CollectedHolds(front, id);
      assert xs == front + [last];
    }
  }

  lemma {:induction false} PrintedReadBack(lib: Library, xs: seq<Approval>)
    requires Sane(lib) && DistinctIds(xs) && forall x <- xs :: x.id == LOCAL_ID || StoredAs(lib, x)
    ensures Approvals(lib, PrintedOrigins(xs)) == if AllClean(lib, xs) then Some(Collected(xs)) else None
  {
    hide Sane, StoredAs, WithOrigin, OriginText;
    if xs != [] {
      var front, last := xs[..|xs| - 1], xs[|xs| - 1];
      assert xs == front + [last];
      PrintedReadBack(lib, front);
      if last.id != LOCAL_ID {
        var printed := PrintedOrigins(xs);
        assert printed[..|printed| - 1] == PrintedOrigins(front);
        CollectedHolds(front, last.id);
        OriginReadsBack(lib, Collected(front), last);
      } else {
        assert PrintedOrigins(xs) == PrintedOrigins(front);
      }
    }
  }

  lemma OriginsFacts(m: map<string, Approval>)
    requires forall id <- m :: m[id].id == id
    ensures DistinctIds(Origins(m)) && |Origins(m)| == |m|
    ensures forall x <- Origins(m) :: x.id in m && m[x.id] == x
    ensures forall id <- m :: m[id] in Origins(m)
  {
    hide Sorted, Ascending, TextLeq;
    var ids := SortedIds(m);
    SortedIdsFacts(m);
    forall id <- m ensures m[id] in Origins(m) {
      var i :| 0 <= i < |ids| && ids[i] == id;
      assert Origins(m)[i] == m[id];
    }
  }

  /** Collecting a listing gives back what was listed. */
  lemma CollectedListing(m: map<string, Approval>)
    requires LOCAL_ID in m && m[LOCAL_ID] == START[LOCAL_ID] && forall id <- m :: m[id].id == id
    ensures Collected(Origins(m)) == m
  {
    hide Origins, Collected, START, DistinctIds;
    OriginsFacts(m);
    var xs := Origins(m);
    forall id ensures id in Collected(xs) <==> id in m
      ensures id in m ==> Collected(xs)[id] == m[id]
    {
      CollectedHolds(xs, id);
      if id in m {
        assert m[id] in xs;
      }
      if id in Collected(xs) && id != LOCAL_ID {
        CollectedAt(xs, id);
      }
    }
  }

  lemma {:induction false} CollectedAt(xs: seq<Approval>, id: string)
    requires id in Collected(xs) && id != LOCAL_ID
    ensures Collected(xs)[id].id == id
  {
    if xs != [] {
      if xs[|xs| - 1].id != id {
        CollectedAt(xs[..|xs| - 1], id);
      }
    }
  }

  // --- Keys ---

  /** What the key bindings of a policy are. */
  ghost predicate KeysStored(lib: Library, approvals: map<string, Approval>, keys: map<string, string>) {
    && (forall id <- keys ::
          id in approvals && !approvals[id].local && IsVariable(keys[id]) && IsPortable(id) && !lib.secret(id))
    && (forall id, other :: id in keys && other in keys && keys[id] == keys[other] ==> id == other)
  }

  lemma {:induction false} KeysAreStored(lib: Library, approvals: map<string, Approval>, raws: seq<string>)
    requires Keys(lib, approvals, raws).Some?
    ensures KeysStored(lib, approvals, Keys(lib, approvals, raws).value)
  {
    hide IsVariable;
    if raws != [] {
      KeysAreStored(lib, approvals, raws[..|raws| - 1]);
    }
  }

  lemma VariableHasNoEquals(name: string)
    requires IsVariable(name)
    ensures '=' !in name && name != ""
  {}

  ghost predicate DistinctKeys(bs: seq<KeyBinding>) {
    forall i, j :: 0 <= i < j < |bs| ==> bs[i].id != bs[j].id
  }

  function CollectedKeys(bs: seq<KeyBinding>): map<string, string> {
    if bs == [] then map[] else CollectedKeys(bs[..|bs| - 1])[bs[|bs| - 1].id := bs[|bs| - 1].variable]
  }

  lemma {:induction false} CollectedKeysHold(bs: seq<KeyBinding>, keys: map<string, string>)
    requires forall b <- bs :: b.id in keys && keys[b.id] == b.variable
    ensures forall id :: id in CollectedKeys(bs) <==> exists b :: b in bs && b.id == id
    ensures forall id <- CollectedKeys(bs) :: id in keys && CollectedKeys(bs)[id] == keys[id]
  {
    if bs != [] {
      var front, last := bs[..|bs| - 1], bs[|bs| - 1];
      assert bs == front + [last];
      CollectedKeysHold(front, keys);
    }
  }

  /** A printed key binding reads back after others of the same policy. */
  lemma KeyReadsBack(lib: Library, approvals: map<string, Approval>, before: map<string, string>,
                     keys: map<string, string>, b: KeyBinding)
    requires KeysStored(lib, approvals, keys) && b.id in keys && keys[b.id] == b.variable && b.id !in before
    requires forall id <- before :: id in keys && before[id] == keys[id]
    ensures WithKey(lib, approvals, before, KeyText(b)) == Some(before[b.id := b.variable])
  {
    hide IsVariable, IsPortable, SplitBinding;
    VariableHasNoEquals(b.variable);
    JoinedBinding(lib, b.id, b.variable);
  }

  lemma LastKeyNew(bs: seq<KeyBinding>, keys: map<string, string>)
    requires bs != [] && DistinctKeys(bs) && forall b <- bs :: b.id in keys && keys[b.id] == b.variable
    ensures var before, last := CollectedKeys(bs[..|bs| - 1]), bs[|bs| - 1];
            last.id !in before && last in bs && forall id <- before :: id in keys && before[id] == keys[id]
  {
    hide CollectedKeys;
    CollectedKeysHold(bs[..|bs| - 1], keys);
  }

  lemma {:induction false} PrintedKeysReadBack(
      lib: Library, approvals: map<string, Approval>, bs: seq<KeyBinding>, keys: map<string, string>)
    requires KeysStored(lib, approvals, keys) && DistinctKeys(bs)
    requires forall b <- bs :: b.id in keys && keys[b.id] == b.variable
    ensures Keys(lib, approvals, PrintedKeys(bs)) == Some(CollectedKeys(bs))
  {
    hide IsVariable, IsPortable, SplitBinding, WithKey, KeyText, KeysStored, START;
    if bs != [] {
      var front, last := bs[..|bs| - 1], bs[|bs| - 1];
      assert bs == front + [last];
      PrintedKeysReadBack(lib, approvals, front, keys);
      assert PrintedKeys(bs)[..|bs| - 1] == PrintedKeys(front);
      LastKeyNew(bs, keys);
      KeyReadsBack(lib, approvals, CollectedKeys(front), keys, last);
    }
  }

  lemma KeyBindingsFacts(keys: map<string, string>)
    ensures DistinctKeys(KeyBindings(keys))
    ensures forall b <- KeyBindings(keys) :: b.id in keys && keys[b.id] == b.variable
    ensures forall id <- keys :: KeyBinding(id, keys[id]) in KeyBindings(keys)
  {
    hide Sorted, Ascending, TextLeq;
    var ids := SortedIds(keys);
    SortedIdsFacts(keys);
    forall id <- keys ensures KeyBinding(id, keys[id]) in KeyBindings(keys) {
      var i :| 0 <= i < |ids| && ids[i] == id;
      assert KeyBindings(keys)[i] == KeyBinding(id, keys[id]);
    }
  }

  lemma CollectedKeysListing(keys: map<string, string>)
    ensures CollectedKeys(KeyBindings(keys)) == keys
  {
    hide KeyBindings, CollectedKeys, DistinctKeys;
    var bs := KeyBindings(keys);
    KeyBindingsFacts(keys);
    CollectedKeysHold(bs, keys);
    forall id <- keys ensures id in CollectedKeys(bs) {
      assert KeyBinding(id, keys[id]) in bs;
    }
  }

  /** A policy printed as bindings and read again is the same policy, exactly when none of its stored
      addresses looks like a credential; otherwise it is refused whole. */
  lemma PolicyRebuilds(lib: Library, origins: seq<string>, keys: seq<string>)
    requires Sane(lib) && PolicyOf(lib, origins, keys).Some?
    ensures var p := PolicyOf(lib, origins, keys).value;
            PolicyOf(lib, PrintedOrigins(p.origins), PrintedKeys(p.keys)) ==
            if AllClean(lib, p.origins) then Some(p) else None
  {
    hide Sane, StoredAs, WithOrigin, WithKey, Approvals, Keys, Origins, KeyBindings, Collected, CollectedKeys;
    hide KeysStored;
    var m := Approvals(lib, origins).value;
    var bound := Keys(lib, m, keys).value;
    ApprovalsStored(lib, origins);
    OriginsFacts(m);
    PrintedReadBack(lib, Origins(m));
    CollectedListing(m);
    KeysAreStored(lib, m, keys);
    KeyBindingsFacts(bound);
    CollectedKeysListing(bound);
    PrintedKeysReadBack(lib, m, KeyBindings(bound), bound);
  }
}
