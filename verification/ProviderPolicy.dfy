/** The provider policy: approvals and key bindings, read from `id=value` text. Two dictionaries are filled
    in turn, every entry checked against what is there already; the first refusal refuses the whole
    policy. Both are then listed by id, so the policy depends on what was bound and not on the order of
    the bindings. */
module ProviderPolicy {
  import opened Orders
  import opened Results
  import opened ProviderUrls

  const LOCAL_ID := "local-ollama"
  const LOCAL_URL := "http://127.0.0.1:11434/v1"

  datatype Approval = Approval(id: string, url: string, local: bool)
  datatype KeyBinding = KeyBinding(id: string, variable: string)
  datatype Policy = Policy(origins: seq<Approval>, keys: seq<KeyBinding>)

  predicate IsPortable(id: string) {
    1 <= |id| <= 64 && IsLowerAlnum(id[0]) && forall c <- id :: IsLowerAlnum(c) || c == '-'
  }

  predicate IsNameChar(c: char) {
    'A' <= c <= 'Z' || c == '_'
  }

  predicate IsVariable(name: string) {
    1 <= |name| <= 128 && IsNameChar(name[0]) && forall c <- name :: IsNameChar(c) || IsDigit(c)
  }

  /** `id=value` with exactly one `=`, a portable id and a value. */
  function SplitBinding(lib: Library, raw: string): Option<(string, string)> {
    if '=' !in raw || '=' in AfterFirst(raw, '=') then None else
      var id := UpTo(raw, '=');
      if !IsPortable(id) || lib.secret(id) || AfterFirst(raw, '=') == "" then None else Some((id, AfterFirst(raw, '=')))
  }

  function ApprovalOf(id: string, a: Address): Approval {
    Approval(id, a.Render(), a.Local())
  }

  const START := map[LOCAL_ID := Approval(LOCAL_ID, LOCAL_URL, true)]

  function WithOrigin(lib: Library, approvals: map<string, Approval>, raw: string): Option<map<string, Approval>> {
    if SplitBinding(lib, raw).None? then None else
      var (id, url) := SplitBinding(lib, raw).value;
      if id in approvals || Normalized(lib, url).None? then None
      else Some(approvals[id := ApprovalOf(id, Normalized(lib, url).value)])
  }

  function Approvals(lib: Library, raws: seq<string>): Option<map<string, Approval>> {
    if raws == [] then Some(START) else
      var front := Approvals(lib, raws[..|raws| - 1]);
      if front.None? then None else WithOrigin(lib, front.value, raws[|raws| - 1])
  }

  function WithKey(lib: Library, approvals: map<string, Approval>, keys: map<string, string>,
                   raw: string): Option<map<string, string>>
  {
    if SplitBinding(lib, raw).None? then None else
      var (id, variable) := SplitBinding(lib, raw).value;
      if id !in approvals || approvals[id].local || !IsVariable(variable) || id in keys
      || variable in keys.Values then None
      else Some(keys[id := variable])
  }

  function Keys(lib: Library, approvals: map<string, Approval>, raws: seq<string>): Option<map<string, string>> {
    if raws == [] then Some(map[]) else
      var front := Keys(lib, approvals, raws[..|raws| - 1]);
      if front.None? then None else WithKey(lib, approvals, front.value, raws[|raws| - 1])
  }

  // --- Listing by id ---

  ghost function SortedIds<V>(m: map<string, V>): (ids: seq<string>)
    ensures forall i :: 0 <= i < |ids| ==> ids[i] in m
  {
    TextOrder();
    var ids := Sorted(m.Keys, TextLeq);
    assert forall i :: 0 <= i < |ids| ==> ids[i] in Elements(ids);
    ids
  }

  lemma SortedIdsFacts<V>(m: map<string, V>)
    ensures forall id :: id in SortedIds(m) <==> id in m
    ensures Distinct(SortedIds(m)) && Ascending(SortedIds(m), TextLeq) && |SortedIds(m)| == |m|
  {
    TextOrder();
    assert forall id :: id in SortedIds(m) <==> id in Elements(SortedIds(m));
    assert |m| == |m.Keys|;
  }

  ghost function Origins(approvals: map<string, Approval>): (r: seq<Approval>) {
    var ids := SortedIds(approvals);
    seq(|ids|, i requires 0 <= i < |ids| => approvals[ids[i]])
  }

  ghost function KeyBindings(keys: map<string, string>): seq<KeyBinding> {
    var ids := SortedIds(keys);
    seq(|ids|, i requires 0 <= i < |ids| => KeyBinding(ids[i], keys[ids[i]]))
  }

  /** The policy of a list of origin and key bindings, or None when any of them is refused. */
  ghost function PolicyOf(lib: Library, origins: seq<string>, keys: seq<string>): Option<Policy> {
    var approvals := Approvals(lib, origins);
    if approvals.None? then None else
      var bound := Keys(lib, approvals.value, keys);
      if bound.None? then None else Some(Policy(Origins(approvals.value), KeyBindings(bound.value)))
  }

  lemma {:induction false} ApprovalsPrefix(lib: Library, raws: seq<string>, i: nat)
    requires i <= |raws| && Approvals(lib, raws).Some?
    ensures Approvals(lib, raws[..i]).Some?
    decreases |raws|
  {
    if i < |raws| {
      var front := raws[..|raws| - 1];
      ApprovalsPrefix(lib, front, i);
      assert front[..i] == raws[..i];
    } else {
      assert raws[..i] == raws;
    }
  }

  lemma {:induction false} KeysPrefix(lib: Library, approvals: map<string, Approval>, raws: seq<string>, i: nat)
    requires i <= |raws| && Keys(lib, approvals, raws).Some?
    ensures Keys(lib, approvals, raws[..i]).Some?
    decreases |raws|
  {
    if i < |raws| {
      var front := raws[..|raws| - 1];
      KeysPrefix(lib, approvals, front, i);
      assert front[..i] == raws[..i];
    } else {
      assert raws[..i] == raws;
    }
  }

  method FillApprovals(lib: Library, origins: seq<string>) returns (r: Option<map<string, Approval>>)
    ensures r == Approvals(lib, origins)
  {
    hide WithOrigin;
    var approvals := START;
    for i := 0 to |origins|
      invariant Approvals(lib, origins[..i]) == Some(approvals)
    {
      assert origins[..i + 1][..i] == origins[..i];
      var next := WithOrigin(lib, approvals, origins[i]);
      if next.None? {
        if Approvals(lib, origins).Some? {
          ApprovalsPrefix(lib, origins, i + 1);
        }
        return None;
      }
      approvals := next.value;
    }
    assert origins[..|origins|] == origins;
    r := Some(approvals);
  }

  method FillKeys(lib: Library, approvals: map<string, Approval>, keys: seq<string>)
      returns (r: Option<map<string, string>>)
    ensures r == Keys(lib, approvals, keys)
  {
    hide WithKey;
    var bound := map[];
    for i := 0 to |keys|
      invariant Keys(lib, approvals, keys[..i]) == Some(bound)
    {
      assert keys[..i + 1][..i] == keys[..i];
      var next := WithKey(lib, approvals, bound, keys[i]);
      if next.None? {
        if Keys(lib, approvals, keys).Some? {
          KeysPrefix(lib, approvals, keys, i + 1);
        }
        return None;
      }
      bound := next.value;
    }
    assert keys[..|keys|] == keys;
    r := Some(bound);
  }

  method ListOrigins(approvals: map<string, Approval>) returns (r: seq<Approval>)
    ensures r == Origins(approvals)
  {
    TextOrder();
    var ids := SortedSet(approvals.Keys, TextLeq);
    assert forall i :: 0 <= i < |ids| ==> ids[i] in Elements(ids);
    r := seq(|ids|, i requires 0 <= i < |ids| => approvals[ids[i]]);
  }

  method ListKeys(keys: map<string, string>) returns (r: seq<KeyBinding>)
    ensures r == KeyBindings(keys)
  {
    TextOrder();
    var ids := SortedSet(keys.Keys, TextLeq);
    assert forall i :: 0 <= i < |ids| ==> ids[i] in Elements(ids);
    r := seq(|ids|, i requires 0 <= i < |ids| => KeyBinding(ids[i], keys[ids[i]]));
  }

  /** Python's `build_provider_runtime_policy`: both dictionaries filled in turn, then listed by id. */
  method BuildPolicy(lib: Library, origins: seq<string>, keys: seq<string>) returns (r: Option<Policy>)
    ensures r == PolicyOf(lib, origins, keys)
  {
    hide Approvals, Keys, Origins, KeyBindings;
    var approvals := FillApprovals(lib, origins);
    if approvals.None? {
      return None;
    }
    var bound := FillKeys(lib, approvals.value, keys);
    if bound.None? {
      return None;
    }
    var listed := ListOrigins(approvals.value);
    var bindings := ListKeys(bound.value);
    r := Some(Policy(listed, bindings));
  }
}
