/** Finding the rates of a model under the name it was submitted with. */
module PricingTable {
  import opened Statuses
  import opened Pricing

  type Table = map<string, Rates>

  function DropLeft(s: string): string {
    if s != "" && s[0] in {' ', '\t', '\n', '\r'} then DropLeft(s[1..]) else s
  }

  function DropRight(s: string): string {
    if s != "" && s[|s| - 1] in {' ', '\t', '\n', '\r'} then DropRight(s[..|s| - 1]) else s
  }

  function Strip(s: string): string {
    DropRight(DropLeft(s))
  }

  predicate Spaces(s: string) {
    forall i :: 0 <= i < |s| ==> s[i] in {' ', '\t', '\n', '\r'}
  }

  /** Stripping takes the white space off both ends and nothing else. */
  lemma {:induction false} StripsExactly(left: string, core: string, right: string)
    requires Spaces(left) && Spaces(right)
    requires core != "" && !Spaces([core[0]]) && !Spaces([core[|core| - 1]])
    ensures Strip(left + core + right) == core
    decreases |left|
  {
    if left == "" {
      assert left + core + right == core + right;
      assert DropLeft(core + right) == core + right;
      DropsRight(core, right);
    } else {
      assert (left + core + right)[1..] == left[1..] + core + right;
      StripsExactly(left[1..], core, right);
    }
  }

  lemma {:induction false} DropsRight(core: string, right: string)
    requires Spaces(right) && core != "" && !Spaces([core[|core| - 1]])
    ensures DropRight(core + right) == core
  {
    if right == "" {
      assert core + right == core;
    } else {
      assert (core + right)[..|core + right| - 1] == core + right[..|right| - 1];
      DropsRight(core, right[..|right| - 1]);
    }
  }

  /** The index after the first slash at or after `i`, if there is one. */
  function NextCut(s: string, i: nat): (n: nat)
    requires i <= |s|
    ensures i <= n <= |s| + 1
    ensures n <= |s| ==> i < n && s[n - 1] == '/'
    ensures forall k :: i <= k < n - 1 && k < |s| ==> s[k] != '/'
    decreases |s| - i
  {
    if i == |s| then |s| + 1 else if s[i] == '/' then i + 1 else NextCut(s, i + 1)
  }

  /** `PricingTable.get`: try the name, then what follows each slash. */
  method Lookup(table: Table, model: Option<string>) returns (hit: Option<Rates>)
    ensures model.None? || model.value == "" ==> hit == None
    ensures model.Some? && model.value != "" ==> Finds(table, Strip(model.value), hit)
  {
    if model.None? || model.value == "" {
      return None;
    }
    var name := Strip(model.value);
    var i := 0;
    while i < |name|
      invariant 0 <= i <= |name| && Cut(name, i)
      invariant forall k :: 0 <= k < i && Cut(name, k) ==> name[k..] !in table
    {
      var candidate := name[i..];
      if candidate in table {
        hit := Some(table[candidate]);
        return;
      }
      var next := NextCut(name, i);
      if next > |name| {
        assert forall k :: i < k < |name| ==> !Cut(name, k);
        return None;
      }
      assert forall k :: i < k < next ==> !Cut(name, k);
      i := next;
    }
    hit := None;
  }

  /** Where a candidate starts: at the front or behind a slash. */
  predicate Cut(s: string, i: nat) {
    i == 0 || (i <= |s| && s[i - 1] == '/')
  }

  /** The hit is the entry of the longest non-empty candidate in the table; without one there is no hit. */
  ghost predicate Finds(table: Table, name: string, hit: Option<Rates>) {
    if hit.None? then forall i :: 0 <= i < |name| && Cut(name, i) ==> name[i..] !in table
    else exists i :: && 0 <= i < |name| && Cut(name, i) && name[i..] in table && table[name[i..]] == hit.value
                     && forall k :: 0 <= k < i && Cut(name, k) ==> name[k..] !in table
  }

  function Prefixed(provider: string, name: string): (long: string)
    ensures |long| == |provider| + 1 + |name|
  {
    provider + "/" + name
  }

  /** The candidates of a prefixed name: the whole of it, and those of the name itself. */
  lemma PrefixedCuts(provider: string, name: string, i: nat)
    requires '/' !in provider && i <= |Prefixed(provider, name)|
    ensures 0 < i <= |provider| ==> !Cut(Prefixed(provider, name), i)
    ensures i > |provider| ==> Prefixed(provider, name)[i..] == name[i - |provider| - 1..]
    ensures i > |provider| ==> (Cut(Prefixed(provider, name), i) <==> Cut(name, i - |provider| - 1))
  {
    var long, n := Prefixed(provider, name), |provider| + 1;
    if 0 < i < n {
      assert long[i - 1] == provider[i - 1];
    } else if i > n {
      assert long[i - 1] == name[i - n - 1];
    }
  }

  lemma NoEarlierHit(table: Table, provider: string, name: string, i: nat)
    requires '/' !in provider && Prefixed(provider, name) !in table && i <= |name|
    requires forall k :: 0 <= k < i && Cut(name, k) ==> name[k..] !in table
    ensures forall k :: 0 <= k < i + |provider| + 1 && Cut(Prefixed(provider, name), k) ==> Prefixed(provider, name)[k..] !in table
  {
    var long, n := Prefixed(provider, name), |provider| + 1;
    forall k | 0 <= k < i + n && Cut(long, k)
      ensures long[k..] !in table
    {
      PrefixedCuts(provider, name, k);
      if k >= n {
        assert Cut(name, k - n);
      } else {
        assert k == 0 && long[0..] == long;
      }
    }
  }

  /** Prefixing a name with a provider does not change what is found, unless the table prices the longer
      name itself. */
  lemma ProviderPrefixIsIgnored(table: Table, provider: string, name: string, hit: Option<Rates>)
    requires Finds(table, name, hit) && '/' !in provider && Prefixed(provider, name) !in table
    ensures Finds(table, Prefixed(provider, name), hit)
  {
    var n, long := |provider| + 1, Prefixed(provider, name);
    if hit.Some? {
      var i :| 0 <= i < |name| && Cut(name, i) && name[i..] in table && table[name[i..]] == hit.value
               && forall k :: 0 <= k < i && Cut(name, k) ==> name[k..] !in table;
      NoEarlierHit(table, provider, name, i);
      PrefixedCuts(provider, name, i + n);
      assert Cut(long, i + n) && long[i + n..] == name[i..];
    } else {
      NoEarlierHit(table, provider, name, |name|);
    }
  }
}
