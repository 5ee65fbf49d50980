/** Public tool names: `provider__tool`, with every underscore of the provider key escaped. */
module ToolNames {
  import opened Wrappers

  const SEPARATOR := "__"

  /** strings.ReplaceAll(key, "_", "_u") */
  function Escape(key: string): string {
    if key == "" then ""
    else (if key[0] == '_' then "_u" else [key[0]]) + Escape(key[1..])
  }

  function RemoteName(key: string, tool: string): string {
    Escape(key) + SEPARATOR + tool
  }

  // ---- Reading a public name back ----

  /** Where the first double underscore starts. */
  function FirstSeparator(s: string): (i: Option<nat>)
    ensures i.Some? ==> i.value + 2 <= |s| && s[i.value] == '_' && s[i.value + 1] == '_'
    ensures i.Some? ==> forall k | 0 <= k < i.value :: !(s[k] == '_' && s[k + 1] == '_')
    ensures i.None? ==> forall k | 0 <= k < |s| - 1 :: !(s[k] == '_' && s[k + 1] == '_')
  {
    if |s| < 2 then None
    else if s[0] == '_' && s[1] == '_' then Some(0)
    else
      match FirstSeparator(s[1..])
      case None => None
      case Some(i) =>
        assert forall k | 0 < k < i + 1 :: s[k] == s[1..][k - 1];
        Some(i + 1)
  }

  function Unescape(s: string): string {
    if s == "" then ""
    else if |s| >= 2 && s[0] == '_' && s[1] == 'u' then "_" + Unescape(s[2..])
    else [s[0]] + Unescape(s[1..])
  }

  function Parse(name: string): Option<(string, string)> {
    match FirstSeparator(name)
    case None => None
    case Some(i) => Some((Unescape(name[..i]), name[i + 2..]))
  }

  // ---- Proofs ----

  lemma {:induction false} UnescapeEscape(key: string)
    ensures Unescape(Escape(key)) == key
  {
    if key != "" {
      UnescapeEscape(key[1..]);
      var rest := Escape(key[1..]);
      if key[0] == '_' {
        assert ("_u" + rest)[2..] == rest;
      } else {
        assert ([key[0]] + rest)[1..] == rest;
      }
    }
  }

  /** An escaped key has no underscore at its end and none before another. */
  lemma {:induction false} EscapedUnderscores(key: string)
    ensures forall i | 0 <= i < |Escape(key)| && Escape(key)[i] == '_' ::
              i + 1 < |Escape(key)| && Escape(key)[i + 1] == 'u'
  {
    if key != "" {
      EscapedUnderscores(key[1..]);
      var head := if key[0] == '_' then "_u" else [key[0]];
      var rest := Escape(key[1..]);
      forall i | 0 <= i < |head + rest| && (head + rest)[i] == '_'
        ensures i + 1 < |head + rest| && (head + rest)[i + 1] == 'u'
      {
        if i >= |head| {
          assert rest[i - |head|] == '_';
        }
      }
    }
  }

  /** Splitting at the first double underscore and undoing the escape recovers provider and tool, for all strings. */
  lemma ParseRemoteName(key: string, tool: string)
    ensures Parse(RemoteName(key, tool)) == Some((key, tool))
  {
    var name, n := RemoteName(key, tool), |Escape(key)|;
    EscapedUnderscores(key);
    UnescapeEscape(key);
    assert forall k | 0 <= k < n :: name[k] == Escape(key)[k];
    assert name[n] == '_' && name[n + 1] == '_';
    forall k | 0 <= k < n ensures !(name[k] == '_' && name[k + 1] == '_') {
      if name[k] == '_' {
        assert Escape(key)[k + 1] == 'u';
      }
    }
    assert FirstSeparator(name) == Some(n);
    assert name[..n] == Escape(key);
    assert name[n + 2..] == tool;
  }

  /** An underscore of the key comes out as `_u`, and every other character as it is. */
  lemma {:induction false} EscapeAt(a: string, b: string)
    ensures Escape(a + "_" + b) == Escape(a) + "_u" + Escape(b)
    ensures '_' !in a ==> Escape(a) == a
  {
    if a == "" {
      assert ("" + "_" + b)[1..] == b;
    } else {
      EscapeAt(a[1..], b);
      var whole := a + "_" + b;
      assert whole[0] == a[0] && whole[1..] == a[1..] + "_" + b;
      assert a == [a[0]] + a[1..];
      var head := if a[0] == '_' then "_u" else [a[0]];
      assert head + (Escape(a[1..]) + "_u" + Escape(b)) == (head + Escape(a[1..])) + "_u" + Escape(b);
    }
  }

  /** A key without underscores stands in the public name as it is. */
  lemma PlainName(key: string, tool: string)
    requires '_' !in key
    ensures RemoteName(key, tool) == key + "__" + tool
  {
    EscapeAt(key, "");
  }

  lemma RemoteNamesUnique(key: string, tool: string, key': string, tool': string)
    ensures RemoteName(key, tool) == RemoteName(key', tool') <==> key == key' && tool == tool'
  {
    ParseRemoteName(key, tool);
    ParseRemoteName(key', tool');
  }

  /** A builtin key without a double underscore is never the public name of a remote tool. */
  lemma BuiltinNamesApart(builtin: string, key: string, tool: string)
    requires FirstSeparator(builtin).None?
    ensures builtin != RemoteName(key, tool)
  {
    ParseRemoteName(key, tool);
  }

  // ---- The duplicate check ----

  ghost predicate Distinct(names: seq<string>) {
    forall i, j | 0 <= i < j < |names| :: names[i] != names[j]
  }

  function Concat(groups: seq<seq<string>>): seq<string> {
    if groups == [] then [] else Concat(groups[..|groups| - 1]) + groups[|groups| - 1]
  }

  lemma ConcatStep(groups: seq<seq<string>>, g: nat, j: nat)
    requires g < |groups| && j < |groups[g]|
    ensures Concat(groups[..g]) + groups[g][..j + 1] == Concat(groups[..g]) + groups[g][..j] + [groups[g][j]]
    ensures Concat(groups[..g + 1]) == Concat(groups[..g]) + groups[g]
  {
    assert groups[..g + 1][..g] == groups[..g];
  }

  /** Appends a page's names to those of the earlier pages, stopping at the first one already taken. */
  method Collect(earlier: seq<string>, groups: seq<seq<string>>) returns (all: Option<seq<string>>)
    requires Distinct(earlier)
    ensures all.Some? <==> Distinct(earlier + Concat(groups))
    ensures all.Some? ==> all.value == earlier + Concat(groups)
  {
    var names := (set n | n in earlier);
    var list := earlier;
    for g := 0 to |groups|
      invariant list == earlier + Concat(groups[..g]) && Distinct(list)
      invariant names == (set n | n in list)
    {
      for j := 0 to |groups[g]|
        invariant list == earlier + (Concat(groups[..g]) + groups[g][..j]) && Distinct(list)
        invariant names == (set n | n in list)
      {
        ConcatStep(groups, g, j);
        var name := groups[g][j];
        if name in names {
          Clash(earlier, groups, g, j);
          return None;
        }
        names, list := names + {name}, list + [name];
      }
      assert groups[g][..|groups[g]|] == groups[g];
      assert groups[..g + 1][..g] == groups[..g];
    }
    assert groups[..|groups|] == groups;
    return Some(list);
  }

  lemma {:induction false} ConcatPrefix(groups: seq<seq<string>>, g: nat)
    requires g <= |groups|
    ensures Concat(groups[..g]) <= Concat(groups)
  {
    if g == |groups| {
      assert groups[..g] == groups;
    } else {
      var init := groups[..|groups| - 1];
      ConcatPrefix(init, g);
      assert init[..g] == groups[..g];
    }
  }

  lemma Clash(earlier: seq<string>, groups: seq<seq<string>>, g: nat, j: nat)
    requires g < |groups| && j < |groups[g]|
    requires groups[g][j] in earlier + (Concat(groups[..g]) + groups[g][..j])
    ensures !Distinct(earlier + Concat(groups))
  {
    var before := earlier + (Concat(groups[..g]) + groups[g][..j]);
    ConcatPrefix(groups, g + 1);
    assert groups[..g + 1][..g] == groups[..g];
    var all := earlier + Concat(groups);
    assert before + [groups[g][j]] <= all by {
      assert groups[g][..j] + [groups[g][j]] == groups[g][..j + 1];
      assert groups[g] == groups[g][..j + 1] + groups[g][j + 1..];
    }
    var i :| 0 <= i < |before| && before[i] == groups[g][j];
    assert all[i] == all[|before|];
  }
}
