/** What the settlement rules look at: the text of a result, the value at a dotted path, and which verdict decides. */
module SettlementMeaning {
  import opened Wrappers
  import opened SettlementRules

  // ---- The text ----

  /** The text of a result is its text blocks, one after the other, and nothing else. */
  lemma {:induction false} TextIsConcatenation(a: seq<Block>, b: seq<Block>)
    ensures JoinText(a + b) == JoinText(a) + JoinText(b)
    ensures |a| == 1 ==> JoinText(a) == if a[0].TextBlock? then a[0].text else ""
    ensures JoinText([]) == ""
  {
    if b == [] {
      assert a + b == a;
    } else {
      var init := b[..|b| - 1];
      TextIsConcatenation(a, init);
      assert (a + b)[..|a + b| - 1] == a + init;
    }
    if |a| == 1 {
      assert a[..0] == [];
    }
  }

  // ---- The path ----

  function JoinDots(names: seq<string>): string
    requires names != []
  {
    if |names| == 1 then names[0] else names[0] + "." + JoinDots(names[1..])
  }

  /** The names of a path: its parts between the dots. */
  ghost predicate Dotted(names: seq<string>, path: string) {
    names != [] && (forall name <- names :: '.' !in name) && JoinDots(names) == path
  }

  lemma EmptyFirst(names: seq<string>, path: string)
    requires Dotted(names, path)
    ensures Dotted([""] + names, ['.'] + path)
  {
    assert ([""] + names)[1..] == names;
  }

  lemma LongerFirst(c: char, names: seq<string>, path: string)
    requires Dotted(names, path) && c != '.'
    ensures Dotted([[c] + names[0]] + names[1..], [c] + path)
  {
    var longer := [[c] + names[0]] + names[1..];
    assert longer[1..] == names[1..];
    forall name | name in longer ensures '.' !in name {
      if name == longer[0] {
        assert names[0] in names;
      } else {
        assert name in names;
      }
    }
    if |names| > 1 {
      assert ([c] + names[0]) + "." + JoinDots(names[1..]) == [c] + (names[0] + "." + JoinDots(names[1..]));
    }
  }

  lemma {:induction false} SegmentsDotted(path: string)
    ensures Dotted(Segments(path), path)
  {
    hide JoinDots;
    if path == "" {
      OneName("");
    } else {
      var rest := Segments(path[1..]);
      SegmentsDotted(path[1..]);
      assert path == [path[0]] + path[1..];
      if path[0] == '.' {
        EmptyFirst(rest, path[1..]);
      } else {
        LongerFirst(path[0], rest, path[1..]);
      }
    }
  }

  lemma OneName(name: string)
    requires '.' !in name
    ensures Dotted([name], name)
  {}

  /** Only one list of names has this path. */
  lemma {:induction false} DottedOnce(a: seq<string>, b: seq<string>, path: string)
    requires Dotted(a, path) && Dotted(b, path)
    ensures a == b
  {
    FirstNameLength(a);
    FirstNameLength(b);
    assert a[0] in a && b[0] in b;
    PrefixChar(path, b[0], |a[0]|);
    PrefixChar(path, a[0], |b[0]|);
    assert a[0] == path[..|a[0]|] == b[0];
    if |a| > 1 {
      var tail := path[|a[0]| + 1..];
      assert JoinDots(a[1..]) == tail && JoinDots(b[1..]) == tail;
      assert forall name <- a[1..] :: name in a;
      assert forall name <- b[1..] :: name in b;
      DottedOnce(a[1..], b[1..], tail);
      assert a == [a[0]] + a[1..] && b == [b[0]] + b[1..];
    }
  }

  lemma PrefixChar(path: string, name: string, i: nat)
    ensures i < |name| <= |path| && path[..|name|] == name ==> path[i] in name
  {
    assert i < |name| <= |path| && path[..|name|] == name ==> path[i] == name[i];
  }

  lemma FirstNameLength(names: seq<string>)
    requires names != []
    ensures var path := JoinDots(names);
            && |names[0]| <= |path| && path[..|names[0]|] == names[0]
            && (|names| == 1 ==> |path| == |names[0]|)
            && (|names| > 1 ==> |path| > |names[0]| && path[|names[0]|] == '.')
  {}

  /** Going from the document through an object for every name ends at the value. */
  ghost predicate Leads(chain: seq<Json>, document: Json, names: seq<string>, value: Json) {
    && |chain| == |names| + 1 && chain[0] == document && chain[|names|] == value
    && forall i | 0 <= i < |names| :: Under(chain[i], names[i], chain[i + 1])
  }

  predicate Under(object_: Json, name: string, value: Json) {
    object_.Object? && name in object_.fields && object_.fields[name] == value
  }

  lemma {:induction false} AtLeads(document: Json, names: seq<string>) returns (chain: seq<Json>)
    ensures At(document, names).Some? ==> Leads(chain, document, names, At(document, names).value)
  {
    chain := [document];
    if names != [] && At(document, names).Some? {
      var rest := AtLeads(document.fields[names[0]], names[1..]);
      chain := [document] + rest;
      forall i | 0 <= i < |names| ensures Under(chain[i], names[i], chain[i + 1]) {
        if i > 0 { assert Under(rest[i - 1], names[1..][i - 1], rest[i]); }
      }
    }
  }

  lemma {:induction false} LeadsAt(chain: seq<Json>, document: Json, names: seq<string>, value: Json)
    requires Leads(chain, document, names, value)
    ensures At(document, names) == Some(value)
  {
    if names != [] {
      assert Under(chain[0], names[0], chain[1]);
      forall i | 0 <= i < |names| - 1 ensures Under(chain[1..][i], names[1..][i], chain[1..][i + 1]) {
        assert Under(chain[i + 1], names[i + 1], chain[i + 2]);
      }
      LeadsAt(chain[1..], chain[1], names[1..], value);
    }
  }

  // ---- The verdict ----

  /** Numbers are equal as numbers; any other value equals what prints the same. */
  predicate SameValue(found: Json, wanted: Json, host: Host) {
    match found
    case Number(n) => wanted == Number(n)
    case _ => host.render(found) == host.render(wanted)
  }

  /** The value is the wanted one, or one of a list of them. */
  ghost predicate OneOf(found: Json, wanted: Json, host: Host) {
    match wanted
    case Array(items) => exists i :: 0 <= i < |items| && SameValue(found, items[i], host)
    case _ => SameValue(found, wanted, host)
  }

  /** The text is JSON, the path leads to a value in it, and that value is one of those expected. */
  ghost predicate ValueExpected(path: string, equals: string, text: string, host: Host) {
    exists document, wanted, names, chain, found ::
      && host.parse(text) == Some(document) && host.parse(equals) == Some(wanted)
      && Dotted(names, path) && Leads(chain, document, names, found) && OneOf(found, wanted, host)
  }

  /** Whose word counts: the script's if there is one, else the pattern's, else the expected value's, else nobody's. */
  ghost predicate Passes(policy: Policy, content: seq<Block>, host: Host) {
    match policy
    case Absent => true
    case Malformed => true
    case Policy(script, rule) =>
      var text := JoinText(content);
      if |script| > 0 then host.script(script, text, false)
      else
        match rule
        case None => true
        case Some(ContentRule(path, equals, pattern)) =>
          if |pattern| > 0 then host.pattern(pattern, text)
          else |path| == 0 || equals.None? || ValueExpected(path, equals.value, text, host)
  }

  lemma ExpectedIff(path: string, equals: string, text: string, host: Host)
    requires path != ""
    ensures ContentHolds(ContentRule(path, Some(equals), ""), text, host) <==> ValueExpected(path, equals, text, host)
  {
    var names := Segments(path);
    SegmentsDotted(path);
    if ContentHolds(ContentRule(path, Some(equals), ""), text, host) {
      var document, wanted := host.parse(text).value, host.parse(equals).value;
      var chain := AtLeads(document, names);
      var found := At(document, names).value;
      var c :| c in Candidates(wanted) && Matches(found, c, host.render);
      assert OneOf(found, wanted, host);
      assert Leads(chain, document, names, found);
    }
    if ValueExpected(path, equals, text, host) {
      var document, wanted, others, chain, found :|
        && host.parse(text) == Some(document) && host.parse(equals) == Some(wanted)
        && Dotted(others, path) && Leads(chain, document, others, found) && OneOf(found, wanted, host);
      DottedOnce(others, names, path);
      LeadsAt(chain, document, names, found);
      AnyCandidate(found, wanted, host);
    }
  }

  lemma AnyCandidate(found: Json, wanted: Json, host: Host)
    requires OneOf(found, wanted, host)
    ensures exists c <- Candidates(wanted) :: Matches(found, c, host.render)
  {
    if wanted.Array? {
      var i :| 0 <= i < |wanted.items| && SameValue(found, wanted.items[i], host);
      assert wanted.items[i] in Candidates(wanted) && Matches(found, wanted.items[i], host.render);
    } else {
      assert wanted in Candidates(wanted) && Matches(found, wanted, host.render);
    }
  }

  /** A result is charged exactly if the upstream did not fail and the verdict that counts is favourable. */
  lemma ChargedIff(policy: Policy, isError: bool, content: seq<Block>, host: Host)
    ensures Settled(policy, isError, content, host) <==> !isError && Passes(policy, content, host)
  {
    if policy.Policy? && policy.content.Some? {
      var rule := policy.content.value;
      if rule.path != "" && rule.equals.Some? && rule.pattern == "" {
        ExpectedIff(rule.path, rule.equals.value, JoinText(content), host);
      }
    }
  }
}
