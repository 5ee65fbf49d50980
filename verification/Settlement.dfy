/** Whether a tool result is charged, and how an uncharged one is marked. */
module SettlementRules {
  import opened Wrappers

  datatype Json =
    | Null
    | Bool(b: bool)
    | Number(n: real)
    | Text(s: string)
    | Array(items: seq<Json>)
    | Object(fields: map<string, Json>)

  /** The `content` rule: `equals` is None when its text is missing. */
  datatype ContentRule = ContentRule(path: string, equals: Option<string>, pattern: string)

  datatype Policy = Absent | Malformed | Policy(script: string, content: Option<ContentRule>)

  datatype Block = TextBlock(text: string) | OtherBlock(id: nat)

  /** Foreign verdicts: the script sandbox, the pattern matcher, JSON decoding, and printing with %v. */
  datatype Host = Host(
    script: (string, string, bool) -> bool,
    pattern: (string, string) -> bool,
    parse: string -> Option<Json>,
    render: Json -> string)

  // ---- The declarative rule as a specification ----

  function JoinText(content: seq<Block>): string {
    if content == [] then ""
    else
      var before, last := JoinText(content[..|content| - 1]), content[|content| - 1];
      if last.TextBlock? then before + last.text else before
  }

  /** Split at every dot; always at least one segment. */
  function Segments(path: string): (r: seq<string>)
    ensures r != []
  {
    if path == "" then [""]
    else
      var rest := Segments(path[1..]);
      if path[0] == '.' then [""] + rest else [[path[0]] + rest[0]] + rest[1..]
  }

  function At(document: Json, segments: seq<string>): Option<Json> {
    if segments == [] then Some(document)
    else if document.Object? && segments[0] in document.fields then At(document.fields[segments[0]], segments[1..])
    else None
  }

  /** Numbers compare as numbers, everything else by its printed form. */
  predicate Matches(current: Json, candidate: Json, render: Json -> string) {
    if current.Number? then candidate.Number? && current.n == candidate.n
    else render(current) == render(candidate)
  }

  /** A list of expected values means any of them. */
  function Candidates(expected: Json): seq<Json> {
    if expected.Array? then expected.items else [expected]
  }

  predicate ContentHolds(rule: ContentRule, text: string, host: Host) {
    if rule.pattern != "" then host.pattern(rule.pattern, text)
    else if rule.path == "" || rule.equals.None? then true
    else
      && host.parse(text).Some?
      && At(host.parse(text).value, Segments(rule.path)).Some?
      && host.parse(rule.equals.value).Some?
      && exists c <- Candidates(host.parse(rule.equals.value).value) ::
           Matches(At(host.parse(text).value, Segments(rule.path)).value, c, host.render)
  }

  /** An upstream error is never charged; otherwise a script decides, else a content rule, else the call is charged. */
  predicate Settled(policy: Policy, isError: bool, content: seq<Block>, host: Host) {
    !isError &&
    match policy
    case Absent => true
    case Malformed => true
    case Policy(script, rule) =>
      if script != "" then host.script(script, JoinText(content), false)
      else rule.None? || ContentHolds(rule.value, JoinText(content), host)
  }

  // ---- The evaluator ----

  method SettleResult(policy: Policy, isError: bool, content: seq<Block>, host: Host) returns (charged: bool)
    ensures charged == Settled(policy, isError, content, host)
  {
    if isError || policy.Absent? {
      return !isError;
    }
    var text := "";
    for i := 0 to |content|
      invariant text == JoinText(content[..i])
    {
      assert content[..i + 1][..i] == content[..i];
      if content[i].TextBlock? {
        text := text + content[i].text;
      }
    }
    assert content[..|content|] == content;
    if policy.Malformed? {
      return true;
    }
    if policy.script != "" {
      return host.script(policy.script, text, isError);
    }
    if policy.content.None? {
      return true;
    }
    var rule := policy.content.value;
    if rule.pattern != "" {
      return host.pattern(rule.pattern, text);
    }
    if rule.path == "" || rule.equals.None? {
      return true;
    }
    var document := host.parse(text);
    if document.None? {
      return false;
    }
    var current, segments := document.value, Segments(rule.path);
    for i := 0 to |segments|
      invariant At(document.value, segments) == At(current, segments[i..])
    {
      assert segments[i..][1..] == segments[i + 1..];
      if !current.Object? || segments[i] !in current.fields {
        return false;
      }
      current := current.fields[segments[i]];
    }
    var expected := host.parse(rule.equals.value);
    if expected.None? {
      return false;
    }
    var values := [expected.value];
    if expected.value.Array? {
      values := expected.value.items;
    }
    for i := 0 to |values|
      invariant forall k | 0 <= k < i :: !Matches(current, values[k], host.render)
    {
      if current.Number? {
        if values[i].Number? && current.n == values[i].n {
          assert Matches(current, values[i], host.render) && values[i] in Candidates(expected.value);
          return true;
        }
        continue;
      }
      if host.render(current) == host.render(values[i]) {
        assert Matches(current, values[i], host.render) && values[i] in Candidates(expected.value);
        return true;
      }
    }
    return false;
  }

  // ---- Marking a result that was not charged ----

  const OWN_PREFIX := "[pluginpocket]"
  const UNSETTLED := "[pluginpocket] 结算检查未通过，本次不扣费："

  function MarkBlock(b: Block): Block {
    if b.TextBlock? && !(OWN_PREFIX <= b.text) then TextBlock(UNSETTLED + b.text) else b
  }

  function MarkBlocks(content: seq<Block>): seq<Block> {
    seq(|content|, i requires 0 <= i < |content| => MarkBlock(content[i]))
  }

  class ToolResult {
    var isError: bool
    var content: seq<Block>

    constructor (isError: bool, content: seq<Block>)
      ensures this.isError == isError && this.content == content
    {
      this.isError, this.content := isError, content;
    }

    method MarkUnsettled()
      modifies this
      ensures isError && content == if old(isError) then old(content) else MarkBlocks(old(content))
    {
      if isError {
        return;
      }
      isError := true;
      for i := 0 to |content|
        invariant |content| == |old(content)| && isError
        invariant forall k | 0 <= k < |content| ::
                    content[k] == if k < i then MarkBlock(old(content[k])) else old(content[k])
      {
        if content[i].TextBlock? && !(OWN_PREFIX <= content[i].text) {
          content := content[i := TextBlock(UNSETTLED + content[i].text)];
        }
      }
    }
  }

  /** Marking keeps every block visible in place, says so once, and changes nothing the second time. */
  lemma MarkingKeepsContent(content: seq<Block>)
    ensures var marked := MarkBlocks(content);
            && |marked| == |content| && MarkBlocks(marked) == marked
            && forall i | 0 <= i < |content| ::
                 if content[i].OtherBlock? then marked[i] == content[i]
                 else marked[i].TextBlock? && OWN_PREFIX <= marked[i].text
                      && (marked[i].text == content[i].text || marked[i].text == UNSETTLED + content[i].text)
  {
    var marked := MarkBlocks(content);
    forall i | 0 <= i < |content|
      ensures MarkBlock(marked[i]) == marked[i] && (content[i].TextBlock? ==> OWN_PREFIX <= marked[i].text)
    {
      if content[i].TextBlock? && !(OWN_PREFIX <= content[i].text) {
        assert UNSETTLED[..|OWN_PREFIX|] == OWN_PREFIX;
        assert marked[i].text[..|OWN_PREFIX|] == OWN_PREFIX;
      }
    }
  }
}
