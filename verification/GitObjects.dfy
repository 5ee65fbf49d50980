/** Git's object format: typed objects, tree entries, commits, and the table they are stored in. */
module GitObjects {
  import opened Wrappers
  import opened ByteStrings

  /** SHA-1 and zlib. A digest has twenty bytes; inflating undoes deflating. */
  datatype Env = Env(sha: string -> string, deflate: string -> string, inflate: string -> string) {
    ghost predicate Sound() {
      && (forall s: string :: |sha(s)| == 20 && IsBytes(sha(s)))
      && (forall s: string :: inflate(deflate(s)) == s)
    }
  }

  /** No two of these objects share a digest. */
  ghost predicate CollisionFree(env: Env, objects: set<string>) {
    forall a, b | a in objects && b in objects && env.sha(a) == env.sha(b) :: a == b
  }

  // ---- Objects ----

  function Full(kind: string, content: string): string {
    kind + " " + Decimal(|content|) + [NUL] + content
  }

  function ParseObject(full: string): Option<(string, string)> {
    match Cut(full, ' ')
    case None => None
    case Some(typed) =>
      match Cut(typed.1, NUL)
      case None => None
      case Some(sized) => if sized.0 == Decimal(|sized.1|) then Some((typed.0, sized.1)) else None
  }

  lemma ObjectRoundTrip(kind: string, content: string)
    requires ' ' !in kind
    ensures ParseObject(Full(kind, content)) == Some((kind, content))
  {
    var digits := Decimal(|content|);
    var rest := digits + [NUL] + content;
    assert Full(kind, content) == kind + [' '] + rest;
    CutFirst(kind, ' ', rest);
    CutFirst(digits, NUL, content);
  }

  // ---- Tree entries ----

  datatype Entry = Entry(mode: string, name: string, sum: string) {
    predicate Valid() { ' ' !in mode && NUL !in name && |sum| == 20 }

    function Bytes(): string { mode + " " + name + [NUL] + sum }
  }

  function Encode(entries: seq<Entry>): string {
    if entries == [] then "" else entries[0].Bytes() + Encode(entries[1..])
  }

  function ParseEntries(s: string): Option<seq<Entry>>
    decreases |s|
  {
    if s == "" then Some([])
    else
      match Cut(s, ' ')
      case None => None
      case Some(moded) =>
        match Cut(moded.1, NUL)
        case None => None
        case Some(named) =>
          if |named.1| < 20 then None
          else
            match ParseEntries(named.1[20..])
            case None => None
            case Some(rest) => Some([Entry(moded.0, named.0, named.1[..20])] + rest)
  }

  ghost predicate AllValid(entries: seq<Entry>) {
    forall i | 0 <= i < |entries| :: entries[i].Valid()
  }

  lemma FirstEntry(mode: string, name: string, sum: string, tail: string)
    requires ' ' !in mode && NUL !in name && |sum| == 20
    ensures var cut := Cut(mode + " " + name + [NUL] + sum + tail, ' ');
            cut.Some? && cut.value.0 == mode && Cut(cut.value.1, NUL) == Some((name, sum + tail))
  {
    var named := name + [NUL] + (sum + tail);
    assert mode + " " + name + [NUL] + sum + tail == mode + [' '] + named;
    CutFirst(mode, ' ', named);
    CutFirst(name, NUL, sum + tail);
  }

  lemma {:induction false} EntriesRoundTrip(entries: seq<Entry>)
    requires AllValid(entries)
    ensures ParseEntries(Encode(entries)) == Some(entries)
  {
    if entries != [] {
      var e, tail := entries[0], Encode(entries[1..]);
      EntriesRoundTrip(entries[1..]);
      assert e.Valid();
      FirstEntry(e.mode, e.name, e.sum, tail);
      assert (e.sum + tail)[20..] == tail && (e.sum + tail)[..20] == e.sum;
      assert entries == [e] + entries[1..];
    }
  }

  // ---- Commits ----

  function Identity(timestamp: nat): string {
    "PluginPocket Marketplace <marketplace@pluginpocket.dev> " + Decimal(timestamp) + " +0000"
  }

  function Signature(timestamp: nat): string {
    "author " + Identity(timestamp) + "\ncommitter " + Identity(timestamp) + "\n\nPluginPocket marketplace snapshot\n"
  }

  function HeaderText(field: string, sum: string): string
    requires IsBytes(sum)
  {
    field + " " + Hex(sum) + "\n"
  }

  /** What follows the tree and parent lines starts with another header. */
  predicate EndsParents(signature: string) {
    HeaderLine(signature, "parent").None?
  }

  function CommitText(tree: string, parent: Option<string>, signature: string): string
    requires IsBytes(tree) && (parent.Some? ==> IsBytes(parent.value))
  {
    var header := HeaderText("tree", tree);
    (if parent.Some? then header + HeaderText("parent", parent.value) else header) + signature
  }

  /** The tree and the parents named by the header lines of a commit. */
  datatype Commit = Commit(tree: string, parents: seq<string>)

  function HeaderLine(text: string, field: string): (r: Option<(string, string)>)
    ensures r.Some? ==> |r.value.1| < |text|
  {
    match Cut(text, ' ')
    case None => None
    case Some(named) =>
      if named.0 != field then None
      else
        match Cut(named.1, '\n')
        case None => None
        case Some(line) =>
          match Unhex(line.0)
          case None => None
          case Some(sum) => if |sum| == 20 then Some((sum, line.1)) else None
  }

  function ParentLines(text: string): (r: (seq<string>, string))
    decreases |text|
  {
    match HeaderLine(text, "parent")
    case None => ([], text)
    case Some(line) =>
      var rest := ParentLines(line.1);
      ([line.0] + rest.0, rest.1)
  }

  function ParseCommit(text: string): Option<Commit> {
    match HeaderLine(text, "tree")
    case None => None
    case Some(line) => Some(Commit(line.0, ParentLines(line.1).0))
  }

  lemma HeaderRoundTrip(field: string, sum: string, rest: string)
    requires ' ' !in field && IsBytes(sum) && |sum| == 20
    ensures HeaderLine(HeaderText(field, sum) + rest, field) == Some((sum, rest))
  {
    var line := Hex(sum) + ['\n'] + rest;
    assert HeaderText(field, sum) + rest == field + [' '] + line;
    CutFirst(field, ' ', line);
    HexDigits(sum);
    CutFirst(Hex(sum), '\n', rest);
    UnhexHex(sum);
  }

  /** The signature is no header that the parser looks for. */
  lemma SignatureEndsParents(timestamp: nat)
    ensures EndsParents(Signature(timestamp))
  {
    var rest := Identity(timestamp) + "\ncommitter " + Identity(timestamp) + "\n\nPluginPocket marketplace snapshot\n";
    assert Signature(timestamp) == "author" + [' '] + rest;
    CutFirst("author", ' ', rest);
    assert "author"[0] != "parent"[0];
  }

  /** One parent line, then text that starts with none. */
  lemma OneParent(p: string, rest: string)
    requires IsBytes(p) && |p| == 20 && EndsParents(rest)
    ensures ParentLines(HeaderText("parent", p) + rest) == ([p], rest)
  {
    HeaderRoundTrip("parent", p, rest);
    assert ParentLines(rest) == ([], rest);
    assert [p] + ParentLines(rest).0 == [p];
  }

  lemma CommitRoundTrip(tree: string, parent: Option<string>, signature: string)
    requires EndsParents(signature)
    requires IsBytes(tree) && |tree| == 20 && (parent.Some? ==> IsBytes(parent.value) && |parent.value| == 20)
    ensures ParseCommit(CommitText(tree, parent, signature))
         == Some(Commit(tree, if parent.Some? then [parent.value] else []))
  {
    var header := HeaderText("tree", tree);
    match parent
    case None =>
      HeaderRoundTrip("tree", tree, signature);
    case Some(p) =>
      var line := HeaderText("parent", p);
      assert header + line + signature == header + (line + signature);
      HeaderRoundTrip("tree", tree, line + signature);
      OneParent(p, signature);
  }

  // ---- References ----

  function RefsLine(tip: string): string
    requires IsBytes(tip)
  {
    Hex(tip) + "\trefs/heads/main\n"
  }

  /** The commit named by info/refs, if it names one. */
  function GitTip(refs: string): (tip: Option<string>)
    ensures tip.Some? ==> |tip.value| == 20 && IsBytes(tip.value)
  {
    match Unhex(FirstField(TrimSpace(refs)))
    case None => None
    case Some(raw) => if |raw| == 20 then Some(raw) else None
  }

  function FirstField(line: string): string {
    match Cut(line, '\t') case None => line case Some(cut) => cut.0
  }

  /**
   * It reads a commit exactly when the text, without the white space around it, is forty digits of either case up to
   * its first tab or its end; the commit is the one they spell.
   */
  lemma TipExact(refs: string) returns (lead: string, name: string, rest: string, tail: string)
    ensures refs == lead + (name + rest) + tail && White(lead) && White(tail)
    ensures LeadingSpace(name + rest) == 0 && TrailingSpace(name + rest) == 0
    ensures '\t' !in name && (rest == "" || rest[0] == '\t')
    ensures GitTip(refs).Some? <==> |name| == 40 && AllHex(name)
    ensures GitTip(refs).Some? ==> Spells(name, GitTip(refs).value)
  {
    lead, tail := Trimmed(refs);
    name, rest := FieldSplit(TrimSpace(refs));
    UnhexExact(name);
  }

  lemma FieldSplit(line: string) returns (name: string, rest: string)
    ensures line == name + rest && name == FirstField(line)
    ensures '\t' !in name && (rest == "" || rest[0] == '\t')
  {
    CutExact(line, '\t');
    name := FirstField(line);
    rest := line[|name|..];
  }

  lemma TipRoundTrip(tip: string)
    requires IsBytes(tip) && |tip| == 20
    ensures GitTip(RefsLine(tip)) == Some(tip)
  {
    HexDigits(tip);
    var h := Hex(tip);
    var line := h + ['\t'] + "refs/heads/main";
    var refs := RefsLine(tip);
    assert refs == line + ['\n'];
    assert refs[0] == h[0] && h[0] in h;
    assert refs[..|refs| - 1] == line;
    assert line[0] == h[0] && line[|line| - 1] == 'n';
    assert TrimSpace(line) == line;
    assert TrimSpace(refs) == line;
    CutFirst(h, '\t', "refs/heads/main");
    UnhexHex(tip);
  }

  // ---- The object table ----

  function ObjectPath(sum: string): (path: string)
    requires |sum| == 20 && IsBytes(sum)
    ensures |path| == 49
  {
    "objects/" + Hex(sum[..1]) + "/" + Hex(sum[1..])
  }

  lemma ObjectPathInjective(a: string, b: string)
    requires |a| == 20 && IsBytes(a) && |b| == 20 && IsBytes(b) && ObjectPath(a) == ObjectPath(b)
    ensures a == b
  {
    var p, q := ObjectPath(a), ObjectPath(b);
    assert p[8..10] == Hex(a[..1]) && p[11..] == Hex(a[1..]);
    assert q[8..10] == Hex(b[..1]) && q[11..] == Hex(b[1..]);
    UnhexHex(a[..1]);
    UnhexHex(b[..1]);
    UnhexHex(a[1..]);
    UnhexHex(b[1..]);
    assert a == a[..1] + a[1..] && b == b[..1] + b[1..];
  }

  /** Storing objects one after the other, each under the path of its digest. */
  function StoreAll(env: Env, files: map<string, string>, objects: seq<string>): map<string, string>
    requires env.Sound()
  {
    if objects == [] then files
    else
      var rest := StoreAll(env, files, objects[..|objects| - 1]);
      rest[ObjectPath(env.sha(objects[|objects| - 1])) := env.deflate(objects[|objects| - 1])]
  }

  predicate Holds(env: Env, files: map<string, string>, full: string)
    requires env.Sound()
  {
    var path := ObjectPath(env.sha(full));
    path in files && files[path] == env.deflate(full)
  }

  ghost predicate HoldsAll(env: Env, files: map<string, string>, objects: seq<string>)
    requires env.Sound()
  {
    forall o <- objects :: Holds(env, files, o)
  }

  /** What a client gets for a digest. */
  function Fetch(env: Env, files: map<string, string>, sum: string): Option<string> {
    if |sum| == 20 && IsBytes(sum) && ObjectPath(sum) in files then Some(env.inflate(files[ObjectPath(sum)])) else None
  }
}
