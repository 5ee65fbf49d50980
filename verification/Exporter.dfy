/** The exporter: which entries are rendered, under which paths, and which are skipped and why. */
module Exporter {
  import opened Wrappers
  import opened GitOrder

  datatype Kind = Skill | Mcp | Bundle(includes: Option<seq<string>>) | UnknownKind

  /** One marketplace entry with its skill files resolved; a bundle carries those of its members. */
  datatype ExportInput = ExportInput(
    slug: string, kind: Kind, transport: string, endpoint: string,
    files: map<string, string>, memberFiles: map<string, map<string, string>>)

  datatype Server = Direct(url: string) | Bridge

  datatype Reason =
    | InvalidSlug | SkillFilesUnresolved | NoHttpEndpoint | InvalidBundle | UnrenderedKind | MarketplaceEmpty
    | MemberMissing(member: string) | MemberFilesUnresolved(member: string)
    | MemberNoEndpoint(member: string) | MemberUnsupported(member: string)

  datatype Skip = Skip(slug: string, reason: Reason)

  datatype Plugin = Plugin(category: string, files: map<string, string>)

  /** The JSON documents: plugin.json of an entry, and the manifest of slugs with their categories. */
  datatype Documents = Documents(
    plugin: (ExportInput, map<string, Server>, map<string, string>) -> string,
    manifest: seq<(string, string)> -> string)

  // ---- Paths ----

  const PLUGINS := "plugins"
  const SKILLS := "skills"
  const CODEX_PLUGIN := ".codex-plugin"
  const PLUGIN_JSON := "plugin.json"
  const AGENTS := ".agents"
  const MARKETPLACE_JSON := "marketplace.json"

  function SkillDir(plugin: string, skill: string): string {
    PLUGINS + "/" + plugin + "/" + SKILLS + "/" + skill + "/"
  }

  function SkillPath(plugin: string, skill: string, name: string): string {
    SkillDir(plugin, skill) + name
  }

  function PluginPath(plugin: string): string {
    PLUGINS + "/" + plugin + "/" + CODEX_PLUGIN + "/" + PLUGIN_JSON
  }

  function ManifestPath(): string {
    AGENTS + "/" + PLUGINS + "/" + MARKETPLACE_JSON
  }

  // ---- One entry ----

  predicate SlugChar(c: char) {
    'a' <= c <= 'z' || 'A' <= c <= 'Z' || '0' <= c <= '9' || c == '_' || c == '-'
  }

  /** ^[a-zA-Z0-9_-]{3,64}$ */
  predicate ValidSlug(slug: string) {
    3 <= |slug| <= 64 && forall i | 0 <= i < |slug| :: SlugChar(slug[i])
  }

  function ServerEntry(transport: string, endpoint: string): Option<Server> {
    if transport == "http" && endpoint != "" then Some(Direct(endpoint))
    else if transport == "gateway" then Some(Bridge)
    else None
  }

  predicate InDir(dir: string, path: string) {
    |path| >= |dir| && path[..|dir|] == dir
  }

  lemma InDirOf(dir: string, path: string)
    ensures InDir(dir, path) <==> exists name :: path == dir + name
    ensures InDir(dir, path) ==> path == dir + path[|dir|..]
    ensures forall name | path == dir + name :: InDir(dir, path) && path[|dir|..] == name
  {
    if InDir(dir, path) {
      assert path == dir + path[|dir|..];
    }
  }

  function PathsIn(dir: string, names: set<string>): set<string> {
    set name | name in names :: dir + name
  }

  lemma PathsInSpec(dir: string, names: set<string>, path: string)
    ensures path in PathsIn(dir, names) <==> InDir(dir, path) && path[|dir|..] in names
  {
    InDirOf(dir, path);
  }

  function PlaceIn(dir: string, files: map<string, string>): (r: map<string, string>)
  {
    map path | path in PathsIn(dir, files.Keys) :: (PathsInSpec(dir, files.Keys, path); files[path[|dir|..]])
  }

  lemma PlaceInSpec(dir: string, files: map<string, string>, path: string)
    ensures path in PlaceIn(dir, files) <==> InDir(dir, path) && path[|dir|..] in files
    ensures path in PlaceIn(dir, files)
        ==> InDir(dir, path) && path[|dir|..] in files && PlaceIn(dir, files)[path] == files[path[|dir|..]]
  {
    PathsInSpec(dir, files.Keys, path);
  }

  /** The files of one skill under the path of its plugin. */
  function Place(plugin: string, skill: string, files: map<string, string>): map<string, string> {
    PlaceIn(SkillDir(plugin, skill), files)
  }

  // ---- Bundles ----

  /** What a bundle has gathered: whether it can still be rendered, and whether its loop has stopped. */
  datatype Progress = Progress(ok: bool, stopped: bool, files: map<string, string>, servers: map<string, Server>,
                               skipped: seq<Skip>)
  {
    function Failed(slug: string, reason: Reason): Progress {
      this.(ok := false, skipped := skipped + [Skip(slug, reason)])
    }
  }

  function MemberFiles(entry: ExportInput, member: string): map<string, string> {
    if member in entry.memberFiles then entry.memberFiles[member] else map[]
  }

  function AddMember(bySlug: map<string, ExportInput>, entry: ExportInput, p: Progress, member: string): Progress {
    if member !in bySlug then p.Failed(entry.slug, MemberMissing(member)).(stopped := true)
    else
      match bySlug[member].kind
      case Skill =>
        if MemberFiles(entry, member) == map[] then p.Failed(entry.slug, MemberFilesUnresolved(member))
        else p.(files := p.files + Place(entry.slug, member, MemberFiles(entry, member)))
      case Mcp =>
        (match ServerEntry(bySlug[member].transport, bySlug[member].endpoint)
         case Some(server) => p.(servers := p.servers[member := server])
         case None => p.Failed(entry.slug, MemberNoEndpoint(member)))
      case _ => p.Failed(entry.slug, MemberUnsupported(member))
  }

  const NOTHING := Progress(true, false, map[], map[], [])

  function AddMembers(bySlug: map<string, ExportInput>, entry: ExportInput, members: seq<string>): Progress {
    if members == [] then NOTHING
    else
      var p := AddMembers(bySlug, entry, members[..|members| - 1]);
      if p.stopped then p else AddMember(bySlug, entry, p, members[|members| - 1])
  }

  // ---- Entries ----

  /** A rendered plugin, or none, and what was skipped on the way. */
  datatype Outcome = Outcome(plugin: Option<Plugin>, skipped: seq<Skip>)

  function WithJson(docs: Documents, entry: ExportInput, category: string, files: map<string, string>,
                    servers: map<string, Server>): Outcome
  {
    Outcome(Some(Plugin(category, files[PluginPath(entry.slug) := docs.plugin(entry, servers, files)])), [])
  }

  function Skipped(entry: ExportInput, reason: Reason): Outcome {
    Outcome(None, [Skip(entry.slug, reason)])
  }

  function RenderPlugin(docs: Documents, bySlug: map<string, ExportInput>, entry: ExportInput): Outcome {
    if !ValidSlug(entry.slug) then Skipped(entry, InvalidSlug)
    else
      match entry.kind
      case Skill =>
        if entry.files == map[] then Skipped(entry, SkillFilesUnresolved)
        else WithJson(docs, entry, "Skills", Place(entry.slug, entry.slug, entry.files), map[])
      case Mcp =>
        (match ServerEntry(entry.transport, entry.endpoint)
         case Some(server) => WithJson(docs, entry, "Tools", map[], map[entry.slug := server])
         case None => Skipped(entry, NoHttpEndpoint))
      case Bundle(includes) =>
        if includes.None? || includes.value == [] then Skipped(entry, InvalidBundle)
        else
          var p := AddMembers(bySlug, entry, includes.value);
          if p.ok then WithJson(docs, entry, "Bundles", p.files, p.servers).(skipped := p.skipped)
          else Outcome(None, p.skipped)
      case UnknownKind => Skipped(entry, UnrenderedKind)
  }

  // ---- The whole export ----

  function BySlug(entries: seq<ExportInput>): map<string, ExportInput> {
    if entries == [] then map[]
    else BySlug(entries[..|entries| - 1])[entries[|entries| - 1].slug := entries[|entries| - 1]]
  }

  datatype Progression = Progression(rendered: map<string, Plugin>, order: seq<string>, skipped: seq<Skip>)

  function AddEntry(docs: Documents, bySlug: map<string, ExportInput>, e: Progression,
                    entry: ExportInput): Progression
  {
    var outcome := RenderPlugin(docs, bySlug, entry);
    match outcome.plugin
    case None => e.(skipped := e.skipped + outcome.skipped)
    case Some(plugin) =>
      Progression(e.rendered[entry.slug := plugin], e.order + [entry.slug], e.skipped + outcome.skipped)
  }

  function AddEntries(docs: Documents, bySlug: map<string, ExportInput>, entries: seq<ExportInput>): Progression {
    if entries == [] then Progression(map[], [], [])
    else AddEntry(docs, bySlug, AddEntries(docs, bySlug, entries[..|entries| - 1]), entries[|entries| - 1])
  }

  function Sorted(slugs: seq<string>): seq<string> {
    if slugs == [] then [] else InsertName({}, Sorted(slugs[..|slugs| - 1]), slugs[|slugs| - 1])
  }

  predicate AllRendered(rendered: map<string, Plugin>, order: seq<string>) {
    forall i | 0 <= i < |order| :: order[i] in rendered
  }

  function Merge(rendered: map<string, Plugin>, order: seq<string>): map<string, string>
    requires AllRendered(rendered, order)
  {
    if order == [] then map[]
    else Merge(rendered, order[..|order| - 1]) + rendered[order[|order| - 1]].files
  }

  function Listed(rendered: map<string, Plugin>, order: seq<string>): seq<(string, string)>
    requires AllRendered(rendered, order)
  {
    if order == [] then []
    else
      var slug := order[|order| - 1];
      Listed(rendered, order[..|order| - 1]) + [(slug, rendered[slug].category)]
  }

  lemma {:induction false} OrderRendered(docs: Documents, bySlug: map<string, ExportInput>, entries: seq<ExportInput>)
    ensures var e := AddEntries(docs, bySlug, entries); AllRendered(e.rendered, e.order)
  {
    if entries != [] {
      var before := entries[..|entries| - 1];
      OrderRendered(docs, bySlug, before);
      AddKeepsOrder(docs, bySlug, AddEntries(docs, bySlug, before), entries[|entries| - 1]);
    }
  }

  lemma AddKeepsOrder(docs: Documents, bySlug: map<string, ExportInput>, e: Progression, entry: ExportInput)
    requires AllRendered(e.rendered, e.order)
    ensures var after := AddEntry(docs, bySlug, e, entry); AllRendered(after.rendered, after.order)
  {
    var plugin := RenderPlugin(docs, bySlug, entry).plugin;
  }

  lemma {:induction false} SortedSame(slugs: seq<string>)
    ensures multiset(Sorted(slugs)) == multiset(slugs)
  {
    if slugs != [] {
      var before, last := slugs[..|slugs| - 1], slugs[|slugs| - 1];
      SortedSame(before);
      InsertKeepsNames({}, Sorted(before), last);
      assert slugs == before + [last];
    }
  }

  lemma SortedRendered(docs: Documents, entries: seq<ExportInput>)
    ensures var e := AddEntries(docs, BySlug(entries), entries);
            AllRendered(e.rendered, Sorted(e.order))
  {
    var e := AddEntries(docs, BySlug(entries), entries);
    OrderRendered(docs, BySlug(entries), entries);
    SortedSame(e.order);
    forall i | 0 <= i < |Sorted(e.order)| ensures Sorted(e.order)[i] in e.rendered {
      assert Sorted(e.order)[i] in multiset(Sorted(e.order));
      assert Sorted(e.order)[i] in e.order;
    }
  }

  /** The exported tree and the reasons for what is missing from it. */
  function Export(docs: Documents, entries: seq<ExportInput>): (map<string, string>, seq<Skip>) {
    var e := AddEntries(docs, BySlug(entries), entries);
    SortedRendered(docs, entries);
    var order := Sorted(e.order);
    (Merge(e.rendered, order)[ManifestPath() := docs.manifest(Listed(e.rendered, order))],
     if order == [] then e.skipped + [Skip("", MarketplaceEmpty)] else e.skipped)
  }

  // ---- The loops ----

  method PlaceFiles(dir: string, files: map<string, string>, out: map<string, string>)
    returns (after: map<string, string>)
    ensures after == out + PlaceIn(dir, files)
  {
    after := out;
    var left := files.Keys;
    NothingTaken(dir, files, out);
    while left != {}
      invariant left <= files.Keys
      invariant after == out + PlaceIn(dir, files - left)
      decreases |left|
    {
      var name :| name in left;
      OneTaken(files, left, name);
      after := PlaceNext(dir, out, after, files - left, name, files[name]);
      left := left - {name};
    }
    assert files - left == files;
  }

  lemma NothingTaken(dir: string, files: map<string, string>, out: map<string, string>)
    ensures out + PlaceIn(dir, files - files.Keys) == out
  {}

  lemma OneTaken(files: map<string, string>, left: set<string>, name: string)
    requires name in left && name in files
    ensures files - (left - {name}) == (files - left)[name := files[name]]
  {}

  method PlaceNext(dir: string, ghost out: map<string, string>, before: map<string, string>,
                   ghost done: map<string, string>, name: string, content: string)
    returns (after: map<string, string>)
    requires before == out + PlaceIn(dir, done)
    ensures after == out + PlaceIn(dir, done[name := content])
  {
    PlaceOne(dir, done, name, content);
    after := before[dir + name := content];
  }

  method RenderSkillFiles(plugin: string, skill: string, files: map<string, string>, out: map<string, string>)
    returns (after: map<string, string>, ok: bool)
    ensures ok <==> files != map[]
    ensures after == out + Place(plugin, skill, files)
  {
    after := PlaceFiles(SkillDir(plugin, skill), files, out);
    ok := files != map[];
  }

  lemma PlaceOne(dir: string, done: map<string, string>, name: string, content: string)
    ensures PlaceIn(dir, done[name := content]) == PlaceIn(dir, done)[dir + name := content]
  {
    var before, after := PlaceIn(dir, done), PlaceIn(dir, done[name := content]);
    forall path
      ensures path in after <==> path in before || path == dir + name
      ensures path in after ==> after[path] == if path == dir + name then content else before[path]
    {
      InDirOf(dir, path);
      PlaceInSpec(dir, done, path);
      PlaceInSpec(dir, done[name := content], path);
    }
  }

  method GatherMembers(bySlug: map<string, ExportInput>, entry: ExportInput, members: seq<string>) returns (p: Progress)
    ensures p == AddMembers(bySlug, entry, members)
  {
    var files: map<string, string>, servers: map<string, Server>, skipped: seq<Skip> := map[], map[], [];
    var ok, stopped := true, false;
    var i := 0;
    while i < |members|
      invariant 0 <= i <= |members| && !stopped
      invariant Progress(ok, stopped, files, servers, skipped) == AddMembers(bySlug, entry, members[..i])
    {
      var member := members[i];
      assert members[..i + 1][..i] == members[..i] && members[..i + 1][i] == member;
      i := i + 1;
      if member !in bySlug {
        skipped := skipped + [Skip(entry.slug, MemberMissing(member))];
        ok, stopped := false, true;
        break;
      }
      var source := bySlug[member];
      match source.kind {
        case Skill =>
          var resolved;
          files, resolved := RenderSkillFiles(entry.slug, member, MemberFiles(entry, member), files);
          if !resolved {
            PlaceNothing(entry.slug, member, files);
            skipped := skipped + [Skip(entry.slug, MemberFilesUnresolved(member))];
            ok := false;
          }
        case Mcp =>
          var server := ServerEntry(source.transport, source.endpoint);
          if server.Some? {
            servers := servers[member := server.value];
          } else {
            skipped := skipped + [Skip(entry.slug, MemberNoEndpoint(member))];
            ok := false;
          }
        case _ =>
          skipped := skipped + [Skip(entry.slug, MemberUnsupported(member))];
          ok := false;
      }
    }
    p := Progress(ok, stopped, files, servers, skipped);
    if stopped {
      StoppedStays(bySlug, entry, members, i);
    }
    assert members[..|members|] == members;
  }

  lemma PlaceNothing(plugin: string, skill: string, files: map<string, string>)
    ensures files + Place(plugin, skill, map[]) == files
  {}

  /** Once the loop has stopped, the members that remain change nothing. */
  lemma {:induction false} StoppedStays(bySlug: map<string, ExportInput>, entry: ExportInput, members: seq<string>,
                                        i: nat)
    requires i <= |members| && AddMembers(bySlug, entry, members[..i]).stopped
    ensures AddMembers(bySlug, entry, members) == AddMembers(bySlug, entry, members[..i])
    decreases |members|
  {
    if i == |members| {
      assert members[..i] == members;
    } else {
      var before := members[..|members| - 1];
      assert before[..i] == members[..i];
      StoppedStays(bySlug, entry, before, i);
    }
  }

  method RenderEntry(docs: Documents, bySlug: map<string, ExportInput>, entry: ExportInput) returns (outcome: Outcome)
    ensures outcome == RenderPlugin(docs, bySlug, entry)
  {
    if !ValidSlug(entry.slug) {
      return Skipped(entry, InvalidSlug);
    }
    var files: map<string, string>, servers: map<string, Server>, skipped: seq<Skip> := map[], map[], [];
    var category;
    match entry.kind {
      case Skill =>
        var resolved;
        files, resolved := RenderSkillFiles(entry.slug, entry.slug, entry.files, files);
        if !resolved {
          return Skipped(entry, SkillFilesUnresolved);
        }
        assert files == Place(entry.slug, entry.slug, entry.files);
        category := "Skills";
      case Mcp =>
        var server := ServerEntry(entry.transport, entry.endpoint);
        if server.None? {
          return Skipped(entry, NoHttpEndpoint);
        }
        servers := servers[entry.slug := server.value];
        category := "Tools";
      case Bundle(includes) =>
        if includes.None? || includes.value == [] {
          return Skipped(entry, InvalidBundle);
        }
        var p := GatherMembers(bySlug, entry, includes.value);
        if !p.ok {
          return Outcome(None, p.skipped);
        }
        files, servers, skipped := p.files, p.servers, p.skipped;
        category := "Bundles";
      case UnknownKind =>
        return Skipped(entry, UnrenderedKind);
    }
    files := files[PluginPath(entry.slug) := docs.plugin(entry, servers, files)];
    outcome := Outcome(Some(Plugin(category, files)), skipped);
  }

  /** None for an identity that is not acceptable. */
  method ExportCodexMarketplace(docs: Documents, name: string, displayName: string, entries: seq<ExportInput>)
    returns (result: Option<(map<string, string>, seq<Skip>)>)
    ensures result == if name == "" || displayName == "" || !ValidSlug(name) then None else Some(Export(docs, entries))
  {
    if name == "" || displayName == "" || !ValidSlug(name) {
      return None;
    }
    var bySlug: map<string, ExportInput> := map[];
    for i := 0 to |entries|
      invariant bySlug == BySlug(entries[..i])
    {
      assert entries[..i + 1][..i] == entries[..i];
      bySlug := bySlug[entries[i].slug := entries[i]];
    }
    assert entries[..|entries|] == entries;
    var e := Progression(map[], [], []);
    for i := 0 to |entries|
      invariant e == AddEntries(docs, bySlug, entries[..i])
    {
      assert entries[..i + 1][..i] == entries[..i];
      var outcome := RenderEntry(docs, bySlug, entries[i]);
      var skipped := e.skipped + outcome.skipped;
      if outcome.plugin.Some? {
        e := Progression(e.rendered[entries[i].slug := outcome.plugin.value], e.order + [entries[i].slug], skipped);
      } else {
        e := e.(skipped := skipped);
      }
    }
    SortedRendered(docs, entries);
    var tree, skipped := MergePlugins(docs, e);
    result := Some((tree, skipped));
  }

  method MergePlugins(docs: Documents, e: Progression) returns (tree: map<string, string>, skipped: seq<Skip>)
    requires AllRendered(e.rendered, Sorted(e.order))
    ensures var order := Sorted(e.order);
            && tree == Merge(e.rendered, order)[ManifestPath() := docs.manifest(Listed(e.rendered, order))]
            && skipped == if order == [] then e.skipped + [Skip("", MarketplaceEmpty)] else e.skipped
  {
    var order := Sorted(e.order);
    var listed: seq<(string, string)> := [];
    tree := map[];
    for i := 0 to |order|
      invariant AllRendered(e.rendered, order[..i])
      invariant tree == Merge(e.rendered, order[..i])
      invariant listed == Listed(e.rendered, order[..i])
    {
      assert order[..i + 1][..i] == order[..i];
      var plugin := e.rendered[order[i]];
      listed := listed + [(order[i], plugin.category)];
      tree := tree + plugin.files;
    }
    assert order[..|order|] == order;
    tree := tree[ManifestPath() := docs.manifest(listed)];
    skipped := e.skipped;
    if listed == [] {
      skipped := skipped + [Skip("", MarketplaceEmpty)];
    }
  }
}
