/** What one marketplace entry is exported as, or why it is not, read off the entry and the entries it names. */
module ExportMeaning {
  import opened Wrappers
  import opened ByteStrings
  import opened Exporter
  import opened ExportReadBack

  /** The last entry of every slug. */
  type Index = map<string, ExportInput>

  // ---- What an entry needs ----

  /** Letters, digits, hyphens and underscores, three to sixty-four of them. */
  predicate SlugOk(slug: string) {
    && 3 <= |slug| <= 64
    && forall c <- slug :: 'a' <= c <= 'z' || 'A' <= c <= 'Z' || '0' <= c <= '9' || c == '-' || c == '_'
  }

  lemma SlugIff(slug: string)
    ensures SlugOk(slug) <==> ValidSlug(slug)
  {
    if ValidSlug(slug) {
      forall c | c in slug ensures SlugChar(c) {
        var i :| 0 <= i < |slug| && slug[i] == c;
      }
    }
    if SlugOk(slug) {
      forall i | 0 <= i < |slug| ensures SlugChar(slug[i]) { assert slug[i] in slug; }
    }
  }

  predicate HasEndpoint(e: ExportInput) {
    (e.transport == "http" && |e.endpoint| > 0) || e.transport == "gateway"
  }

  function EndpointOf(e: ExportInput): Server {
    if e.transport == "gateway" then Bridge else Direct(e.endpoint)
  }

  lemma EndpointIff(e: ExportInput)
    ensures ServerEntry(e.transport, e.endpoint) == if HasEndpoint(e) then Some(EndpointOf(e)) else None
  {}

  /** What is wrong with one member of a bundle. */
  predicate Trouble(index: Index, e: ExportInput, member: string, reason: Reason) {
    if member !in index then reason == MemberMissing(member)
    else
      match index[member].kind
      case Skill =>
        && (member !in e.memberFiles || |e.memberFiles[member]| == 0)
        && reason == MemberFilesUnresolved(member)
      case Mcp => !HasEndpoint(index[member]) && reason == MemberNoEndpoint(member)
      case _ => reason == MemberUnsupported(member)
  }

  /** What is wrong with a bundle's members, up to the first that does not exist. */
  ghost predicate TroubleIn(index: Index, e: ExportInput, members: seq<string>, reason: Reason) {
    exists k :: 0 <= k < |members| && Trouble(index, e, members[k], reason)
                && forall h | 0 <= h < k :: members[h] in index
  }

  /** Why an entry is not exported. */
  ghost predicate WhyNot(index: Index, e: ExportInput, reason: Reason) {
    if !SlugOk(e.slug) then reason == InvalidSlug
    else
      match e.kind
      case Skill => |e.files| == 0 && reason == SkillFilesUnresolved
      case Mcp => !HasEndpoint(e) && reason == NoHttpEndpoint
      case Bundle(None) => reason == InvalidBundle
      case Bundle(Some(members)) =>
        if |members| == 0 then reason == InvalidBundle else TroubleIn(index, e, members, reason)
      case UnknownKind => reason == UnrenderedKind
  }

  ghost predicate Exported(index: Index, e: ExportInput) {
    forall reason :: !WhyNot(index, e, reason)
  }

  // ---- What it brings ----

  /** A file of a skill that is a member of the bundle. */
  predicate MemberBrings(index: Index, e: ExportInput, member: string, name: string, content: string) {
    && member in index && index[member].kind.Skill?
    && member in e.memberFiles && name in e.memberFiles[member] && e.memberFiles[member][name] == content
  }

  /** Every file of the entry's own skill, or of the skills its bundle includes. */
  ghost predicate Brings(index: Index, e: ExportInput, skill: string, name: string, content: string) {
    match e.kind
    case Skill => skill == e.slug && name in e.files && e.files[name] == content
    case Bundle(Some(members)) => skill in members && MemberBrings(index, e, skill, name, content)
    case _ => false
  }

  /** The files are those, each under its skill's path, and no others. */
  ghost predicate FilesAre(index: Index, e: ExportInput, files: map<string, string>) {
    && (forall path <- files :: exists skill, name, content ::
          Brings(index, e, skill, name, content) && path == SkillPath(e.slug, skill, name))
    && (forall skill, name, content | Brings(index, e, skill, name, content) ::
          SkillPath(e.slug, skill, name) in files && files[SkillPath(e.slug, skill, name)] == content)
  }

  /** An upstream the plugin declares: the entry's own, or that of an upstream its bundle includes. */
  predicate Declares(index: Index, e: ExportInput, name: string) {
    match e.kind
    case Mcp => name == e.slug
    case Bundle(Some(members)) => name in members && name in index && index[name].kind.Mcp?
    case _ => false
  }

  ghost predicate ServersAre(index: Index, e: ExportInput, servers: map<string, Server>) {
    && (forall name :: name in servers <==> Declares(index, e, name))
    && (forall name <- servers :: servers[name] == EndpointOf(if e.kind.Mcp? then e else index[name]))
  }

  function CategoryOf(e: ExportInput): string {
    match e.kind
    case Skill => "Skills"
    case Mcp => "Tools"
    case _ => "Bundles"
  }

  /** The plugin of an entry: its files, its upstreams, and the document that describes both. */
  ghost predicate PluginIs(docs: Documents, index: Index, e: ExportInput, plugin: Plugin) {
    && plugin.category == CategoryOf(e)
    && exists files, servers ::
         && FilesAre(index, e, files) && ServersAre(index, e, servers)
         && plugin.files == files[PluginPath(e.slug) := docs.plugin(e, servers, files)]
  }

  // ---- Bundles, member by member ----

  ghost predicate GatheredFiles(index: Index, e: ExportInput, members: seq<string>, files: map<string, string>) {
    && (forall path <- files :: exists member, name, content ::
          member in members && MemberBrings(index, e, member, name, content) && path == SkillPath(e.slug, member, name))
    && (forall member, name, content | member in members && MemberBrings(index, e, member, name, content) ::
          SkillPath(e.slug, member, name) in files && files[SkillPath(e.slug, member, name)] == content)
  }

  ghost predicate GatheredServers(index: Index, members: seq<string>, servers: map<string, Server>) {
    && (forall name :: name in servers <==> name in members && name in index && index[name].kind.Mcp?)
    && (forall name <- servers :: servers[name] == EndpointOf(index[name]))
  }

  ghost predicate SkipsAre(index: Index, e: ExportInput, members: seq<string>, skipped: seq<Skip>) {
    forall skip :: skip in skipped <==> skip.slug == e.slug && TroubleIn(index, e, members, skip.reason)
  }

  ghost predicate AllKnown(index: Index, members: seq<string>) {
    forall h | 0 <= h < |members| :: members[h] in index
  }

  ghost predicate Gathered(index: Index, e: ExportInput, members: seq<string>, p: Progress) {
    && (p.stopped <==> !AllKnown(index, members))
    && SkipsAre(index, e, members, p.skipped)
    && (p.ok <==> p.skipped == [])
    && (p.ok ==> GatheredFiles(index, e, members, p.files) && GatheredServers(index, members, p.servers))
  }

  lemma SkillPathOnce(plugin: string, a: string, n: string, b: string, m: string)
    requires '/' !in plugin && '/' !in a && '/' !in b && SkillPath(plugin, a, n) == SkillPath(plugin, b, m)
    ensures a == b && n == m
  {
    SkillSegments(plugin, a, n);
    SkillSegments(plugin, b, m);
    assert a == Split(SkillPath(plugin, a, n))[3] == b;
    var dir := SkillDir(plugin, a);
    assert n == (dir + n)[|dir|..] == (dir + m)[|dir|..] == m;
  }

  lemma TroubleNext(index: Index, e: ExportInput, members: seq<string>, last: string, reason: Reason)
    ensures TroubleIn(index, e, members + [last], reason)
            <==> TroubleIn(index, e, members, reason) || (AllKnown(index, members) && Trouble(index, e, last, reason))
  {
    hide Trouble;
    var all := members + [last];
    if TroubleIn(index, e, members, reason) {
      var k :| 0 <= k < |members| && Trouble(index, e, members[k], reason)
          && forall h | 0 <= h < k :: members[h] in index;
      assert all[k] == members[k] && forall h | 0 <= h < k :: all[h] in index;
    }
    if AllKnown(index, members) && Trouble(index, e, last, reason) {
      assert all[|members|] == last && forall h | 0 <= h < |members| :: all[h] in index;
    }
    if TroubleIn(index, e, all, reason) {
      var k :| 0 <= k < |all| && Trouble(index, e, all[k], reason) && forall h | 0 <= h < k :: all[h] in index;
      if k < |members| {
        assert members[k] == all[k] && forall h | 0 <= h < k :: members[h] == all[h];
      } else {
        assert forall h | 0 <= h < |members| :: members[h] == all[h];
      }
    }
  }

  lemma KnownNext(index: Index, members: seq<string>, last: string)
    ensures AllKnown(index, members + [last]) <==> AllKnown(index, members) && last in index
  {
    var all := members + [last];
    if AllKnown(index, all) {
      assert all[|members|] == last && forall h | 0 <= h < |members| :: members[h] == all[h];
    }
  }

  /** Nothing more is skipped: the member is fine. */
  lemma SkipsSame(index: Index, e: ExportInput, members: seq<string>, last: string, skipped: seq<Skip>)
    requires SkipsAre(index, e, members, skipped)
    requires AllKnown(index, members) ==> forall reason :: !Trouble(index, e, last, reason)
    ensures SkipsAre(index, e, members + [last], skipped)
  {
    forall skip ensures skip in skipped <==> skip.slug == e.slug && TroubleIn(index, e, members + [last], skip.reason) {
      TroubleNext(index, e, members, last, skip.reason);
    }
  }

  /** One more line: the member has exactly one thing wrong with it. */
  lemma SkipsOne(index: Index, e: ExportInput, members: seq<string>, last: string, skipped: seq<Skip>, why: Reason)
    requires SkipsAre(index, e, members, skipped) && AllKnown(index, members)
    requires forall reason :: Trouble(index, e, last, reason) <==> reason == why
    ensures SkipsAre(index, e, members + [last], skipped + [Skip(e.slug, why)])
  {
    forall skip
      ensures skip in skipped + [Skip(e.slug, why)]
              <==> skip.slug == e.slug && TroubleIn(index, e, members + [last], skip.reason)
    {
      TroubleNext(index, e, members, last, skip.reason);
    }
  }

  lemma FilesPlaced(index: Index, e: ExportInput, members: seq<string>, last: string, files: map<string, string>)
    requires '/' !in e.slug && '/' !in last && (forall m <- members :: '/' !in m)
    requires GatheredFiles(index, e, members, files) && last in index && index[last].kind.Skill?
    ensures GatheredFiles(index, e, members + [last], files + Place(e.slug, last, MemberFiles(e, last)))
  {
    var mine := MemberFiles(e, last);
    var after := files + Place(e.slug, last, mine);
    forall path | path in after
      ensures exists member, name, content ::
                member in members + [last] && MemberBrings(index, e, member, name, content)
                && path == SkillPath(e.slug, member, name)
    {
      PlaceInSpec(SkillDir(e.slug, last), mine, path);
      if path in Place(e.slug, last, mine) {
        InDirOf(SkillDir(e.slug, last), path);
        var name := path[|SkillDir(e.slug, last)|..];
        assert MemberBrings(index, e, last, name, mine[name]) && path == SkillPath(e.slug, last, name);
      } else {
        var member, name, content :|
          member in members && MemberBrings(index, e, member, name, content) && path == SkillPath(e.slug, member, name);
        assert member in members + [last];
      }
    }
    forall member, name, content | member in members + [last] && MemberBrings(index, e, member, name, content)
      ensures SkillPath(e.slug, member, name) in after && after[SkillPath(e.slug, member, name)] == content
    {
      PlacedAt(index, e, members, last, files, member, name, content);
    }
  }

  lemma PlacedAt(index: Index, e: ExportInput, members: seq<string>, last: string, files: map<string, string>,
                 member: string, name: string, content: string)
    requires '/' !in e.slug && '/' !in last && (forall m <- members :: '/' !in m)
    requires GatheredFiles(index, e, members, files) && last in index && index[last].kind.Skill?
    requires member in members + [last] && MemberBrings(index, e, member, name, content)
    ensures var after := files + Place(e.slug, last, MemberFiles(e, last));
            SkillPath(e.slug, member, name) in after && after[SkillPath(e.slug, member, name)] == content
  {
    var mine, path := MemberFiles(e, last), SkillPath(e.slug, member, name);
    PlaceInSpec(SkillDir(e.slug, last), mine, path);
    InDirOf(SkillDir(e.slug, last), path);
    if path in Place(e.slug, last, mine) {
      SkillPathOnce(e.slug, last, path[|SkillDir(e.slug, last)|..], member, name);
    }
  }

  lemma FilesUntouched(index: Index, e: ExportInput, members: seq<string>, last: string, files: map<string, string>)
    requires GatheredFiles(index, e, members, files) && (last in index ==> !index[last].kind.Skill?)
    ensures GatheredFiles(index, e, members + [last], files)
  {
    forall path | path in files
      ensures exists member, name, content ::
                member in members + [last] && MemberBrings(index, e, member, name, content)
                && path == SkillPath(e.slug, member, name)
    {
      var member, name, content :|
        member in members && MemberBrings(index, e, member, name, content) && path == SkillPath(e.slug, member, name);
      assert member in members + [last];
    }
  }

  /** A member of each kind. */
  lemma SkillGathered(index: Index, e: ExportInput, members: seq<string>, p: Progress, last: string)
    requires '/' !in e.slug && '/' !in last && (forall m <- members :: '/' !in m)
    requires Gathered(index, e, members, p) && !p.stopped && last in index && index[last].kind.Skill?
    ensures Gathered(index, e, members + [last], AddMember(index, e, p, last))
  {
    KnownNext(index, members, last);
    if MemberFiles(e, last) == map[] {
      assert forall reason :: Trouble(index, e, last, reason) <==> reason == MemberFilesUnresolved(last);
      SkipsOne(index, e, members, last, p.skipped, MemberFilesUnresolved(last));
    } else {
      assert forall reason :: !Trouble(index, e, last, reason);
      SkipsSame(index, e, members, last, p.skipped);
      if p.ok { FilesPlaced(index, e, members, last, p.files); }
    }
  }

  lemma McpGathered(index: Index, e: ExportInput, members: seq<string>, p: Progress, last: string)
    requires Gathered(index, e, members, p) && !p.stopped && last in index && index[last].kind.Mcp?
    ensures Gathered(index, e, members + [last], AddMember(index, e, p, last))
  {
    KnownNext(index, members, last);
    EndpointIff(index[last]);
    if HasEndpoint(index[last]) {
      assert forall reason :: !Trouble(index, e, last, reason);
      SkipsSame(index, e, members, last, p.skipped);
      if p.ok { FilesUntouched(index, e, members, last, p.files); }
    } else {
      assert forall reason :: Trouble(index, e, last, reason) <==> reason == MemberNoEndpoint(last);
      SkipsOne(index, e, members, last, p.skipped, MemberNoEndpoint(last));
    }
  }

  lemma OtherGathered(index: Index, e: ExportInput, members: seq<string>, p: Progress, last: string)
    requires Gathered(index, e, members, p) && !p.stopped
    requires last in index ==> !index[last].kind.Skill? && !index[last].kind.Mcp?
    ensures Gathered(index, e, members + [last], AddMember(index, e, p, last))
  {
    KnownNext(index, members, last);
    var why := if last in index then MemberUnsupported(last) else MemberMissing(last);
    assert forall reason :: Trouble(index, e, last, reason) <==> reason == why;
    SkipsOne(index, e, members, last, p.skipped, why);
  }

  /** After the first missing member nothing more is looked at. */
  lemma StoppedGathered(index: Index, e: ExportInput, members: seq<string>, p: Progress, last: string)
    requires Gathered(index, e, members, p) && p.stopped
    ensures Gathered(index, e, members + [last], p)
  {
    KnownNext(index, members, last);
    SkipsSame(index, e, members, last, p.skipped);
    MissingTroubles(index, e, members);
    var reason :| TroubleIn(index, e, members, reason);
    assert Skip(e.slug, reason) in p.skipped;
  }

  lemma MissingTroubles(index: Index, e: ExportInput, members: seq<string>)
    requires !AllKnown(index, members)
    ensures exists reason :: TroubleIn(index, e, members, reason)
  {
    var k := FirstMissing(index, members);
    assert Trouble(index, e, members[k], MemberMissing(members[k]));
    assert TroubleIn(index, e, members, MemberMissing(members[k]));
  }

  lemma {:induction false} FirstMissing(index: Index, members: seq<string>) returns (k: nat)
    requires !AllKnown(index, members)
    ensures k < |members| && members[k] !in index && forall h | 0 <= h < k :: members[h] in index
  {
    var init, last := members[..|members| - 1], members[|members| - 1];
    assert members == init + [last];
    KnownNext(index, init, last);
    if AllKnown(index, init) {
      k := |init|;
      assert forall h | 0 <= h < k :: members[h] == init[h];
    } else {
      k := FirstMissing(index, init);
      assert forall h | 0 <= h <= k :: members[h] == init[h];
    }
  }

  lemma {:induction false} MembersGathered(index: Index, e: ExportInput, members: seq<string>)
    requires '/' !in e.slug && (forall m <- members | m in index :: '/' !in m)
    ensures Gathered(index, e, members, AddMembers(index, e, members))
  {
    hide Gathered, AddMember;
    if members == [] {
      NothingGathered(index, e);
    } else {
      var init, last := members[..|members| - 1], members[|members| - 1];
      assert members == init + [last];
      MembersGathered(index, e, init);
      MemberGathered(index, e, init, AddMembers(index, e, init), last);
    }
  }

  lemma NothingGathered(index: Index, e: ExportInput)
    ensures Gathered(index, e, [], NOTHING)
  {}

  lemma GatheredKnown(index: Index, e: ExportInput, members: seq<string>, p: Progress)
    requires Gathered(index, e, members, p) && !p.stopped
    ensures forall m <- members :: m in index
  {
    forall m | m in members ensures m in index {
      var i :| 0 <= i < |members| && members[i] == m;
    }
  }

  lemma MemberGathered(index: Index, e: ExportInput, members: seq<string>, p: Progress, last: string)
    requires '/' !in e.slug && (last in index ==> '/' !in last) && (forall m <- members | m in index :: '/' !in m)
    requires Gathered(index, e, members, p)
    ensures Gathered(index, e, members + [last], if p.stopped then p else AddMember(index, e, p, last))
  {
    hide Gathered, AddMember;
    if p.stopped {
      StoppedGathered(index, e, members, p, last);
    } else if last in index && index[last].kind.Skill? {
      GatheredKnown(index, e, members, p);
      SkillGathered(index, e, members, p, last);
    } else if last in index && index[last].kind.Mcp? {
      McpGathered(index, e, members, p, last);
    } else {
      OtherGathered(index, e, members, p, last);
    }
  }

  // ---- One entry ----

  /**
    The entry is rendered with everything it brings exactly if nothing is wrong with it; else each reason is
    listed.
  */
  ghost predicate RenderedRight(docs: Documents, index: Index, e: ExportInput, outcome: Outcome) {
    && (outcome.plugin.Some? <==> Exported(index, e))
    && (outcome.plugin.Some? ==> PluginIs(docs, index, e, outcome.plugin.value))
    && (forall skip :: skip in outcome.skipped <==> skip.slug == e.slug && WhyNot(index, e, skip.reason))
  }

  lemma OneReason(docs: Documents, index: Index, e: ExportInput, why: Reason)
    requires forall reason :: WhyNot(index, e, reason) <==> reason == why
    ensures RenderedRight(docs, index, e, Skipped(e, why))
  {
    assert WhyNot(index, e, why);
  }

  lemma SkillRendered(docs: Documents, index: Index, e: ExportInput)
    requires SlugOk(e.slug) && e.kind.Skill?
    ensures RenderedRight(docs, index, e, RenderPlugin(docs, index, e))
  {
    SlugIff(e.slug);
    if e.files == map[] {
      assert forall reason :: WhyNot(index, e, reason) <==> reason == SkillFilesUnresolved;
      OneReason(docs, index, e, SkillFilesUnresolved);
    } else {
      var files := Place(e.slug, e.slug, e.files);
      OwnFiles(index, e);
      assert ServersAre(index, e, map[]);
      assert RenderPlugin(docs, index, e).plugin.value.files == files[PluginPath(e.slug) :=
          docs.plugin(e, map[], files)];
    }
  }

  lemma OwnFiles(index: Index, e: ExportInput)
    requires e.kind.Skill?
    ensures FilesAre(index, e, Place(e.slug, e.slug, e.files))
  {
    var dir, files := SkillDir(e.slug, e.slug), Place(e.slug, e.slug, e.files);
    forall path | path in files
      ensures exists skill, name, content ::
                Brings(index, e, skill, name, content) && path == SkillPath(e.slug, skill, name)
    {
      PlaceInSpec(dir, e.files, path);
      InDirOf(dir, path);
      var name := path[|dir|..];
      assert Brings(index, e, e.slug, name, e.files[name]) && path == SkillPath(e.slug, e.slug, name);
    }
    forall skill, name, content | Brings(index, e, skill, name, content)
      ensures SkillPath(e.slug, skill, name) in files && files[SkillPath(e.slug, skill, name)] == content
    {
      PlaceInSpec(dir, e.files, dir + name);
      InDirOf(dir, dir + name);
    }
  }

  lemma McpRendered(docs: Documents, index: Index, e: ExportInput)
    requires SlugOk(e.slug) && e.kind.Mcp?
    ensures RenderedRight(docs, index, e, RenderPlugin(docs, index, e))
  {
    SlugIff(e.slug);
    EndpointIff(e);
    if HasEndpoint(e) {
      var servers := map[e.slug := EndpointOf(e)];
      assert FilesAre(index, e, map[]) && ServersAre(index, e, servers);
      assert RenderPlugin(docs, index, e).plugin.value.files
          == (map[])[PluginPath(e.slug) := docs.plugin(e, servers, map[])];
    } else {
      assert forall reason :: WhyNot(index, e, reason) <==> reason == NoHttpEndpoint;
      OneReason(docs, index, e, NoHttpEndpoint);
    }
  }

  lemma BundleRendered(docs: Documents, index: Index, e: ExportInput, members: seq<string>)
    requires SlugOk(e.slug) && e.kind == Bundle(Some(members)) && members != [] && '/' !in e.slug
    requires forall m <- members | m in index :: '/' !in m
    ensures RenderedRight(docs, index, e, RenderPlugin(docs, index, e))
  {
    hide Gathered, AddMembers;
    SlugIff(e.slug);
    MembersGathered(index, e, members);
    BundleOutcome(docs, index, e, members, AddMembers(index, e, members));
  }

  lemma BundleOutcome(docs: Documents, index: Index, e: ExportInput, members: seq<string>, p: Progress)
    requires SlugOk(e.slug) && e.kind == Bundle(Some(members)) && members != [] && Gathered(index, e, members, p)
    ensures RenderedRight(docs, index, e,
                          if p.ok then WithJson(docs, e, "Bundles", p.files, p.servers).(skipped := p.skipped)
                          else Outcome(None, p.skipped))
  {
    assert forall reason :: WhyNot(index, e, reason) <==> TroubleIn(index, e, members, reason);
    if p.ok {
      forall reason ensures !WhyNot(index, e, reason) { assert Skip(e.slug, reason) !in p.skipped; }
      BundleFiles(index, e, members, p.files);
      assert ServersAre(index, e, p.servers);
    } else {
      assert p.skipped[0] in p.skipped;
      assert WhyNot(index, e, p.skipped[0].reason);
    }
  }

  lemma BundleFiles(index: Index, e: ExportInput, members: seq<string>, files: map<string, string>)
    requires e.kind == Bundle(Some(members)) && GatheredFiles(index, e, members, files)
    ensures FilesAre(index, e, files)
  {
    forall path | path in files
      ensures exists skill, name, content ::
                Brings(index, e, skill, name, content) && path == SkillPath(e.slug, skill, name)
    {
      var member, name, content :|
        member in members && MemberBrings(index, e, member, name, content) && path == SkillPath(e.slug, member, name);
      assert Brings(index, e, member, name, content);
    }
  }

  lemma OtherRendered(docs: Documents, index: Index, e: ExportInput, why: Reason)
    requires if !SlugOk(e.slug) then why == InvalidSlug
             else if e.kind.UnknownKind? then why == UnrenderedKind
             else e.kind.Bundle? && (e.kind.includes.None? || e.kind.includes == Some([])) && why == InvalidBundle
    ensures RenderedRight(docs, index, e, RenderPlugin(docs, index, e))
  {
    SlugIff(e.slug);
    assert forall reason :: WhyNot(index, e, reason) <==> reason == why;
    OneReason(docs, index, e, why);
  }

  lemma EntryRendered(docs: Documents, index: Index, e: ExportInput)
    requires '/' !in e.slug && forall m <- index :: '/' !in m
    ensures RenderedRight(docs, index, e, RenderPlugin(docs, index, e))
  {
    hide RenderedRight, RenderPlugin, SlugOk;
    if !SlugOk(e.slug) {
      OtherRendered(docs, index, e, InvalidSlug);
    } else {
      match e.kind
      case Skill => SkillRendered(docs, index, e);
      case Mcp => McpRendered(docs, index, e);
      case UnknownKind => OtherRendered(docs, index, e, UnrenderedKind);
      case Bundle(includes) =>
        if includes.None? || includes.value == [] {
          OtherRendered(docs, index, e, InvalidBundle);
        } else {
          BundleRendered(docs, index, e, includes.value);
        }
    }
  }
}
