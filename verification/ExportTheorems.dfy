/** Exported trees meet what the tree builder needs, so the published repository reads back as the export. */
module ExportTheorems {
  import opened Wrappers
  import opened ByteStrings
  import opened SkillPaths
  import SkillFiles
  import opened Exporter

  // ---- What the loader guarantees ----

  predicate PlainSlug(slug: string) { '/' !in slug && NUL !in slug }

  /** File names as ValidateSkillFiles accepts them. */
  ghost predicate GoodFiles(files: map<string, string>) {
    SkillFiles.NoneInside(files.Keys) && forall n | n in files :: AllProper(Split(n)) && NUL !in n
  }

  /** Slugs without a slash, as every insertion checks, and validated skill files. */
  ghost predicate Loaded(entry: ExportInput) {
    && PlainSlug(entry.slug)
    && GoodFiles(entry.files)
    && forall m | m in entry.memberFiles :: GoodFiles(entry.memberFiles[m])
  }

  ghost predicate AllLoaded(entries: seq<ExportInput>) { forall i | 0 <= i < |entries| :: Loaded(entries[i]) }

  ghost function SkillSet(entry: ExportInput, skill: string): map<string, string> {
    if entry.kind.Skill? then entry.files else MemberFiles(entry, skill)
  }

  ghost predicate SkillFileOf(entry: ExportInput, path: string, skill: string, name: string) {
    PlainSlug(skill) && name in SkillSet(entry, skill) && path == SkillPath(entry.slug, skill, name)
  }

  /** The paths one entry may contribute. */
  ghost predicate PathOfEntry(entry: ExportInput, path: string) {
    path == PluginPath(entry.slug) || exists skill, name :: SkillFileOf(entry, path, skill, name)
  }

  ghost predicate PathsOfEntry(entry: ExportInput, files: map<string, string>) {
    forall path | path in files :: PathOfEntry(entry, path)
  }

  lemma PlacedPaths(entry: ExportInput, skill: string, files: map<string, string>, out: map<string, string>)
    requires PlainSlug(skill) && files == SkillSet(entry, skill) && PathsOfEntry(entry, out)
    ensures PathsOfEntry(entry, out + Place(entry.slug, skill, files))
  {
    forall path | path in out + Place(entry.slug, skill, files) ensures PathOfEntry(entry, path) {
      if path in Place(entry.slug, skill, files) {
        var dir := SkillDir(entry.slug, skill);
        PlaceInSpec(dir, files, path);
        InDirOf(dir, path);
        assert SkillFileOf(entry, path, skill, path[|dir|..]);
      }
    }
  }

  ghost predicate PlainKeys(bySlug: map<string, ExportInput>) { forall m | m in bySlug :: PlainSlug(m) }

  lemma MemberPaths(bySlug: map<string, ExportInput>, entry: ExportInput, p: Progress, member: string)
    requires PlainKeys(bySlug) && !entry.kind.Skill? && PathsOfEntry(entry, p.files)
    ensures PathsOfEntry(entry, AddMember(bySlug, entry, p, member).files)
  {
    if member in bySlug && bySlug[member].kind.Skill? && MemberFiles(entry, member) != map[] {
      PlacedPaths(entry, member, MemberFiles(entry, member), p.files);
    }
  }

  lemma {:induction false} MembersPaths(bySlug: map<string, ExportInput>, entry: ExportInput, members: seq<string>)
    requires PlainKeys(bySlug) && !entry.kind.Skill?
    ensures PathsOfEntry(entry, AddMembers(bySlug, entry, members).files)
  {
    if members != [] {
      var before := members[..|members| - 1];
      MembersPaths(bySlug, entry, before);
      MemberPaths(bySlug, entry, AddMembers(bySlug, entry, before), members[|members| - 1]);
    }
  }

  lemma RenderedPaths(docs: Documents, bySlug: map<string, ExportInput>, entry: ExportInput)
    requires PlainKeys(bySlug) && Loaded(entry)
    ensures var plugin := RenderPlugin(docs, bySlug, entry).plugin;
            plugin.Some? ==> PathsOfEntry(entry, plugin.value.files)
  {
    match entry.kind
    case Skill =>
      PlacedPaths(entry, entry.slug, entry.files, map[]);
      assert map[] + Place(entry.slug, entry.slug, entry.files) == Place(entry.slug, entry.slug, entry.files);
    case Bundle(includes) =>
      if includes.Some? { MembersPaths(bySlug, entry, includes.value); }
    case _ =>
  }

  // ---- Every path has one owner ----

  /** The plugin rendered under a slug is that of some entry with the slug. */
  ghost predicate Owns(docs: Documents, bySlug: map<string, ExportInput>, entries: seq<ExportInput>, slug: string,
                       plugin: Plugin)
  {
    exists i :: 0 <= i < |entries| && entries[i].slug == slug
        && RenderPlugin(docs, bySlug, entries[i]).plugin == Some(plugin)
  }

  ghost predicate AllOwned(docs: Documents, bySlug: map<string, ExportInput>, entries: seq<ExportInput>,
                           rendered: map<string, Plugin>)
  {
    forall slug | slug in rendered :: Owns(docs, bySlug, entries, slug, rendered[slug])
  }

  lemma OwnedStill(docs: Documents, bySlug: map<string, ExportInput>, entries: seq<ExportInput>, slug: string,
                   plugin: Plugin)
    requires entries != [] && Owns(docs, bySlug, entries[..|entries| - 1], slug, plugin)
    ensures Owns(docs, bySlug, entries, slug, plugin)
  {
    var before := entries[..|entries| - 1];
    var i :| 0 <= i < |before| && before[i].slug == slug
        && RenderPlugin(docs, bySlug, before[i]).plugin == Some(plugin);
    assert entries[i] == before[i];
  }

  lemma {:induction false} RenderedOwned(docs: Documents, bySlug: map<string, ExportInput>, entries: seq<ExportInput>)
    ensures AllOwned(docs, bySlug, entries, AddEntries(docs, bySlug, entries).rendered)
  {
    if entries != [] {
      var before, last := entries[..|entries| - 1], entries[|entries| - 1];
      var was := AddEntries(docs, bySlug, before);
      RenderedOwned(docs, bySlug, before);
      var outcome := RenderPlugin(docs, bySlug, last);
      forall slug | slug in AddEntries(docs, bySlug, entries).rendered
        ensures Owns(docs, bySlug, entries, slug, AddEntries(docs, bySlug, entries).rendered[slug])
      {
        if outcome.plugin.Some? && slug == last.slug {
          assert entries[|entries| - 1].slug == slug;
        } else {
          assert AddEntries(docs, bySlug, entries).rendered[slug] == was.rendered[slug];
          OwnedStill(docs, bySlug, entries, slug, was.rendered[slug]);
        }
      }
    }
  }

  lemma {:induction false} PlainBySlug(entries: seq<ExportInput>)
    requires AllLoaded(entries)
    ensures PlainKeys(BySlug(entries))
  {
    if entries != [] {
      PlainBySlug(entries[..|entries| - 1]);
      assert Loaded(entries[|entries| - 1]);
    }
  }

  lemma {:induction false} MergedFrom(rendered: map<string, Plugin>, order: seq<string>, path: string)
    returns (slug: string)
    requires AllRendered(rendered, order) && path in Merge(rendered, order)
    ensures slug in rendered && path in rendered[slug].files
  {
    var last := order[|order| - 1];
    if path in rendered[last].files {
      slug := last;
    } else {
      slug := MergedFrom(rendered, order[..|order| - 1], path);
    }
  }

  /** Each path of the export is the manifest or belongs to the one entry that its plugin was rendered from. */
  lemma PathOwner(docs: Documents, entries: seq<ExportInput>, path: string) returns (slug: string)
    requires AllLoaded(entries) && path in Export(docs, entries).0 && path != ManifestPath()
    ensures slug in Owners(docs, entries) && PathOfEntry(Owners(docs, entries)[slug], path)
  {
    var e := AddEntries(docs, BySlug(entries), entries);
    SortedRendered(docs, entries);
    slug := MergedFrom(e.rendered, Sorted(e.order), path);
    OwnerOf(docs, entries, slug);
  }

  /** The entry a rendered plugin came from. */
  ghost function Owners(docs: Documents, entries: seq<ExportInput>): (owners: map<string, ExportInput>)
    ensures owners.Keys == AddEntries(docs, BySlug(entries), entries).rendered.Keys
  {
    var rendered := AddEntries(docs, BySlug(entries), entries).rendered;
    map slug | slug in rendered :: Owner(docs, entries, slug)
  }

  ghost function Owner(docs: Documents, entries: seq<ExportInput>, slug: string): (entry: ExportInput)
    requires slug in AddEntries(docs, BySlug(entries), entries).rendered
    ensures entry in entries && entry.slug == slug
    ensures RenderPlugin(docs, BySlug(entries), entry).plugin
        == Some(AddEntries(docs, BySlug(entries), entries).rendered[slug])
  {
    RenderedOwned(docs, BySlug(entries), entries);
    var rendered := AddEntries(docs, BySlug(entries), entries).rendered;
    assert Owns(docs, BySlug(entries), entries, slug, rendered[slug]);
    var i :| 0 <= i < |entries| && entries[i].slug == slug
        && RenderPlugin(docs, BySlug(entries), entries[i]).plugin == Some(rendered[slug]);
    entries[i]
  }

  lemma OwnerOf(docs: Documents, entries: seq<ExportInput>, slug: string)
    requires AllLoaded(entries) && slug in Owners(docs, entries)
    ensures var rendered := AddEntries(docs, BySlug(entries), entries).rendered;
            PathsOfEntry(Owners(docs, entries)[slug], rendered[slug].files)
    ensures Loaded(Owners(docs, entries)[slug]) && Owners(docs, entries)[slug].slug == slug
  {
    var entry := Owners(docs, entries)[slug];
    assert entry == Owner(docs, entries, slug);
    var i :| 0 <= i < |entries| && entries[i] == entry;
    assert Loaded(entries[i]);
    PlainBySlug(entries);
    RenderedPaths(docs, BySlug(entries), entry);
  }
}
