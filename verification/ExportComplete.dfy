/** The export holds everything the entries bring, and nothing else; whatever is missing is listed with its reasons. */
module ExportComplete {
  import opened ByteStrings
  import opened GitOrder
  import opened Exporter
  import opened ExportTheorems
  import opened ExportReadBack
  import opened ExportMeaning

  /** The last entry of each slug. */
  ghost predicate IsIndex(entries: seq<ExportInput>, index: Index) {
    && (forall slug :: slug in index <==> exists i :: 0 <= i < |entries| && entries[i].slug == slug)
    && (forall i | 0 <= i < |entries| && LastOf(entries, i) :: index[entries[i].slug] == entries[i])
  }

  ghost predicate LastOf(entries: seq<ExportInput>, i: int)
    requires 0 <= i < |entries|
  {
    forall j | i < j < |entries| :: entries[j].slug != entries[i].slug
  }

  lemma {:induction false} LastFound(entries: seq<ExportInput>, slug: string) returns (i: nat)
    requires slug in BySlug(entries)
    ensures i < |entries| && entries[i].slug == slug && LastOf(entries, i) && BySlug(entries)[slug] == entries[i]
  {
    var last := |entries| - 1;
    if entries[last].slug == slug {
      i := last;
    } else {
      i := LastFound(entries[..last], slug);
    }
  }

  lemma {:induction false} SlugFound(entries: seq<ExportInput>, i: nat)
    requires i < |entries|
    ensures entries[i].slug in BySlug(entries)
    ensures LastOf(entries, i) ==> BySlug(entries)[entries[i].slug] == entries[i]
  {
    var last := |entries| - 1;
    if i < last {
      SlugFound(entries[..last], i);
    }
  }

  lemma IndexIs(entries: seq<ExportInput>, index: Index)
    requires IsIndex(entries, index)
    ensures BySlug(entries) == index
  {
    forall slug ensures slug in BySlug(entries) <==> slug in index {
      if slug in BySlug(entries) { var i := LastFound(entries, slug); }
      if slug in index {
        var i :| 0 <= i < |entries| && entries[i].slug == slug;
        SlugFound(entries, i);
      }
    }
    forall slug | slug in index ensures BySlug(entries)[slug] == index[slug] {
      var i := LastFound(entries, slug);
    }
  }

  /** There is such an index for any entries. */
  lemma IndexExists(entries: seq<ExportInput>)
    ensures IsIndex(entries, BySlug(entries))
  {
    forall slug ensures slug in BySlug(entries) <==> exists i :: 0 <= i < |entries| && entries[i].slug == slug {
      if slug in BySlug(entries) { var i := LastFound(entries, slug); }
      if i :| 0 <= i < |entries| && entries[i].slug == slug { SlugFound(entries, i); }
    }
    forall i | 0 <= i < |entries| && LastOf(entries, i) ensures BySlug(entries)[entries[i].slug] == entries[i] {
      SlugFound(entries, i);
    }
  }

  // ---- The loop over the entries ----

  /** The last entry of its slug that is exported. */
  ghost predicate Stands(index: Index, entries: seq<ExportInput>, i: int)
    requires 0 <= i < |entries|
  {
    Exported(index, entries[i])
    && forall j | i < j < |entries| && entries[j].slug == entries[i].slug :: !Exported(index, entries[j])
  }

  /** What the loop has rendered and skipped after these entries. */
  ghost predicate LoopRight(docs: Documents, index: Index, entries: seq<ExportInput>, e: Progression) {
    && (forall slug :: slug in e.rendered <==> exists i :: 0 <= i < |entries| && Stands(index, entries, i)
                                                        && entries[i].slug == slug)
    && (forall i | 0 <= i < |entries| && Stands(index, entries, i) ::
          entries[i].slug in e.rendered && PluginIs(docs, index, entries[i], e.rendered[entries[i].slug]))
    && (forall slug :: slug in e.order <==> slug in e.rendered)
    && (forall skip :: skip in e.skipped <==>
          exists i :: 0 <= i < |entries| && skip.slug == entries[i].slug && WhyNot(index, entries[i], skip.reason))
  }

  lemma StandsNext(index: Index, entries: seq<ExportInput>, last: ExportInput, i: int)
    requires 0 <= i <= |entries|
    ensures i == |entries| ==> (Stands(index, entries + [last], i) <==> Exported(index, last))
    ensures i < |entries| ==>
              (Stands(index, entries + [last], i)
               <==> Stands(index, entries, i) && !(Exported(index, last) && last.slug == entries[i].slug))
  {
    var all := entries + [last];
    if i < |entries| {
      assert all[i] == entries[i] && all[|entries|] == last;
      assert forall j | i < j < |entries| :: all[j] == entries[j];
    }
  }

  lemma SkipsNext(index: Index, entries: seq<ExportInput>, last: ExportInput, skip: Skip)
    ensures (exists i :: 0 <= i < |entries + [last]| && skip.slug == (entries + [last])[i].slug
                         && WhyNot(index, (entries + [last])[i], skip.reason))
            <==> (exists i :: 0 <= i < |entries| && skip.slug == entries[i].slug
                              && WhyNot(index, entries[i], skip.reason))
                 || (skip.slug == last.slug && WhyNot(index, last, skip.reason))
  {
    var all := entries + [last];
    if i :| 0 <= i < |entries| && skip.slug == entries[i].slug && WhyNot(index, entries[i], skip.reason) {
      assert all[i] == entries[i];
    }
    if skip.slug == last.slug && WhyNot(index, last, skip.reason) {
      assert all[|entries|] == last;
    }
  }

  lemma RenderedNext(docs: Documents, index: Index, entries: seq<ExportInput>, e: Progression, last: ExportInput,
                     slug: string)
    requires LoopRight(docs, index, entries, e)
    ensures (exists i :: 0 <= i < |entries + [last]| && Stands(index, entries + [last], i)
                         && (entries + [last])[i].slug == slug)
            <==> slug in e.rendered || (Exported(index, last) && last.slug == slug)
  {
    var all := entries + [last];
    if slug in e.rendered {
      var i :| 0 <= i < |entries| && Stands(index, entries, i) && entries[i].slug == slug;
      StandsNext(index, entries, last, i);
      assert all[i] == entries[i];
      if !(Exported(index, last) && last.slug == slug) { assert Stands(index, all, i); }
    }
    if Exported(index, last) && last.slug == slug {
      StandsNext(index, entries, last, |entries|);
      assert all[|entries|] == last && Stands(index, all, |entries|);
    }
    if i :| 0 <= i < |all| && Stands(index, all, i) && all[i].slug == slug {
      StandsNext(index, entries, last, i);
      if i < |entries| { assert all[i] == entries[i]; }
    }
  }

  lemma LoopNext(docs: Documents, index: Index, entries: seq<ExportInput>, e: Progression, last: ExportInput)
    requires LoopRight(docs, index, entries, e) && RenderedRight(docs, index, last, RenderPlugin(docs, index, last))
    ensures LoopRight(docs, index, entries + [last], AddEntry(docs, index, e, last))
  {
    hide RenderPlugin, PluginIs, WhyNot, Exported, LoopRight;
    var outcome := RenderPlugin(docs, index, last);
    assert AddEntry(docs, index, e, last)
        == Progression(if outcome.plugin.Some? then e.rendered[last.slug := outcome.plugin.value] else e.rendered,
                       if outcome.plugin.Some? then e.order + [last.slug] else e.order,
                       e.skipped + outcome.skipped);
    LoopParts(docs, index, entries, e, last, outcome);
  }

  lemma LoopParts(docs: Documents, index: Index, entries: seq<ExportInput>, e: Progression, last: ExportInput,
                  outcome: Outcome)
    requires LoopRight(docs, index, entries, e) && RenderedRight(docs, index, last, outcome)
    ensures LoopRight(docs, index, entries + [last],
                      Progression(if outcome.plugin.Some?
                                  then e.rendered[last.slug := outcome.plugin.value]
                                  else e.rendered,
                                  if outcome.plugin.Some? then e.order + [last.slug] else e.order,
                                  e.skipped + outcome.skipped))
  {
    hide PluginIs, WhyNot, Exported, Stands;
    var all := entries + [last];
    var rendered := if outcome.plugin.Some? then e.rendered[last.slug := outcome.plugin.value] else e.rendered;
    forall slug
      ensures slug in rendered <==> exists i :: 0 <= i < |all| && Stands(index, all, i) && all[i].slug == slug
    {
      RenderedNext(docs, index, entries, e, last, slug);
    }
    forall i | 0 <= i < |all| && Stands(index, all, i)
      ensures all[i].slug in rendered && PluginIs(docs, index, all[i], rendered[all[i].slug])
    {
      StandsNext(index, entries, last, i);
      if i < |entries| { assert all[i] == entries[i]; }
    }
    forall skip
      ensures skip in e.skipped + outcome.skipped <==>
              exists i :: 0 <= i < |all| && skip.slug == all[i].slug && WhyNot(index, all[i], skip.reason)
    {
      SkipsNext(index, entries, last, skip);
    }
  }

  lemma {:induction false} LoopIsRight(docs: Documents, index: Index, entries: seq<ExportInput>)
    requires (forall m <- index :: '/' !in m) && forall i | 0 <= i < |entries| :: '/' !in entries[i].slug
    ensures LoopRight(docs, index, entries, AddEntries(docs, index, entries))
  {
    hide LoopRight, RenderedRight, AddEntry;
    if entries == [] {
      NothingLooped(docs, index);
    } else {
      var init, last := entries[..|entries| - 1], entries[|entries| - 1];
      assert entries == init + [last];
      LoopIsRight(docs, index, init);
      EntryRendered(docs, index, last);
      LoopNext(docs, index, init, AddEntries(docs, index, init), last);
    }
  }

  lemma NothingLooped(docs: Documents, index: Index)
    ensures LoopRight(docs, index, [], Progression(map[], [], []))
  {}

  // ---- The merged tree ----

  /** The second part of a path under `plugins` is the plugin's slug. */
  lemma PathNamesSlug(e: ExportInput, index: Index, docs: Documents, plugin: Plugin, path: string)
    requires '/' !in e.slug && (forall m <- index :: '/' !in m) && PluginIs(docs, index, e, plugin)
    requires path in plugin.files
    ensures |Split(path)| > 1 && Split(path)[0] == PLUGINS && Split(path)[1] == e.slug
  {
    hide Brings, ServersAre, Split, SkillPath, PluginPath;
    PluginSegments(e.slug);
    var files, servers :| FilesAre(index, e, files) && ServersAre(index, e, servers)
                          && plugin.files == files[PluginPath(e.slug) := docs.plugin(e, servers, files)];
    if path != PluginPath(e.slug) {
      var skill, name, content :| Brings(index, e, skill, name, content) && path == SkillPath(e.slug, skill, name);
      BroughtPlain(index, e, skill, name, content);
      SkillSegments(e.slug, skill, name);
    }
  }

  lemma BroughtPlain(index: Index, e: ExportInput, skill: string, name: string, content: string)
    requires '/' !in e.slug && (forall m <- index :: '/' !in m) && Brings(index, e, skill, name, content)
    ensures '/' !in skill
  {}

  /** Every file of a plugin that is listed is there, if the plugins' paths do not meet. */
  ghost predicate Apart(rendered: map<string, Plugin>) {
    forall a, b, path | a in rendered && b in rendered && path in rendered[a].files && path in rendered[b].files ::
      a == b
  }

  lemma {:induction false} MergedAt(rendered: map<string, Plugin>, order: seq<string>, slug: string, path: string)
    requires AllRendered(rendered, order) && Apart(rendered) && slug in order && path in rendered[slug].files
    ensures slug in rendered && path in Merge(rendered, order)
    ensures Merge(rendered, order)[path] == rendered[slug].files[path]
  {
    var init, last := order[..|order| - 1], order[|order| - 1];
    assert order == init + [last];
    if path !in rendered[last].files {
      MergedAt(rendered, init, slug, path);
    } else {
      assert last == slug;
    }
  }

  lemma {:induction false} MergedOf(rendered: map<string, Plugin>, order: seq<string>, path: string)
    returns (slug: string)
    requires AllRendered(rendered, order) && path in Merge(rendered, order)
    ensures slug in order && slug in rendered && path in rendered[slug].files
  {
    var init, last := order[..|order| - 1], order[|order| - 1];
    assert order == init + [last];
    if path in rendered[last].files {
      slug := last;
    } else {
      slug := MergedOf(rendered, init, path);
    }
  }

  lemma LoopApart(docs: Documents, index: Index, entries: seq<ExportInput>, e: Progression)
    requires LoopRight(docs, index, entries, e) && (forall m <- index :: '/' !in m)
    requires forall i | 0 <= i < |entries| :: '/' !in entries[i].slug
    ensures Apart(e.rendered)
  {
    hide PluginIs, Stands;
    forall a, b, path | a in e.rendered && b in e.rendered && path in e.rendered[a].files && path in e.rendered[b].files
      ensures a == b
    {
      RenderedPathSlug(docs, index, entries, e, a, path);
      RenderedPathSlug(docs, index, entries, e, b, path);
    }
  }

  lemma RenderedPathSlug(docs: Documents, index: Index, entries: seq<ExportInput>, e: Progression, slug: string,
                         path: string)
    requires LoopRight(docs, index, entries, e) && (forall m <- index :: '/' !in m)
    requires forall i | 0 <= i < |entries| :: '/' !in entries[i].slug
    requires slug in e.rendered && path in e.rendered[slug].files
    ensures |Split(path)| > 1 && Split(path)[0] == PLUGINS && Split(path)[1] == slug
  {
    hide PluginIs, Stands;
    var i :| 0 <= i < |entries| && Stands(index, entries, i) && entries[i].slug == slug;
    PathNamesSlug(entries[i], index, docs, e.rendered[slug], path);
  }

  lemma SortedHolds(slugs: seq<string>)
    ensures forall slug :: slug in Sorted(slugs) <==> slug in slugs
  {
    SortedSame(slugs);
    forall slug ensures slug in Sorted(slugs) <==> slug in slugs {
      assert slug in Sorted(slugs) <==> slug in multiset(Sorted(slugs));
      assert slug in slugs <==> slug in multiset(slugs);
    }
  }

  lemma {:induction false} SortedOrdered(slugs: seq<string>)
    ensures Ordered({}, Sorted(slugs))
  {
    if slugs != [] {
      SortedOrdered(slugs[..|slugs| - 1]);
      InsertKeepsOrder({}, Sorted(slugs[..|slugs| - 1]), slugs[|slugs| - 1]);
    }
  }

  lemma ManifestApart(path: string)
    requires |Split(path)| > 1 && Split(path)[0] == PLUGINS
    ensures path != ManifestPath()
  {
    ManifestSegments();
    PlainConstants();
  }

  /** The plugin of an entry is in the tree, whole. */
  ghost predicate InTree(docs: Documents, index: Index, e: ExportInput, tree: map<string, string>) {
    exists plugin: Plugin :: PluginIs(docs, index, e, plugin)
                             && forall path <- plugin.files :: path in tree && tree[path] == plugin.files[path]
  }

  lemma PlainEntries(entries: seq<ExportInput>, index: Index)
    requires AllLoaded(entries) && IsIndex(entries, index)
    ensures (forall m <- index :: '/' !in m) && forall i | 0 <= i < |entries| :: '/' !in entries[i].slug
  {
    forall i | 0 <= i < |entries| ensures '/' !in entries[i].slug { assert Loaded(entries[i]); }
    forall m | m in index ensures '/' !in m {
      var i :| 0 <= i < |entries| && entries[i].slug == m;
    }
  }

  lemma ExportParts(docs: Documents, entries: seq<ExportInput>, index: Index)
    returns (e: Progression, order: seq<string>)
    requires AllLoaded(entries) && IsIndex(entries, index)
    ensures LoopRight(docs, index, entries, e) && Apart(e.rendered) && order == Sorted(e.order)
    ensures AllRendered(e.rendered, order) && (forall slug :: slug in order <==> slug in e.rendered)
    ensures Export(docs, entries)
         == (Merge(e.rendered, order)[ManifestPath() := docs.manifest(Listed(e.rendered, order))],
             if order == [] then e.skipped + [Skip("", MarketplaceEmpty)] else e.skipped)
  {
    hide PluginIs, Stands, WhyNot;
    PlainEntries(entries, index);
    IndexIs(entries, index);
    e := AddEntries(docs, index, entries);
    LoopIsRight(docs, index, entries);
    LoopApart(docs, index, entries, e);
    order := Sorted(e.order);
    SortedRendered(docs, entries);
    SortedHolds(e.order);
  }

  /**
    The last exported entry of each slug has its whole plugin in the tree: every file of its skill, or of every skill
    its bundle includes, with its own content, and the document that declares exactly its upstreams.
   */
  lemma EveryPluginIsThere(docs: Documents, entries: seq<ExportInput>, index: Index, i: nat)
    requires AllLoaded(entries) && IsIndex(entries, index) && i < |entries| && Stands(index, entries, i)
    ensures InTree(docs, index, entries[i], Export(docs, entries).0)
  {
    hide PluginIs, Stands;
    var e, order := ExportParts(docs, entries, index);
    PlainEntries(entries, index);
    var slug := entries[i].slug;
    var plugin, tree := e.rendered[slug], Export(docs, entries).0;
    forall path | path in plugin.files ensures path in tree && tree[path] == plugin.files[path] {
      MergedAt(e.rendered, order, slug, path);
      RenderedPathSlug(docs, index, entries, e, slug, path);
      ManifestApart(path);
    }
  }

  /** And nothing else is in the tree but the manifest. */
  lemma NothingElseIsThere(docs: Documents, entries: seq<ExportInput>, index: Index, path: string)
    returns (i: nat, plugin: Plugin)
    requires AllLoaded(entries) && IsIndex(entries, index)
    requires path in Export(docs, entries).0 && path != ManifestPath()
    ensures i < |entries| && Stands(index, entries, i) && PluginIs(docs, index, entries[i], plugin)
    ensures path in plugin.files
  {
    hide PluginIs, Stands;
    var e, order := ExportParts(docs, entries, index);
    var slug := MergedOf(e.rendered, order, path);
    i :| 0 <= i < |entries| && Stands(index, entries, i) && entries[i].slug == slug;
    plugin := e.rendered[slug];
  }

  /** The list of what is missing names each reason of each entry that is not exported, and nothing else. */
  lemma SkippedWithReasons(docs: Documents, entries: seq<ExportInput>, index: Index, skip: Skip)
    requires AllLoaded(entries) && IsIndex(entries, index)
    ensures skip in Export(docs, entries).1
            <==> (exists i :: 0 <= i < |entries| && skip.slug == entries[i].slug
                              && WhyNot(index, entries[i], skip.reason))
                 || (skip == Skip("", MarketplaceEmpty) && forall i | 0 <= i < |entries| :: !Stands(index, entries, i))
  {
    hide PluginIs, Stands, WhyNot;
    var e, order := ExportParts(docs, entries, index);
    forall i | 0 <= i < |entries| ensures Stands(index, entries, i) ==> entries[i].slug in order {}
    if order != [] {
      assert order[0] in order;
      var i :| 0 <= i < |entries| && Stands(index, entries, i) && entries[i].slug == order[0];
    }
  }

  // ---- The manifest ----

  /** The list is in the order of slugs, and names each exported slug with its category, and no other. */
  ghost predicate ListIs(index: Index, entries: seq<ExportInput>, listed: seq<(string, string)>) {
    && (forall a, b | 0 <= a < b < |listed| :: AtMost(listed[a].0, listed[b].0))
    && (forall pair :: pair in listed <==>
          exists i :: 0 <= i < |entries| && Stands(index, entries, i)
                      && pair == (entries[i].slug, CategoryOf(entries[i])))
  }

  lemma {:induction false} ListedAt(rendered: map<string, Plugin>, order: seq<string>)
    requires AllRendered(rendered, order)
    ensures |Listed(rendered, order)| == |order|
    ensures forall i | 0 <= i < |order| :: Listed(rendered, order)[i] == (order[i], rendered[order[i]].category)
  {
    if order != [] { ListedAt(rendered, order[..|order| - 1]); }
  }

  lemma ListedOrdered(order: seq<string>, listed: seq<(string, string)>)
    requires Ordered({}, order) && |listed| == |order| && forall i | 0 <= i < |order| :: listed[i].0 == order[i]
    ensures forall a, b | 0 <= a < b < |listed| :: AtMost(listed[a].0, listed[b].0)
  {
    hide AtMost;
    forall a, b | 0 <= a < b < |listed| ensures AtMost(listed[a].0, listed[b].0) {
      assert KeyAtMost({}, order[a], order[b]);
    }
  }

  lemma ManifestListsExported(docs: Documents, entries: seq<ExportInput>, index: Index)
    returns (listed: seq<(string, string)>)
    requires AllLoaded(entries) && IsIndex(entries, index)
    ensures ManifestPath() in Export(docs, entries).0
    ensures Export(docs, entries).0[ManifestPath()] == docs.manifest(listed) && ListIs(index, entries, listed)
  {
    hide PluginIs, Stands, LoopRight, IsIndex, AllLoaded, Apart, Sorted, Merge, AtMost;
    var e, order := ExportParts(docs, entries, index);
    listed := Listed(e.rendered, order);
    ListedAt(e.rendered, order);
    SortedOrdered(e.order);
    ListedOrdered(order, listed);
    forall pair
      ensures pair in listed <==> exists i :: 0 <= i < |entries| && Stands(index, entries, i)
                                              && pair == (entries[i].slug, CategoryOf(entries[i]))
    {
      ListedPair(docs, index, entries, e, order, listed, pair);
    }
  }

  lemma CategoryIs(docs: Documents, index: Index, e: ExportInput, plugin: Plugin)
    requires PluginIs(docs, index, e, plugin)
    ensures plugin.category == CategoryOf(e)
  {}

  lemma ListedPair(docs: Documents, index: Index, entries: seq<ExportInput>, e: Progression, order: seq<string>,
                   listed: seq<(string, string)>, pair: (string, string))
    requires LoopRight(docs, index, entries, e) && (forall slug :: slug in order <==> slug in e.rendered)
    requires AllRendered(e.rendered, order) && |listed| == |order|
    requires forall i | 0 <= i < |order| :: listed[i] == (order[i], e.rendered[order[i]].category)
    ensures pair in listed <==> exists i :: 0 <= i < |entries| && Stands(index, entries, i)
                                            && pair == (entries[i].slug, CategoryOf(entries[i]))
  {
    hide PluginIs, Stands;
    if pair in listed {
      var k :| 0 <= k < |listed| && listed[k] == pair;
      assert order[k] in order;
      var i :| 0 <= i < |entries| && Stands(index, entries, i) && entries[i].slug == order[k];
      CategoryIs(docs, index, entries[i], e.rendered[order[k]]);
    }
    if i :| 0 <= i < |entries| && Stands(index, entries, i) && pair == (entries[i].slug, CategoryOf(entries[i])) {
      CategoryIs(docs, index, entries[i], e.rendered[entries[i].slug]);
      assert entries[i].slug in order;
      var k :| 0 <= k < |order| && order[k] == entries[i].slug;
      assert listed[k] == pair;
    }
  }
}
