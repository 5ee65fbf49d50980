/** The comment lines around each slot's block, and why one slot's block is never mistaken for another's. */
module SlotMarkers {
  import opened Wrappers
  import opened HealTheorems
  import opened ConfigJournal
  import opened TomlSplice
  import opened SpliceTheorems

  const HEAD := "# --- pluginpocket"
  const BEGIN_TAIL := " begin ---"
  const END_TAIL := " end ---"

  predicate SlugChar(c: char) {
    '0' <= c <= '9' || 'A' <= c <= 'Z' || 'a' <= c <= 'z' || c == '-' || c == '_'
  }

  /** validate_slug */
  predicate ValidSlug(slug: string) {
    slug != "" && |slug| <= 64 && forall c <- slug :: SlugChar(c)
  }

  predicate ValidSlot(slot: Slot) {
    slot.Plugin? ==> ValidSlug(slot.slug)
  }

  /** What distinguishes the slots between the fixed head and tail. */
  function Label(slot: Slot): string {
    match slot
    case Main => ""
    case Plugin(slug) => ":" + slug
  }

  function BeginMarker(slot: Slot): string {
    HEAD + Label(slot) + BEGIN_TAIL
  }

  function EndMarker(slot: Slot): string {
    HEAD + Label(slot) + END_TAIL
  }

  /** The four texts a client file may hold: those of the gateway's own entry, and those of a plugin. */
  lemma MarkerTexts(slug: string)
    ensures BeginMarker(Main) == "# --- pluginpocket begin ---" && EndMarker(Main) == "# --- pluginpocket end ---"
    ensures BeginMarker(Plugin(slug)) == "# --- pluginpocket:" + slug + " begin ---"
    ensures EndMarker(Plugin(slug)) == "# --- pluginpocket:" + slug + " end ---"
  {
    assert HEAD + ":" == "# --- pluginpocket:";
    assert HEAD + (":" + slug) == (HEAD + ":") + slug;
  }

  // ---- Labels end at the first space ----

  predicate LabelChar(c: char) {
    c == ':' || SlugChar(c)
  }

  lemma LabelChars(slot: Slot)
    requires ValidSlot(slot)
    ensures forall i | 0 <= i < |Label(slot)| :: LabelChar(Label(slot)[i])
  {
    if slot.Plugin? {
      forall i | 0 <= i < |Label(slot)| ensures LabelChar(Label(slot)[i]) {
        if i > 0 {
          assert Label(slot)[i] == slot.slug[i - 1] && slot.slug[i - 1] in slot.slug;
        }
      }
    }
  }

  lemma LabelsDiffer(x: Slot, y: Slot)
    requires Label(x) == Label(y)
    ensures x == y
  {
    if x.Plugin? && y.Plugin? {
      assert x.slug == Label(x)[1..] && y.slug == Label(y)[1..];
    }
  }

  function UntilSpace(s: string): string {
    if s == "" || s[0] == ' ' then "" else [s[0]] + UntilSpace(s[1..])
  }

  lemma {:induction false} UntilSpaceOf(a: string, s: string)
    requires (forall i | 0 <= i < |a| :: LabelChar(a[i])) && s != "" && s[0] == ' '
    ensures UntilSpace(a + s) == a
  {
    if a == "" {
      assert a + s == s;
    } else {
      assert (a + s)[1..] == a[1..] + s;
      UntilSpaceOf(a[1..], s);
    }
  }

  lemma {:induction false} UntilSpacePrefix(p: string, q: string)
    requires p <= q && ' ' in p
    ensures UntilSpace(p) == UntilSpace(q)
  {
    if p[0] != ' ' {
      assert p == [p[0]] + p[1..];
      UntilSpacePrefix(p[1..], q[1..]);
    }
  }

  /** One marker starts another only with the same label, as two texts that agree up to their first space. */
  lemma SameLabel(a: string, s: string, b: string, t: string)
    requires (forall i | 0 <= i < |a| :: LabelChar(a[i])) && (forall i | 0 <= i < |b| :: LabelChar(b[i]))
    requires s != "" && t != "" && s[0] == ' ' && t[0] == ' '
    requires HEAD + a + s <= HEAD + b + t
    ensures a == b && s <= t
  {
    var n := |HEAD|;
    assert (HEAD + a + s)[n..] == a + s && (HEAD + b + t)[n..] == b + t;
    assert a + s <= b + t;
    assert (a + s)[|a|] == ' ';
    UntilSpaceOf(a, s);
    UntilSpaceOf(b, t);
    UntilSpacePrefix(a + s, b + t);
    assert (a + s)[|a|..] == s && (b + t)[|b|..] == t;
  }

  lemma PrefixSameSlot(x: Slot, s: string, y: Slot, t: string)
    requires ValidSlot(x) && ValidSlot(y) && s in {BEGIN_TAIL, END_TAIL} && t in {BEGIN_TAIL, END_TAIL}
    requires HEAD + Label(x) + s <= HEAD + Label(y) + t
    ensures x == y && s == t
  {
    LabelChars(x);
    LabelChars(y);
    SameLabel(Label(x), s, Label(y), t);
    LabelsDiffer(x, y);
    assert s[1] == t[1];
  }

  // ---- The markers are markers ----

  ghost predicate Inner(s: string) {
    forall i | 0 <= i < |s| :: s[i] != '#' && s[i] != '\n' && s[i] != '\r'
  }

  lemma InnerConcat(a: string, b: string)
    requires Inner(a) && Inner(b)
    ensures Inner(a + b)
  {}

  lemma MarkerShape(slot: Slot, tail: string)
    requires ValidSlot(slot) && tail in {BEGIN_TAIL, END_TAIL}
    ensures MarkerOk(HEAD + Label(slot) + tail)
  {
    var l := Label(slot);
    LabelChars(slot);
    assert Inner(l);
    InnerConcat(HEAD[1..], l);
    InnerConcat(HEAD[1..] + l, tail);
    HashThen(HEAD[1..] + l + tail);
    HashFirst(l, tail);
  }

  lemma HashFirst(name: string, tail: string)
    ensures HEAD + name + tail == "#" + (HEAD[1..] + name + tail)
  {
    assert HEAD == "#" + HEAD[1..];
  }

  lemma HashThen(rest: string)
    requires Inner(rest) && rest != "" && rest[|rest| - 1] == '-'
    ensures MarkerOk("#" + rest)
  {
    var m := "#" + rest;
    assert forall i | 0 < i < |m| :: m[i] == rest[i - 1];
  }

  /** Every slot's markers are a proper pair, and no marker of one slot occurs in a marker of another. */
  lemma MarkersOfSlots(x: Slot, y: Slot)
    requires ValidSlot(x) && ValidSlot(y)
    ensures MarkerPair(BeginMarker(x), EndMarker(x))
    ensures x != y ==>
              && !(BeginMarker(x) <= BeginMarker(y)) && !(BeginMarker(x) <= EndMarker(y))
              && !(EndMarker(x) <= BeginMarker(y)) && !(EndMarker(x) <= EndMarker(y))
  {
    MarkerShape(x, BEGIN_TAIL);
    MarkerShape(x, END_TAIL);
    if BeginMarker(x) <= EndMarker(x) { PrefixSameSlot(x, BEGIN_TAIL, x, END_TAIL); }
    if EndMarker(x) <= BeginMarker(x) { PrefixSameSlot(x, END_TAIL, x, BEGIN_TAIL); }
    if BeginMarker(x) <= BeginMarker(y) { PrefixSameSlot(x, BEGIN_TAIL, y, BEGIN_TAIL); }
    if BeginMarker(x) <= EndMarker(y) { PrefixSameSlot(x, BEGIN_TAIL, y, END_TAIL); }
    if EndMarker(x) <= BeginMarker(y) { PrefixSameSlot(x, END_TAIL, y, BEGIN_TAIL); }
    if EndMarker(x) <= EndMarker(y) { PrefixSameSlot(x, END_TAIL, y, END_TAIL); }
  }

  function BlockFor(slot: Slot, entry: string): string {
    Canonical(BeginMarker(slot), entry, EndMarker(slot))
  }

  ghost predicate Clean(text: string, slot: Slot) {
    Free(text, BeginMarker(slot)) && Free(text, EndMarker(slot))
  }

  /** Another slot's block contains none of this slot's markers. */
  lemma OtherBlockClean(x: Slot, y: Slot, entry: string)
    requires ValidSlot(x) && ValidSlot(y) && x != y && EndsLine(entry) && Clean(entry, x)
    ensures Clean(BlockFor(y, entry), x) && EndsLine(BlockFor(y, entry))
  {
    MarkersOfSlots(x, y);
    MarkersOfSlots(y, x);
    OtherBlockFree(BeginMarker(x), BeginMarker(y), entry, EndMarker(y));
    OtherBlockFree(EndMarker(x), BeginMarker(y), entry, EndMarker(y));
  }

  lemma OtherBlockFree(marker: string, begin: string, entry: string, end: string)
    requires MarkerOk(marker) && MarkerOk(begin) && MarkerOk(end) && !(marker <= begin) && !(marker <= end)
    requires EndsLine(entry) && Free(entry, marker)
    ensures Free(Canonical(begin, entry, end), marker) && EndsLine(Canonical(begin, entry, end))
  {
    assert Free("", marker);
    OtherMarkerFree(marker, end, "");
    SeamFree(entry, end + "\n" + "", marker);
    OtherMarkerFree(marker, begin, entry + (end + "\n" + ""));
    assert Canonical(begin, entry, end) == begin + "\n" + (entry + (end + "\n" + ""));
  }

  /** Taking one slot's block out of a file leaves another slot's block before it byte for byte. */
  lemma OtherBlocksKept(
      x: Slot, mine: string, y: Slot, theirs: string, before: string, between: string, after: string, key: string,
      toml: Toml)
    requires ValidSlot(x) && ValidSlot(y) && x != y
    requires EndsLine(before) && EndsLine(mine) && EndsLine(theirs) && EndsLine(between)
    requires Clean(before, x) && Clean(mine, x) && Clean(theirs, x) && Clean(between, x) && Clean(after, x)
    requires var text := before + BlockFor(y, theirs) + between + BlockFor(x, mine) + after;
             var rest := before + BlockFor(y, theirs) + between + after;
             toml.valid(text) && toml.has(text, key) && toml.valid(rest) && !toml.has(rest, key)
    ensures Splice(before + BlockFor(y, theirs) + between + BlockFor(x, mine) + after, BeginMarker(x), EndMarker(x),
                   key, toml)
            == Success(Spliced(before + BlockFor(y, theirs) + between + after, Some(BlockFor(x, mine))))
  {
    OtherBlockClean(x, y, theirs);
    MarkersOfSlots(x, y);
    JoinedClean(before, BlockFor(y, theirs), x);
    JoinedClean(before + BlockFor(y, theirs), between, x);
    SpliceExact(before + BlockFor(y, theirs) + between, BeginMarker(x), mine, EndMarker(x), after, key, toml);
  }

  /** And one after it. */
  lemma FollowingBlocksKept(
      x: Slot, mine: string, y: Slot, theirs: string, before: string, between: string, after: string, key: string,
      toml: Toml)
    requires ValidSlot(x) && ValidSlot(y) && x != y
    requires EndsLine(before) && EndsLine(mine) && EndsLine(theirs) && EndsLine(between)
    requires Clean(before, x) && Clean(mine, x) && Clean(theirs, x) && Clean(between, x) && Clean(after, x)
    requires var rest := between + BlockFor(y, theirs) + after;
             toml.valid(before + BlockFor(x, mine) + rest) && toml.has(before + BlockFor(x, mine) + rest, key)
             && toml.valid(before + rest) && !toml.has(before + rest, key)
    ensures var rest := between + BlockFor(y, theirs) + after;
            Splice(before + BlockFor(x, mine) + rest, BeginMarker(x), EndMarker(x), key, toml)
            == Success(Spliced(before + rest, Some(BlockFor(x, mine))))
  {
    OtherBlockClean(x, y, theirs);
    MarkersOfSlots(x, y);
    JoinedClean(between, BlockFor(y, theirs), x);
    SeamFree(between + BlockFor(y, theirs), after, BeginMarker(x));
    SeamFree(between + BlockFor(y, theirs), after, EndMarker(x));
    SpliceExact(before, BeginMarker(x), mine, EndMarker(x), between + BlockFor(y, theirs) + after, key, toml);
  }

  lemma JoinedClean(a: string, b: string, slot: Slot)
    requires ValidSlot(slot) && EndsLine(a) && EndsLine(b) && Clean(a, slot) && Clean(b, slot)
    ensures Clean(a + b, slot) && EndsLine(a + b)
  {
    MarkersOfSlots(slot, slot);
    SeamFree(a, b, BeginMarker(slot));
    SeamFree(a, b, EndMarker(slot));
  }
}
