/** The gateway's local tool catalog: its fields, and the critical sections that touch them. */
module CatalogCache {
  import opened Wrappers
  import opened ToolNames

  /** An enabled tool row. `content` stands for every column not looked at here. */
  datatype Row = Row(id: nat, key: string, builtin: bool, schemaOk: bool, content: nat)

  /** A served tool: its row, the remote tool behind it, and the revision of the table the row was read from. */
  datatype Binding = Binding(row: Row, tool: Option<string>, readAt: nat)

  function PublicName(b: Binding): string {
    match b.tool
    case None => b.row.key
    case Some(tool) => RemoteName(b.row.key, tool)
  }

  /** How long a published catalog is served, in milliseconds. */
  const TTL := 5000

  /** `until` is 0 for the zero time, which no clock is before. */
  datatype Cache = Cache(revision: nat, version: nat, until: nat, catalog: seq<Binding>)

  /** observeCatalogRevision, after its query. */
  function Observed(c: Cache, revision: nat): Cache {
    if revision > c.revision then c.(revision := revision, version := c.version + 1, until := 0) else c
  }

  function Invalidated(c: Cache): Cache {
    c.(version := c.version + 1, until := 0)
  }

  function Lookup(c: Cache, now: nat): Option<seq<Binding>> {
    if now < c.until then Some(c.catalog) else None
  }

  /** A flight publishes only while the version it started from still stands. */
  function Published(c: Cache, version: nat, result: seq<Binding>, now: nat): Cache {
    if version != c.version then c else c.(catalog := result, until := now + TTL)
  }

  class Gateway {
    var catalogRevision: nat
    var catalogVersion: nat
    var catalogUntil: nat
    var catalog: seq<Binding>

    constructor ()
      ensures Contents() == Cache(0, 0, 0, [])
    {
      catalogRevision, catalogVersion, catalogUntil, catalog := 0, 0, 0, [];
    }

    ghost function Contents(): Cache
      reads this
    {
      Cache(catalogRevision, catalogVersion, catalogUntil, catalog)
    }

    method ObserveCatalogRevision(revision: nat)
      modifies this
      ensures Contents() == Observed(old(Contents()), revision)
    {
      if revision > catalogRevision {
        catalogRevision := revision;
        catalogVersion := catalogVersion + 1;
        catalogUntil := 0;
      }
    }

    method InvalidateLocal()
      modifies this
      ensures Contents() == Invalidated(old(Contents()))
    {
      catalogUntil := 0;
      catalogVersion := catalogVersion + 1;
    }

    /** The first section of a flight: what it will have to match at publication, unless the cache is still good. */
    method BeginFlight(now: nat) returns (cached: Option<seq<Binding>>, version: nat, revision: nat)
      ensures cached == Lookup(Contents(), now) && version == catalogVersion && revision == catalogRevision
    {
      version := catalogVersion;
      revision := catalogRevision;
      cached := None;
      if now < catalogUntil {
        cached := Some(catalog);
      }
    }

    method Publish(version: nat, result: seq<Binding>, now: nat)
      modifies this
      ensures Contents() == Published(old(Contents()), version, result, now)
    {
      if version != catalogVersion {
        return;
      }
      catalog := result;
      catalogUntil := now + TTL;
    }
  }

  // ---- Reading the table page by page ----

  const PAGE := 128

  /** Rows are in id order, as the query returns them. */
  ghost predicate Ordered(table: seq<Row>) {
    forall i, j | 0 <= i < j < |table| :: table[i].id < table[j].id
  }

  /** `WHERE enabled AND id > after ORDER BY id`: ids start at 1. */
  function Beyond(table: seq<Row>, after: nat): seq<Row> {
    if table == [] then []
    else if table[0].id > after then table
    else Beyond(table[1..], after)
  }

  function Page(table: seq<Row>, after: nat): seq<Row> {
    var rest := Beyond(table, after);
    if |rest| > PAGE then rest[..PAGE] else rest
  }

  /** The tools a remote provider answered with; a provider that fails is skipped. */
  type Discovery = map<nat, seq<string>>

  function RemoteBindings(row: Row, tools: seq<string>, readAt: nat): seq<Binding> {
    seq(|tools|, i requires 0 <= i < |tools| => Binding(row, Some(tools[i]), readAt))
  }

  function RowBindings(row: Row, found: Discovery, readAt: nat): seq<Binding> {
    if row.builtin then (if row.schemaOk then [Binding(row, None, readAt)] else [])
    else if row.id in found then RemoteBindings(row, found[row.id], readAt)
    else []
  }

  function PageBindings(page: seq<Row>, found: Discovery, readAt: nat): seq<Binding> {
    if page == [] then []
    else PageBindings(page[..|page| - 1], found, readAt) + RowBindings(page[|page| - 1], found, readAt)
  }

  function Names(bindings: seq<Binding>): seq<string> {
    seq(|bindings|, i requires 0 <= i < |bindings| => PublicName(bindings[i]))
  }

  // ---- What a page is made of ----

  lemma {:induction false} BeyondExact(table: seq<Row>, after: nat)
    requires Ordered(table)
    ensures Ordered(Beyond(table, after))
    ensures forall row :: row in Beyond(table, after) <==> row in table && row.id > after
  {
    if table != [] && table[0].id <= after {
      BeyondExact(table[1..], after);
      assert table == [table[0]] + table[1..];
    } else if table != [] {
      forall row | row in table ensures row.id > after {
        var i :| 0 <= i < |table| && table[i] == row;
      }
    }
  }

  /** A page holds exactly the table's rows from `after` up to its last row; an empty page means there are none left. */
  lemma PageExact(table: seq<Row>, after: nat)
    requires Ordered(table)
    ensures var page := Page(table, after);
            && Ordered(page) && (forall row <- page :: row in table && row.id > after)
            && (page == [] ==> forall row <- table :: row.id <= after)
            && (page != [] ==> page[|page| - 1].id > after
                               && forall row <- table | after < row.id <= page[|page| - 1].id :: row in page)
  {
    BeyondExact(table, after);
    var rest, page := Beyond(table, after), Page(table, after);
    if page != [] {
      assert page[|page| - 1] in page;
      forall row | row in table && after < row.id <= page[|page| - 1].id ensures row in page {
        assert row in rest;
        PrefixTo(rest, |page|, row);
        assert page == rest[..|page|];
      }
    }
  }

  /** A page has at most 128 rows, and one that is shorter takes all that are left. */
  lemma PageFull(table: seq<Row>, after: nat)
    requires Ordered(table)
    ensures var page := Page(table, after);
            |page| <= 128 && (|page| < 128 ==> forall row <- table | row.id > after :: row in page)
  {
    BeyondExact(table, after);
  }

  /** Of ordered rows, those up to a row of a prefix are in the prefix. */
  lemma PrefixTo(rest: seq<Row>, n: nat, row: Row)
    requires Ordered(rest) && 0 < n <= |rest| && row in rest && row.id <= rest[n - 1].id
    ensures row in rest[..n]
  {
    var i :| 0 <= i < |rest| && rest[i] == row;
    assert i < n && rest[..n][i] == row;
  }

  /** A binding of a page is a valid builtin row, or a discovered tool of a remote row. */
  predicate Sound(b: Binding, page: seq<Row>, readAt: nat) {
    && b.row in page && b.readAt == readAt
    && (b.row.builtin <==> b.tool.None?) && (b.row.builtin ==> b.row.schemaOk)
  }

  lemma {:induction false} PageBindingsSound(page: seq<Row>, found: Discovery, readAt: nat)
    ensures forall b <- PageBindings(page, found, readAt) :: Sound(b, page, readAt)
    ensures forall row <- page | row.builtin && row.schemaOk ::
              Binding(row, None, readAt) in PageBindings(page, found, readAt)
  {
    if page != [] {
      var init, last := page[..|page| - 1], page[|page| - 1];
      PageBindingsSound(init, found, readAt);
      assert page == init + [last];
      forall b | b in PageBindings(page, found, readAt) ensures Sound(b, page, readAt) {
        if b in PageBindings(init, found, readAt) {
          assert Sound(b, init, readAt);
        } else {
          assert b in RowBindings(last, found, readAt);
        }
      }
      forall row | row in page && row.builtin && row.schemaOk
        ensures Binding(row, None, readAt) in PageBindings(page, found, readAt)
      {
        if row == last {
          assert Binding(row, None, readAt) in RowBindings(last, found, readAt);
        }
      }
    }
  }
}
