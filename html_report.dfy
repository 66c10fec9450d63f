/**
 * The HTML page of the installer console. The page is written to two writers: the
 * response writer gets the status line and the table of contents, a buffer gets the
 * tables, and the buffer is appended to the response at the end. A token is one print,
 * except `Banner`, `CategoryOpen`, `TableOpen` and a processed group's first `Row`, which
 * each stand for a fixed group of prints; `esc` is the XML escaping the console applies to
 * displayed values and `fmt` the date formatter.
 */
module HtmlReport {
  import opened Wrappers
  import opened Installer
  import opened Labels
  import opened Runs
  import opened Sections
  import opened Writers

  datatype Html =
      // written to the response writer
    | Banner(text: string)
    | ListOpen
    | CategoryOpen(title: string)
    | TocEntry(anchor: string, linkText: string)
    | NoneEntry
    | CategoryClose
    | ListClose
      // written to the buffer
    | TableOpen(anchor: string, caption: string, header: seq<string>)
    | Row(cells: seq<string>)
    | AttributeRow(text: string)
    | AlternativeRow(cells: seq<string>)
    | TableClose
  {
    /** Tokens that belong to the tables, that is, to the buffer. */
    predicate IsTableMarkup()
    {
      TableOpen? || Row? || AttributeRow? || AlternativeRow? || TableClose?
    }

    /** Data rows of a table. */
    predicate IsRow()
    {
      Row? || AttributeRow? || AlternativeRow?
    }
  }

  /** What distinguishes the three categories: anchor prefix, title and table header. */
  datatype Category = Category(anchorPrefix: string, title: string, header: seq<string>)

  const ENTITY_HEADER: seq<string> := ["Entity ID", "Digest/Priority", "URL (Version)", "State", "Error"]
  const ACTIVE: Category := Category("active-", "Active Resources", ENTITY_HEADER)
  const PROCESSED: Category := Category("processed-", "Processed Resources", ENTITY_HEADER)
  const UNTRANSFORMED: Category := Category("untransformed-", "Untransformed Resources", ["Digest/Priority", "URL"])

  /** Output of a category's loop so far, and the loop variable `rt`: the raw type of the open section. */
  datatype Pass = Pass(toc: seq<Html>, tables: seq<Html>, rt: Option<string>)

  function Anchor(esc: string -> string, cat: Category, rtype: string): string
  {
    cat.anchorPrefix + esc(GetType(rtype))
  }

  /** The TOC link of a section. */
  function TocLink(esc: string -> string, cat: Category, rtype: string): Html
  {
    TocEntry(Anchor(esc, cat, rtype), esc(GetType(rtype)))
  }

  /** What the buffer gets when a section opens: the close of the open table, if any, and the new table head. */
  function SectionHead(esc: string -> string, cat: Category, rt: Option<string>, rtype: string): seq<Html>
  {
    (if rt.Some? then [TableClose] else [])
      + [TableOpen(Anchor(esc, cat, rtype), cat.title + " - " + GetType(rtype), cat.header)]
  }

  /**
   * One iteration: when the type differs from `rt`, a TOC link and a new table (the caption's
   * label is not escaped) and `rt` becomes the type; then the visit's rows.
   */
  function Step(esc: string -> string, cat: Category, p: Pass, v: Visit<Html>): Pass
  {
    if Some(v.rtype) != p.rt then
      Pass(p.toc + [TocLink(esc, cat, v.rtype)],
           p.tables + SectionHead(esc, cat, p.rt, v.rtype) + v.rows,
           Some(v.rtype))
    else p.(tables := p.tables + v.rows)
  }

  /** The loop over a category, from `rt == null` and nothing written. */
  function Walk(esc: string -> string, cat: Category, vs: seq<Visit<Html>>): (p: Pass)
    ensures p.rt == if vs == [] then None else Some(vs[|vs| - 1].rtype)
  {
    if vs == [] then Pass([], [], None)
    else Step(esc, cat, Walk(esc, cat, vs[..|vs| - 1]), vs[|vs| - 1])
  }

  /** After the loop: close the open table, or say "none" when no section was opened. */
  function Finish(p: Pass): Pass
  {
    if p.rt.Some? then p.(tables := p.tables + [TableClose]) else p.(toc := p.toc + [NoneEntry])
  }

  function Render(esc: string -> string, cat: Category, vs: seq<Visit<Html>>): Pass
  {
    Finish(Walk(esc, cat, vs))
  }

  // ---------------------------------------------------------------------------
  // Rows of the three categories

  /** An active group's row: id with alias, digest/priority, URL, the plain state name, error. */
  function ActiveRow(esc: string -> string, g: ResourceGroup): Html
    requires |g.resources| > 0
  {
    var r := g.resources[0];
    Row([esc(GetEntityId(r.registered, g.alias)), esc(GetInfo(r.registered)), esc(GetURL(r)),
         esc(StateName(r.state)), esc(GetError(r))])
  }

  /** The last-change time shown under the state: only for INSTALLED resources with a positive time. */
  function DateSuffix(fmt: int -> string, r: Resource): string
  {
    if r.state == INSTALLED && r.lastChange > 0 then "<br/>" + FormatDate(fmt, r.lastChange) else ""
  }

  /** The row of a processed group's first resource, with the state label of getState. */
  function FirstRow(esc: string -> string, fmt: int -> string, r: Resource, alias: Option<string>): Html
  {
    Row([esc(GetEntityId(r.registered, alias)), esc(GetInfo(r.registered)), esc(GetURL(r)),
         esc(GetState(r)) + DateSuffix(fmt, r), esc(GetError(r))])
  }

  /** One extra row per attribute the first resource carries: install-excluded, then install-info. */
  function AttributeRows(esc: string -> string, r: Resource): seq<Html>
  {
    (if r.excluded.Some? then [AttributeRow(esc(r.excluded.value))] else [])
      + (if r.info.Some? then [AttributeRow(esc(r.info.value))] else [])
  }

  /** The row of a shadowed alternative: no entity id, plain state name. */
  function AlternativeRowOf(esc: string -> string, r: Resource): Html
  {
    AlternativeRow([esc(GetInfo(r.registered)), esc(GetURL(r)), esc(StateName(r.state)), esc(GetError(r))])
  }

  /** The rows the iterator loop writes for the remaining resources of a group. */
  function AlternativeRows(esc: string -> string, rs: seq<Resource>): (out: seq<Html>)
    ensures |out| == |rs|
  {
    seq(|rs|, i requires 0 <= i < |rs| => AlternativeRowOf(esc, rs[i]))
  }

  /**
   * The rows of a non-empty processed group: the first resource's row, its attribute rows,
   * then one row for each other resource, in the group's order.
   */
  function ProcessedRows(esc: string -> string, fmt: int -> string, g: ResourceGroup): seq<Html>
    requires |g.resources| > 0
  {
    var first := g.resources[0];
    [FirstRow(esc, fmt, first, g.alias)] + AttributeRows(esc, first) + AlternativeRows(esc, g.resources[1..])
  }

  /**
   * The state column: an active row and an alternative row show the plain state name, the first
   * row of a processed group shows getState's label, followed by the date for an INSTALLED resource
   * with a positive last-change time.
   */
  lemma StateColumns(esc: string -> string, fmt: int -> string, g: ResourceGroup, r: Resource)
    requires |g.resources| > 0
    ensures ActiveRow(esc, g).cells[3] == esc(StateName(g.resources[0].state))
    ensures AlternativeRowOf(esc, r).cells[2] == esc(StateName(r.state))
    ensures r.state == INSTALLED && r.lastChange > 0 ==>
              FirstRow(esc, fmt, r, g.alias).cells[3] == esc(GetState(r)) + "<br/>" + fmt(r.lastChange)
    ensures !(r.state == INSTALLED && r.lastChange > 0) ==>
              FirstRow(esc, fmt, r, g.alias).cells[3] == esc(GetState(r))
  {
  }

  /**
   * A non-empty processed group of N resources writes N + k rows, k being the number of
   * attributes its first resource carries: the first resource's row, then the attribute
   * rows (install-excluded before install-info), then one alternative row per other resource.
   */
  lemma ProcessedRowsShape(esc: string -> string, fmt: int -> string, g: ResourceGroup)
    requires |g.resources| > 0
    ensures var out, first := ProcessedRows(esc, fmt, g), g.resources[0];
            var k := |AttributeRows(esc, first)|;
            |out| == |g.resources| + k &&
            out[0] == FirstRow(esc, fmt, first, g.alias) &&
            (first.excluded.Some? ==> out[1] == AttributeRow(esc(first.excluded.value))) &&
            (first.info.Some? ==> out[k] == AttributeRow(esc(first.info.value))) &&
            (forall i :: k < i < |out| ==> out[i] == AlternativeRowOf(esc, g.resources[i - k]))
  {
    var first := g.resources[0];
    PartsIndex(FirstRow(esc, fmt, first, g.alias), AttributeRows(esc, first), AlternativeRows(esc, g.resources[1..]));
  }

  /** An untransformed resource's row: digest/priority and the raw URL. */
  function UntransformedRow(esc: string -> string, r: RegisteredResource): Html
  {
    Row([esc(GetInfo(r)), esc(r.url)])
  }

  // ---------------------------------------------------------------------------
  // What each loop iteration contributes

  function ActiveVisit(esc: string -> string, g: ResourceGroup): Visit<Html>
    requires |g.resources| > 0
  {
    Visit(g.resources[0].registered.rtype, [ActiveRow(esc, g)])
  }

  function ActiveVisits(esc: string -> string, gs: seq<ResourceGroup>): (vs: seq<Visit<Html>>)
    requires AllNonEmpty(gs)
    ensures |vs| == |gs|
  {
    seq(|gs|, i requires 0 <= i < |gs| && AllNonEmpty(gs) => ActiveVisit(esc, gs[i]))
  }

  /** Empty processed groups are skipped: they write nothing and leave `rt` as it is. */
  function ProcessedVisits(esc: string -> string, fmt: int -> string, gs: seq<ResourceGroup>): seq<Visit<Html>>
  {
    if gs == [] then []
    else
      var g := gs[|gs| - 1];
      ProcessedVisits(esc, fmt, gs[..|gs| - 1])
        + (if |g.resources| > 0 then [Visit(g.resources[0].registered.rtype, ProcessedRows(esc, fmt, g))] else [])
  }

  function UntransformedVisits(esc: string -> string, rs: seq<RegisteredResource>): (vs: seq<Visit<Html>>)
    ensures |vs| == |rs|
  {
    seq(|rs|, i requires 0 <= i < |rs| => Visit(rs[i].rtype, [UntransformedRow(esc, rs[i])]))
  }

  // ---------------------------------------------------------------------------
  // The page

  predicate NoResources(s: InstallationState)
  {
    s.activeResources == [] && s.installedResources == [] && s.untransformedResources == []
  }

  const NO_RESOURCES_NOTE := " - no resources registered."

  /** The status line, with the note when nothing is registered. */
  function BannerText(s: InstallationState): string
  {
    STATUS_LINE + (if NoResources(s) then NO_RESOURCES_NOTE else "")
  }

  /** The status line carries the note that no resources are registered exactly when all three sequences are empty. */
  lemma BannerNote(s: InstallationState)
    ensures var t := BannerText(s);
            |t| >= |STATUS_LINE| && t[..|STATUS_LINE|] == STATUS_LINE &&
            (|t| > |STATUS_LINE| <==> NoResources(s)) &&
            (NoResources(s) ==> t[|STATUS_LINE|..] == NO_RESOURCES_NOTE)
  {
  }

  function ActivePass(esc: string -> string, s: InstallationState): Pass
    requires AllNonEmpty(s.activeResources)
  {
    Render(esc, ACTIVE, ActiveVisits(esc, s.activeResources))
  }

  function ProcessedPass(esc: string -> string, fmt: int -> string, s: InstallationState): Pass
  {
    Render(esc, PROCESSED, ProcessedVisits(esc, fmt, s.installedResources))
  }

  function UntransformedPass(esc: string -> string, s: InstallationState): Pass
  {
    Render(esc, UNTRANSFORMED, UntransformedVisits(esc, s.untransformedResources))
  }

  /** A category's entry in the table of contents: its title and its links, or "none". */
  function CategoryBlock(title: string, toc: seq<Html>): seq<Html>
  {
    [CategoryOpen(title)] + toc + [CategoryClose]
  }

  /** Everything the response writer gets before the buffer, given what each category's loop visits. */
  function DirectoryOf(esc: string -> string, banner: string, av: seq<Visit<Html>>, pv: seq<Visit<Html>>,
                       uv: seq<Visit<Html>>): seq<Html>
  {
    [Banner(banner), ListOpen]
      + CategoryBlock(ACTIVE.title, Render(esc, ACTIVE, av).toc)
      + CategoryBlock(PROCESSED.title, Render(esc, PROCESSED, pv).toc)
      + CategoryBlock(UNTRANSFORMED.title, Render(esc, UNTRANSFORMED, uv).toc)
      + [ListClose]
  }

  /** Everything the buffer collects, given what each category's loop visits. */
  function BufferedOf(esc: string -> string, av: seq<Visit<Html>>, pv: seq<Visit<Html>>, uv: seq<Visit<Html>>): seq<Html>
  {
    Render(esc, ACTIVE, av).tables + Render(esc, PROCESSED, pv).tables + Render(esc, UNTRANSFORMED, uv).tables
  }

  function Directory(esc: string -> string, fmt: int -> string, s: InstallationState): seq<Html>
    requires AllNonEmpty(s.activeResources)
  {
    DirectoryOf(esc, BannerText(s), ActiveVisits(esc, s.activeResources),
                ProcessedVisits(esc, fmt, s.installedResources), UntransformedVisits(esc, s.untransformedResources))
  }

  function Buffered(esc: string -> string, fmt: int -> string, s: InstallationState): seq<Html>
    requires AllNonEmpty(s.activeResources)
  {
    BufferedOf(esc, ActiveVisits(esc, s.activeResources),
               ProcessedVisits(esc, fmt, s.installedResources), UntransformedVisits(esc, s.untransformedResources))
  }

  /** The whole response: the directory, then the buffer appended once. */
  function Page(esc: string -> string, fmt: int -> string, s: InstallationState): seq<Html>
    requires AllNonEmpty(s.activeResources)
  {
    Directory(esc, fmt, s) + Buffered(esc, fmt, s)
  }

  // ---------------------------------------------------------------------------
  // Structure of the output

  /** The TOC links of sections of the given raw types, in order. */
  function TocLinks(esc: string -> string, cat: Category, hs: seq<string>): (out: seq<Html>)
    ensures |out| == |hs|
  {
    seq(|hs|, i requires 0 <= i < |hs| => TocLink(esc, cat, hs[i]))
  }

  /** How one token moves the table state (inside a table or not); None when it does not fit. */
  function NestStep(open: bool, h: Html): Option<bool>
  {
    match h
    case TableOpen(_, _, _) => if open then None else Some(true)
    case TableClose => if open then Some(false) else None
    case Row(_) => if open then Some(true) else None
    case AttributeRow(_) => if open then Some(true) else None
    case AlternativeRow(_) => if open then Some(true) else None
    case _ => None
  }

  /** The table state after reading `s` from state `open`, or None when some token does not fit. */
  function Nest(open: bool, s: seq<Html>): Option<bool>
    decreases |s|
  {
    if s == [] then Some(open)
    else
      match NestStep(open, s[0])
      case None => None
      case Some(o) => Nest(o, s[1..])
  }

  /**
   * Table markup that opens a table only when none is open, closes only an open one,
   * puts rows only inside tables, and ends with every table closed.
   */
  predicate Balanced(s: seq<Html>)
  {
    Nest(false, s) == Some(false)
  }

  function Opens(s: seq<Html>): nat
  {
    if s == [] then 0 else Opens(s[..|s| - 1]) + (if s[|s| - 1].TableOpen? then 1 else 0)
  }

  function Closes(s: seq<Html>): nat
  {
    if s == [] then 0 else Closes(s[..|s| - 1]) + (if s[|s| - 1].TableClose? then 1 else 0)
  }

  /** The data rows of `s`, in order. */
  function RowsOf(s: seq<Html>): seq<Html>
  {
    if s == [] then [] else RowsOf(s[..|s| - 1]) + (if s[|s| - 1].IsRow() then [s[|s| - 1]] else [])
  }

  predicate AllRows(s: seq<Html>)
  {
    forall i :: 0 <= i < |s| ==> s[i].IsRow()
  }

  /** Every visit writes data rows only. */
  predicate RowsOnly(vs: seq<Visit<Html>>)
  {
    forall i :: 0 <= i < |vs| ==> AllRows(vs[i].rows)
  }

  lemma {:induction false} NestAppend(open: bool, a: seq<Html>, b: seq<Html>)
    ensures Nest(open, a + b) == match Nest(open, a) case None => None case Some(o) => Nest(o, b)
    decreases |a|
  {
    if a == [] {
      assert a + b == b;
    } else {
      assert (a + b)[0] == a[0] && (a + b)[1..] == a[1..] + b;
      match NestStep(open, a[0])
      case None =>
      case Some(o) => NestAppend(o, a[1..], b);
    }
  }

  lemma {:induction false} NestRows(s: seq<Html>)
    requires AllRows(s)
    ensures Nest(true, s) == Some(true)
    decreases |s|
  {
    if s != [] {
      assert AllRows(s[1..]);
      NestRows(s[1..]);
    }
  }

  /** Whatever reads as well-formed table state consists of table markup only. */
  lemma {:induction false} NestedIsMarkup(open: bool, s: seq<Html>)
    requires Nest(open, s).Some?
    ensures forall i :: 0 <= i < |s| ==> s[i].IsTableMarkup()
    decreases |s|
  {
    if s != [] {
      var o := NestStep(open, s[0]).value;
      NestedIsMarkup(o, s[1..]);
      assert forall i :: 1 <= i < |s| ==> s[i] == s[1..][i - 1];
    }
  }

  lemma {:induction false} CountsAppend(a: seq<Html>, b: seq<Html>)
    ensures Opens(a + b) == Opens(a) + Opens(b)
    ensures Closes(a + b) == Closes(a) + Closes(b)
    ensures RowsOf(a + b) == RowsOf(a) + RowsOf(b)
  {
    if b == [] {
      assert a + b == a;
    } else {
      var b' := b[..|b| - 1];
      assert (a + b)[..|a + b| - 1] == a + b';
      assert (a + b)[|a + b| - 1] == b[|b| - 1];
      CountsAppend(a, b');
    }
  }

  lemma {:induction false} CountsOfRows(s: seq<Html>)
    requires AllRows(s)
    ensures Opens(s) == 0 && Closes(s) == 0 && RowsOf(s) == s
  {
    if s != [] {
      assert AllRows(s[..|s| - 1]);
      CountsOfRows(s[..|s| - 1]);
      assert s[|s| - 1].IsRow();
      assert s == s[..|s| - 1] + [s[|s| - 1]];
    }
  }

  lemma WalkSnoc(esc: string -> string, cat: Category, vs: seq<Visit<Html>>, v: Visit<Html>)
    ensures Walk(esc, cat, vs + [v]) == Step(esc, cat, Walk(esc, cat, vs), v)
  {
    assert (vs + [v])[..|vs|] == vs;
  }

  lemma HeadShape(esc: string -> string, cat: Category, rt: Option<string>, rtype: string)
    ensures var h := SectionHead(esc, cat, rt, rtype);
            Nest(rt.Some?, h) == Some(true) &&
            Opens(h) == 1 && Closes(h) == (if rt.Some? then 1 else 0) && RowsOf(h) == []
  {
    var h := SectionHead(esc, cat, rt, rtype);
    var t := h[|h| - 1];
    assert t.TableOpen?;
    assert Nest(true, []) == Some(true);
    assert Nest(false, [t]) == Some(true) by {
      assert [t][1..] == [];
    }
    if rt.Some? {
      assert h == [TableClose, t];
      assert h[1..] == [t] && h[..1] == [TableClose] && [TableClose][..0] == [];
    } else {
      assert h == [t] && h[..0] == [];
    }
  }

  lemma TocLinksSnoc(esc: string -> string, cat: Category, hs: seq<string>, h: string)
    ensures TocLinks(esc, cat, hs + [h]) == TocLinks(esc, cat, hs) + [TocLink(esc, cat, h)]
  {
  }

  /** The loop writes one TOC link per maximal run of equal raw types, in input order. */
  lemma {:induction false} WalkToc(esc: string -> string, cat: Category, vs: seq<Visit<Html>>)
    ensures Walk(esc, cat, vs).toc == TocLinks(esc, cat, RunHeads(Types(vs)))
  {
    if vs != [] {
      var init, v := vs[..|vs| - 1], vs[|vs| - 1];
      assert vs == init + [v];
      WalkToc(esc, cat, init);
      WalkSnoc(esc, cat, init, v);
      StepOutput(esc, cat, Walk(esc, cat, init), v);
      TypesSnoc(init, v);
      var hs0 := RunHeads(Types(init));
      RunHeadsSnoc(Types(init), v.rtype);
      if Some(v.rtype) != Walk(esc, cat, init).rt {
        TocLinksSnoc(esc, cat, hs0, v.rtype);
      } else {
        assert hs0 + [] == hs0;
      }
    }
  }

  /** The loop's tables are well formed, and a table is left open exactly when something was visited. */
  lemma {:induction false} WalkNest(esc: string -> string, cat: Category, vs: seq<Visit<Html>>)
    requires RowsOnly(vs)
    ensures Nest(false, Walk(esc, cat, vs).tables) == Some(vs != [])
  {
    if vs != [] {
      var init, v := vs[..|vs| - 1], vs[|vs| - 1];
      assert vs == init + [v];
      assert RowsOnly(init) && AllRows(v.rows);
      WalkNest(esc, cat, init);
      var p0 := Walk(esc, cat, init);
      NestRows(v.rows);
      if Some(v.rtype) != p0.rt {
        var h := SectionHead(esc, cat, p0.rt, v.rtype);
        HeadShape(esc, cat, p0.rt, v.rtype);
        NestAppend(false, p0.tables, h);
        NestAppend(false, p0.tables + h, v.rows);
      } else {
        NestAppend(false, p0.tables, v.rows);
      }
    }
  }

  /** One iteration opens a table exactly when the type changes, and then closes the open one, if any. */
  lemma StepCounts(esc: string -> string, cat: Category, p: Pass, v: Visit<Html>)
    requires AllRows(v.rows)
    ensures var q := Step(esc, cat, p, v);
            var opening := Some(v.rtype) != p.rt;
            Opens(q.tables) == Opens(p.tables) + (if opening then 1 else 0) &&
            Closes(q.tables) == Closes(p.tables) + (if opening && p.rt.Some? then 1 else 0)
  {
    CountsOfRows(v.rows);
    if Some(v.rtype) != p.rt {
      var h := SectionHead(esc, cat, p.rt, v.rtype);
      HeadShape(esc, cat, p.rt, v.rtype);
      CountsAppend(p.tables, h);
      CountsAppend(p.tables + h, v.rows);
    } else {
      CountsAppend(p.tables, v.rows);
    }
  }

  /** The loop opens one table per maximal type run and closes all but the last. */
  lemma {:induction false} WalkCounts(esc: string -> string, cat: Category, vs: seq<Visit<Html>>)
    requires RowsOnly(vs)
    ensures var p := Walk(esc, cat, vs);
            var hs := RunHeads(Types(vs));
            Opens(p.tables) == |hs| &&
            Closes(p.tables) + (if vs == [] then 0 else 1) == |hs|
  {
    if vs != [] {
      var init, v := vs[..|vs| - 1], vs[|vs| - 1];
      assert vs == init + [v];
      assert RowsOnly(init) && AllRows(v.rows);
      WalkCounts(esc, cat, init);
      WalkSnoc(esc, cat, init, v);
      StepCounts(esc, cat, Walk(esc, cat, init), v);
      TypesSnoc(init, v);
      RunHeadsSnoc(Types(init), v.rtype);
    }
  }

  /**
   * What one iteration adds: a TOC link when a section opens; on the buffer, the section head,
   * if a section opens, then the rows.
   */
  lemma StepOutput(esc: string -> string, cat: Category, p: Pass, v: Visit<Html>)
    ensures Step(esc, cat, p, v).toc == p.toc + (if Some(v.rtype) != p.rt then [TocLink(esc, cat, v.rtype)] else [])
    ensures Step(esc, cat, p, v).tables
      == p.tables + (if Some(v.rtype) != p.rt then SectionHead(esc, cat, p.rt, v.rtype) else []) + v.rows
  {
    if Some(v.rtype) == p.rt {
      assert p.tables + [] == p.tables;
      assert p.toc + [] == p.toc;
    }
  }

  /** One iteration adds the visit's rows to the rows of the buffer, and no other row. */
  lemma StepRows(esc: string -> string, cat: Category, p: Pass, v: Visit<Html>)
    requires AllRows(v.rows)
    ensures RowsOf(Step(esc, cat, p, v).tables) == RowsOf(p.tables) + v.rows
  {
    CountsOfRows(v.rows);
    if Some(v.rtype) != p.rt {
      var head := SectionHead(esc, cat, p.rt, v.rtype);
      HeadShape(esc, cat, p.rt, v.rtype);
      CountsAppend(p.tables, head);
      CountsAppend(p.tables + head, v.rows);
      assert RowsOf(p.tables) + [] == RowsOf(p.tables);
    } else {
      CountsAppend(p.tables, v.rows);
    }
  }

  /** The loop's tables hold every row of every visit, in visiting order, and no other row. */
  lemma {:induction false} WalkRows(esc: string -> string, cat: Category, vs: seq<Visit<Html>>)
    requires RowsOnly(vs)
    ensures RowsOf(Walk(esc, cat, vs).tables) == Concat(vs)
  {
    if vs != [] {
      var init, v := vs[..|vs| - 1], vs[|vs| - 1];
      assert vs == init + [v];
      assert RowsOnly(init) && AllRows(v.rows);
      WalkRows(esc, cat, init);
      WalkSnoc(esc, cat, init, v);
      StepRows(esc, cat, Walk(esc, cat, init), v);
      TypesSnoc(init, v);
    }
  }

  /** A rendered category's TOC: "none" exactly when nothing was visited, otherwise one link per maximal type run. */
  lemma RenderToc(esc: string -> string, cat: Category, vs: seq<Visit<Html>>)
    ensures var toc := Render(esc, cat, vs).toc;
            toc == (if vs == [] then [NoneEntry] else TocLinks(esc, cat, RunHeads(Types(vs)))) &&
            (NoneEntry in toc <==> vs == [])
  {
    WalkToc(esc, cat, vs);
    var links := TocLinks(esc, cat, RunHeads(Types(vs)));
    assert forall i :: 0 <= i < |links| ==> links[i].TocEntry?;
  }

  /** A rendered category's tables: balanced, one per maximal type run, each closed once, all rows kept in order. */
  lemma RenderTables(esc: string -> string, cat: Category, vs: seq<Visit<Html>>)
    requires RowsOnly(vs)
    ensures var t := Render(esc, cat, vs).tables;
            var hs := RunHeads(Types(vs));
            Balanced(t) && Opens(t) == |hs| && Closes(t) == |hs| && RowsOf(t) == Concat(vs)
  {
    WalkNest(esc, cat, vs);
    WalkCounts(esc, cat, vs);
    WalkRows(esc, cat, vs);
    var w := Walk(esc, cat, vs);
    if vs != [] {
      NestAppend(false, w.tables, [TableClose]);
      assert Nest(true, [TableClose]) == Some(false) by {
        assert [TableClose][1..] == [];
      }
      CountsAppend(w.tables, [TableClose]);
      assert [TableClose][..0] == [];
    }
  }

  /** Input grouped by type gets exactly one section per distinct type. */
  lemma RenderGrouped(esc: string -> string, cat: Category, vs: seq<Visit<Html>>)
    requires RowsOnly(vs) && Grouped(Types(vs))
    ensures var hs := RunHeads(Types(vs));
            Distinct(hs) && (forall t :: t in hs <==> t in Types(vs)) &&
            Opens(Render(esc, cat, vs).tables) == |hs|
  {
    RenderTables(esc, cat, vs);
    GroupedRunHeadsDistinct(Types(vs));
    RunHeadsMembers(Types(vs));
  }

  // ---------------------------------------------------------------------------
  // The three categories

  /** A category whose every visit writes exactly one row, given as the visits' types and rows. */
  lemma RenderSingles(esc: string -> string, cat: Category, vs: seq<Visit<Html>>, ts: seq<string>, rows: seq<Html>)
    requires |vs| == |ts| == |rows|
    requires forall i :: 0 <= i < |vs| ==> vs[i] == Visit(ts[i], [rows[i]])
    requires forall i :: 0 <= i < |rows| ==> rows[i].IsRow()
    ensures var p := Render(esc, cat, vs);
            var hs := RunHeads(ts);
            p.toc == (if vs == [] then [NoneEntry] else TocLinks(esc, cat, hs)) &&
            Balanced(p.tables) && Opens(p.tables) == |hs| && Closes(p.tables) == |hs| &&
            RowsOf(p.tables) == rows
  {
    assert Types(vs) == ts;
    assert RowsOnly(vs) by {
      forall i | 0 <= i < |vs| ensures AllRows(vs[i].rows) {
        assert vs[i].rows == [rows[i]];
      }
    }
    RenderToc(esc, cat, vs);
    RenderTables(esc, cat, vs);
    ConcatSingles(vs);
  }

  /** One row per active group, in order. */
  function ActiveRows(esc: string -> string, gs: seq<ResourceGroup>): (rows: seq<Html>)
    requires AllNonEmpty(gs)
    ensures |rows| == |gs|
  {
    seq(|gs|, i requires 0 <= i < |gs| && AllNonEmpty(gs) => ActiveRow(esc, gs[i]))
  }

  /**
   * Active resources: "none" exactly when there are no groups, otherwise one TOC link and one
   * table per maximal run of first-resource types; balanced tables; one row per group, in order.
   */
  lemma ActiveSections(esc: string -> string, gs: seq<ResourceGroup>)
    requires AllNonEmpty(gs)
    ensures var p := Render(esc, ACTIVE, ActiveVisits(esc, gs));
            var hs := RunHeads(FirstTypes(gs));
            p.toc == (if gs == [] then [NoneEntry] else TocLinks(esc, ACTIVE, hs)) &&
            Balanced(p.tables) && Opens(p.tables) == |hs| && Closes(p.tables) == |hs| &&
            RowsOf(p.tables) == ActiveRows(esc, gs)
  {
    var vs, ts, rows := ActiveVisits(esc, gs), FirstTypes(gs), ActiveRows(esc, gs);
    assert forall i :: 0 <= i < |vs| ==> vs[i] == Visit(ts[i], [rows[i]]);
    assert forall i :: 0 <= i < |rows| ==> rows[i].IsRow();
    RenderSingles(esc, ACTIVE, vs, ts, rows);
  }

  /** A processed group of N resources writes exactly N rows plus one per attribute of its first resource. */
  lemma ProcessedGroupRows(esc: string -> string, fmt: int -> string, g: ResourceGroup)
    requires |g.resources| > 0
    ensures |ProcessedRows(esc, fmt, g)| == GroupRowCount(g)
    ensures AllRows(ProcessedRows(esc, fmt, g))
  {
  }

  /** What a processed group adds to the visits: nothing when it is empty, one visit otherwise. */
  lemma ProcessedVisitsSnoc(esc: string -> string, fmt: int -> string, gs: seq<ResourceGroup>, g: ResourceGroup)
    ensures ProcessedVisits(esc, fmt, gs + [g])
      == ProcessedVisits(esc, fmt, gs)
         + (if |g.resources| > 0 then [Visit(g.resources[0].registered.rtype, ProcessedRows(esc, fmt, g))] else [])
  {
    assert (gs + [g])[..|gs|] == gs;
  }

  lemma {:induction false} ProcessedVisitsTypes(esc: string -> string, fmt: int -> string, gs: seq<ResourceGroup>)
    ensures Types(ProcessedVisits(esc, fmt, gs)) == ProcessedTypes(gs)
  {
    if gs != [] {
      var init, g := gs[..|gs| - 1], gs[|gs| - 1];
      assert gs == init + [g];
      ProcessedVisitsTypes(esc, fmt, init);
      ProcessedVisitsSnoc(esc, fmt, init, g);
      ProcessedTypesSnoc(init, g);
      var vs0 := ProcessedVisits(esc, fmt, init);
      if |g.resources| > 0 {
        var v := Visit(g.resources[0].registered.rtype, ProcessedRows(esc, fmt, g));
        assert ProcessedVisits(esc, fmt, gs) == vs0 + [v];
        TypesSnoc(vs0, v);
      } else {
        assert ProcessedVisits(esc, fmt, gs) == vs0;
      }
    }
  }

  lemma {:induction false} ProcessedVisitsRows(esc: string -> string, fmt: int -> string, gs: seq<ResourceGroup>)
    ensures RowsOnly(ProcessedVisits(esc, fmt, gs))
    ensures |Concat(ProcessedVisits(esc, fmt, gs))| == ProcessedRowCount(gs)
  {
    if gs != [] {
      var init, g := gs[..|gs| - 1], gs[|gs| - 1];
      assert gs == init + [g];
      ProcessedVisitsRows(esc, fmt, init);
      ProcessedVisitsSnoc(esc, fmt, init, g);
      ProcessedTypesSnoc(init, g);
      var vs0 := ProcessedVisits(esc, fmt, init);
      if |g.resources| > 0 {
        var v := Visit(g.resources[0].registered.rtype, ProcessedRows(esc, fmt, g));
        ProcessedGroupRows(esc, fmt, g);
        TypesSnoc(vs0, v);
        assert (vs0 + [v])[|vs0|] == v;
      } else {
        assert vs0 + [] == vs0;
      }
    }
  }

  lemma {:induction false} ProcessedVisitsEmpty(esc: string -> string, fmt: int -> string, gs: seq<ResourceGroup>)
    ensures ProcessedVisits(esc, fmt, gs) == [] <==> AllEmpty(gs)
  {
    if gs != [] {
      var init, g := gs[..|gs| - 1], gs[|gs| - 1];
      assert gs == init + [g];
      ProcessedVisitsEmpty(esc, fmt, init);
      ProcessedVisitsSnoc(esc, fmt, init, g);
      assert AllEmpty(gs) <==> AllEmpty(init) && |g.resources| == 0;
    }
  }

  /**
   * Processed resources: "none" exactly when every group is empty, otherwise one TOC link and
   * one table per maximal run of first-resource types of the non-empty groups; balanced tables;
   * a non-empty group of N resources contributes N rows plus one per attribute of its first resource.
   */
  lemma ProcessedSections(esc: string -> string, fmt: int -> string, gs: seq<ResourceGroup>)
    ensures var p := Render(esc, PROCESSED, ProcessedVisits(esc, fmt, gs));
            var hs := RunHeads(ProcessedTypes(gs));
            p.toc == (if AllEmpty(gs) then [NoneEntry] else TocLinks(esc, PROCESSED, hs)) &&
            Balanced(p.tables) && Opens(p.tables) == |hs| && Closes(p.tables) == |hs| &&
            |RowsOf(p.tables)| == ProcessedRowCount(gs)
  {
    var vs := ProcessedVisits(esc, fmt, gs);
    ProcessedVisitsTypes(esc, fmt, gs);
    ProcessedVisitsRows(esc, fmt, gs);
    ProcessedVisitsEmpty(esc, fmt, gs);
    RenderToc(esc, PROCESSED, vs);
    RenderTables(esc, PROCESSED, vs);
  }

  /** One row per untransformed resource, in order. */
  function UntransformedRows(esc: string -> string, rs: seq<RegisteredResource>): (rows: seq<Html>)
    ensures |rows| == |rs|
  {
    seq(|rs|, i requires 0 <= i < |rs| => UntransformedRow(esc, rs[i]))
  }

  /**
   * Untransformed resources: "none" exactly when there are none, otherwise one TOC link and one
   * table per maximal run of types; balanced tables; one row per resource, in order.
   */
  lemma UntransformedSections(esc: string -> string, rs: seq<RegisteredResource>)
    ensures var p := Render(esc, UNTRANSFORMED, UntransformedVisits(esc, rs));
            var hs := RunHeads(UntransformedTypes(rs));
            p.toc == (if rs == [] then [NoneEntry] else TocLinks(esc, UNTRANSFORMED, hs)) &&
            Balanced(p.tables) && Opens(p.tables) == |hs| && Closes(p.tables) == |hs| &&
            RowsOf(p.tables) == UntransformedRows(esc, rs)
  {
    var vs, ts, rows := UntransformedVisits(esc, rs), UntransformedTypes(rs), UntransformedRows(esc, rs);
    assert forall i :: 0 <= i < |vs| ==> vs[i] == Visit(ts[i], [rows[i]]);
    assert forall i :: 0 <= i < |rows| ==> rows[i].IsRow();
    RenderSingles(esc, UNTRANSFORMED, vs, ts, rows);
  }

  // ---------------------------------------------------------------------------
  // The page

  predicate NoMarkup(s: seq<Html>)
  {
    forall i :: 0 <= i < |s| ==> !s[i].IsTableMarkup()
  }

  lemma NoMarkupAppend(a: seq<Html>, b: seq<Html>)
    requires NoMarkup(a) && NoMarkup(b)
    ensures NoMarkup(a + b)
  {
    assert forall i :: |a| <= i < |a + b| ==> (a + b)[i] == b[i - |a|];
  }

  /** A category's TOC lines are list items, never table markup. */
  lemma BlockIsNotMarkup(esc: string -> string, cat: Category, vs: seq<Visit<Html>>)
    ensures NoMarkup(CategoryBlock(cat.title, Render(esc, cat, vs).toc))
  {
    RenderToc(esc, cat, vs);
    var toc := Render(esc, cat, vs).toc;
    assert NoMarkup(toc);
    NoMarkupAppend([CategoryOpen(cat.title)], toc);
    NoMarkupAppend([CategoryOpen(cat.title)] + toc, [CategoryClose]);
  }

  /** The directory starts with the status line, ends with the end of the list and holds no table markup. */
  lemma DirectoryShape(esc: string -> string, fmt: int -> string, s: InstallationState)
    requires AllNonEmpty(s.activeResources)
    ensures var dir := Directory(esc, fmt, s);
            |dir| > 0 && dir[0] == Banner(BannerText(s)) && dir[|dir| - 1] == ListClose && NoMarkup(dir)
  {
    var a := CategoryBlock(ACTIVE.title, ActivePass(esc, s).toc);
    var p := CategoryBlock(PROCESSED.title, ProcessedPass(esc, fmt, s).toc);
    var u := CategoryBlock(UNTRANSFORMED.title, UntransformedPass(esc, s).toc);
    BlockIsNotMarkup(esc, ACTIVE, ActiveVisits(esc, s.activeResources));
    BlockIsNotMarkup(esc, PROCESSED, ProcessedVisits(esc, fmt, s.installedResources));
    BlockIsNotMarkup(esc, UNTRANSFORMED, UntransformedVisits(esc, s.untransformedResources));
    var head := [Banner(BannerText(s)), ListOpen];
    assert NoMarkup(head);
    NoMarkupAppend(head, a);
    NoMarkupAppend(head + a, p);
    NoMarkupAppend(head + a + p, u);
    NoMarkupAppend(head + a + p + u, [ListClose]);
  }

  /** The buffer holds table markup only, and every table it opens is closed. */
  lemma BufferedBalanced(esc: string -> string, fmt: int -> string, s: InstallationState)
    requires AllNonEmpty(s.activeResources)
    ensures Balanced(Buffered(esc, fmt, s))
    ensures forall i :: 0 <= i < |Buffered(esc, fmt, s)| ==> Buffered(esc, fmt, s)[i].IsTableMarkup()
  {
    var a, p, u := ActivePass(esc, s).tables, ProcessedPass(esc, fmt, s).tables, UntransformedPass(esc, s).tables;
    ActiveSections(esc, s.activeResources);
    ProcessedSections(esc, fmt, s.installedResources);
    UntransformedSections(esc, s.untransformedResources);
    NestAppend(false, a, p);
    NestAppend(false, a + p, u);
    NestedIsMarkup(false, a + p + u);
  }

  /**
   * The response is the directory (status line, table of contents, list markup) followed by
   * the buffered tables, appended once: no table markup up to the end of the list, only
   * table markup after it, and the buffered tables are balanced.
   */
  lemma PageLayout(esc: string -> string, fmt: int -> string, s: InstallationState)
    requires AllNonEmpty(s.activeResources)
    ensures var page := Page(esc, fmt, s);
            var k := |Directory(esc, fmt, s)|;
            0 < k <= |page| &&
            page[0] == Banner(BannerText(s)) && page[k - 1] == ListClose &&
            (forall i :: 0 <= i < k ==> !page[i].IsTableMarkup()) &&
            (forall i :: k <= i < |page| ==> page[i].IsTableMarkup()) &&
            Balanced(page[k..])
  {
    var dir, buf := Directory(esc, fmt, s), Buffered(esc, fmt, s);
    DirectoryShape(esc, fmt, s);
    BufferedBalanced(esc, fmt, s);
    var page := dir + buf;
    assert page[..|dir|] == dir && page[|dir|..] == buf;
  }

  /** A category with nothing to visit lists "none" and writes no table. */
  lemma RenderNothing(esc: string -> string, cat: Category)
    ensures Render(esc, cat, []) == Pass([NoneEntry], [], None)
  {
  }

  /** With nothing registered, every category lists "none" and writes no table. */
  lemma EmptyPasses(esc: string -> string, fmt: int -> string, s: InstallationState)
    requires NoResources(s)
    ensures ActivePass(esc, s) == Pass([NoneEntry], [], None)
    ensures ProcessedPass(esc, fmt, s) == Pass([NoneEntry], [], None)
    ensures UntransformedPass(esc, s) == Pass([NoneEntry], [], None)
  {
    assert ActiveVisits(esc, s.activeResources) == [];
    assert UntransformedVisits(esc, s.untransformedResources) == [];
    RenderNothing(esc, ACTIVE);
    RenderNothing(esc, PROCESSED);
    RenderNothing(esc, UNTRANSFORMED);
  }

  /** An empty snapshot: the status line says so and each category lists "none". */
  lemma EmptyPage(esc: string -> string, fmt: int -> string, s: InstallationState)
    requires NoResources(s)
    ensures Page(esc, fmt, s) == [
      Banner(STATUS_LINE + NO_RESOURCES_NOTE), ListOpen,
      CategoryOpen("Active Resources"), NoneEntry, CategoryClose,
      CategoryOpen("Processed Resources"), NoneEntry, CategoryClose,
      CategoryOpen("Untransformed Resources"), NoneEntry, CategoryClose,
      ListClose]
  {
    EmptyPasses(esc, fmt, s);
  }
}
