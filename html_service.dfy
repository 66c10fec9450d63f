/**
 * The console's `service` method: the status line and the table of contents go to the
 * response writer while the tables go to a buffer, one loop per category with `rt`
 * holding the raw type of the open section; the buffer is appended at the end. Each
 * loop is proved against the category's `Render`, and the whole response against `Page`.
 */
module HtmlService {
  import opened Wrappers
  import opened Installer
  import opened Labels
  import opened Sections
  import opened Writers
  import opened HtmlReport

  /** Opens a section: its TOC link on the response; the close of the open table, if any, and the new table head on the buffer. */
  method OpenSection(esc: string -> string, cat: Category, rt: Option<string>, rtype: string,
                     res: Writer<Html>, buffered: Writer<Html>)
    requires res != buffered
    modifies res, buffered
    ensures res.written == old(res.written) + [TocLink(esc, cat, rtype)]
    ensures buffered.written == old(buffered.written) + SectionHead(esc, cat, rt, rtype)
  {
    if rt.Some? {
      buffered.Print(TableClose);
    }
    var anchor := cat.anchorPrefix + esc(GetType(rtype));
    res.Print(TocEntry(anchor, esc(GetType(rtype))));
    buffered.Print(TableOpen(anchor, cat.title + " - " + GetType(rtype), cat.header));
  }

  /** After a category's loop: close the open table, or list "none" when no section was opened. */
  method CloseCategory(rt: Option<string>, res: Writer<Html>, buffered: Writer<Html>)
    requires res != buffered
    modifies res, buffered
    ensures var p := Finish(Pass(old(res.written), old(buffered.written), rt));
            res.written == p.toc && buffered.written == p.tables
  {
    if rt.Some? {
      buffered.Print(TableClose);
    } else {
      res.Print(NoneEntry);
    }
  }

  /**
   * One category's loop. Each visit is what one iteration prints: when its type differs from
   * `rt`, the section is opened and `rt` becomes the type; then the visit's rows go to the buffer.
   * After the loop the open table is closed, or "none" is listed.
   */
  method WriteSections(esc: string -> string, cat: Category, vs: seq<Visit<Html>>,
                       res: Writer<Html>, buffered: Writer<Html>)
    requires res != buffered
    modifies res, buffered
    ensures var p := Render(esc, cat, vs);
            res.written == old(res.written) + p.toc && buffered.written == old(buffered.written) + p.tables
  {
    ghost var toc0, tables0 := res.written, buffered.written;
    var rt: Option<string> := None;
    var i := 0;
    while i < |vs|
      invariant 0 <= i <= |vs|
      invariant var w := Walk(esc, cat, vs[..i]);
                res.written == toc0 + w.toc && buffered.written == tables0 + w.tables && rt == w.rt
    {
      ghost var w := Walk(esc, cat, vs[..i]);
      var v := vs[i];
      ghost var link, head: seq<Html> := [], [];
      if Some(v.rtype) != rt {
        OpenSection(esc, cat, rt, v.rtype, res, buffered);
        link, head := [TocLink(esc, cat, v.rtype)], SectionHead(esc, cat, rt, v.rtype);
        rt := Some(v.rtype);
      } else {
        AppendNothing(w.toc);
        AppendNothing(tables0 + w.tables);
      }
      buffered.PrintAll(v.rows);
      Regroup3(toc0, w.toc, link);
      Regroup4(tables0, w.tables, head, v.rows);
      StepOutput(esc, cat, w, v);
      assert res.written == toc0 + Step(esc, cat, w, v).toc;
      assert buffered.written == tables0 + Step(esc, cat, w, v).tables;
      PrefixSnoc(vs, i);
      WalkSnoc(esc, cat, vs[..i], v);
      i := i + 1;
    }
    PrefixAll(vs);
    CloseCategory(rt, res, buffered);
  }

  /** One category of the directory: its heading, its loop, the end of its list; the tables go to the buffer. */
  method WriteCategory(esc: string -> string, cat: Category, vs: seq<Visit<Html>>,
                       res: Writer<Html>, buffered: Writer<Html>)
    requires res != buffered
    modifies res, buffered
    ensures res.written == old(res.written) + CategoryBlock(cat.title, Render(esc, cat, vs).toc)
    ensures buffered.written == old(buffered.written) + Render(esc, cat, vs).tables
  {
    ghost var start := res.written;
    res.Print(CategoryOpen(cat.title));
    WriteSections(esc, cat, vs, res, buffered);
    res.Print(CategoryClose);
    Regroup4(start, [CategoryOpen(cat.title)], Render(esc, cat, vs).toc, [CategoryClose]);
  }

  /**
   * The response of `service`, given what each category's loop visits: the status line, the
   * three categories' TOC entries on the response and their tables in a fresh buffer, then the
   * end of the list and the buffer, appended once.
   */
  method WritePage(esc: string -> string, banner: string, av: seq<Visit<Html>>, pv: seq<Visit<Html>>,
                   uv: seq<Visit<Html>>, res: Writer<Html>)
    modifies res
    ensures res.written == old(res.written) + DirectoryOf(esc, banner, av, pv, uv) + BufferedOf(esc, av, pv, uv)
  {
    var buffered := new Writer<Html>();
    ghost var start := res.written;
    res.Print(Banner(banner));
    res.Print(ListOpen);
    Regroup3(start, [Banner(banner)], [ListOpen]);
    ghost var shown := [Banner(banner), ListOpen];
    assert res.written == start + shown;
    assert buffered.written == [];
    ghost var a := CategoryBlock(ACTIVE.title, Render(esc, ACTIVE, av).toc);
    ghost var p := CategoryBlock(PROCESSED.title, Render(esc, PROCESSED, pv).toc);
    ghost var u := CategoryBlock(UNTRANSFORMED.title, Render(esc, UNTRANSFORMED, uv).toc);

    WriteCategory(esc, ACTIVE, av, res, buffered);
    Regroup3(start, shown, a);
    shown := shown + a;
    assert res.written == start + shown;
    AppendNothing(Render(esc, ACTIVE, av).tables);
    assert buffered.written == Render(esc, ACTIVE, av).tables;
    WriteCategory(esc, PROCESSED, pv, res, buffered);
    Regroup3(start, shown, p);
    shown := shown + p;
    assert res.written == start + shown;
    WriteCategory(esc, UNTRANSFORMED, uv, res, buffered);
    Regroup3(start, shown, u);
    shown := shown + u;
    assert res.written == start + shown;
    assert buffered.written == BufferedOf(esc, av, pv, uv);
    assert shown + [ListClose] == DirectoryOf(esc, banner, av, pv, uv);

    res.Print(ListClose);
    Regroup3(start, shown, [ListClose]);
    res.PrintAll(buffered.written);
  }

  /**
   * service: the page for the installer's current state. The active groups must be non-empty:
   * the source takes their first resource unchecked.
   */
  method Service(esc: string -> string, fmt: int -> string, s: InstallationState, res: Writer<Html>)
    requires AllNonEmpty(s.activeResources)
    modifies res
    ensures res.written == old(res.written) + Page(esc, fmt, s)
  {
    ghost var start := res.written;
    WritePage(esc, BannerText(s), ActiveVisits(esc, s.activeResources),
              ProcessedVisits(esc, fmt, s.installedResources), UntransformedVisits(esc, s.untransformedResources), res);
    Regroup3(start, Directory(esc, fmt, s), Buffered(esc, fmt, s));
  }
}
