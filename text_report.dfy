/**
 * The plain-text report of the installer console, written by the configuration printer when
 * the mode is "zip" or "txt": a title, then the three categories, each a heading, a rule and
 * its entries, with a type heading whenever the raw type changes. Each print is one token;
 * `Show` gives the characters it writes. Nothing is escaped.
 */
module TextReport {
  import opened Wrappers
  import opened Installer
  import opened Labels
  import opened Runs
  import opened Sections

  datatype Text =
    | Line(text: string)
    | BlankLine
    | TypeHeading(rtype: string)
    | ActiveEntry(id: string, info: string, url: string, state: string, error: string)
    | FirstEntry(id: string, info: string, url: string, state: string, error: string)
    | AttributeNote(value: string)
    | AlternativeEntry(info: string, url: string, state: string, error: string)
    | UntransformedEntry(info: string, url: string)

  /** The characters a print writes; every one ends its line except an attribute note. */
  function Show(t: Text): string
  {
    match t
    case Line(s) => s + "\n"
    case BlankLine => "\n"
    case TypeHeading(rtype) => GetType(rtype) + ":\n"
    case ActiveEntry(id, info, url, state, error) =>
      "- " + id + ": " + info + ", " + url + ", " + state + ", " + error + "\n"
    case FirstEntry(id, info, url, state, error) =>
      "* " + id + ": " + info + ", " + url + ", " + state + ", " + error + "\n"
    case AttributeNote(value) => "  : " + value
    case AlternativeEntry(info, url, state, error) =>
      "  - " + info + ", " + url + ", " + state + ", " + error + "\n"
    case UntransformedEntry(info, url) => "- " + info + ", " + url + "\n"
  }

  /**
   * Every print but an attribute note ends with a line break. A note writes its prefix and the
   * value only, so whatever is printed next continues its line, unless the value breaks it.
   */
  lemma ShowEndsLine(t: Text)
    ensures !t.AttributeNote? ==> |Show(t)| > 0 && Show(t)[|Show(t)| - 1] == '\n'
    ensures t.AttributeNote? ==> Show(t) == "  : " + t.value
    ensures t.AttributeNote? && '\n' !in t.value ==> '\n' !in Show(t)
  {
  }

  // ---------------------------------------------------------------------------
  // A category's loop

  /** Output of a category's loop so far, and the loop variable `rt`: the raw type of the last heading. */
  datatype Listing = Listing(lines: seq<Text>, rt: Option<string>)

  /** One iteration: a type heading (the label of the raw type) when the type differs from `rt`, then the entries. */
  function ListStep(p: Listing, v: Visit<Text>): Listing
  {
    if Some(v.rtype) != p.rt then Listing(p.lines + [TypeHeading(v.rtype)] + v.rows, Some(v.rtype))
    else p.(lines := p.lines + v.rows)
  }

  /** The loop over a category, from `rt == null` and nothing written. */
  function List(vs: seq<Visit<Text>>): (p: Listing)
    ensures p.rt == if vs == [] then None else Some(vs[|vs| - 1].rtype)
  {
    if vs == [] then Listing([], None) else ListStep(List(vs[..|vs| - 1]), vs[|vs| - 1])
  }

  /** The raw types of the type headings, in order. */
  function Headings(ts: seq<Text>): seq<string>
  {
    if ts == [] then []
    else Headings(ts[..|ts| - 1]) + (if ts[|ts| - 1].TypeHeading? then [ts[|ts| - 1].rtype] else [])
  }

  /** Everything but the type headings, in order. */
  function Entries(ts: seq<Text>): seq<Text>
  {
    if ts == [] then []
    else Entries(ts[..|ts| - 1]) + (if ts[|ts| - 1].TypeHeading? then [] else [ts[|ts| - 1]])
  }

  predicate NoHeadings(ts: seq<Text>)
  {
    forall j :: 0 <= j < |ts| ==> !ts[j].TypeHeading?
  }

  /** No visit writes a type heading of its own. */
  predicate EntriesOnly(vs: seq<Visit<Text>>)
  {
    forall i :: 0 <= i < |vs| ==> NoHeadings(vs[i].rows)
  }

  lemma {:induction false} HeadingsAppend(a: seq<Text>, b: seq<Text>)
    ensures Headings(a + b) == Headings(a) + Headings(b)
  {
    if b == [] {
      assert a + b == a;
    } else {
      var init := b[..|b| - 1];
      HeadingsAppend(a, init);
      assert (a + b)[..|a + b| - 1] == a + init;
    }
  }

  lemma {:induction false} EntriesAppend(a: seq<Text>, b: seq<Text>)
    ensures Entries(a + b) == Entries(a) + Entries(b)
  {
    if b == [] {
      assert a + b == a;
    } else {
      var init := b[..|b| - 1];
      EntriesAppend(a, init);
      assert (a + b)[..|a + b| - 1] == a + init;
    }
  }

  lemma {:induction false} FilterEntries(ts: seq<Text>)
    requires NoHeadings(ts)
    ensures Headings(ts) == [] && Entries(ts) == ts
  {
    if ts != [] {
      FilterEntries(ts[..|ts| - 1]);
      assert ts == ts[..|ts| - 1] + [ts[|ts| - 1]];
    }
  }

  lemma ListSnoc(vs: seq<Visit<Text>>, v: Visit<Text>)
    ensures List(vs + [v]) == ListStep(List(vs), v)
  {
    assert (vs + [v])[..|vs|] == vs;
  }

  /** What one iteration writes: the heading, if the type changes, then the visit's entries. */
  lemma ListStepLines(p: Listing, v: Visit<Text>)
    ensures ListStep(p, v).lines == p.lines + (if Some(v.rtype) != p.rt then [TypeHeading(v.rtype)] else []) + v.rows
  {
    if Some(v.rtype) == p.rt {
      assert p.lines + [] == p.lines;
    }
  }

  /** One iteration adds a heading exactly when the type changes. */
  lemma ListStepHeadings(p: Listing, v: Visit<Text>)
    requires NoHeadings(v.rows)
    ensures Headings(ListStep(p, v).lines) == Headings(p.lines) + (if Some(v.rtype) != p.rt then [v.rtype] else [])
  {
    FilterEntries(v.rows);
    if Some(v.rtype) != p.rt {
      var head := [TypeHeading(v.rtype)];
      assert head[..0] == [];
      assert Headings(head) == [v.rtype];
      HeadingsAppend(p.lines, head);
      HeadingsAppend(p.lines + head, v.rows);
    } else {
      HeadingsAppend(p.lines, v.rows);
      assert Headings(p.lines) + [] == Headings(p.lines);
    }
  }

  /** One iteration adds the visit's entries. */
  lemma ListStepEntries(p: Listing, v: Visit<Text>)
    requires NoHeadings(v.rows)
    ensures Entries(ListStep(p, v).lines) == Entries(p.lines) + v.rows
  {
    FilterEntries(v.rows);
    if Some(v.rtype) != p.rt {
      var head := [TypeHeading(v.rtype)];
      assert head[..0] == [];
      assert Entries(head) == [];
      EntriesAppend(p.lines, head);
      EntriesAppend(p.lines + head, v.rows);
    } else {
      EntriesAppend(p.lines, v.rows);
    }
  }

  /** The loop writes one type heading per maximal run of equal raw types, in input order. */
  lemma {:induction false} ListHeadings(vs: seq<Visit<Text>>)
    requires EntriesOnly(vs)
    ensures Headings(List(vs).lines) == RunHeads(Types(vs))
  {
    if vs != [] {
      var init, v := vs[..|vs| - 1], vs[|vs| - 1];
      assert vs == init + [v];
      assert EntriesOnly(init) && NoHeadings(v.rows);
      ListHeadings(init);
      ListSnoc(init, v);
      ListStepHeadings(List(init), v);
      TypesSnoc(init, v);
      RunHeadsSnoc(Types(init), v.rtype);
    }
  }

  /** The loop writes every entry of every visit, in visiting order, and nothing else but headings. */
  lemma {:induction false} ListEntries(vs: seq<Visit<Text>>)
    requires EntriesOnly(vs)
    ensures Entries(List(vs).lines) == Concat(vs)
  {
    if vs != [] {
      var init, v := vs[..|vs| - 1], vs[|vs| - 1];
      assert vs == init + [v];
      assert EntriesOnly(init) && NoHeadings(v.rows);
      ListEntries(init);
      ListSnoc(init, v);
      ListStepEntries(List(init), v);
      TypesSnoc(init, v);
    }
  }

  /** A category whose every visit writes exactly one entry, given as the visits' types and entries. */
  lemma ListSingles(vs: seq<Visit<Text>>, ts: seq<string>, entries: seq<Text>)
    requires |vs| == |ts| == |entries|
    requires forall i :: 0 <= i < |vs| ==> vs[i] == Visit(ts[i], [entries[i]])
    requires forall i :: 0 <= i < |entries| ==> !entries[i].TypeHeading?
    ensures var lines := List(vs).lines;
            Headings(lines) == RunHeads(ts) && Entries(lines) == entries
  {
    assert Types(vs) == ts;
    assert EntriesOnly(vs) by {
      forall i | 0 <= i < |vs| ensures NoHeadings(vs[i].rows) {
        assert vs[i].rows == [entries[i]];
      }
    }
    ListHeadings(vs);
    ListEntries(vs);
    ConcatSingles(vs);
  }

  // ---------------------------------------------------------------------------
  // The three categories

  /** An active group's entry: id with alias, digest/priority, URL, the plain state name, error. */
  function ActiveEntryOf(g: ResourceGroup): Text
    requires |g.resources| > 0
  {
    var r := g.resources[0];
    ActiveEntry(GetEntityId(r.registered, g.alias), GetInfo(r.registered), GetURL(r), StateName(r.state), GetError(r))
  }

  function ActiveVisits(gs: seq<ResourceGroup>): (vs: seq<Visit<Text>>)
    requires AllNonEmpty(gs)
    ensures |vs| == |gs|
  {
    seq(|gs|, i requires 0 <= i < |gs| && AllNonEmpty(gs) => Visit(gs[i].resources[0].registered.rtype, [ActiveEntryOf(gs[i])]))
  }

  /** One entry per active group, in order. */
  function ActiveEntries(gs: seq<ResourceGroup>): (es: seq<Text>)
    requires AllNonEmpty(gs)
    ensures |es| == |gs|
  {
    seq(|gs|, i requires 0 <= i < |gs| && AllNonEmpty(gs) => ActiveEntryOf(gs[i]))
  }

  /** A processed group's first entry, with getState's label. */
  function FirstEntryOf(r: Resource, alias: Option<string>): Text
  {
    FirstEntry(GetEntityId(r.registered, alias), GetInfo(r.registered), GetURL(r), GetState(r), GetError(r))
  }

  /** One note per attribute the first resource carries: install-excluded, then install-info. */
  function AttributeNotes(r: Resource): seq<Text>
  {
    (if r.excluded.Some? then [AttributeNote(r.excluded.value)] else [])
      + (if r.info.Some? then [AttributeNote(r.info.value)] else [])
  }

  /** A shadowed alternative: no entity id, the plain state name. */
  function AlternativeEntryOf(r: Resource): Text
  {
    AlternativeEntry(GetInfo(r.registered), GetURL(r), StateName(r.state), GetError(r))
  }

  function AlternativeEntries(rs: seq<Resource>): (out: seq<Text>)
    ensures |out| == |rs|
  {
    seq(|rs|, i requires 0 <= i < |rs| => AlternativeEntryOf(rs[i]))
  }

  /** The lines of a non-empty processed group: the first entry, its notes, then the other resources in order. */
  function GroupLines(g: ResourceGroup): seq<Text>
    requires |g.resources| > 0
  {
    var first := g.resources[0];
    [FirstEntryOf(first, g.alias)] + AttributeNotes(first) + AlternativeEntries(g.resources[1..])
  }

  /** A processed group of N resources writes N entries plus one note per attribute of its first resource, and no heading. */
  lemma GroupLinesCount(g: ResourceGroup)
    requires |g.resources| > 0
    ensures |GroupLines(g)| == GroupRowCount(g)
    ensures NoHeadings(GroupLines(g))
  {
  }

  /**
   * The first resource's entry comes first, its notes follow (install-excluded before install-info),
   * then one entry per other resource, in the group's order.
   */
  lemma GroupLinesOrder(g: ResourceGroup)
    requires |g.resources| > 0
    ensures var out, first := GroupLines(g), g.resources[0];
            var k := |AttributeNotes(first)|;
            |out| == |g.resources| + k &&
            out[0] == FirstEntryOf(first, g.alias) &&
            (first.excluded.Some? ==> out[1] == AttributeNote(first.excluded.value)) &&
            (first.info.Some? ==> out[k] == AttributeNote(first.info.value)) &&
            (forall i :: k < i < |out| ==> out[i] == AlternativeEntryOf(g.resources[i - k]))
  {
    var first := g.resources[0];
    PartsIndex(FirstEntryOf(first, g.alias), AttributeNotes(first), AlternativeEntries(g.resources[1..]));
  }

  /** Empty processed groups are skipped: they write nothing and leave `rt` as it is. */
  function ProcessedVisits(gs: seq<ResourceGroup>): seq<Visit<Text>>
  {
    if gs == [] then []
    else
      var g := gs[|gs| - 1];
      ProcessedVisits(gs[..|gs| - 1])
        + (if |g.resources| > 0 then [Visit(g.resources[0].registered.rtype, GroupLines(g))] else [])
  }

  lemma ProcessedVisitsSnoc(gs: seq<ResourceGroup>, g: ResourceGroup)
    ensures ProcessedVisits(gs + [g])
      == ProcessedVisits(gs) + (if |g.resources| > 0 then [Visit(g.resources[0].registered.rtype, GroupLines(g))] else [])
  {
    assert (gs + [g])[..|gs|] == gs;
  }

  lemma {:induction false} ProcessedVisitsTypes(gs: seq<ResourceGroup>)
    ensures Types(ProcessedVisits(gs)) == ProcessedTypes(gs)
  {
    if gs != [] {
      var init, g := gs[..|gs| - 1], gs[|gs| - 1];
      assert gs == init + [g];
      ProcessedVisitsTypes(init);
      ProcessedVisitsSnoc(init, g);
      ProcessedTypesSnoc(init, g);
      var vs0 := ProcessedVisits(init);
      if |g.resources| > 0 {
        TypesSnoc(vs0, Visit(g.resources[0].registered.rtype, GroupLines(g)));
      } else {
        assert vs0 + [] == vs0;
      }
    }
  }

  lemma {:induction false} ProcessedVisitsEntries(gs: seq<ResourceGroup>)
    ensures EntriesOnly(ProcessedVisits(gs))
    ensures |Concat(ProcessedVisits(gs))| == ProcessedRowCount(gs)
  {
    if gs != [] {
      var init, g := gs[..|gs| - 1], gs[|gs| - 1];
      assert gs == init + [g];
      ProcessedVisitsEntries(init);
      ProcessedVisitsSnoc(init, g);
      ProcessedTypesSnoc(init, g);
      var vs0 := ProcessedVisits(init);
      if |g.resources| > 0 {
        var v := Visit(g.resources[0].registered.rtype, GroupLines(g));
        GroupLinesCount(g);
        TypesSnoc(vs0, v);
        assert (vs0 + [v])[|vs0|] == v;
      } else {
        assert vs0 + [] == vs0;
      }
    }
  }

  lemma {:induction false} ProcessedVisitsEmpty(gs: seq<ResourceGroup>)
    ensures ProcessedVisits(gs) == [] <==> AllEmpty(gs)
  {
    if gs != [] {
      var init, g := gs[..|gs| - 1], gs[|gs| - 1];
      assert gs == init + [g];
      ProcessedVisitsEmpty(init);
      ProcessedVisitsSnoc(init, g);
      assert AllEmpty(gs) <==> AllEmpty(init) && |g.resources| == 0;
    }
  }

  /** An untransformed resource's entry: digest/priority and the raw URL, without version. */
  function UntransformedEntryOf(r: RegisteredResource): Text
  {
    UntransformedEntry(GetInfo(r), r.url)
  }

  function UntransformedVisits(rs: seq<RegisteredResource>): (vs: seq<Visit<Text>>)
    ensures |vs| == |rs|
  {
    seq(|rs|, i requires 0 <= i < |rs| => Visit(rs[i].rtype, [UntransformedEntryOf(rs[i])]))
  }

  function UntransformedEntries(rs: seq<RegisteredResource>): (es: seq<Text>)
    ensures |es| == |rs|
  {
    seq(|rs|, i requires 0 <= i < |rs| => UntransformedEntryOf(rs[i]))
  }

  /** Active resources: one heading per maximal run of first-resource types, one entry per group, in order. */
  lemma ActiveListing(gs: seq<ResourceGroup>)
    requires AllNonEmpty(gs)
    ensures var lines := List(ActiveVisits(gs)).lines;
            Headings(lines) == RunHeads(FirstTypes(gs)) && Entries(lines) == ActiveEntries(gs)
  {
    var vs, ts, es := ActiveVisits(gs), FirstTypes(gs), ActiveEntries(gs);
    assert forall i :: 0 <= i < |vs| ==> vs[i] == Visit(ts[i], [es[i]]);
    ListSingles(vs, ts, es);
  }

  /**
   * Processed resources: one heading per maximal run of the first-resource types of the
   * non-empty groups; a group of N resources contributes N entries plus one note per attribute
   * of its first resource; nothing at all when every group is empty.
   */
  lemma ProcessedListing(gs: seq<ResourceGroup>)
    ensures var lines := List(ProcessedVisits(gs)).lines;
            Headings(lines) == RunHeads(ProcessedTypes(gs)) &&
            |Entries(lines)| == ProcessedRowCount(gs) &&
            (lines == [] <==> AllEmpty(gs))
  {
    var vs := ProcessedVisits(gs);
    ProcessedVisitsTypes(gs);
    ProcessedVisitsEntries(gs);
    ProcessedVisitsEmpty(gs);
    ListHeadings(vs);
    ListEntries(vs);
    if vs != [] {
      var lines := List(vs).lines;
      RunHeadsCount(Types(vs));
      assert |Headings(lines)| > 0;
    }
  }

  /** Untransformed resources: one heading per maximal run of types, one entry per resource, in order. */
  lemma UntransformedListing(rs: seq<RegisteredResource>)
    ensures var lines := List(UntransformedVisits(rs)).lines;
            Headings(lines) == RunHeads(UntransformedTypes(rs)) && Entries(lines) == UntransformedEntries(rs)
  {
    var vs, ts, es := UntransformedVisits(rs), UntransformedTypes(rs), UntransformedEntries(rs);
    assert forall i :: 0 <= i < |vs| ==> vs[i] == Visit(ts[i], [es[i]]);
    ListSingles(vs, ts, es);
  }

  // ---------------------------------------------------------------------------
  // The report

  const STATUS_RULE: string := "==========================="
  const ACTIVE_TITLE: string := "Active Resources"
  const ACTIVE_RULE: string := "----------------"
  const PROCESSED_TITLE: string := "Processed Resources"
  const PROCESSED_RULE: string := "-------------------"
  const UNTRANSFORMED_TITLE: string := "Untransformed Resources"
  const UNTRANSFORMED_RULE: string := "-----------------------"

  /** The configuration printer writes only for these two modes. */
  predicate IsTextMode(mode: Option<string>)
  {
    mode == Some("zip") || mode == Some("txt")
  }

  /** A category: its title, its rule, then what its loop writes. */
  function CategoryLines(title: string, rule: string, vs: seq<Visit<Text>>): seq<Text>
  {
    [Line(title), Line(rule)] + List(vs).lines
  }

  /** The report, given what each category's loop visits; a blank line follows the first two categories. */
  function ReportOf(av: seq<Visit<Text>>, pv: seq<Visit<Text>>, uv: seq<Visit<Text>>): seq<Text>
  {
    [Line(STATUS_LINE), Line(STATUS_RULE)]
      + CategoryLines(ACTIVE_TITLE, ACTIVE_RULE, av) + [BlankLine]
      + CategoryLines(PROCESSED_TITLE, PROCESSED_RULE, pv) + [BlankLine]
      + CategoryLines(UNTRANSFORMED_TITLE, UNTRANSFORMED_RULE, uv)
  }

  /** printConfiguration: nothing unless the mode is "zip" or "txt". The active groups are taken unchecked only then. */
  function Report(mode: Option<string>, s: InstallationState): seq<Text>
    requires IsTextMode(mode) ==> AllNonEmpty(s.activeResources)
  {
    if !IsTextMode(mode) then []
    else ReportOf(ActiveVisits(s.activeResources), ProcessedVisits(s.installedResources),
                  UntransformedVisits(s.untransformedResources))
  }

  /** The report starts with the title and its rule. */
  lemma ReportOfStart(av: seq<Visit<Text>>, pv: seq<Visit<Text>>, uv: seq<Visit<Text>>)
    ensures var r := ReportOf(av, pv, uv);
            |r| >= 2 && r[0] == Line(STATUS_LINE) && r[1] == Line(STATUS_RULE)
  {
  }

  /** A category's title and rule are not headings. */
  lemma CategoryHeadings(title: string, rule: string, vs: seq<Visit<Text>>)
    ensures Headings(CategoryLines(title, rule, vs)) == Headings(List(vs).lines)
  {
    FilterEntries([Line(title), Line(rule)]);
    HeadingsAppend([Line(title), Line(rule)], List(vs).lines);
  }

  /** Headings of a title, three parts and the blank lines between them. */
  lemma HeadingsOfParts(t: seq<Text>, a: seq<Text>, p: seq<Text>, u: seq<Text>)
    requires Headings(t) == []
    ensures Headings(t + a + [BlankLine] + p + [BlankLine] + u) == Headings(a) + Headings(p) + Headings(u)
  {
    FilterEntries([BlankLine]);
    assert Headings(t + a + [BlankLine]) == Headings(a) by {
      HeadingsAppend(t, a);
      HeadingsAppend(t + a, [BlankLine]);
    }
    assert Headings(t + a + [BlankLine] + p + [BlankLine]) == Headings(a) + Headings(p) by {
      HeadingsAppend(t + a + [BlankLine], p);
      HeadingsAppend(t + a + [BlankLine] + p, [BlankLine]);
    }
    HeadingsAppend(t + a + [BlankLine] + p + [BlankLine], u);
  }

  /** Titles, rules and blank lines are not headings: the report's headings are the three loops' in turn. */
  lemma ReportOfHeadings(av: seq<Visit<Text>>, pv: seq<Visit<Text>>, uv: seq<Visit<Text>>)
    ensures Headings(ReportOf(av, pv, uv)) == Headings(List(av).lines) + Headings(List(pv).lines) + Headings(List(uv).lines)
  {
    var t := [Line(STATUS_LINE), Line(STATUS_RULE)];
    FilterEntries(t);
    CategoryHeadings(ACTIVE_TITLE, ACTIVE_RULE, av);
    CategoryHeadings(PROCESSED_TITLE, PROCESSED_RULE, pv);
    CategoryHeadings(UNTRANSFORMED_TITLE, UNTRANSFORMED_RULE, uv);
    HeadingsOfParts(t, CategoryLines(ACTIVE_TITLE, ACTIVE_RULE, av), CategoryLines(PROCESSED_TITLE, PROCESSED_RULE, pv),
                    CategoryLines(UNTRANSFORMED_TITLE, UNTRANSFORMED_RULE, uv));
  }

  /** The report is written exactly for the modes "zip" and "txt", and then starts with the title and its rule. */
  lemma ReportGuard(mode: Option<string>, s: InstallationState)
    requires IsTextMode(mode) ==> AllNonEmpty(s.activeResources)
    ensures Report(mode, s) != [] <==> mode == Some("zip") || mode == Some("txt")
    ensures IsTextMode(mode) ==>
              |Report(mode, s)| >= 2 && Report(mode, s)[0] == Line(STATUS_LINE) && Report(mode, s)[1] == Line(STATUS_RULE)
  {
    if IsTextMode(mode) {
      ReportOfStart(ActiveVisits(s.activeResources), ProcessedVisits(s.installedResources),
                    UntransformedVisits(s.untransformedResources));
    }
  }

  /** The report's type headings: those of the active, the processed and the untransformed resources, in turn. */
  lemma ReportHeadings(mode: Option<string>, s: InstallationState)
    requires IsTextMode(mode) && AllNonEmpty(s.activeResources)
    ensures Headings(Report(mode, s))
      == RunHeads(FirstTypes(s.activeResources))
         + RunHeads(ProcessedTypes(s.installedResources))
         + RunHeads(UntransformedTypes(s.untransformedResources))
  {
    ActiveListing(s.activeResources);
    ProcessedListing(s.installedResources);
    UntransformedListing(s.untransformedResources);
    ReportOfHeadings(ActiveVisits(s.activeResources), ProcessedVisits(s.installedResources),
                     UntransformedVisits(s.untransformedResources));
  }
}
