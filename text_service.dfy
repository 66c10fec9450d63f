/**
 * The console's `printConfiguration` method: nothing unless the mode is "zip" or "txt";
 * otherwise the title, then one loop per category with `rt` holding the raw type of the
 * last heading. Each loop is proved against the category's `List`, and the whole output
 * against `Report`.
 */
module TextService {
  import opened Wrappers
  import opened Installer
  import opened Labels
  import opened Sections
  import opened Writers
  import opened TextReport

  /**
   * One category's loop. Each visit is what one iteration prints: a type heading when its type
   * differs from `rt`, which then becomes the type, followed by the visit's entries.
   */
  method WriteListing(vs: seq<Visit<Text>>, pw: Writer<Text>)
    modifies pw
    ensures pw.written == old(pw.written) + List(vs).lines
  {
    ghost var start := pw.written;
    var rt: Option<string> := None;
    var i := 0;
    while i < |vs|
      invariant 0 <= i <= |vs|
      invariant var l := List(vs[..i]); pw.written == start + l.lines && rt == l.rt
    {
      ghost var l := List(vs[..i]);
      var v := vs[i];
      ghost var head: seq<Text> := [];
      if Some(v.rtype) != rt {
        pw.Print(TypeHeading(v.rtype));
        head := [TypeHeading(v.rtype)];
        rt := Some(v.rtype);
      } else {
        AppendNothing(start + l.lines);
      }
      pw.PrintAll(v.rows);
      Regroup4(start, l.lines, head, v.rows);
      ListStepLines(l, v);
      PrefixSnoc(vs, i);
      ListSnoc(vs[..i], v);
      i := i + 1;
    }
    PrefixAll(vs);
  }

  /** A category: its title and rule, then its loop. */
  method WriteCategory(title: string, rule: string, vs: seq<Visit<Text>>, pw: Writer<Text>)
    modifies pw
    ensures pw.written == old(pw.written) + CategoryLines(title, rule, vs)
  {
    ghost var start := pw.written;
    pw.Print(Line(title));
    pw.Print(Line(rule));
    assert [Line(title)] + [Line(rule)] == [Line(title), Line(rule)];
    Regroup3(start, [Line(title)], [Line(rule)]);
    WriteListing(vs, pw);
    Regroup3(start, [Line(title), Line(rule)], List(vs).lines);
  }

  /** The report, given what each category's loop visits: the title, then the categories separated by blank lines. */
  method WriteReport(av: seq<Visit<Text>>, pv: seq<Visit<Text>>, uv: seq<Visit<Text>>, pw: Writer<Text>)
    modifies pw
    ensures pw.written == old(pw.written) + ReportOf(av, pv, uv)
  {
    ghost var start := pw.written;
    pw.Print(Line(STATUS_LINE));
    pw.Print(Line(STATUS_RULE));
    assert [Line(STATUS_LINE)] + [Line(STATUS_RULE)] == [Line(STATUS_LINE), Line(STATUS_RULE)];
    Regroup3(start, [Line(STATUS_LINE)], [Line(STATUS_RULE)]);
    ghost var shown := [Line(STATUS_LINE), Line(STATUS_RULE)];
    ghost var a := CategoryLines(ACTIVE_TITLE, ACTIVE_RULE, av);
    ghost var p := CategoryLines(PROCESSED_TITLE, PROCESSED_RULE, pv);
    ghost var u := CategoryLines(UNTRANSFORMED_TITLE, UNTRANSFORMED_RULE, uv);

    WriteCategory(ACTIVE_TITLE, ACTIVE_RULE, av, pw);
    Regroup3(start, shown, a);
    shown := shown + a;
    pw.Print(BlankLine);
    Regroup3(start, shown, [BlankLine]);
    shown := shown + [BlankLine];
    assert pw.written == start + shown;

    WriteCategory(PROCESSED_TITLE, PROCESSED_RULE, pv, pw);
    Regroup3(start, shown, p);
    shown := shown + p;
    pw.Print(BlankLine);
    Regroup3(start, shown, [BlankLine]);
    shown := shown + [BlankLine];
    assert pw.written == start + shown;

    WriteCategory(UNTRANSFORMED_TITLE, UNTRANSFORMED_RULE, uv, pw);
    Regroup3(start, shown, u);
    shown := shown + u;
    assert pw.written == start + shown;
    assert shown == ReportOf(av, pv, uv);
  }

  /**
   * printConfiguration: the text report for the modes "zip" and "txt", nothing for any other
   * mode. The active groups must be non-empty when the report is written: the source takes
   * their first resource unchecked.
   */
  method PrintConfiguration(pw: Writer<Text>, mode: Option<string>, s: InstallationState)
    requires IsTextMode(mode) ==> AllNonEmpty(s.activeResources)
    modifies pw
    ensures pw.written == old(pw.written) + Report(mode, s)
  {
    if mode != Some("zip") && mode != Some("txt") {
      AppendNothing(pw.written);
      return;
    }
    WriteReport(ActiveVisits(s.activeResources), ProcessedVisits(s.installedResources),
                UntransformedVisits(s.untransformedResources), pw);
  }
}
