# Apache Sling OSGi installer console, modelled in Dafny

This project models the rendering core of the Sling OSGi installer's web console plugin
(`OsgiInstallerWebConsolePlugin`). The plugin reads one snapshot of the installer's state and
shows it in two forms:

- **The HTML page (`service`).** A status line, then a table of contents with three
  categories: active resource groups, processed (installed) resource groups and untransformed
  resources. Each category lists one link per section, or "none". The tables of the sections
  are written to a separate buffer. The buffer is appended to the response once, at the end.
- **The text report (`printConfiguration`).** It is written only for the modes "zip" and
  "txt". It has the same three categories, with a "Type:" heading per section and one print
  per entry.

In both forms, a category's loop keeps `rt`, the raw type of the section it has open. It opens
a new section whenever the current element's type differs from `rt`. It never re-sorts, so the
sections are the maximal runs of equal adjacent types. A processed group lists its first
resource, one extra entry for each of its install-excluded and install-info attributes, and then
its other resources. An empty processed group is skipped.

Structure:

- `installer.dfy`: the installer's view: resources, groups and the installation state.
- `labels.dfy`: the label helpers getType, getEntityId, getURL, getState, getError, getInfo and
  formatDate, with their case rules and read-back properties.
- `runs.dfy`: maximal runs of equal adjacent values. These are the sections the `rt` loops open.
- `sections.dfy`: what one loop iteration contributes, that is, its raw type and its rows.
- `writers.dfy`: a print writer, seen as the sequence of its print calls.
- `html_report.dfy`: the page as functions. A token stands for one print call, or for a fixed group of
  calls (see "## Left out"). The section logic is
  proved against runs. Tables are balanced, "none" appears exactly for an empty category, and the
  per-group row count holds.
- `html_service.dfy`: `service` as methods with loops over the writer and the buffer. They are
  proved to write exactly the page function's output.
- `text_report.dfy` and `text_service.dfy`: the same for `printConfiguration`. `Show` gives the
  characters each print writes, including the attribute notes that end no line.

XML escaping and the date formatter are parameters of the model (`esc`, `fmt`). So is the
installation state, which the plugin obtains from the installer service.

## Model

| member | source | states |
|---|---|---|
| Installer.StateNamesDistinct | src/main/java/org/apache/sling/installer/core/impl/console/OsgiInstallerWebConsolePlugin.java:173 | the names `toString()` gives the lifecycle states are equal if and only if the states are |
| Installer.FirstTypes | src/main/java/org/apache/sling/installer/core/impl/console/OsgiInstallerWebConsolePlugin.java:154-156 | one raw type per active group: the type of the group's first resource |
| Installer.ProcessedTypesSnoc | src/main/java/org/apache/sling/installer/core/impl/console/OsgiInstallerWebConsolePlugin.java:187-192 | an empty processed group adds no section type and no rows. A non-empty group adds its first resource's type and GroupRowCount rows |
| Installer.UntransformedTypes | src/main/java/org/apache/sling/installer/core/impl/console/OsgiInstallerWebConsolePlugin.java:254-255 | one raw type per untransformed resource, in order |
| Labels.TypeLabelCases | src/main/java/org/apache/sling/installer/core/impl/console/OsgiInstallerWebConsolePlugin.java:68-80 | the four installer type constants map to "Bundles", "Configurations", "Files" and "Properties". Any other type is returned unchanged. A type gets a label different from itself exactly when it is one of the four |
| Labels.TypeLabelInjective | src/main/java/org/apache/sling/installer/core/impl/console/OsgiInstallerWebConsolePlugin.java:68-80 | two raw types not spelled like a label get the same label if and only if they are equal |
| Labels.TypeLabelCollision | src/main/java/org/apache/sling/installer/core/impl/console/OsgiInstallerWebConsolePlugin.java:68-80 | a raw type spelled like a label shares the label of a known type: "bundle" and "Bundles" both show as "Bundles" |
| Labels.IndexOf | src/main/java/org/apache/sling/installer/core/impl/console/OsgiInstallerWebConsolePlugin.java:84 | indexOf(':') is -1 or a position inside the id |
| Labels.IndexOfFirst | src/main/java/org/apache/sling/installer/core/impl/console/OsgiInstallerWebConsolePlugin.java:84 | indexOf is -1 exactly when the character is absent. Otherwise it is the first position holding it |
| Labels.StripNamespaceShape | src/main/java/org/apache/sling/installer/core/impl/console/OsgiInstallerWebConsolePlugin.java:83-87 | an id without ':' is unchanged. Otherwise the result is exactly what follows a colon-free prefix and the first ':' |
| Labels.GetEntityId | src/main/java/org/apache/sling/installer/core/impl/console/OsgiInstallerWebConsolePlugin.java:82-89 | without an alias, the id with its namespace stripped. With an alias, that id, a newline and the alias |
| Labels.EntityIdSplit | src/main/java/org/apache/sling/installer/core/impl/console/OsgiInstallerWebConsolePlugin.java:82-89 | for an entity id without newlines, the shown id contains a newline if and only if there is an alias. That newline splits it back into the stripped id and the alias |
| Labels.URLShape | src/main/java/org/apache/sling/installer/core/impl/console/OsgiInstallerWebConsolePlugin.java:91-96 | the shown URL starts with the URL. It is followed by " (" + version + ")" when there is a version, and by nothing otherwise |
| Labels.URLDeterminesVersion | src/main/java/org/apache/sling/installer/core/impl/console/OsgiInstallerWebConsolePlugin.java:91-96 | for the same URL, two shown URLs agree if and only if the versions agree |
| Labels.GetState | src/main/java/org/apache/sling/installer/core/impl/console/OsgiInstallerWebConsolePlugin.java:98-110 | a state other than INSTALLED shows its name. INSTALLED shows as "INSTALLED", "EXCLUDED", "INSTALLED(*)" or "EXCLUDED(*)", according to which of the install-excluded and install-info attributes are present |
| Labels.StateLabelDistinguishes | src/main/java/org/apache/sling/installer/core/impl/console/OsgiInstallerWebConsolePlugin.java:98-110 | two resources get the same state label if and only if their states agree and, for INSTALLED, they carry the same attributes |
| Labels.GetError | src/main/java/org/apache/sling/installer/core/impl/console/OsgiInstallerWebConsolePlugin.java:112-115 | a missing error shows as the empty string, and a present error as its message |
| Labels.DigitsReadBack | src/main/java/org/apache/sling/installer/core/impl/console/OsgiInstallerWebConsolePlugin.java:118 | String.valueOf of a natural number writes at least one digit, with no leading zero, and reads back as the number |
| Labels.DecimalReadsBack | src/main/java/org/apache/sling/installer/core/impl/console/OsgiInstallerWebConsolePlugin.java:118 | String.valueOf of any integer is non-empty and reads back as the integer |
| Labels.DecimalHasNoSlash | src/main/java/org/apache/sling/installer/core/impl/console/OsgiInstallerWebConsolePlugin.java:118 | the decimal text of the priority never contains '/' |
| Labels.InfoReadsBack | src/main/java/org/apache/sling/installer/core/impl/console/OsgiInstallerWebConsolePlugin.java:117-119 | the digest/priority column is the digest, one '/' and a text that reads back as the priority |
| Labels.InfoInjective | src/main/java/org/apache/sling/installer/core/impl/console/OsgiInstallerWebConsolePlugin.java:117-119 | the digest/priority column determines both the digest and the priority, whatever characters the digest holds |
| Labels.FormatDate | src/main/java/org/apache/sling/installer/core/impl/console/OsgiInstallerWebConsolePlugin.java:127-133 | the time -1 is shown as "-". Any other time is shown as the date formatter's text |
| Runs.RunHeads | src/main/java/org/apache/sling/installer/core/impl/console/OsgiInstallerWebConsolePlugin.java:153-168 | the section types of a loop: none exactly for empty input, at most one per element, and the last one is the last element's type |
| Runs.RunHeadsSnoc | src/main/java/org/apache/sling/installer/core/impl/console/OsgiInstallerWebConsolePlugin.java:156-168 | one more element opens a section exactly when its type differs from `rt`, the type before it |
| Runs.RunHeadsMembers | src/main/java/org/apache/sling/installer/core/impl/console/OsgiInstallerWebConsolePlugin.java:153-168 | every type in the input gets a section, and every section's type occurs in the input |
| Runs.RunStartsSnoc | src/main/java/org/apache/sling/installer/core/impl/console/OsgiInstallerWebConsolePlugin.java:156 | one more element begins a new maximal run exactly when it differs from the element before it |
| Runs.RunHeadsCount | src/main/java/org/apache/sling/installer/core/impl/console/OsgiInstallerWebConsolePlugin.java:153-168 | there are exactly as many sections as maximal runs of equal adjacent types |
| Runs.RunHeadsNoRepeats | src/main/java/org/apache/sling/installer/core/impl/console/OsgiInstallerWebConsolePlugin.java:153-168 | two consecutive sections never have the same type |
| Runs.RunHeadsOfRepeatFree | src/main/java/org/apache/sling/installer/core/impl/console/OsgiInstallerWebConsolePlugin.java:153-168 | when no two neighbours have the same type, every element opens its own section |
| Runs.GroupedRunHeadsDistinct | src/main/java/org/apache/sling/installer/core/impl/console/OsgiInstallerWebConsolePlugin.java:153-168 | when equal types stand together, no type gets two sections |
| Runs.InterleavedRunHeads | src/main/java/org/apache/sling/installer/core/impl/console/OsgiInstallerWebConsolePlugin.java:153-168 | the input is not re-sorted: types bundle, config, bundle give three sections, two of them for bundle |
| HtmlReport.Walk | src/main/java/org/apache/sling/installer/core/impl/console/OsgiInstallerWebConsolePlugin.java:153-175 | after a category's loop, `rt` is the raw type of the last element visited, and null when nothing was visited |
| HtmlReport.AlternativeRows | src/main/java/org/apache/sling/installer/core/impl/console/OsgiInstallerWebConsolePlugin.java:233-240 | the iterator loop writes one row per remaining resource of the group |
| HtmlReport.StateColumns | src/main/java/org/apache/sling/installer/core/impl/console/OsgiInstallerWebConsolePlugin.java:169-239 | active and alternative rows show the plain state name. The first row of a processed group shows getState's label, followed by "<br/>" and the formatted date exactly when the state is INSTALLED and lastChange > 0 |
| HtmlReport.ProcessedRowsShape | src/main/java/org/apache/sling/installer/core/impl/console/OsgiInstallerWebConsolePlugin.java:206-240 | a non-empty processed group of N resources writes N + k rows, k being the number of attributes of its first resource. They are: the first resource's row, then the install-excluded row, then the install-info row, then one row per other resource in the group's order |
| HtmlReport.ActiveVisits | src/main/java/org/apache/sling/installer/core/impl/console/OsgiInstallerWebConsolePlugin.java:154-155 | one loop iteration per active group |
| HtmlReport.UntransformedVisits | src/main/java/org/apache/sling/installer/core/impl/console/OsgiInstallerWebConsolePlugin.java:254 | one loop iteration per untransformed resource |
| HtmlReport.BannerNote | src/main/java/org/apache/sling/installer/core/impl/console/OsgiInstallerWebConsolePlugin.java:143-146 | the status line starts with the title. It carries " - no resources registered." if and only if all three sequences are empty |
| HtmlReport.TocLinks | src/main/java/org/apache/sling/installer/core/impl/console/OsgiInstallerWebConsolePlugin.java:160-161 | one TOC link per section, in section order |
| HtmlReport.HeadShape | src/main/java/org/apache/sling/installer/core/impl/console/OsgiInstallerWebConsolePlugin.java:156-166 | opening a section closes the open table, if there is one, and opens exactly one new table, writing no data row |
| HtmlReport.WalkToc | src/main/java/org/apache/sling/installer/core/impl/console/OsgiInstallerWebConsolePlugin.java:153-168 | a category's loop writes one TOC link per maximal run of equal raw types, in input order |
| HtmlReport.WalkNest | src/main/java/org/apache/sling/installer/core/impl/console/OsgiInstallerWebConsolePlugin.java:153-175 | the loop's tables are well formed: a table opens only when none is open, and rows appear only inside a table. One table is left open exactly when something was visited |
| HtmlReport.StepCounts | src/main/java/org/apache/sling/installer/core/impl/console/OsgiInstallerWebConsolePlugin.java:156-168 | an iteration opens a table exactly when the type changes. It then also closes the previous table if `rt` was set |
| HtmlReport.WalkCounts | src/main/java/org/apache/sling/installer/core/impl/console/OsgiInstallerWebConsolePlugin.java:153-175 | the loop opens one table per maximal type run and closes all of them but the last |
| HtmlReport.StepOutput | src/main/java/org/apache/sling/installer/core/impl/console/OsgiInstallerWebConsolePlugin.java:156-174 | an iteration writes a TOC link only when the type changes. On the buffer it writes the section head only then, followed by its rows |
| HtmlReport.StepRows | src/main/java/org/apache/sling/installer/core/impl/console/OsgiInstallerWebConsolePlugin.java:169-174 | an iteration adds its own rows to the buffer's rows, and no other row |
| HtmlReport.WalkRows | src/main/java/org/apache/sling/installer/core/impl/console/OsgiInstallerWebConsolePlugin.java:153-175 | the buffer holds every visited row, in visiting order, and no other row |
| HtmlReport.RenderToc | src/main/java/org/apache/sling/installer/core/impl/console/OsgiInstallerWebConsolePlugin.java:153-180 | a category's TOC is "none" exactly when nothing was visited. Otherwise it is one link per maximal type run |
| HtmlReport.RenderTables | src/main/java/org/apache/sling/installer/core/impl/console/OsgiInstallerWebConsolePlugin.java:153-180 | a category's tables are balanced, with one table opened and closed per maximal type run, and every row kept in order |
| HtmlReport.RenderGrouped | src/main/java/org/apache/sling/installer/core/impl/console/OsgiInstallerWebConsolePlugin.java:153-180 | input grouped by type gets exactly one section per distinct type |
| HtmlReport.RenderSingles | src/main/java/org/apache/sling/installer/core/impl/console/OsgiInstallerWebConsolePlugin.java:153-180 | a category writing one row per element gets one link and one table per type run, balanced tables, and exactly its rows in order |
| HtmlReport.ActiveRows | src/main/java/org/apache/sling/installer/core/impl/console/OsgiInstallerWebConsolePlugin.java:169-174 | one row per active group |
| HtmlReport.ActiveSections | src/main/java/org/apache/sling/installer/core/impl/console/OsgiInstallerWebConsolePlugin.java:153-180 | active resources list "none" exactly when there are no groups. Otherwise they get one link and one table per run of first-resource types, balanced tables, and one row per group in order |
| HtmlReport.ProcessedGroupRows | src/main/java/org/apache/sling/installer/core/impl/console/OsgiInstallerWebConsolePlugin.java:187-241 | a processed group of N resources writes N rows plus one per attribute of its first resource, all of them data rows |
| HtmlReport.ProcessedVisitsSnoc | src/main/java/org/apache/sling/installer/core/impl/console/OsgiInstallerWebConsolePlugin.java:187-189 | an empty processed group is skipped: it adds no iteration and leaves `rt` unchanged |
| HtmlReport.ProcessedVisitsTypes | src/main/java/org/apache/sling/installer/core/impl/console/OsgiInstallerWebConsolePlugin.java:187-205 | the processed loop's section types are the first-resource types of the non-empty groups |
| HtmlReport.ProcessedVisitsRows | src/main/java/org/apache/sling/installer/core/impl/console/OsgiInstallerWebConsolePlugin.java:187-241 | the processed loop writes ProcessedRowCount rows, all of them data rows |
| HtmlReport.ProcessedVisitsEmpty | src/main/java/org/apache/sling/installer/core/impl/console/OsgiInstallerWebConsolePlugin.java:187-189 | the processed loop visits nothing exactly when every group is empty |
| HtmlReport.ProcessedSections | src/main/java/org/apache/sling/installer/core/impl/console/OsgiInstallerWebConsolePlugin.java:187-247 | processed resources list "none" exactly when every group is empty. Otherwise they get one link and one table per run of first-resource types of the non-empty groups, balanced tables, and N rows plus one per attribute for each group |
| HtmlReport.UntransformedRows | src/main/java/org/apache/sling/installer/core/impl/console/OsgiInstallerWebConsolePlugin.java:270-272 | one row per untransformed resource |
| HtmlReport.UntransformedSections | src/main/java/org/apache/sling/installer/core/impl/console/OsgiInstallerWebConsolePlugin.java:253-278 | untransformed resources list "none" exactly when there are none. Otherwise they get one link and one table per type run, balanced tables, and one row per resource in order |
| HtmlReport.BlockIsNotMarkup | src/main/java/org/apache/sling/installer/core/impl/console/OsgiInstallerWebConsolePlugin.java:176-185 | a category's entry in the table of contents holds no table markup |
| HtmlReport.DirectoryShape | src/main/java/org/apache/sling/installer/core/impl/console/OsgiInstallerWebConsolePlugin.java:143-281 | what the response gets before the buffer starts with the status line, ends with the end of the list and holds no table markup |
| HtmlReport.BufferedBalanced | src/main/java/org/apache/sling/installer/core/impl/console/OsgiInstallerWebConsolePlugin.java:153-278 | the buffer holds only table markup, and every table it opens is closed |
| HtmlReport.PageLayout | src/main/java/org/apache/sling/installer/core/impl/console/OsgiInstallerWebConsolePlugin.java:280-282 | all TOC output precedes the buffered tables, which are appended once at the end and are balanced |
| HtmlReport.RenderNothing | src/main/java/org/apache/sling/installer/core/impl/console/OsgiInstallerWebConsolePlugin.java:176-180 | a category with nothing to visit lists "none" and writes no table |
| HtmlReport.EmptyPasses | src/main/java/org/apache/sling/installer/core/impl/console/OsgiInstallerWebConsolePlugin.java:153-278 | with nothing registered, every category lists "none" and writes no table |
| HtmlReport.EmptyPage | src/main/java/org/apache/sling/installer/core/impl/console/OsgiInstallerWebConsolePlugin.java:143-282 | an empty snapshot gives exactly the status line with its note and three categories that each list "none" |
| HtmlService.OpenSection | src/main/java/org/apache/sling/installer/core/impl/console/OsgiInstallerWebConsolePlugin.java:156-167 | opening a section writes its TOC link to the response. On the buffer it writes the close of the open table, if any, and the new table head |
| HtmlService.CloseCategory | src/main/java/org/apache/sling/installer/core/impl/console/OsgiInstallerWebConsolePlugin.java:176-180 | after a loop, the open table is closed on the buffer, or "none" is listed on the response |
| HtmlService.WriteSections | src/main/java/org/apache/sling/installer/core/impl/console/OsgiInstallerWebConsolePlugin.java:153-180 | a category's loop writes exactly the TOC and the tables of Render: see WalkToc, RenderTables and the category lemmas |
| HtmlService.WriteCategory | src/main/java/org/apache/sling/installer/core/impl/console/OsgiInstallerWebConsolePlugin.java:150-183 | a category writes its heading, its loop's TOC and the end of its list to the response, and its tables to the buffer |
| HtmlService.WritePage | src/main/java/org/apache/sling/installer/core/impl/console/OsgiInstallerWebConsolePlugin.java:138-282 | the response gets the status line, the three categories' TOC and the end of the list, and then the buffer with the three categories' tables, appended once |
| HtmlService.Service | src/main/java/org/apache/sling/installer/core/impl/console/OsgiInstallerWebConsolePlugin.java:136-283 | the response is exactly Page for the installer state, so PageLayout, BannerNote and the category lemmas hold of it |
| TextReport.ShowEndsLine | src/main/java/org/apache/sling/installer/core/impl/console/OsgiInstallerWebConsolePlugin.java:301-362 | every print ends its line except the attribute note "  : %s". The note has no newline of its own, so the next print continues its line |
| TextReport.List | src/main/java/org/apache/sling/installer/core/impl/console/OsgiInstallerWebConsolePlugin.java:297-310 | after a category's loop, `rt` is the raw type of the last element visited, and null when nothing was visited |
| TextReport.ListStepLines | src/main/java/org/apache/sling/installer/core/impl/console/OsgiInstallerWebConsolePlugin.java:300-309 | an iteration writes a type heading when the type changes, then its entries |
| TextReport.ListStepHeadings | src/main/java/org/apache/sling/installer/core/impl/console/OsgiInstallerWebConsolePlugin.java:300-303 | an iteration adds a heading exactly when its type differs from `rt` |
| TextReport.ListStepEntries | src/main/java/org/apache/sling/installer/core/impl/console/OsgiInstallerWebConsolePlugin.java:304-309 | an iteration adds its own entries, in order |
| TextReport.ListHeadings | src/main/java/org/apache/sling/installer/core/impl/console/OsgiInstallerWebConsolePlugin.java:297-310 | a category's loop writes one "Type:" heading per maximal run of equal raw types, in input order |
| TextReport.ListEntries | src/main/java/org/apache/sling/installer/core/impl/console/OsgiInstallerWebConsolePlugin.java:297-310 | apart from the headings, the loop writes every entry of every element, in order |
| TextReport.ListSingles | src/main/java/org/apache/sling/installer/core/impl/console/OsgiInstallerWebConsolePlugin.java:355-363 | a category writing one entry per element gets one heading per type run and exactly its entries in order |
| TextReport.ActiveVisits | src/main/java/org/apache/sling/installer/core/impl/console/OsgiInstallerWebConsolePlugin.java:298-299 | one loop iteration per active group |
| TextReport.ActiveEntries | src/main/java/org/apache/sling/installer/core/impl/console/OsgiInstallerWebConsolePlugin.java:304-309 | one entry per active group |
| TextReport.AlternativeEntries | src/main/java/org/apache/sling/installer/core/impl/console/OsgiInstallerWebConsolePlugin.java:340-347 | the iterator loop writes one entry per remaining resource of the group |
| TextReport.GroupLinesCount | src/main/java/org/apache/sling/installer/core/impl/console/OsgiInstallerWebConsolePlugin.java:316-348 | a processed group of N resources writes N entries plus one note per attribute of its first resource, and no heading |
| TextReport.GroupLinesOrder | src/main/java/org/apache/sling/installer/core/impl/console/OsgiInstallerWebConsolePlugin.java:325-347 | the group's lines are the first resource's entry, then the install-excluded note, then the install-info note, then one entry per other resource in order |
| TextReport.ProcessedVisitsSnoc | src/main/java/org/apache/sling/installer/core/impl/console/OsgiInstallerWebConsolePlugin.java:316-318 | an empty processed group is skipped: it adds no iteration and leaves `rt` unchanged |
| TextReport.ProcessedVisitsTypes | src/main/java/org/apache/sling/installer/core/impl/console/OsgiInstallerWebConsolePlugin.java:316-324 | the processed loop's heading types are the first-resource types of the non-empty groups |
| TextReport.ProcessedVisitsEntries | src/main/java/org/apache/sling/installer/core/impl/console/OsgiInstallerWebConsolePlugin.java:316-349 | the processed loop writes ProcessedRowCount entries and notes, none of them a heading |
| TextReport.ProcessedVisitsEmpty | src/main/java/org/apache/sling/installer/core/impl/console/OsgiInstallerWebConsolePlugin.java:316-318 | the processed loop visits nothing exactly when every group is empty |
| TextReport.UntransformedVisits | src/main/java/org/apache/sling/installer/core/impl/console/OsgiInstallerWebConsolePlugin.java:355 | one loop iteration per untransformed resource |
| TextReport.UntransformedEntries | src/main/java/org/apache/sling/installer/core/impl/console/OsgiInstallerWebConsolePlugin.java:360-362 | one entry per untransformed resource |
| TextReport.ActiveListing | src/main/java/org/apache/sling/installer/core/impl/console/OsgiInstallerWebConsolePlugin.java:297-310 | active resources get one heading per run of first-resource types and one entry per group, in order |
| TextReport.ProcessedListing | src/main/java/org/apache/sling/installer/core/impl/console/OsgiInstallerWebConsolePlugin.java:315-349 | processed resources get one heading per run of first-resource types of the non-empty groups and N entries plus one note per attribute for each group. They write nothing exactly when every group is empty |
| TextReport.UntransformedListing | src/main/java/org/apache/sling/installer/core/impl/console/OsgiInstallerWebConsolePlugin.java:354-363 | untransformed resources get one heading per type run and one entry per resource, in order |
| TextReport.ReportOfStart | src/main/java/org/apache/sling/installer/core/impl/console/OsgiInstallerWebConsolePlugin.java:292-293 | the report starts with the title and its rule |
| TextReport.CategoryHeadings | src/main/java/org/apache/sling/installer/core/impl/console/OsgiInstallerWebConsolePlugin.java:295-296 | a category's title and rule are not type headings |
| TextReport.ReportOfHeadings | src/main/java/org/apache/sling/installer/core/impl/console/OsgiInstallerWebConsolePlugin.java:292-363 | the report's type headings are the three loops' headings, in turn |
| TextReport.ReportGuard | src/main/java/org/apache/sling/installer/core/impl/console/OsgiInstallerWebConsolePlugin.java:288-293 | something is written if and only if the mode is "zip" or "txt". The output then starts with the title and its rule |
| TextReport.ReportHeadings | src/main/java/org/apache/sling/installer/core/impl/console/OsgiInstallerWebConsolePlugin.java:288-363 | in text mode, the report's headings are the type runs of the active, processed and untransformed resources, in that order |
| TextService.WriteListing | src/main/java/org/apache/sling/installer/core/impl/console/OsgiInstallerWebConsolePlugin.java:297-310 | a category's loop writes exactly List's lines: see ListHeadings and ListEntries |
| TextService.WriteCategory | src/main/java/org/apache/sling/installer/core/impl/console/OsgiInstallerWebConsolePlugin.java:295-310 | a category writes its title, its rule and then its loop's lines |
| TextService.WriteReport | src/main/java/org/apache/sling/installer/core/impl/console/OsgiInstallerWebConsolePlugin.java:292-363 | the title and rule, then the three categories with a blank line after the first two |
| TextService.PrintConfiguration | src/main/java/org/apache/sling/installer/core/impl/console/OsgiInstallerWebConsolePlugin.java:288-364 | the writer gets exactly Report(mode, state): nothing for modes other than "zip" and "txt", so ReportGuard and ReportHeadings hold of it |

## Left out

- XML escaping (escapeXml) is the uninterpreted parameter `esc`. The model shows which values pass through it. The section caption's type label at 163, 200 and 263 is not escaped, and the model keeps that.
- The date formatter (SimpleDateFormat behind `synchronized`) is the parameter `fmt`. Concurrency is not modelled.
- Markup strings and CSS are abstracted to tokens. Most tokens stand for one print call, but some stand for a fixed group of calls:
  - `Banner` stands for the prints at 143, 145 and 148, with the note of 145 inside its text.
  - `CategoryOpen` stands for the two `println` calls at 150-151, 184-185 and 250-251.
  - `TableOpen` stands for the five calls at 162-166, 199-203 and 262-266.
  - The first row of a processed group is printed in pieces (206-223) but is one `Row` token. The `<br/>` and the date stay as text inside its state cell.
- The iterator loops over a group's other resources (233-240, 340-347) are the functions `AlternativeRows` and `AlternativeEntries`. Their rows are printed together, not as a separate loop.
- Each category loop in the methods runs over the iterations' precomputed contributions (`Visit`s): the raw type and the rows. The functions in `html_report.dfy` and `text_report.dfy` compute these from the groups.
- The installer service call `getInstallationState()` (142, 294) is replaced by the state parameter. The servlet request and response, the OSGi wiring (`@Reference`, `InfoProvider`) and `getRelativeResourcePrefix` are not modelled.
- ConfigurationSerializerWebConsolePlugin is not part of this model.
- `println` and `%n` end a line with "\n". The platform line separator is not modelled.
- The install-excluded and install-info attributes are kept as their `toString()` text. A null mode is `None`.
- The values of the installer API's `InstallableResource.TYPE_*` constants ("bundle", "config", "file", "properties") and the five `ResourceState` constants are taken from that API, which is not part of this model. `GetType`'s case rules depend on them.
- Null strings are not modelled. Resource types, ids, URLs and digests are always present. In the source a null type would fail at `equals`.
- The priority is an unbounded integer: Java's 32-bit int width is not modelled, and neither is the 64-bit width of lastChange.
- The unchecked `get(0)` on an active group (155, 299) would throw on an empty group. The model requires every active group to be non-empty (`AllNonEmpty`). For the text report it requires this only when the mode passes the guard.
- The text report is a sequence of print tokens. `Show` gives each token's characters, but no lemma is stated about the concatenated character stream beyond `ShowEndsLine`.
- HtmlReport.ProcessedSections: states the number of rows, not their order across groups. The order within a group is `ProcessedRowsShape`.
- TextReport.ProcessedListing: states the number of entries, not their order across groups. The order within a group is `GroupLinesOrder`.
