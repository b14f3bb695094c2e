# Portfolio project catalog and detail renderer, modelled in Dafny

This project models the logic core of a single-page portfolio site. It covers two parts.

- **The project catalog** (`projectData.js`). Projects are records. A project has optional
  sections, and a section has an optional media list. The `ProjectDataHelpers` object looks records
  up, totals and flattens media, filters media by type, validates a record, creates sections,
  appends media to a section in place, and gathers catalog statistics.
- **The project detail view** (`script.js`). `ProjectDetailSystem` renders a project into the detail
  page: the hero area, the description markup, and one block per section. A section shows its media
  as a grid with layout flags (`has-videos`, `single-image`, …) or as a slideshow. A slideshow is a
  cyclic index over its slides in which exactly one slide and one dot are active. The model also
  covers the navigator's page transition and the cursor-sparkle pool.

Rendered output is modelled as records (element kind, flags, caption option, layout flags), not as
DOM nodes. JavaScript truthiness is made explicit. A missing or empty string is `""`. `sections` and
`media` are `Option`s, because an empty array is still truthy. Objects whose fields the source
changes in place are Dafny classes: the slideshow controller (with `array<bool>` active flags), the
catalog store, the navigator, the sparkle pool and the detail page.

Modules follow the source: `Common` (an `Option`, JavaScript whitespace, filters, substring search),
`Catalog` and `CatalogStore` (`projectData.js`), `Text`, `Media`, `Slideshows` and `Detail`
(`ProjectDetailSystem`), `Navigation`, `Sparkles`, and `Witnesses` (two catalog records with their
long texts shortened, plus small worked inputs).

## Model

| member | source | states |
|---|---|---|
| Common.FilterIndicesIncreasing | projectData.js:1462-1463 | the positions `filter` keeps lie inside the list, in increasing order, one per kept element |
| Common.FilterAtIndices | projectData.js:1462-1463 | the k-th kept element is the element at the k-th kept position |
| Common.FilterIndicesExactly | projectData.js:1462-1463 | a position is kept iff its element passes the test |
| Common.FilterIsOrderedSelection | projectData.js:1462-1463 | `filter` is the subsequence at exactly the positions whose element passes, in increasing order |
| Catalog.GetTotalMediaCount | projectData.js:1434-1439 | 0 without sections; otherwise the running sum of section media lengths, a missing list counting 0 |
| Catalog.FlattenMediaLength | projectData.js:1442-1458 | the flattened media list has exactly as many items as the media total |
| Catalog.FlattenMediaAt | projectData.js:1442-1458 | item j of section i sits right after the media of the sections before i, tagged with section i's id and title |
| Catalog.GetAllProjectMedia | projectData.js:1442-1458 | the nested push loops build the flattened, section-tagged list, whose length is `getTotalMediaCount` |
| Catalog.GetMediaByType | projectData.js:1461-1464 | every returned item has exactly type t, and there are at most as many as the media total |
| Catalog.MediaByTypeIsOrderedSubsequence | projectData.js:1461-1464 | the result is the flattened list taken at exactly the positions whose type is t, in increasing order |
| Catalog.FindSectionIndex | projectData.js:1469 | `find` gives the first position whose id matches, or none when no id matches |
| Catalog.GetSection | projectData.js:1467-1470 | null iff sections are absent or no id matches; otherwise the first section with that id |
| Catalog.GetSectionIds | projectData.js:1473-1476 | same length as the sections; position k holds section k's id |
| Catalog.SectionIdsMatchLookup | projectData.js:1467-1476 | an id is listed iff `getSection` finds it |
| Catalog.GetSectionsWithMedia | projectData.js:1479-1482 | only sections with non-empty media, never more than there are sections |
| Catalog.SectionsWithMediaIsOrderedSubsequence | projectData.js:1479-1482 | keeps exactly the sections with media, at increasing positions |
| Catalog.SectionsWithMediaKeepAllMedia | projectData.js:1479-1482 | dropping the sections without media loses no media item |
| Catalog.MediaSumSnoc | projectData.js:1435-1438 | the `reduce` step: one more section adds its media length |
| Catalog.CreateSection | projectData.js:1485-1492 | a section with the given id, title, content and media (default empty) |
| Catalog.MissingFieldsListed | projectData.js:1407-1408 | `missingFields` is title, subtitle, description, credits in that order, each kept iff empty |
| Catalog.MissingFieldsExactly | projectData.js:1407-1408 | a field is listed iff it is empty; the list is empty iff all four are filled in |
| Catalog.ValidateProject | projectData.js:1406-1431 | missing fields as above; structureValid is "sections non-empty" when present, else "extendedDescription non-empty"; isValid iff nothing missing and structure valid; the other report fields |
| Catalog.AppendMedia | projectData.js:1495-1505 | not added iff no sections or no id matches, and then nothing changes; otherwise the first match gets the item at the end of its (possibly new) list and every other section is unchanged |
| Catalog.MediaSumUpdate | projectData.js:1435-1438 | a section with one more item raises the total by one |
| Catalog.AppendMediaEffect | projectData.js:1495-1505 | a successful append raises the media total by one and `getSection` then returns the list with the item at its end |
| CatalogStore.TypeCountsBounded | projectData.js:1515-1525 | the four type counters add up to at most the number of media items |
| CatalogStore.TypeCountsStep | projectData.js:1520-1524 | an item raises exactly its own type's counter, and an unknown type raises none |
| CatalogStore.TallyMediaTypes | projectData.js:1520-1524 | the counting loop ends with the counters of everything counted so far |
| CatalogStore.HasSectionMediaIffSectionsWithMedia | projectData.js:1394-1396 | the `some` test agrees with `getSectionsWithMedia` being non-empty |
| CatalogStore.ProjectCatalog.constructor | projectData.js:5-1374 | the catalog holds the given distinct keys and their records |
| CatalogStore.ProjectCatalog.GetProject | projectData.js:1379-1381 | the stored record for a known key, null for an unknown one |
| CatalogStore.ProjectCatalog.GetAllProjectIds | projectData.js:1384-1386 | one id per stored key |
| CatalogStore.ProjectCatalog.ProjectIdsMatchLookup | projectData.js:1379-1386 | an id is listed iff `getProject` finds it, and no id is listed twice |
| CatalogStore.ProjectCatalog.GetProjectsWithMissingImages | projectData.js:1390-1403 | exactly the records lacking a truthy hero image or lacking a section with media, under their own keys |
| CatalogStore.ProjectCatalog.AddMediaToSection | projectData.js:1495-1505 | the stored record is replaced by its appended value, the other records are untouched, and the result says whether it appended |
| CatalogStore.CountProjectsBounded | projectData.js:1511-1513 | no `filter(...).length` counts more projects than there are |
| CatalogStore.SectionsAndOldStructureDisjoint | projectData.js:1512-1513 | a project with sections never has the old structure, so the two counts add up to at most the number of projects |
| CatalogStore.ProjectCatalog.GetProjectStats | projectData.js:1508-1532 | project count; the three filter counts, the hero count at most the total and the sections and old-structure counts together at most the total; per-type media counters over all records whose sum is at most the media total |
| Text.WhitespaceRun | script.js:1013 | the longest prefix of JavaScript whitespace (`\s*`) |
| Text.LastNewline | script.js:1013 | the last newline of a run, where the greedy `\n\s*\n` match ends |
| Text.FormatDescription | script.js:1004-1014 | empty gives empty; text with both `<` and `>` passes through; otherwise no newline is left, text without newlines is unchanged, and text without blank lines only has its newlines replaced |
| Text.ReplaceBlankLinesAfterPlainPrefix | script.js:1013 | text before the first newline passes the `</p><p>` step unchanged |
| Text.WhitespaceRunAfterWhitespace | script.js:1013 | a whitespace prefix lengthens the `\s*` run by its own length |
| Text.LastNewlineBeforePlainTail | script.js:1013 | after text ending in a newline, a newline-free tail leaves that newline the last one |
| Text.WhitespaceRunOfBlankLine | script.js:1013 | after the first newline of a blank line, `\s*` covers the whitespace, the second newline and the next line's leading whitespace |
| Text.MatchEndsAtSecondNewline | script.js:1013 | when the next line's leading whitespace holds no newline, the greedy `\s*\n` ends at the second newline |
| Text.ParagraphBreakAtStart | script.js:1013 | a newline, whitespace and a newline, followed by a line q whose leading whitespace holds no newline, is one greedy `\n\s*\n` match: it becomes one `</p><p>` and q keeps its indentation |
| Text.SingleNewlineKept | script.js:1013 | a newline followed by a line whose leading whitespace holds no newline is no blank line: it is kept for the `<br>` step. With Text.ReplaceBlankLinesAfterPlainPrefix and Text.ParagraphBreakAtStart this fixes the `</p><p>` step on every input |
| Text.BreakAfterPlainPrefix | script.js:1013 | newline-free text in front of a `</p><p>` break passes the step unchanged |
| Text.BlankLineBecomesParagraphBreak | script.js:1013 | for all p without newlines, whitespace w and q whose leading whitespace holds no newline (an indented line included), `p \n w \n q` becomes p, `</p><p>`, then the step applied to q |
| Text.ReplaceNewlinesAfterParagraphBreak | script.js:1013 | the `<br>` step leaves newline-free text and the inserted `</p><p>` unchanged and goes on with the rest |
| Text.FormatDescriptionPlainText | script.js:1004-1014 | text without `<`, the empty text included, is the `</p><p>` step followed by the `<br>` step |
| Text.FormatDescriptionBlankLine | script.js:1004-1014 | on markup-free text, a blank line after newline-free p, followed by a line q whose leading whitespace holds no newline, becomes `</p><p>`: the result is p, `</p><p>`, then q formatted with its indentation kept |
| Text.NewlinesReplaced | script.js:1013 | no newline survives `.replace(/\n/g, '<br>')` |
| Text.NewlinesNotTouched | script.js:1013 | text without newlines is unchanged by the `<br>` step |
| Text.NoNewlineNoBlankLine | script.js:1013 | text without newlines has no blank-line break |
| Text.BlankLinesNotTouched | script.js:1013 | text without a blank-line break is unchanged by the `</p><p>` step |
| Text.BlankLinesReplaced | script.js:1013 | no blank-line break survives the `</p><p>` step |
| Text.BlankLineAfterPrefix | script.js:1013 | a prefix without newlines neither starts nor hides a blank-line break |
| Text.NoNewlineInFrontRun | script.js:1013 | a leading whitespace run without newlines starts no blank line after the step |
| Text.NewlineInRun | script.js:1013 | a newline inside a leading whitespace run starts a blank-line match |
| Text.ReplaceNewlinesAppend | script.js:1013 | the `<br>` step works character by character, so it distributes over concatenation |
| Text.StripDisallowed | script.js:617 | only characters of `[a-z0-9\s-]` are left, and they are exactly the input's characters of that class, in their original order |
| Text.CollapseWhitespaceChars | script.js:618 | after `\s+` becomes `-`, only `[a-z0-9-]` is left |
| Text.CollapseDashesShape | script.js:619 | after `-+` becomes `-`, no two dashes are adjacent |
| Text.TrimDashesShape | script.js:620 | trimming the dashes of such a string gives a well-formed id |
| Text.DashRun | script.js:619 | the longest prefix of dashes |
| Text.TrailingDashRun | script.js:620 | the longest suffix of dashes: every character in it is a dash and the one before it is not |
| Text.TrailingWhitespaceRun | script.js:620 | the longest suffix of whitespace: every character in it is whitespace and the one before it is not |
| Text.TrimAsWrittenIsNoOp | script.js:620 | `.trim('-')` is `.trim()`, which removes nothing once whitespace has become dashes |
| Text.TrimDashesSlice | script.js:620 | the intended trim keeps the part of the input right after its leading dashes |
| Text.TrimDashesDropsTrailingDashes | script.js:620 | everything the intended trim removes after the kept part is a dash |
| Text.TrimDashesEnds | script.js:620 | the kept part neither starts nor ends with a dash |
| Text.TrimDashesSplits | script.js:620 | the intended trim removes one run of dashes at each end and nothing else: the input is those dashes, the result, those dashes |
| Text.KebabCase | script.js:616-620 | the fallback id, with the trim as intended, is always a well-formed id: only `[a-z0-9-]`, no double dash, no dash at either end |
| Text.LowerKeepsSlugChars | script.js:616 | `toLowerCase` leaves text of `[a-z0-9-]` unchanged |
| Text.CollapseWhitespaceKeepsSlugChars | script.js:618 | `\s+` to `-` leaves text without whitespace unchanged |
| Text.CollapseDashesKeepsSingleDashes | script.js:619 | `-+` to `-` leaves text without a double dash unchanged |
| Text.KebabCaseFixesSlugs | script.js:616-620 | a title that already is a well-formed id is its own intended kebab-case id |
| Text.IntendedTrimsAsWritten | script.js:616-620 | the intended id is the as-written id with its leading and trailing dashes removed |
| Text.GetProjectIdFromTitle | script.js:597-621 | as written: a title containing "Fendi" is `meta-fendi`; a title matching one of the fifteen tests gets one of their fifteen ids; a title matching none gets the kebab-case fallback with the source's no-op `.trim('-')` |
| Text.GetProjectIdFromTitleIntended | script.js:597-621 | with the trim as intended: the same id when a test matches; otherwise a well-formed id, the as-written one without its leading and trailing dashes |
| Text.IncludesSubstring | script.js:602 | a title containing u contains every substring of u |
| Text.BuckLnyTestIsOneTest | script.js:602 | the second half of the "BUCK LNY" test is implied by the first, so such a title reaching it maps to `buck-lny` |
| Media.CreateMediaElement | script.js:827-885 | wrapper class `media-item media-<type>`; image/gif give an img, video gives a video with controls only, mp4 a muted looping autoplaying inline video without controls, anything else a "Media content" placeholder; the img alt falls back per type; a caption block iff the caption is non-empty, holding it |
| Media.RenderAll | script.js:815-818 | one rendered block per item, in order |
| Media.SomeIffCountPositive | script.js:777-778 | the `some` test holds iff the `filter` count is positive |
| Media.FamilyFollowsCount | script.js:776-787 | a family's has flag is set iff its count is at least 1, single iff exactly 1, multiple iff at least 2 |
| Media.GridFlagsFollowCounts | script.js:776-813 | the grid flags of videos, images and GIFs follow the counts of `mp4`, `image` and `gif` items only |
| Slideshows.NextIndex | script.js:973-976 | `(current + 1) % total` stays below total and wraps from the last slide to the first |
| Slideshows.PrevIndex | script.js:978-981 | `(current - 1 + total) % total` stays below total and wraps from the first slide to the last |
| Slideshows.NextPrevInverse | script.js:973-981 | next then previous, or previous then next, returns to the same slide |
| Slideshows.AdvanceBy | script.js:973-976 | k presses of the next button stay within the slides |
| Slideshows.AdvanceWithinRange | script.js:973-976 | short of the last slide, k presses move k places forward |
| Slideshows.AdvanceCompose | script.js:973-976 | a + b presses are a presses followed by b more |
| Slideshows.FullCycleReturns | script.js:973-976 | pressing next once per slide comes back to the starting slide |
| Slideshows.Slideshow.constructor | script.js:900-938 | one slide and one dot per item, only the first of each active, current slide 0 |
| Slideshows.Slideshow.ShowSlide | script.js:961-971 | exactly slide i and dot i are active afterwards, and the current slide is i |
| Slideshows.Slideshow.NextSlide | script.js:973-976 | shows the next index |
| Slideshows.Slideshow.PrevSlide | script.js:978-981 | shows the previous index |
| Slideshows.Slideshow.ClickDot | script.js:987-989 | clicking dot i shows slide i |
| Slideshows.Slideshow.HandleKey | script.js:992-998 | ArrowLeft goes back, ArrowRight forward, any other key changes nothing |
| Detail.HeroListImages | script.js:665-670 | one image per entry with a non-empty src, in entry order, carrying its position, with alt the caption, else the title |
| Detail.HeroListImagesComplete | script.js:665-670 | no entry with a src is dropped |
| Detail.HeroListImagesEmpty | script.js:665-672 | no image is shown iff no entry has a src |
| Detail.RenderHero | script.js:660-689 | a falsy hero shows the placeholder; an array shows its images, or the placeholder when none has a src; a string path shows one image with the title as alt; an object shows its src with the caption, else the title, or the placeholder without a src |
| Detail.CardTitle | script.js:574 | the listing card's title text when the card exists and its title is non-empty, otherwise "Project Title"; never empty |
| Detail.CardSubtitle | script.js:575 | the listing card's subtitle text when the card exists and its subtitle is non-empty, otherwise "Technology Stack"; never empty |
| Detail.CreateFallbackProject | script.js:571-586 | the card's title and subtitle, the two fixed texts, no hero, no sections, credits naming the title |
| Detail.FallbackIsValidLegacyProject | script.js:571-586 | the fallback record is valid in the legacy shape, carries no media and shows the hero placeholder |
| Detail.AppendMediaElements | script.js:815-818 | the grid's append loop renders every item in order |
| Detail.RendersSectionsSnoc | script.js:742-745 | rendering one more section appends one more block |
| Detail.CreateSectionElement | script.js:748-825 | id, heading and formatted content; no media part iff the media list is empty; a fresh slideshow at slide 0 over all items when `slideshow`, else a grid whose flags follow the counts |
| Detail.DetailPage.constructor | script.js:623-638 | the page before any project is shown |
| Detail.DetailPage.RenderSections | script.js:736-746 | the extended area is cleared, then holds one block per section in order; nothing else on the page changes |
| Detail.DetailPage.PopulateProjectDetail | script.js:623-734 | `data-project` from the title, title, subtitle, formatted description, hero and credits; section blocks when sections are non-empty, else the formatted legacy text if any, else the previous content stays |
| Detail.DetailPage.ShowProjectDetail | script.js:532-549 | shows the stored project or, for an unknown id, the fallback record, then navigates to `project-detail` |
| Navigation.NavigationSystem.constructor | script.js:300-311 | the navigator starts on `work`; its initial `navigateTo('work')` does nothing |
| Navigation.NavigationSystem.UpdateNavigation | script.js:406-410 | each link is active iff it points at the page |
| Navigation.NavigationSystem.NavigateTo | script.js:356-377 | nothing happens for the current page; otherwise one active page, matching links, sparkles only on home, body scroll locked only on the detail page, and one page event |
| Sparkles.Sparkle.constructor | script.js:254-255 | a fresh detached `sparkle` div |
| Sparkles.CursorEffects.constructor | script.js:111-116 | an empty pool |
| Sparkles.CursorEffects.GetSparkleFromPool | script.js:249-257 | pops the last pooled sparkle, or makes a fresh one when the pool is empty; either way it is reset |
| Sparkles.CursorEffects.ReturnSparkleToPool | script.js:259-266 | detaches and resets the sparkle, and pushes it onto the end of the pool |
| Witnesses.BuckLnyIsValid | projectData.js:289-332 | the `buck-lny` record validates |
| Witnesses.BuckLnyMediaCounts | projectData.js:289-332 | it holds four media items, all `mp4` |
| Witnesses.BuckLnyGrid | projectData.js:289-332 | its grid carries `section-media`, `has-videos` and `multiple-videos` only |
| Witnesses.BuckLnyAppend | projectData.js:289-332 | appending to its section gives five items; an unknown section id is refused |
| Witnesses.FlatJournalHero | projectData.js:1329-1373 | a hero object without a caption takes the title as alt |
| Witnesses.BuckLnyTitleFallsThrough | script.js:602 | the catalog's own title "BUCK x LNY 2023" does not contain "BUCK LNY" |
| Witnesses.ReplaceBlankLinesExample | script.js:1013 | "a\n\nb" gets one `</p><p>` |
| Witnesses.LineBreakExample | script.js:1013 | "a\nb" formats to "a\<br\>b" |
| Witnesses.ParagraphBreakExample | script.js:1013 | "a\n\nb" formats to "a\</p\>\<p\>b" |
| Witnesses.IndentedLine | script.js:1013 | " b" has no newline in its leading whitespace, and both steps leave it unchanged |
| Witnesses.IndentedParagraphExample | script.js:1013 | "a\n\n b" gets one `</p><p>` and the indented line keeps its space |
| Witnesses.IndentedParagraphFormatted | script.js:1004-1014 | "a\n\n b" formats to "a\</p\>\<p\> b" |
| Witnesses.BlankLineBeforeLastLine | script.js:1013 | "b\n\nc" gets one `</p><p>` |
| Witnesses.TwoLineParagraphExample | script.js:1013 | in "a\nb\n\nc" the newline inside the paragraph is kept and the blank line becomes `</p><p>` |
| Witnesses.TwoLineParagraphLineBreak | script.js:1013 | the `<br>` step then turns "a\nb\</p\>\<p\>c" into "a\<br\>b\</p\>\<p\>c" |
| Witnesses.TwoLineParagraphFormatted | script.js:1004-1014 | "a\nb\n\nc" formats to "a\<br\>b\</p\>\<p\>c" |
| Witnesses.LowerAndStripExample | script.js:616-617 | lower-casing and the character filter turn "A " into "a " |
| Witnesses.CollapseExample | script.js:618-619 | the whitespace and dash collapses turn "a " into "a-" |
| Witnesses.TrailingSpaceBecomesDash | script.js:616-619 | the steps before the trim turn "A " into "a-" |
| Witnesses.TrailingDashKept | script.js:616-620 | as written, "A " maps to "a-"; with the intended trim it maps to "a" |
| Witnesses.TrailingDashId | script.js:597-621 | "A " matches no title test, so as written its id is "a-"; the intended id is "a" |

## Left out

- Getting at the DOM (`document.createElement`, `querySelector`, `innerHTML`, `classList`): rendered output is the records above instead. The checks for missing host elements (`if (elements.x)`, `if (!container) return`) are left out, and every element is assumed present.
- The gallery branch of `populateProjectDetail` (script.js:701-728) is left out, and Detail.CreateFallbackProject drops the `gallery: [null, null]` field of `createFallbackProject` (script.js:583). So the model does not show the two "Gallery Image 1/2" placeholders (script.js:701-726) that the source writes on every fallback project. No catalog record has a gallery.
- CatalogStore.ProjectCatalog.AddMediaToSection: the source pushes the item onto the section's own `media` array (or a new one it attaches). A section object that `getSection` or `getSectionsWithMedia` returned earlier is that same object, so it sees the new item too. The model replaces the stored record with a new value, and a section value taken earlier keeps its old list. Aliasing is not modelled.
- The two rounded percentages of `getProjectStats` (projectData.js:1533-1534) are left out, because they are floating-point division.
- `history.pushState` and the `popstate` handler are left out. Browser history is I/O. `navigateTo`'s `pushState` flag therefore has no effect in the model.
- The `setTimeout` scroll resets (`scrollToTop`, `resetProjectDetailScroll`, page `scrollTop`) and the listeners that wire buttons, dots, keys and cards to the methods are left out: they are timers and events. The methods those listeners call are modelled.
- `notifyPageChange` dispatches a DOM event. It is modelled as appending the page to the `notified` list.
- The navigator's constructor does not model the `active` classes the markup carries before the first navigation, so nothing starts active.
- The cursor geometry, the canvas loop, the persistent sparkles' staggered timers, `ThemeManager` (wall clock) and `InteractiveAnimations` (styles only) are left out: they use floating point, randomness, clocks or styling. `togglePersistentSparkles` is modelled only as the navigator's `sparklesVisible` flag.
- The literal content of `PROJECT_DATA` is left out, apart from the two shortened records in `Witnesses`: it is content, not logic.
- `getProject` reads `PROJECT_DATA[projectId]`. It would also find inherited object properties such as `constructor`. The model looks up only the stored keys.
- Strings are sequences of Unicode scalar values, not UTF-16 code units. `toLowerCase` is modelled only for the characters whose lower case can survive the `[^a-z0-9\s-]` filter.
- A missing string is modelled as `""`, and at two places the source does not treat it so. A project without a title makes `title.includes` throw (script.js:598, reached from script.js:643), while Text.GetProjectIdFromTitle returns an id. A media item without a type gets the class `media-undefined` (script.js:829), while Media.CreateMediaElement gives `media-`. No catalog record lacks a title or a media type.
- `createSectionElement`'s `index` argument is unused by the source, and the model drops it.
- Slideshows.Slideshow.ShowSlide: requires an index below the slide count. Every caller passes one, and the source would throw on a larger index after clearing every flag.
- Text.GetProjectIdFromTitle: the ensures names the id only for the first test and for the fallback. For the other fourteen tests it says only that the id is one of the fifteen title ids; which test gives which id is the body. Text.BuckLnyTestIsOneTest and Witnesses.BuckLnyTitleFallsThrough cover the duplicated "BUCK LNY" test. The other paired tests (script.js:604, 607, 609, 611) are modelled as written, with no lemma about which catalog titles they miss.
- The id that `data-project` receives (script.js:641-645) is used by the stylesheet, which this model does not include. It is also matched by the unscoped lookup `document.querySelector('[data-project="…"]')` in `createFallbackProject` (script.js:573). Once the detail container carries the attribute, that lookup can find the container instead of the listing card, if the container comes first in the document. The fallback title and subtitle would then come from the wrong element, or be the defaults. In the model the `cards` argument stands for the listing cards only and never includes the container.

## Findings

| source | as written | input that shows it | evidently intended | confidence | as-written member | corrected member |
|---|---|---|---|---|---|---|
| script.js:620 | `.trim('-')` is `String.prototype.trim`, which takes no argument and removes whitespace only; after `\s+` became `-` there is none, so leading and trailing dashes stay | the title "A " gives "a-" | leading and trailing dashes are removed, giving "a" | not executed | Witnesses.TrailingDashId | Text.GetProjectIdFromTitleIntended |

The detail page keeps the as-written id: Detail.DetailPage.PopulateProjectDetail sets `data-project`
to Text.GetProjectIdFromTitle, because that is the attribute the page receives. The intended id and
its properties are Text.GetProjectIdFromTitleIntended, Text.KebabCase, Text.IntendedTrimsAsWritten
and Text.KebabCaseFixesSlugs.
