/** The project records of the portfolio catalog (`projectData.js`) and the pure and loop-based helpers
    of `ProjectDataHelpers` that work on one project: totals, the flattened media list, filters by
    media type, section lookup, validation, section creation and appending media to a section.

    JavaScript truthiness is modelled as follows: a missing or empty string is `""`; `sections` and
    `media` are `Option`s because an empty array is truthy in JavaScript (a project with
    `sections: []` still "has sections"), while a missing one is not. */
module Catalog {
  import opened Common

  /** A media descriptor; `mediaType` is the source's `type` field ("image", "gif", "video", "mp4",
      or anything else). */
  datatype MediaItem = MediaItem(mediaType: string, src: string, caption: string)

  /** A section of a project's detail view. `slideshow` is false when the source omits it. */
  datatype Section = Section(id: string, title: string, content: string,
                             media: Option<seq<MediaItem>>, slideshow: bool)

  /** One `{type, src, caption}` hero object; a `null` entry of a hero array is `HeroEntry("", "")`,
      which renders the same way. */
  datatype HeroEntry = HeroEntry(src: string, caption: string)

  /** The three shapes `heroImage` takes in the source, plus its absence (`null`). */
  datatype HeroImage =
    | NoHero
    | HeroPath(path: string)
    | HeroObject(entry: HeroEntry)
    | HeroList(entries: seq<HeroEntry>)

  /** A project record. `extendedDescription` is `""` when the legacy field is absent. */
  datatype Project = Project(title: string, subtitle: string, description: string,
                             heroImage: HeroImage, sections: Option<seq<Section>>,
                             extendedDescription: string, credits: string)

  /** A media item of `getAllProjectMedia`: the item's own fields plus `sectionId` and `sectionTitle`. */
  datatype TaggedMedia = TaggedMedia(item: MediaItem, sectionId: string, sectionTitle: string)

  /** The report of `validateProject`. */
  datatype ValidationReport = ValidationReport(
    isValid: bool, missingFields: seq<Field>, hasHeroImage: bool, hasSections: bool,
    hasOldStructure: bool, structureValid: bool, sectionCount: nat, totalMediaItems: nat)

  /** The outcome of `addMediaToSection`: whether it appended, and the project afterwards. */
  datatype AppendResult = AppendResult(added: bool, project: Project)

  /** `!!project.heroImage`: every object and array is truthy, a string only when non-empty. */
  predicate HeroTruthy(h: HeroImage) {
    match h
    case NoHero => false
    case HeroPath(path) => path != ""
    case HeroObject(_) => true
    case HeroList(_) => true
  }

  /** `section.media`, with a missing list read as empty. */
  function MediaOf(s: Section): seq<MediaItem> {
    if s.media.Some? then s.media.value else []
  }

  /** `project.sections`, with a missing list read as empty. */
  function SectionsOf(p: Project): seq<Section> {
    if p.sections.Some? then p.sections.value else []
  }

  // ---------------------------------------------------------------------------------------------
  // getTotalMediaCount, getAllProjectMedia

  /** The `reduce` of `getTotalMediaCount`: a running total of media lengths, section by section. */
  function MediaSum(ss: seq<Section>): nat
    decreases |ss|
  {
    if ss == [] then 0 else MediaSum(ss[..|ss| - 1]) + |MediaOf(ss[|ss| - 1])|
  }

  /** `getTotalMediaCount`: zero without sections, otherwise the sum of the media lengths. */
  function GetTotalMediaCount(p: Project): (n: nat)
    ensures p.sections.None? ==> n == 0
    ensures n == MediaSum(SectionsOf(p))
  {
    if p.sections.None? then 0 else MediaSum(p.sections.value)
  }

  /** The media of one section, each tagged with the section's `id` and `title`. */
  function TagSection(s: Section): (r: seq<TaggedMedia>)
    ensures |r| == |MediaOf(s)|
  {
    seq(|MediaOf(s)|, j requires 0 <= j < |MediaOf(s)| => TaggedMedia(MediaOf(s)[j], s.id, s.title))
  }

  /** The media of all sections, section by section and in item order within a section. */
  function FlattenMedia(ss: seq<Section>): seq<TaggedMedia>
    decreases |ss|
  {
    if ss == [] then [] else FlattenMedia(ss[..|ss| - 1]) + TagSection(ss[|ss| - 1])
  }

  /** What `getAllProjectMedia` returns. */
  function AllProjectMedia(p: Project): seq<TaggedMedia> {
    FlattenMedia(SectionsOf(p))
  }

  /** The flattened list has one entry per media item of every section. */
  lemma {:induction false} FlattenMediaLength(ss: seq<Section>)
    ensures |FlattenMedia(ss)| == MediaSum(ss)
    decreases |ss|
  {
    if ss != [] {
      FlattenMediaLength(ss[..|ss| - 1]);
    }
  }

  /** Item `j` of section `i` sits in the flattened list right after the media of the sections before
      `i`, tagged with section `i`'s id and title. */
  lemma {:induction false} FlattenMediaAt(ss: seq<Section>, i: nat, j: nat)
    requires i < |ss| && j < |MediaOf(ss[i])|
    ensures MediaSum(ss[..i]) + j < |FlattenMedia(ss)|
    ensures FlattenMedia(ss)[MediaSum(ss[..i]) + j] == TaggedMedia(MediaOf(ss[i])[j], ss[i].id, ss[i].title)
    decreases |ss|
  {
    var init := ss[..|ss| - 1];
    FlattenMediaLength(init);
    if i == |ss| - 1 {
      assert ss[..i] == init;
    } else {
      assert init[..i] == ss[..i];
      assert init[i] == ss[i];
      FlattenMediaAt(init, i, j);
    }
  }

  /** `getAllProjectMedia`: pushes every section's media, tagged with the section, onto one list. */
  method GetAllProjectMedia(p: Project) returns (allMedia: seq<TaggedMedia>)
    ensures allMedia == AllProjectMedia(p)
    ensures |allMedia| == GetTotalMediaCount(p)
  {
    allMedia := [];
    if p.sections.None? {
      return;
    }
    var ss := p.sections.value;
    var i := 0;
    while i < |ss|
      invariant 0 <= i <= |ss|
      invariant allMedia == FlattenMedia(ss[..i])
    {
      var section := ss[i];
      if section.media.Some? {
        var items := section.media.value;
        var j := 0;
        while j < |items|
          invariant 0 <= j <= |items|
          invariant allMedia == FlattenMedia(ss[..i]) + TagSection(section)[..j]
        {
          allMedia := allMedia + [TaggedMedia(items[j], section.id, section.title)];
          j := j + 1;
        }
      }
      assert ss[..i + 1][..i] == ss[..i];
      assert TagSection(section)[..|MediaOf(section)|] == TagSection(section);
      i := i + 1;
    }
    assert ss[..i] == ss;
    FlattenMediaLength(ss);
  }

  // ---------------------------------------------------------------------------------------------
  // getMediaByType

  /** The predicate `media => media.type === t`. */
  function TypeIs(t: string): TaggedMedia -> bool {
    (m: TaggedMedia) => m.item.mediaType == t
  }

  /** `getMediaByType`: the flattened media whose type is exactly `t`. */
  function GetMediaByType(p: Project, t: string): (r: seq<TaggedMedia>)
    ensures |r| <= GetTotalMediaCount(p)
    ensures forall k :: 0 <= k < |r| ==> r[k].item.mediaType == t
  {
    FlattenMediaLength(SectionsOf(p));
    Filter(AllProjectMedia(p), TypeIs(t))
  }

  /** `getMediaByType(p, t)` is the subsequence of `getAllProjectMedia(p)` taken at exactly the
      positions whose type is `t`, in increasing order. */
  lemma MediaByTypeIsOrderedSubsequence(p: Project, t: string)
    ensures var all, r, ix := AllProjectMedia(p), GetMediaByType(p, t), FilterIndices(AllProjectMedia(p), TypeIs(t));
      && |ix| == |r|
      && (forall k :: 0 <= k < |ix| ==> ix[k] < |all| && r[k] == all[ix[k]])
      && (forall k, l :: 0 <= k < l < |ix| ==> ix[k] < ix[l])
      && (forall i :: 0 <= i < |all| ==> (all[i].item.mediaType == t <==> i in ix))
  {
    FilterIsOrderedSelection(AllProjectMedia(p), TypeIs(t));
  }

  // ---------------------------------------------------------------------------------------------
  // getSection, getSectionIds, getSectionsWithMedia, createSection

  /** `sections.find(s => s.id === sectionId)`, as the position of the first match. */
  function FindSectionIndex(ss: seq<Section>, sectionId: string): (r: Option<nat>)
    ensures r.Some? ==> r.value < |ss| && ss[r.value].id == sectionId
    ensures r.Some? ==> forall k :: 0 <= k < r.value ==> ss[k].id != sectionId
    ensures r.None? ==> forall k :: 0 <= k < |ss| ==> ss[k].id != sectionId
    decreases |ss|
  {
    if ss == [] then None
    else if ss[0].id == sectionId then Some(0)
    else match FindSectionIndex(ss[1..], sectionId)
      case None => None
      case Some(k) => Some(k + 1)
  }

  /** `getSection`: `null` without sections or without a matching id, else the first match. */
  function GetSection(p: Project, sectionId: string): (r: Option<Section>)
    ensures r.None? <==> p.sections.None? || forall k :: 0 <= k < |SectionsOf(p)| ==> SectionsOf(p)[k].id != sectionId
    ensures r.Some? ==> exists k :: 0 <= k < |SectionsOf(p)| && SectionsOf(p)[k] == r.value && r.value.id == sectionId &&
                                    forall m :: 0 <= m < k ==> SectionsOf(p)[m].id != sectionId
  {
    if p.sections.None? then None
    else match FindSectionIndex(p.sections.value, sectionId)
      case None => None
      case Some(k) =>
        assert SectionsOf(p)[k] == p.sections.value[k];
        Some(p.sections.value[k])
  }

  /** `getSectionIds`: the ids of the sections, position by position. */
  function GetSectionIds(p: Project): (r: seq<string>)
    ensures |r| == |SectionsOf(p)|
    ensures forall k :: 0 <= k < |r| ==> r[k] == SectionsOf(p)[k].id
  {
    seq(|SectionsOf(p)|, k requires 0 <= k < |SectionsOf(p)| => SectionsOf(p)[k].id)
  }

  /** An id is listed by `getSectionIds` exactly when `getSection` finds a section for it. */
  lemma SectionIdsMatchLookup(p: Project, sectionId: string)
    ensures sectionId in GetSectionIds(p) <==> GetSection(p, sectionId).Some?
  {
    var ids := GetSectionIds(p);
    if sectionId in ids {
      var k :| 0 <= k < |ids| && ids[k] == sectionId;
      assert SectionsOf(p)[k].id == sectionId;
    }
  }

  /** The predicate `section => section.media && section.media.length > 0`. */
  function HasMedia(): Section -> bool {
    (s: Section) => MediaOf(s) != []
  }

  /** `getSectionsWithMedia`: the sections with a non-empty media list, in order. */
  function GetSectionsWithMedia(p: Project): (r: seq<Section>)
    ensures |r| <= |SectionsOf(p)|
    ensures forall k :: 0 <= k < |r| ==> MediaOf(r[k]) != []
  {
    Filter(SectionsOf(p), HasMedia())
  }

  /** `getSectionsWithMedia` keeps exactly the sections with media, at increasing positions. */
  lemma SectionsWithMediaIsOrderedSubsequence(p: Project)
    ensures var ss, r, ix := SectionsOf(p), GetSectionsWithMedia(p), FilterIndices(SectionsOf(p), HasMedia());
      && |ix| == |r|
      && (forall k :: 0 <= k < |ix| ==> ix[k] < |ss| && r[k] == ss[ix[k]])
      && (forall k, l :: 0 <= k < l < |ix| ==> ix[k] < ix[l])
      && (forall i :: 0 <= i < |ss| ==> (MediaOf(ss[i]) != [] <==> i in ix))
  {
    FilterIsOrderedSelection(SectionsOf(p), HasMedia());
  }

  /** Appending a section adds its media length to the total. */
  lemma MediaSumSnoc(ss: seq<Section>, s: Section)
    ensures MediaSum(ss + [s]) == MediaSum(ss) + |MediaOf(s)|
  {
    assert (ss + [s])[..|ss + [s]| - 1] == ss;
  }

  /** Dropping the sections without media loses no media item. */
  lemma {:induction false} SectionsWithMediaKeepAllMedia(ss: seq<Section>)
    ensures MediaSum(Filter(ss, HasMedia())) == MediaSum(ss)
    decreases |ss|
  {
    if ss != [] {
      var init, last := ss[..|ss| - 1], ss[|ss| - 1];
      SectionsWithMediaKeepAllMedia(init);
      var kept := Filter(init, HasMedia());
      assert MediaSum(ss) == MediaSum(init) + |MediaOf(last)|;
      if MediaOf(last) != [] {
        assert Filter(ss, HasMedia()) == kept + [last];
        MediaSumSnoc(kept, last);
      } else {
        assert Filter(ss, HasMedia()) == kept;
      }
    }
  }

  /** `createSection(id, title, content, media = [])`: a non-slideshow section with the given media. */
  function CreateSection(id: string, title: string, content: string, media: seq<MediaItem> := []): (r: Section)
    ensures r.id == id && r.title == title && r.content == content
    ensures r.media.Some? && MediaOf(r) == media && !r.slideshow
  {
    Section(id, title, content, Some(media), false)
  }

  // ---------------------------------------------------------------------------------------------
  // validateProject

  /** The names of the fields `validateProject` requires. */
  datatype Field = Title | Subtitle | Description | Credits

  /** The required fields, in the order `validateProject` reports them missing. */
  const RequiredFields: seq<Field> := [Title, Subtitle, Description, Credits]

  /** `project[field]` for a required field. */
  function FieldValue(p: Project, field: Field): string {
    match field
    case Title => p.title
    case Subtitle => p.subtitle
    case Description => p.description
    case Credits => p.credits
  }

  /** The predicate `field => !project[field]`. */
  function IsMissingIn(p: Project): Field -> bool {
    (field: Field) => FieldValue(p, field) == ""
  }

  /** The missing-field list, spelled out: each required field that is empty, in the order title,
      subtitle, description, credits. */
  lemma MissingFieldsListed(p: Project)
    ensures Filter(RequiredFields, IsMissingIn(p)) ==
      (if p.title == "" then [Title] else []) + (if p.subtitle == "" then [Subtitle] else []) +
      (if p.description == "" then [Description] else []) + (if p.credits == "" then [Credits] else [])
  {
    var f := IsMissingIn(p);
    assert RequiredFields[..3] == [Title, Subtitle, Description];
    assert RequiredFields[..3][..2] == [Title, Subtitle];
    assert RequiredFields[..3][..2][..1] == [Title];
    assert [Title][..0] == [];
    assert Filter([Title], f) == (if p.title == "" then [Title] else []);
    assert Filter([Title, Subtitle], f) == Filter([Title], f) + (if p.subtitle == "" then [Subtitle] else []);
    assert Filter([Title, Subtitle, Description], f)
        == Filter([Title, Subtitle], f) + (if p.description == "" then [Description] else []);
  }

  /** A field is reported missing exactly when it is empty, and nothing is reported exactly when
      all four are filled in. */
  lemma MissingFieldsExactly(p: Project)
    ensures forall f :: f in Filter(RequiredFields, IsMissingIn(p)) <==> FieldValue(p, f) == ""
    ensures Filter(RequiredFields, IsMissingIn(p)) == [] <==>
              p.title != "" && p.subtitle != "" && p.description != "" && p.credits != ""
  {
    MissingFieldsListed(p);
    var a := if p.title == "" then [Title] else [];
    var b := if p.subtitle == "" then [Subtitle] else [];
    var c := if p.description == "" then [Description] else [];
    var d := if p.credits == "" then [Credits] else [];
    assert Filter(RequiredFields, IsMissingIn(p)) == a + b + c + d;
    forall f
      ensures f in a + b + c + d <==> FieldValue(p, f) == ""
    {
      assert f in a + b + c + d <==> f in a || f in b || f in c || f in d;
      match f
      case Title => assert Title !in b && Title !in c && Title !in d;
      case Subtitle => assert Subtitle !in a && Subtitle !in c && Subtitle !in d;
      case Description => assert Description !in a && Description !in b && Description !in d;
      case Credits => assert Credits !in a && Credits !in b && Credits !in c;
    }
    assert |a + b + c + d| == |a| + |b| + |c| + |d|;
  }

  /** `validateProject`. */
  function ValidateProject(p: Project): (r: ValidationReport)
    ensures forall f :: f in r.missingFields <==> FieldValue(p, f) == ""
    ensures r.missingFields == [] <==> p.title != "" && p.subtitle != "" && p.description != "" && p.credits != ""
    ensures r.structureValid <==> if p.sections.Some? then |p.sections.value| > 0 else p.extendedDescription != ""
    ensures r.isValid <==> r.missingFields == [] && r.structureValid
    ensures r.hasHeroImage == HeroTruthy(p.heroImage)
    ensures r.hasSections == p.sections.Some? && r.hasOldStructure == (p.extendedDescription != "")
    ensures r.sectionCount == |SectionsOf(p)| && r.totalMediaItems == GetTotalMediaCount(p)
  {
    var missing := Filter(RequiredFields, IsMissingIn(p));
    MissingFieldsExactly(p);
    var hasSections := p.sections.Some?;
    var hasOldStructure := p.extendedDescription != "";
    var structureValid := if hasSections then |p.sections.value| > 0 else hasOldStructure;
    ValidationReport(
      missing == [] && structureValid, missing, HeroTruthy(p.heroImage), hasSections,
      hasOldStructure, structureValid, if hasSections then |p.sections.value| else 0,
      if hasSections then GetTotalMediaCount(p) else 0)
  }

  // ---------------------------------------------------------------------------------------------
  // addMediaToSection

  /** `addMediaToSection` on a project value: appends `item` to the first section whose id matches,
      creating its media list when missing. */
  function AppendMedia(p: Project, sectionId: string, item: MediaItem): (r: AppendResult)
    ensures !r.added <==> p.sections.None? || FindSectionIndex(p.sections.value, sectionId).None?
    ensures !r.added ==> r.project == p
    ensures r.added ==> var ss, k := p.sections.value, FindSectionIndex(p.sections.value, sectionId).value;
      && r.project == p.(sections := r.project.sections)
      && r.project.sections.Some? && |r.project.sections.value| == |ss|
      && MediaOf(r.project.sections.value[k]) == MediaOf(ss[k]) + [item]
      && r.project.sections.value[k] == ss[k].(media := Some(MediaOf(ss[k]) + [item]))
      && forall m :: 0 <= m < |ss| && m != k ==> r.project.sections.value[m] == ss[m]
  {
    if p.sections.None? then AppendResult(false, p)
    else
      var ss := p.sections.value;
      match FindSectionIndex(ss, sectionId)
      case None => AppendResult(false, p)
      case Some(k) =>
        var section := ss[k];
        var media := if section.media.Some? then section.media.value else [];
        AppendResult(true, p.(sections := Some(ss[k := section.(media := Some(media + [item]))])))
  }

  /** Replacing section `k` by one with one more media item raises the running total by one. */
  lemma {:induction false} MediaSumUpdate(ss: seq<Section>, k: nat, s: Section)
    requires k < |ss| && |MediaOf(s)| == |MediaOf(ss[k])| + 1
    ensures MediaSum(ss[k := s]) == MediaSum(ss) + 1
    decreases |ss|
  {
    var ss' := ss[k := s];
    var init := ss[..|ss| - 1];
    if k == |ss| - 1 {
      assert ss'[..|ss'| - 1] == init;
    } else {
      assert ss'[..|ss'| - 1] == init[k := s];
      MediaSumUpdate(init, k, s);
    }
  }

  /** After a successful `addMediaToSection` the project has exactly one more media item, and a lookup
      of that section id returns the section with `item` at the end of its media; after a failed one
      nothing changed. */
  lemma AppendMediaEffect(p: Project, sectionId: string, item: MediaItem)
    ensures var r := AppendMedia(p, sectionId, item);
      && GetTotalMediaCount(r.project) == GetTotalMediaCount(p) + (if r.added then 1 else 0)
      && (r.added ==>
            GetSection(r.project, sectionId).Some? &&
            MediaOf(GetSection(r.project, sectionId).value) == MediaOf(GetSection(p, sectionId).value) + [item])
  {
    var r := AppendMedia(p, sectionId, item);
    if r.added {
      var ss, k := p.sections.value, FindSectionIndex(p.sections.value, sectionId).value;
      var ss' := r.project.sections.value;
      MediaSumUpdate(ss, k, ss'[k]);
      assert ss' == ss[k := ss'[k]];
      assert forall m :: 0 <= m < k ==> ss'[m].id != sectionId;
      assert FindSectionIndex(ss', sectionId) == Some(k);
      assert FindSectionIndex(ss, sectionId) == Some(k);
    }
  }
}
