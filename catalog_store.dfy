/** The global `PROJECT_DATA` object and the `ProjectDataHelpers` members that read or change it:
    `getProject`, `getAllProjectIds`, `getProjectsWithMissingImages`, `addMediaToSection` and
    `getProjectStats`. */
module CatalogStore {
  import opened Common
  import opened Catalog

  /** The four counters of `getProjectStats().mediaTypes`. */
  datatype MediaTypeCounts = MediaTypeCounts(image: nat, gif: nat, video: nat, mp4: nat)

  /** `getProjectStats()` without the two rounded percentages. */
  datatype ProjectStats = ProjectStats(totalProjects: nat, withHeroImages: nat, withSections: nat,
                                       withOldStructure: nat, mediaTypes: MediaTypeCounts)

  /** The counters for a list of media, each counting the items of exactly its type. */
  function TypeCounts(xs: seq<TaggedMedia>): MediaTypeCounts {
    MediaTypeCounts(|Filter(xs, TypeIs("image"))|, |Filter(xs, TypeIs("gif"))|,
                    |Filter(xs, TypeIs("video"))|, |Filter(xs, TypeIs("mp4"))|)
  }

  /** The four counters never add up to more than the number of items: each item has one type, and
      items of any other type are not counted at all. */
  lemma {:induction false} TypeCountsBounded(xs: seq<TaggedMedia>)
    ensures var c := TypeCounts(xs); c.image + c.gif + c.video + c.mp4 <= |xs|
    decreases |xs|
  {
    if xs != [] {
      TypeCountsBounded(xs[..|xs| - 1]);
    }
  }

  /** A media item with a known type raises exactly its own counter; one with any other type raises
      none. */
  lemma TypeCountsStep(xs: seq<TaggedMedia>, x: TaggedMedia)
    ensures var c, c' := TypeCounts(xs), TypeCounts(xs + [x]); var t := x.item.mediaType;
      && c'.image == c.image + (if t == "image" then 1 else 0)
      && c'.gif == c.gif + (if t == "gif" then 1 else 0)
      && c'.video == c.video + (if t == "video" then 1 else 0)
      && c'.mp4 == c.mp4 + (if t == "mp4" then 1 else 0)
  {
    assert (xs + [x])[..|xs + [x]| - 1] == xs;
  }

  /** `project.sections && project.sections.some(section => section.media && section.media.length > 0)`. */
  predicate HasSectionMedia(p: Project) {
    p.sections.Some? && exists k :: 0 <= k < |p.sections.value| && MediaOf(p.sections.value[k]) != []
  }

  /** The `some` test of `getProjectsWithMissingImages` agrees with `getSectionsWithMedia` being
      non-empty. */
  lemma HasSectionMediaIffSectionsWithMedia(p: Project)
    ensures HasSectionMedia(p) <==> p.sections.Some? && GetSectionsWithMedia(p) != []
  {
    SectionsWithMediaIsOrderedSubsequence(p);
    var r, ix := GetSectionsWithMedia(p), FilterIndices(SectionsOf(p), HasMedia());
    if HasSectionMedia(p) {
      var k :| 0 <= k < |p.sections.value| && MediaOf(p.sections.value[k]) != [];
      assert k in ix;
    }
    if p.sections.Some? && r != [] {
      assert MediaOf(p.sections.value[ix[0]]) != [];
    }
  }

  /** The media of the projects with the given ids, one project after another. */
  function ConcatMedia(ids: seq<string>, projects: map<string, Project>): seq<TaggedMedia>
    decreases |ids|
  {
    if ids == [] then []
    else
      var last := ids[|ids| - 1];
      ConcatMedia(ids[..|ids| - 1], projects) + (if last in projects then AllProjectMedia(projects[last]) else [])
  }

  /** The number of ids whose project satisfies `f`. */
  function CountProjects(ids: seq<string>, projects: map<string, Project>, f: Project -> bool): nat
    decreases |ids|
  {
    if ids == [] then 0
    else
      var last := ids[|ids| - 1];
      CountProjects(ids[..|ids| - 1], projects, f) + (if last in projects && f(projects[last]) then 1 else 0)
  }

  /** `p => p.heroImage` */
  function WithHeroImage(): Project -> bool { (p: Project) => HeroTruthy(p.heroImage) }

  /** `p => p.sections && p.sections.length > 0` */
  function WithSections(): Project -> bool { (p: Project) => SectionsOf(p) != [] }

  /** `p => p.extendedDescription && !p.sections` */
  function WithOldStructure(): Project -> bool {
    (p: Project) => p.extendedDescription != "" && p.sections.None?
  }

  /** No filter counts more projects than there are ids. */
  lemma {:induction false} CountProjectsBounded(ids: seq<string>, projects: map<string, Project>, f: Project -> bool)
    ensures CountProjects(ids, projects, f) <= |ids|
    decreases |ids|
  {
    if ids != [] {
      CountProjectsBounded(ids[..|ids| - 1], projects, f);
    }
  }

  /** A project with sections never has the old structure, so the two counts together are at most
      the number of ids. */
  lemma {:induction false} SectionsAndOldStructureDisjoint(ids: seq<string>, projects: map<string, Project>)
    ensures CountProjects(ids, projects, WithSections()) + CountProjects(ids, projects, WithOldStructure()) <= |ids|
    decreases |ids|
  {
    if ids != [] {
      SectionsAndOldStructureDisjoint(ids[..|ids| - 1], projects);
    }
  }

  /** The inner `allMedia.forEach` of `getProjectStats`: raises the counter of each item's type when
      that type is one of the four counted ones. */
  method TallyMediaTypes(counts: MediaTypeCounts, ghost before: seq<TaggedMedia>, allMedia: seq<TaggedMedia>)
    returns (r: MediaTypeCounts)
    requires counts == TypeCounts(before)
    ensures r == TypeCounts(before + allMedia)
  {
    r := counts;
    var j := 0;
    assert before + allMedia[..0] == before;
    while j < |allMedia|
      invariant 0 <= j <= |allMedia|
      invariant r == TypeCounts(before + allMedia[..j])
    {
      var t := allMedia[j].item.mediaType;
      TypeCountsStep(before + allMedia[..j], allMedia[j]);
      assert before + allMedia[..j + 1] == (before + allMedia[..j]) + [allMedia[j]];
      if t == "image" {
        r := r.(image := r.image + 1);
      } else if t == "gif" {
        r := r.(gif := r.gif + 1);
      } else if t == "video" {
        r := r.(video := r.video + 1);
      } else if t == "mp4" {
        r := r.(mp4 := r.mp4 + 1);
      }
      j := j + 1;
    }
    assert allMedia[..j] == allMedia;
  }

  /** The catalog `PROJECT_DATA`: its keys in insertion order and the project stored under each. The
      keys never change; `addMediaToSection` replaces the project stored under one of them. */
  class ProjectCatalog {
    const ids: seq<string>
    var projects: map<string, Project>

    /** The keys are distinct and are exactly the keys of `projects`. */
    ghost predicate Valid()
      reads this
    {
      && (forall i, j :: 0 <= i < j < |ids| ==> ids[i] != ids[j])
      && (forall id :: id in projects <==> id in ids)
    }

    constructor (ids: seq<string>, projects: map<string, Project>)
      requires forall i, j :: 0 <= i < j < |ids| ==> ids[i] != ids[j]
      requires forall id :: id in projects <==> id in ids
      ensures Valid() && this.ids == ids && this.projects == projects
    {
      this.ids := ids;
      this.projects := projects;
    }

    /** `getProject(projectId)`: the stored project, or `null` for an unknown key. */
    function GetProject(projectId: string): (r: Option<Project>)
      reads this
      ensures r.Some? <==> projectId in projects
      ensures r.Some? ==> r.value == projects[projectId]
    {
      if projectId in projects then Some(projects[projectId]) else None
    }

    /** `getAllProjectIds()`: `Object.keys(PROJECT_DATA)`. */
    function GetAllProjectIds(): (r: seq<string>)
      reads this
      ensures |r| == |ids|
    {
      ids
    }

    /** Every listed id is found by `getProject`, every found id is listed, and none is listed twice. */
    lemma ProjectIdsMatchLookup(projectId: string)
      requires Valid()
      ensures projectId in GetAllProjectIds() <==> GetProject(projectId).Some?
      ensures forall i, j :: 0 <= i < j < |GetAllProjectIds()| ==> GetAllProjectIds()[i] != GetAllProjectIds()[j]
    {
    }

    /** `getProjectsWithMissingImages()`: the projects lacking a hero image or lacking any section with
        media, under their own keys. */
    function GetProjectsWithMissingImages(): (r: map<string, Project>)
      reads this
      ensures forall id :: id in r <==> id in projects && (!HeroTruthy(projects[id].heroImage) || !HasSectionMedia(projects[id]))
      ensures forall id :: id in r ==> r[id] == projects[id]
    {
      map id | id in projects && (!HeroTruthy(projects[id].heroImage) || !HasSectionMedia(projects[id])) :: projects[id]
    }

    /** `addMediaToSection(project, sectionId, mediaItem)` for the project stored under `projectId`:
        the stored project is replaced by its updated value; the other projects are untouched. */
    method AddMediaToSection(projectId: string, sectionId: string, mediaItem: MediaItem) returns (added: bool)
      requires Valid() && projectId in projects
      modifies this
      ensures Valid()
      ensures added == AppendMedia(old(projects[projectId]), sectionId, mediaItem).added
      ensures projects == old(projects)[projectId := AppendMedia(old(projects[projectId]), sectionId, mediaItem).project]
    {
      var r := AppendMedia(projects[projectId], sectionId, mediaItem);
      projects := projects[projectId := r.project];
      added := r.added;
    }

    /** The concatenated media of all projects, in key order. */
    function CatalogMedia(): seq<TaggedMedia>
      reads this
    {
      ConcatMedia(ids, projects)
    }

    /** `getProjectStats()` without the percentages: the project counts of the three filters and the
        per-type media counters over every project's `getAllProjectMedia`. */
    method GetProjectStats() returns (stats: ProjectStats)
      requires Valid()
      ensures stats.totalProjects == |ids|
      ensures stats.withHeroImages == CountProjects(ids, projects, WithHeroImage())
      ensures stats.withSections == CountProjects(ids, projects, WithSections())
      ensures stats.withOldStructure == CountProjects(ids, projects, WithOldStructure())
      ensures stats.withHeroImages <= stats.totalProjects
      ensures stats.withSections + stats.withOldStructure <= stats.totalProjects
      ensures stats.mediaTypes == TypeCounts(CatalogMedia())
      ensures stats.mediaTypes.image + stats.mediaTypes.gif + stats.mediaTypes.video + stats.mediaTypes.mp4
              <= |CatalogMedia()|
    {
      var counts := MediaTypeCounts(0, 0, 0, 0);
      var i := 0;
      assert TypeCounts([]) == counts;
      while i < |ids|
        invariant 0 <= i <= |ids|
        invariant counts == TypeCounts(ConcatMedia(ids[..i], projects))
      {
        var project := projects[ids[i]];
        var allMedia := GetAllProjectMedia(project);
        counts := TallyMediaTypes(counts, ConcatMedia(ids[..i], projects), allMedia);
        assert ConcatMedia(ids[..i + 1], projects) == ConcatMedia(ids[..i], projects) + allMedia by {
          assert ids[..i + 1][..i] == ids[..i];
        }
        i := i + 1;
      }
      assert ids[..i] == ids;
      TypeCountsBounded(CatalogMedia());
      CountProjectsBounded(ids, projects, WithHeroImage());
      SectionsAndOldStructureDisjoint(ids, projects);
      stats := ProjectStats(|ids|, CountProjects(ids, projects, WithHeroImage()),
                            CountProjects(ids, projects, WithSections()),
                            CountProjects(ids, projects, WithOldStructure()), counts);
    }
  }
}
