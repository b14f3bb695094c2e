/** `ProjectDetailSystem`: the hero area, the fallback record for projects missing from the catalog,
    the section renderer and the detail page that `showProjectDetail` fills in. */
module Detail {
  import opened Common
  import opened Catalog
  import opened CatalogStore
  import opened Text
  import opened Media
  import opened Slideshows
  import opened Navigation

  // ---------------------------------------------------------------- hero area

  /** One `img.hero-image`: `index` is the `-N` suffix of its id (none for `project-hero-img`). */
  datatype HeroImg = HeroImg(index: Option<nat>, alt: string, src: string)

  /** The content of `.project-hero-image`: images, or the placeholder showing the project title. */
  datatype HeroView = HeroImages(images: seq<HeroImg>) | HeroPlaceholder(title: string)

  /** `caption || title` */
  function AltOr(caption: string, title: string): string {
    if caption != "" then caption else title
  }

  /** The images of an array-shaped hero: one per entry with a non-empty `src`, in order, carrying the
      entry's position. */
  function HeroListImages(entries: seq<HeroEntry>, title: string): (r: seq<HeroImg>)
    ensures |r| <= |entries|
    ensures forall k :: 0 <= k < |r| ==>
              && r[k].index.Some? && r[k].index.value < |entries|
              && r[k].src == entries[r[k].index.value].src && r[k].src != ""
              && r[k].alt == AltOr(entries[r[k].index.value].caption, title)
    ensures forall k, l :: 0 <= k < l < |r| ==> r[k].index.value < r[l].index.value
    decreases |entries|
  {
    if entries == [] then []
    else
      var n := |entries| - 1;
      var init := HeroListImages(entries[..n], title);
      assert forall i :: 0 <= i < n ==> entries[..n][i] == entries[i];
      init + (if entries[n].src != "" then [HeroImg(Some(n), AltOr(entries[n].caption, title), entries[n].src)] else [])
  }

  /** Every entry with a non-empty `src` is shown: no usable image is dropped. */
  lemma {:induction false} HeroListImagesComplete(entries: seq<HeroEntry>, title: string, i: nat)
    requires i < |entries| && entries[i].src != ""
    ensures exists k :: 0 <= k < |HeroListImages(entries, title)| && HeroListImages(entries, title)[k].index == Some(i)
    decreases |entries|
  {
    var n := |entries| - 1;
    var init := HeroListImages(entries[..n], title);
    assert HeroListImages(entries, title)[..|init|] == init;
    if i < n {
      assert entries[..n][i] == entries[i];
      HeroListImagesComplete(entries[..n], title, i);
      var k :| 0 <= k < |init| && init[k].index == Some(i);
      assert HeroListImages(entries, title)[k] == init[k];
    } else {
      assert HeroListImages(entries, title)[|init|].index == Some(i);
    }
  }

  /** An array-shaped hero shows no image exactly when none of its entries has a `src`. */
  lemma HeroListImagesEmpty(entries: seq<HeroEntry>, title: string)
    ensures HeroListImages(entries, title) == [] <==> forall i :: 0 <= i < |entries| ==> entries[i].src == ""
  {
    if exists i :: 0 <= i < |entries| && entries[i].src != "" {
      var i :| 0 <= i < |entries| && entries[i].src != "";
      HeroListImagesComplete(entries, title, i);
    }
  }

  /** The hero branch of `populateProjectDetail`: arrays, legacy strings and single objects render
      their images; a missing or empty hero, or one without any usable `src`, shows the placeholder. */
  function RenderHero(p: Project): (r: HeroView)
    ensures !HeroTruthy(p.heroImage) ==> r == HeroPlaceholder(p.title)
    ensures r.HeroPlaceholder? ==> r.title == p.title
    ensures r.HeroImages? ==> |r.images| > 0 && forall k :: 0 <= k < |r.images| ==> r.images[k].src != ""
    ensures p.heroImage.HeroList? ==>
              (r.HeroPlaceholder? <==> forall i :: 0 <= i < |p.heroImage.entries| ==> p.heroImage.entries[i].src == "")
    ensures p.heroImage.HeroList? && r.HeroImages? ==> r.images == HeroListImages(p.heroImage.entries, p.title)
    ensures p.heroImage.HeroPath? && p.heroImage.path != "" ==>
              r == HeroImages([HeroImg(None, p.title, p.heroImage.path)])
    ensures p.heroImage.HeroObject? ==> (r.HeroImages? <==> p.heroImage.entry.src != "")
    ensures p.heroImage.HeroObject? && r.HeroImages? ==>
              r.images == [HeroImg(None, AltOr(p.heroImage.entry.caption, p.title), p.heroImage.entry.src)]
  {
    match p.heroImage
    case NoHero => HeroPlaceholder(p.title)
    case HeroPath(path) =>
      if path != "" then HeroImages([HeroImg(None, p.title, path)]) else HeroPlaceholder(p.title)
    case HeroObject(e) =>
      if e.src != "" then HeroImages([HeroImg(None, AltOr(e.caption, p.title), e.src)]) else HeroPlaceholder(p.title)
    case HeroList(es) =>
      HeroListImagesEmpty(es, p.title);
      var images := HeroListImages(es, p.title);
      if images != [] then HeroImages(images) else HeroPlaceholder(p.title)
  }

  // ---------------------------------------------------------------- fallback record

  /** What the work listing shows for one project: the text of its `.project-title` and
      `.project-subtitle` elements, where present. */
  datatype ListingCard = ListingCard(title: Option<string>, subtitle: Option<string>)

  const FallbackDescription := "This project is currently being documented. More details will be available soon."
  const FallbackExtended := "This project showcases innovative technical solutions and creative problem-solving. Full project details and documentation are being prepared for publication."

  /** `element?.textContent || fallback` */
  function TextOr(text: Option<string>, fallback: string): string {
    if text.Some? && text.value != "" then text.value else fallback
  }

  /** The card title of `projectId` in the listing, or "Project Title". */
  function CardTitle(projectId: string, cards: map<string, ListingCard>): (r: string)
    ensures r != ""
    ensures projectId in cards && cards[projectId].title.Some? && cards[projectId].title.value != ""
      ==> r == cards[projectId].title.value
    ensures !(projectId in cards && cards[projectId].title.Some? && cards[projectId].title.value != "")
      ==> r == "Project Title"
  {
    if projectId in cards then TextOr(cards[projectId].title, "Project Title") else "Project Title"
  }

  /** The card subtitle of `projectId` in the listing, or "Technology Stack". */
  function CardSubtitle(projectId: string, cards: map<string, ListingCard>): (r: string)
    ensures r != ""
    ensures projectId in cards && cards[projectId].subtitle.Some? && cards[projectId].subtitle.value != ""
      ==> r == cards[projectId].subtitle.value
    ensures !(projectId in cards && cards[projectId].subtitle.Some? && cards[projectId].subtitle.value != "")
      ==> r == "Technology Stack"
  {
    if projectId in cards then TextOr(cards[projectId].subtitle, "Technology Stack") else "Technology Stack"
  }

  /** `createFallbackProject(projectId)`: a legacy-shaped record built from the listing card, with
      fixed description texts, no hero image and no sections. */
  function CreateFallbackProject(projectId: string, cards: map<string, ListingCard>): (r: Project)
    ensures r.title == CardTitle(projectId, cards) && r.subtitle == CardSubtitle(projectId, cards)
    ensures r.title != "" && r.subtitle != ""
    ensures r.description == FallbackDescription && r.extendedDescription == FallbackExtended
    ensures r.heroImage == NoHero && r.sections.None?
    ensures r.credits == "Project: " + r.title + "<br>Development: Haolin Fang<br>Status: Documentation in progress"
  {
    var title := CardTitle(projectId, cards);
    Project(title, CardSubtitle(projectId, cards), FallbackDescription, NoHero, None, FallbackExtended,
            "Project: " + title + "<br>Development: Haolin Fang<br>Status: Documentation in progress")
  }

  /** The fallback record passes `validateProject` in the legacy structure, and the page shows it with
      the hero placeholder and the extended text instead of sections. */
  lemma FallbackIsValidLegacyProject(projectId: string, cards: map<string, ListingCard>)
    ensures var p := CreateFallbackProject(projectId, cards); var v := ValidateProject(p);
      && v.isValid && v.missingFields == [] && !v.hasSections && v.hasOldStructure && !v.hasHeroImage
      && v.totalMediaItems == 0
      && RenderHero(p) == HeroPlaceholder(p.title)
      && SectionsOf(p) == []
  {
  }

  // ---------------------------------------------------------------- sections

  /** The media part of a `.project-section`. */
  datatype SectionMedia =
    | NoMedia
    | Grid(layout: GridLayout, items: seq<MediaBlock>)
    | Carousel(controller: Slideshow)

  /** A `div.project-section`: `data-section-id`, the `h2.section-title`, the `.section-content`
      markup and the media part. */
  datatype SectionBlock = SectionBlock(sectionId: string, heading: string, contentHtml: string, media: SectionMedia)

  /** `b` is what `createSectionElement` builds for `s`: media only when the list is non-empty, a
      slideshow over all items when `s.slideshow`, otherwise a grid with the count-based flags. */
  predicate RendersSection(b: SectionBlock, s: Section) {
    && b.sectionId == s.id && b.heading == s.title && b.contentHtml == FormatDescription(s.content)
    && (b.media.NoMedia? <==> MediaOf(s) == [])
    && (MediaOf(s) != [] && s.slideshow ==>
          b.media.Carousel? && b.media.controller.total == |MediaOf(s)|
          && b.media.controller.slides == RenderAll(MediaOf(s)))
    && (MediaOf(s) != [] && !s.slideshow ==> b.media == Grid(GridFlags(MediaOf(s)), RenderAll(MediaOf(s))))
  }

  /** One block per section, in section order. */
  predicate RendersSections(blocks: seq<SectionBlock>, ss: seq<Section>) {
    |blocks| == |ss| && forall k :: 0 <= k < |ss| ==> RendersSection(blocks[k], ss[k])
  }

  /** The `section.media.forEach` of the grid branch: one rendered block per item, appended in order. */
  method AppendMediaElements(media: seq<MediaItem>) returns (items: seq<MediaBlock>)
    ensures items == RenderAll(media)
  {
    items := [];
    for j := 0 to |media|
      invariant |items| == j
      invariant forall k :: 0 <= k < j ==> items[k] == CreateMediaElement(media[k])
    {
      items := items + [CreateMediaElement(media[j])];
    }
  }

  /** Rendering one more section appends one more block. */
  lemma RendersSectionsSnoc(blocks: seq<SectionBlock>, ss: seq<Section>, b: SectionBlock, s: Section)
    requires RendersSections(blocks, ss) && RendersSection(b, s)
    ensures RendersSections(blocks + [b], ss + [s])
  {
    assert forall k :: 0 <= k < |ss| ==> (blocks + [b])[k] == blocks[k] && (ss + [s])[k] == ss[k];
  }

  /** `createSectionElement(section, index)`; the index argument is not used by the source. */
  method CreateSectionElement(section: Section) returns (block: SectionBlock)
    ensures RendersSection(block, section)
    ensures block.media.Carousel? ==>
              fresh(block.media.controller) && block.media.controller.Valid() && block.media.controller.currentSlide == 0
  {
    var contentHtml := FormatDescription(section.content);
    var media := MediaOf(section);
    if media == [] {
      block := SectionBlock(section.id, section.title, contentHtml, NoMedia);
    } else if section.slideshow {
      var controller := new Slideshow(media);
      block := SectionBlock(section.id, section.title, contentHtml, Carousel(controller));
    } else {
      var items := AppendMediaElements(media);
      block := SectionBlock(section.id, section.title, contentHtml, Grid(GridFlags(media), items));
    }
  }

  // ---------------------------------------------------------------- the detail page

  /** The content of `#project-extended-description`: section blocks or legacy markup. */
  datatype Extended = Markup(html: string) | Blocks(blocks: seq<SectionBlock>)

  /** The parts of the detail page that `populateProjectDetail` writes. */
  class DetailPage {
    /** `data-project` of `.project-detail-container`. */
    var dataProject: string
    var title: string
    var subtitle: string
    var descriptionHtml: string
    var hero: HeroView
    var extended: Extended
    var creditsHtml: string

    /** The page before any project is shown; the markup's initial contents are not modelled. */
    constructor ()
      ensures dataProject == "" && title == "" && subtitle == "" && descriptionHtml == ""
      ensures hero == HeroImages([]) && extended == Markup("") && creditsHtml == ""
    {
      dataProject := "";
      title := "";
      subtitle := "";
      descriptionHtml := "";
      hero := HeroImages([]);
      extended := Markup("");
      creditsHtml := "";
    }

    /** The fields every call of `populateProjectDetail(p)` overwrites. */
    ghost predicate ShowsHeader(p: Project)
      reads this
    {
      && dataProject == GetProjectIdFromTitle(p.title)
      && title == p.title && subtitle == p.subtitle
      && descriptionHtml == FormatDescription(p.description)
      && hero == RenderHero(p)
      && creditsHtml == p.credits
    }

    /** What `populateProjectDetail(p)` leaves in the extended area, given what was there before. */
    ghost predicate ShowsExtended(p: Project, before: Extended)
      reads this
    {
      && (SectionsOf(p) != [] ==> extended.Blocks? && RendersSections(extended.blocks, SectionsOf(p)))
      && (SectionsOf(p) == [] && p.extendedDescription != "" ==> extended == Markup(FormatDescription(p.extendedDescription)))
      && (SectionsOf(p) == [] && p.extendedDescription == "" ==> extended == before)
    }

    /** `renderSections(sections, container)`: clears the extended area, then appends one block
        per section. */
    method RenderSections(sections: seq<Section>)
      modifies this
      ensures extended.Blocks? && RendersSections(extended.blocks, sections)
      ensures (forall k :: 0 <= k < |extended.blocks| && extended.blocks[k].media.Carousel? ==>
                  var c := extended.blocks[k].media.controller; fresh(c) && c.Valid() && c.currentSlide == 0)
      ensures dataProject == old(dataProject) && title == old(title) && subtitle == old(subtitle)
      ensures descriptionHtml == old(descriptionHtml) && hero == old(hero) && creditsHtml == old(creditsHtml)
    {
      extended := Blocks([]);
      var blocks: seq<SectionBlock> := [];
      for k := 0 to |sections|
        modifies {}
        invariant RendersSections(blocks, sections[..k])
        invariant forall j :: 0 <= j < k && blocks[j].media.Carousel? ==>
                    var c := blocks[j].media.controller; fresh(c) && c.Valid() && c.currentSlide == 0
      {
        var block := CreateSectionElement(sections[k]);
        RendersSectionsSnoc(blocks, sections[..k], block, sections[k]);
        assert sections[..k + 1] == sections[..k] + [sections[k]];
        blocks := blocks + [block];
      }
      assert sections[..|sections|] == sections;
      extended := Blocks(blocks);
    }

    /** `populateProjectDetail(p)`. A project with sections gets section blocks; one without them
        but with an `extendedDescription` gets that text formatted; one with neither leaves the
        extended area as the previous project left it. */
    method PopulateProjectDetail(p: Project)
      modifies this
      ensures ShowsHeader(p) && ShowsExtended(p, old(extended))
      ensures SectionsOf(p) != [] ==> (forall k :: 0 <= k < |extended.blocks| && extended.blocks[k].media.Carousel? ==>
                  var c := extended.blocks[k].media.controller; fresh(c) && c.Valid() && c.currentSlide == 0)
    {
      dataProject := GetProjectIdFromTitle(p.title);
      title := p.title;
      subtitle := p.subtitle;
      descriptionHtml := FormatDescription(p.description);
      hero := RenderHero(p);
      if SectionsOf(p) != [] {
        RenderSections(SectionsOf(p));
      } else if p.extendedDescription != "" {
        extended := Markup(FormatDescription(p.extendedDescription));
      }
      creditsHtml := p.credits;
    }

    /** `showProjectDetail(projectId)`: shows the catalog's project, or the fallback record built
        from the listing when the catalog has none, then navigates to the detail page. */
    method ShowProjectDetail(catalog: ProjectCatalog, nav: NavigationSystem, projectId: string,
                             cards: map<string, ListingCard>)
      modifies this, nav
      ensures var p := if projectId in catalog.projects then catalog.projects[projectId]
                       else CreateFallbackProject(projectId, cards);
        ShowsHeader(p) && ShowsExtended(p, old(extended))
      ensures var p := if projectId in catalog.projects then catalog.projects[projectId]
                       else CreateFallbackProject(projectId, cards);
        SectionsOf(p) != [] ==> (forall k :: 0 <= k < |extended.blocks| && extended.blocks[k].media.Carousel? ==>
                  var c := extended.blocks[k].media.controller; fresh(c) && c.Valid() && c.currentSlide == 0)
      ensures old(nav.currentPage) != "project-detail" ==>
                nav.currentPage == "project-detail" && nav.InSync() && nav.notified == old(nav.notified) + ["project-detail"]
      ensures old(nav.currentPage) == "project-detail" ==> unchanged(nav)
    {
      var project := catalog.GetProject(projectId);
      if project.None? {
        PopulateProjectDetail(CreateFallbackProject(projectId, cards));
      } else {
        PopulateProjectDetail(project.value);
      }
      nav.NavigateTo("project-detail");
    }
  }
}
