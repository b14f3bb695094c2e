/** `createMediaElement` and the layout class flags of a section's media grid, over an abstract
    element record instead of DOM nodes. */
module Media {
  import opened Common
  import opened Catalog

  /** The element `createMediaElement` puts inside its wrapper. */
  datatype MediaElement =
    | Image(src: string, alt: string, className: string)
    | Video(src: string, controls: bool, autoplay: bool, loop: bool, muted: bool, playsInline: bool,
            className: string)
    | Placeholder(className: string, text: string)

  /** The wrapper `div.media-item`: its class, the media element, then the caption paragraph if any. */
  datatype MediaBlock = MediaBlock(className: string, element: MediaElement, caption: Option<string>)

  /** The four types `createMediaElement` knows. */
  predicate IsKnownType(t: string) {
    t == "image" || t == "gif" || t == "video" || t == "mp4"
  }

  /** `createMediaElement(mediaItem)`: dispatch on the type, a placeholder for any other type, and a
      caption block exactly when the caption is non-empty. */
  function CreateMediaElement(m: MediaItem): (r: MediaBlock)
    ensures r.className == "media-item media-" + m.mediaType
    ensures r.element.Image? <==> m.mediaType == "image" || m.mediaType == "gif"
    ensures r.element.Video? <==> m.mediaType == "video" || m.mediaType == "mp4"
    ensures r.element.Placeholder? <==> !IsKnownType(m.mediaType)
    ensures r.element.Placeholder? ==> r.element.text == "Media content"
    ensures !r.element.Placeholder? ==> r.element.src == m.src
    ensures r.element.Image? ==> r.element.alt == if m.caption != "" then m.caption
                                                   else if m.mediaType == "image" then "Project media"
                                                   else "Project animation"
    ensures m.mediaType == "video" ==> r.element.controls && !r.element.autoplay && !r.element.loop
                                        && !r.element.muted && !r.element.playsInline
    ensures m.mediaType == "mp4" ==> !r.element.controls && r.element.autoplay && r.element.loop
                                      && r.element.muted && r.element.playsInline
    ensures r.caption.Some? <==> m.caption != ""
    ensures r.caption.Some? ==> r.caption.value == m.caption
  {
    var element :=
      if m.mediaType == "image" then
        Image(m.src, if m.caption != "" then m.caption else "Project media", "media-image")
      else if m.mediaType == "gif" then
        Image(m.src, if m.caption != "" then m.caption else "Project animation", "media-gif")
      else if m.mediaType == "video" then
        Video(m.src, true, false, false, false, false, "media-video")
      else if m.mediaType == "mp4" then
        Video(m.src, false, true, true, true, true, "media-mp4")
      else
        Placeholder("media-placeholder", "Media content");
    MediaBlock("media-item media-" + m.mediaType, element, if m.caption != "" then Some(m.caption) else None)
  }

  /** The rendered blocks of a media list, one per item and in order. */
  function RenderAll(media: seq<MediaItem>): (r: seq<MediaBlock>)
    ensures |r| == |media|
    ensures forall k :: 0 <= k < |r| ==> r[k] == CreateMediaElement(media[k])
  {
    seq(|media|, k requires 0 <= k < |media| => CreateMediaElement(media[k]))
  }

  /** `media => media.type === t` on plain media items. */
  function ItemTypeIs(t: string): MediaItem -> bool {
    (m: MediaItem) => m.mediaType == t
  }

  /** `section.media.filter(media => media.type === t).length`. */
  function CountOfType(media: seq<MediaItem>, t: string): nat {
    |Filter(media, ItemTypeIs(t))|
  }

  /** `section.media.some(media => media.type === t)`. */
  predicate SomeOfType(media: seq<MediaItem>, t: string) {
    exists k :: 0 <= k < |media| && media[k].mediaType == t
  }

  /** The `some` test agrees with a positive `filter` count. */
  lemma {:induction false} SomeIffCountPositive(media: seq<MediaItem>, t: string)
    ensures SomeOfType(media, t) <==> CountOfType(media, t) > 0
    decreases |media|
  {
    if media != [] {
      var init := media[..|media| - 1];
      SomeIffCountPositive(init, t);
      if SomeOfType(media, t) && media[|media| - 1].mediaType != t {
        var k :| 0 <= k < |media| && media[k].mediaType == t;
        assert init[k] == media[k];
      }
      if SomeOfType(init, t) {
        var k :| 0 <= k < |init| && init[k].mediaType == t;
        assert media[k] == init[k];
      }
    }
  }

  /** The three layout flags of one media family: `has-X`, `single-X` and `multiple-X`. */
  datatype FamilyFlags = FamilyFlags(has: bool, single: bool, multiple: bool)

  /** The layout flags of a `div.section-media` grid, family by family. */
  datatype GridLayout = GridLayout(videos: FamilyFlags, images: FamilyFlags, gifs: FamilyFlags)

  /** The flags one media family adds: `has-X` when `some` finds one, then `single-X` for a count of
      exactly one or `multiple-X` for two or more. */
  function Family(media: seq<MediaItem>, t: string): FamilyFlags {
    if SomeOfType(media, t) then
      var n := CountOfType(media, t);
      FamilyFlags(true, n == 1, n >= 2)
    else FamilyFlags(false, false, false)
  }

  /** The grid flags of `createSectionElement`. Videos are the `mp4` items only; `video` items, and
      items of unknown types, set no flag. */
  function GridFlags(media: seq<MediaItem>): GridLayout {
    GridLayout(Family(media, "mp4"), Family(media, "image"), Family(media, "gif"))
  }

  /** A family's flags follow its count: `has` for at least one item, `single` for exactly one and
      `multiple` for two or more, so at most one of `single` and `multiple` is set. */
  lemma FamilyFollowsCount(media: seq<MediaItem>, t: string)
    ensures var f, n := Family(media, t), CountOfType(media, t);
      (f.has <==> n >= 1) && (f.single <==> n == 1) && (f.multiple <==> n >= 2)
  {
    SomeIffCountPositive(media, t);
  }

  /** The grid flags of all three families follow the per-type counts. */
  lemma GridFlagsFollowCounts(media: seq<MediaItem>)
    ensures var g := GridFlags(media);
      && (g.videos.has <==> CountOfType(media, "mp4") >= 1)
      && (g.videos.single <==> CountOfType(media, "mp4") == 1)
      && (g.videos.multiple <==> CountOfType(media, "mp4") >= 2)
      && (g.images.has <==> CountOfType(media, "image") >= 1)
      && (g.images.single <==> CountOfType(media, "image") == 1)
      && (g.images.multiple <==> CountOfType(media, "image") >= 2)
      && (g.gifs.has <==> CountOfType(media, "gif") >= 1)
      && (g.gifs.single <==> CountOfType(media, "gif") == 1)
      && (g.gifs.multiple <==> CountOfType(media, "gif") >= 2)
  {
    FamilyFollowsCount(media, "mp4");
    FamilyFollowsCount(media, "image");
    FamilyFollowsCount(media, "gif");
  }

  /** The class names one family contributes. */
  function FamilyClasses(f: FamilyFlags, has: string, single: string, multiple: string): set<string> {
    (if f.has then {has} else {}) + (if f.single then {single} else {}) + (if f.multiple then {multiple} else {})
  }

  /** The class list of the grid element: `section-media` and the names of the set flags. */
  function GridClasses(g: GridLayout): set<string> {
    {"section-media"}
      + FamilyClasses(g.videos, "has-videos", "single-video", "multiple-videos")
      + FamilyClasses(g.images, "has-images", "single-image", "multiple-images")
      + FamilyClasses(g.gifs, "has-gifs", "single-gif", "multiple-gifs")
  }
}
