/** The tag record of `oak/models/tag.py`. */
module Tags {
  import opened PyOps
  import opened Config

  /** A tag page: its name, URL, the posts carrying the tag (in discovery order)
      and its output path. */
  datatype Tag<P> = Tag(tag: string, url: string, posts: seq<P>, path: string)

  /** `_tag_path`: the page `output/prefix/name.html`, or the directory
      `output/prefix` when the name is empty or omitted. */
  function TagPath(outputPath: string, tagsPrefix: string, tagName: string): (r: string)
    ensures tagName == "" ==> r == outputPath + "/" + tagsPrefix
    ensures tagName != "" ==> r == outputPath + "/" + tagsPrefix + "/" + tagName + ".html"
  {
    JoinSmall(outputPath, tagsPrefix, tagName + ".html", "/");
    if tagName != "" then Join([outputPath, tagsPrefix, tagName + ".html"], "/")
    else Join([outputPath, tagsPrefix], "/")
  }

  /** `_tag_url`: `prefix/name.html`. */
  function TagUrl(tagsPrefix: string, tagName: string): (r: string)
    ensures r == tagsPrefix + "/" + tagName + ".html"
  {
    JoinSmall(tagsPrefix, tagName + ".html", "", "/");
    Join([tagsPrefix, tagName + ".html"], "/")
  }

  /** `Tag(tag, settings, posts)` */
  function NewTag<P>(tagName: string, settings: Settings, posts: seq<P>): Tag<P> {
    Tag(tagName,
        TagUrl(settings.urlPaths.tags, tagName),
        posts,
        TagPath(settings.physicalPaths.output, settings.urlPaths.tags, tagName))
  }

  /** The tag directory is a prefix of every named tag page, and distinct names get
      distinct pages. */
  lemma {:induction false} TagPathsUnderDirectory(outputPath: string, tagsPrefix: string, a: string, b: string)
    requires a != "" && b != ""
    ensures StartsWith(TagPath(outputPath, tagsPrefix, a), TagPath(outputPath, tagsPrefix, "") + "/")
    ensures TagPath(outputPath, tagsPrefix, a) == TagPath(outputPath, tagsPrefix, b) ==> a == b
  {
    var dir := outputPath + "/" + tagsPrefix + "/";
    if TagPath(outputPath, tagsPrefix, a) == TagPath(outputPath, tagsPrefix, b) {
      assert (dir + a + ".html")[|dir|..|dir| + |a|] == a;
      assert (dir + b + ".html")[|dir|..|dir| + |b|] == b;
    }
  }

  /** The record keeps the name and the very post list it was given, and its URL and
      path end in the same `name.html` page. */
  lemma {:induction false} NewTagFields<P>(tagName: string, settings: Settings, posts: seq<P>)
    requires tagName != ""
    ensures var t := NewTag(tagName, settings, posts);
      t.tag == tagName && t.posts == posts &&
      EndsWith(t.url, "/" + tagName + ".html") && EndsWith(t.path, "/" + tagName + ".html")
  {
    var leaf := "/" + tagName + ".html";
    var t := NewTag(tagName, settings, posts);
    assert t.url == settings.urlPaths.tags + leaf;
    assert t.path == settings.physicalPaths.output + "/" + settings.urlPaths.tags + leaf;
  }
}
