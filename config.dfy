/** The settings mapping the generator is given, and the values of post headers. */
module Config {

  /** A value of a post's YAML header: text, a parsed timestamp, or a list. */
  datatype Value = Str(s: string) | Date(stamp: int) | List(items: seq<Value>)

  /** A post's metadata mapping. */
  type Meta = map<string, Value>

  datatype BlogSettings = BlogSettings(
    domain: string, title: string, licenseText: string, defaultLayout: string, generateFeed: bool)

  datatype AuthorSettings = AuthorSettings(name: string, email: string)

  datatype PhysicalPaths = PhysicalPaths(
    content: string, output: string, staticDir: string, layouts: string)

  datatype UrlPaths = UrlPaths(basePath: string, tags: string, authors: string)

  datatype Pages = Pages(
    index: string, taglist: string, authorlist: string, archive: string, feed: string, css: string)

  /** Template names, one per kind of page. */
  datatype Templates = Templates(
    index: string, archive: string, post: string, tag: string, taglist: string,
    author: string, authorlist: string, feed: string)

  datatype Pagination = Pagination(maxPosts: int, sortReverse: bool)

  datatype PostSettings = PostSettings(extension: string, pagination: Pagination, defaultInfo: Meta)

  /** The nested settings dictionary: `blog`, `author`, `physical_paths`, `url_paths`,
      `pages`, `templates` and `posts`. */
  datatype Settings = Settings(
    blog: BlogSettings, author: AuthorSettings, physicalPaths: PhysicalPaths,
    urlPaths: UrlPaths, pages: Pages, templates: Templates, posts: PostSettings)
}
