/** The author record. Its class, `oak/models/author.py`, is not part of this model:
    the record holds the three fields its callers pass. */
module Authors {
  import opened PyOps

  /** An author page: the author's name, URL and posts (in discovery order). */
  datatype Author<P> = Author(author: string, url: string, posts: seq<P>)

  /** `_author_url`: `prefix/name.html`. */
  function AuthorUrl(authorsPrefix: string, name: string): (r: string)
    ensures r == authorsPrefix + "/" + name + ".html"
  {
    JoinSmall(authorsPrefix, name + ".html", "", "/");
    Join([authorsPrefix, name + ".html"], "/")
  }
}
