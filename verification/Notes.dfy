/** Notes and links, as far as the link graph looks at them. */
module Notes {

  /** A vault path as its components. */
  type NotePath = seq<string>

  datatype LinkType = WikiLink | Embed | BlockRef | HeadingRef | MarkdownLink | Anchor | ExternalLink

  datatype Link = Link(kind: LinkType, target: string, valid: bool)

  /** A parsed file: its path, the aliases its frontmatter declares, and its links in order. */
  datatype NoteFile = NoteFile(path: NotePath, aliases: seq<string>, links: seq<Link>)
}
