/** The vocabulary of the sitemap builder: the sitemap types (which double as the
    phases of the generation cycle and as the librarian's row types), the entries
    a sitemap file holds, the content records the builder reads, and the rows the
    librarian keeps. */
module SitemapTypes {
  import opened Common

  /** The values of the state's 'sitemap-type' and of the librarian's row types. */
  datatype SitemapType =
    | PageSitemap
    | PageSitemapIndex
    | ImageSitemap
    | ImageSitemapIndex
    | VideoSitemap
    | VideoSitemapIndex
    | MasterSitemap

  predicate IsLeaf(t: SitemapType) {
    t == PageSitemap || t == ImageSitemap || t == VideoSitemap
  }

  predicate IsIndex(t: SitemapType) {
    t == PageSitemapIndex || t == ImageSitemapIndex || t == VideoSitemapIndex
  }

  /** The index type that collects the files of a leaf type. */
  function IndexOf(t: SitemapType): (i: SitemapType)
    requires IsLeaf(t)
    ensures IsIndex(i)
  {
    match t
    case PageSitemap => PageSitemapIndex
    case ImageSitemap => ImageSitemapIndex
    case VideoSitemap => VideoSitemapIndex
  }

  /** The leaf type whose files an index type collects. */
  function LeafOf(t: SitemapType): (l: SitemapType)
    requires IsIndex(t)
    ensures IsLeaf(l) && IndexOf(l) == t
  {
    match t
    case PageSitemapIndex => PageSitemap
    case ImageSitemapIndex => ImageSitemap
    case VideoSitemapIndex => VideoSitemap
  }

  /** Position of a phase in the generation cycle. */
  function Rank(t: SitemapType): nat {
    match t
    case PageSitemap => 0
    case PageSitemapIndex => 1
    case ImageSitemap => 2
    case ImageSitemapIndex => 3
    case VideoSitemap => 4
    case VideoSitemapIndex => 5
    case MasterSitemap => 6
  }

  /** The phase that follows `t` when `t` is finished; after the master
      sitemap the state is reset to the page sitemap phase. */
  function Succ(t: SitemapType): (u: SitemapType)
    ensures t != MasterSitemap ==> Rank(u) == Rank(t) + 1
    ensures t == MasterSitemap <==> u == PageSitemap
    ensures IsLeaf(t) ==> u == IndexOf(t)
  {
    match t
    case PageSitemap => PageSitemapIndex
    case PageSitemapIndex => ImageSitemap
    case ImageSitemap => ImageSitemapIndex
    case ImageSitemapIndex => VideoSitemap
    case VideoSitemap => VideoSitemapIndex
    case VideoSitemapIndex => MasterSitemap
    case MasterSitemap => PageSitemap
  }

  /** The name prefix of the numbered files of each type. The constants live in
      sitemap-librarian.php, which is not part of this model; these are the
      values the file names take. */
  function NamePrefix(t: SitemapType): string {
    match t
    case PageSitemap => "sitemap-"
    case PageSitemapIndex => "sitemap-index-"
    case ImageSitemap => "image-sitemap-"
    case ImageSitemapIndex => "image-sitemap-index-"
    case VideoSitemap => "video-sitemap-"
    case VideoSitemapIndex => "video-sitemap-index-"
    case MasterSitemap => "sitemap"
  }

  /** The name of file `number` of a type: `PREFIX . $number`. */
  function FileName(t: SitemapType, number: nat): string {
    if t == MasterSitemap then NamePrefix(t) else NamePrefix(t) + Decimal(number)
  }

  /** The first numbered file of a type is named with the digit 1. */
  lemma FirstFileName(t: SitemapType)
    requires t != MasterSitemap
    ensures FileName(t, 1) + ".xml" == NamePrefix(t) + "1.xml"
  {
    assert Decimal(1) == "1";
  }

  /** One entry of a sitemap file, before serialisation. Index entries carry the
      file name; turning it into a URL is the finder's job and not modelled. */
  datatype Entry =
    | UrlEntry(loc: string, urlLastmod: Option<string>)
    | ImageEntry(loc: string, lastmod: string, imageLoc: string, imageTitle: Option<string>, imageCaption: Option<string>)
    | VideoEntry(loc: string, lastmod: string, videoTitle: string, thumbnailLoc: string, description: string, contentLoc: string)
    | SitemapEntry(file: string, lastmod: string)

  /** Total size of a sequence of entries, each measured by `size` (the byte
      length of its XML fragment; `array_to_xml_string` of sitemap-buffer.php is
      not part of this model, so the measure is a parameter). */
  function TotalSize(size: Entry -> nat, s: seq<Entry>): nat
    decreases |s|
  {
    if s == [] then 0 else TotalSize(size, s[..|s| - 1]) + size(s[|s| - 1])
  }

  lemma TotalSizeAppend(size: Entry -> nat, s: seq<Entry>, e: Entry)
    ensures TotalSize(size, s + [e]) == TotalSize(size, s) + size(e)
  {
    assert (s + [e])[..|s|] == s;
  }

  /** What a formatter returns: the fragment and the timestamp fed to `view_time`. */
  datatype Item = Item(entry: Entry, lastModified: string)

  /** A formatted item together with the ID the cursor advances to when it is added. */
  datatype Candidate = Candidate(id: nat, item: Item)

  /** IDs strictly ascending: the order in which the librarian's `*_after_id` queries return items. */
  predicate Ascending(s: seq<Candidate>) {
    forall i, j :: 0 <= i < j < |s| ==> s[i].id < s[j].id
  }

  /** A published post or page, with the values of the WordPress calls the
      formatter makes about it (`get_permalink`, the latest approved comment time). */
  datatype Post = Post(
    id: nat,
    permalink: string,
    modifiedGmt: string,
    commentCount: nat,
    latestCommentTime: Option<string>)

  /** An image attachment, with its attachment URL and the permalinks of its parent and itself. */
  datatype ImagePost = ImagePost(
    id: nat,
    attachmentUrl: string,
    parentPermalink: string,
    permalink: string,
    modifiedGmt: string,
    title: string,
    excerpt: string)

  /** A video attachment. */
  datatype VideoPost = VideoPost(
    id: nat,
    attachmentUrl: string,
    parentPermalink: string,
    permalink: string,
    modifiedGmt: string,
    title: string,
    content: string)

  /** The content the leaf builders read, each table in ascending ID order. */
  datatype Corpus = Corpus(posts: seq<Post>, images: seq<ImagePost>, videos: seq<VideoPost>)

  predicate CorpusOrdered(c: Corpus) {
    && (forall i, j :: 0 <= i < j < |c.posts| ==> c.posts[i].id < c.posts[j].id)
    && (forall i, j :: 0 <= i < j < |c.images| ==> c.images[i].id < c.images[j].id)
    && (forall i, j :: 0 <= i < j < |c.videos| ==> c.videos[i].id < c.videos[j].id)
  }

  /** The site-wide values the builder reads from WordPress (`home_url()`). */
  datatype Site = Site(homeUrl: string)

  /** A stored sitemap file: a row of the librarian's table. `id` is the row's
      database ID, which the index builders use as their cursor; `lastmod` is the
      row's post date. */
  datatype Row = Row(id: nat, kind: SitemapType, number: nat, content: seq<Entry>, lastmod: string)

  function RowName(r: Row): string {
    FileName(r.kind, r.number)
  }
}
