/** The item formatters of the sitemap builder: pure maps from a content record
    (a post, an image, a video, a stored sitemap row) to a sitemap entry and the
    timestamp the buffer should observe. */
module SitemapFormat {
  import opened Common
  import opened SitemapTypes

  /** The Sitemaps protocol 0.9 limits a `<loc>` value to 2048 bytes. */
  const MaxLocBytes: nat := 2048

  /** The 'Y-m-d H:i:s' → 'Y-m-dTH:i:sZ' rewrite: `str_replace(' ', 'T', $ts) . 'Z'`. */
  function W3cTime(ts: string): (r: string)
    ensures |r| == |ts| + 1 && r[|ts|] == 'Z'
    ensures NoChar(r, ' ')
  {
    ReplaceChar(ts, ' ', 'T') + "Z"
  }

  /** A MySQL timestamp 'date time' becomes 'dateTtimeZ'. */
  lemma W3cOfMysqlTime(date: string, time: string)
    requires NoChar(date, ' ') && NoChar(time, ' ')
    ensures W3cTime(date + " " + time) == date + "T" + time + "Z"
  {
    var r := W3cTime(date + " " + time);
    var e := date + "T" + time + "Z";
    assert |r| == |e|;
    forall i | 0 <= i < |r|
      ensures r[i] == e[i]
    {
      if i < |date| {
      } else if i == |date| {
      } else if i < |date| + 1 + |time| {
        assert (date + " " + time)[i] == time[i - |date| - 1];
      }
    }
  }

  /** Reading a converted timestamp back: drop the 'Z', turn 'T' into ' '. */
  function FromW3cTime(w: string): string
    requires |w| >= 1
  {
    ReplaceChar(w[..|w| - 1], 'T', ' ')
  }

  /** The rewrite loses nothing for timestamps without a 'T' (every 'Y-m-d H:i:s' value). */
  lemma W3cTimeRoundTrip(ts: string)
    requires NoChar(ts, 'T')
    ensures FromW3cTime(W3cTime(ts)) == ts
  {
    var w := W3cTime(ts);
    assert w[..|w| - 1] == ReplaceChar(ts, ' ', 'T');
    ReplaceCharRoundTrip(ts, ' ', 'T');
  }

  /** The location of a post: its permalink, or `home_url() . '/?p=' . ID` when
      the permalink's UTF-8 encoding is longer than the protocol allows. */
  function PostLoc(site: Site, p: Post): (loc: string)
    ensures Utf8Length(p.permalink) <= MaxLocBytes ==> loc == p.permalink
    ensures Utf8Length(p.permalink) > MaxLocBytes ==> loc == site.homeUrl + "/?p=" + Decimal(p.id)
  {
    if MaxLocBytes < Utf8Length(p.permalink) then site.homeUrl + "/?p=" + Decimal(p.id) else p.permalink
  }

  /** The fallback never names another post: the ID is recovered from its tail. */
  lemma PostLocFallbackNamesPost(site: Site, p: Post)
    requires Utf8Length(p.permalink) > MaxLocBytes
    ensures var loc := PostLoc(site, p);
            var tail := loc[|site.homeUrl| + 4..];
            |tail| >= 1 && AllDigits(tail) && ParseDecimal(tail) == p.id
  {
    var loc := PostLoc(site, p);
    assert loc[|site.homeUrl| + 4..] == Decimal(p.id);
    DecimalRoundTrip(p.id);
  }

  /** Whenever the home URL leaves room for the query, the location obeys the
      protocol's byte limit. */
  lemma PostLocWithinLimit(site: Site, p: Post)
    requires Utf8Length(site.homeUrl) + 4 + |Decimal(p.id)| <= MaxLocBytes
    ensures Utf8Length(PostLoc(site, p)) <= MaxLocBytes
  {
    if MaxLocBytes < Utf8Length(p.permalink) {
      var q := "/?p=";
      assert IsAscii(q);
      Utf8LengthAscii(q);
      DecimalAscii(p.id);
      Utf8LengthAscii(Decimal(p.id));
      Utf8LengthAppend(site.homeUrl, q);
      Utf8LengthAppend(site.homeUrl + q, Decimal(p.id));
    }
  }

  /** A permalink of 1100 two-byte characters is within the limit in characters
      but not in bytes, so its post gets the fallback location. */
  lemma PostLocCountsBytes(site: Site, p: Post)
    requires |p.permalink| == 1100 && forall i :: 0 <= i < |p.permalink| ==> p.permalink[i] == 'é'
    ensures |p.permalink| <= MaxLocBytes
    ensures PostLoc(site, p) == site.homeUrl + "/?p=" + Decimal(p.id)
  {
    Utf8LengthUniform(p.permalink, 'é');
  }

  /** The most recent modification of a post: its own GMT modification time, or the
      latest approved comment when that is later. A post with comments but no
      approved one keeps its own time (PHP's `max` puts null below any string). */
  function PostLastModified(p: Post): (t: string)
    ensures t == p.modifiedGmt || (p.commentCount > 0 && p.latestCommentTime == Some(t))
    ensures LexLe(p.modifiedGmt, t)
    ensures p.commentCount > 0 && p.latestCommentTime.Some? ==> LexLe(p.latestCommentTime.value, t)
  {
    LexLeReflexive(p.modifiedGmt);
    if 0 < p.commentCount then
      match p.latestCommentTime
      case None => p.modifiedGmt
      case Some(c) => MaxTime(p.modifiedGmt, c)
    else p.modifiedGmt
  }

  /** `post_to_sitemap_item` (the skip filter is the identity, so no post is skipped). */
  function PostToSitemapItem(site: Site, p: Post): (it: Item)
    ensures it.entry == UrlEntry(PostLoc(site, p), Some(W3cTime(it.lastModified)))
    ensures it.lastModified == PostLastModified(p)
  {
    var lastModified := PostLastModified(p);
    Item(UrlEntry(PostLoc(site, p), Some(W3cTime(lastModified))), lastModified)
  }

  /** The first entry of page sitemap 1: the site's home URL, with no lastmod. */
  function HomeEntry(site: Site): Entry {
    UrlEntry(site.homeUrl, None)
  }

  /** The parent's permalink, or the attachment's own permalink when the parent has none. */
  function AttachmentLoc(parentPermalink: string, permalink: string): (loc: string)
    ensures loc == (if parentPermalink == "" then permalink else parentPermalink)
  {
    if parentPermalink == "" then permalink else parentPermalink
  }

  /** `image_post_to_sitemap_item`: title and caption are present only when non-empty. */
  function ImagePostToSitemapItem(p: ImagePost): (it: Item)
    ensures it.lastModified == p.modifiedGmt
    ensures it.entry.ImageEntry? && it.entry.imageLoc == p.attachmentUrl
    ensures it.entry.lastmod == W3cTime(p.modifiedGmt)
    ensures p.parentPermalink != "" ==> it.entry.loc == p.parentPermalink
    ensures p.parentPermalink == "" ==> it.entry.loc == p.permalink
    ensures it.entry.imageTitle.Some? <==> p.title != ""
    ensures it.entry.imageTitle.Some? ==> it.entry.imageTitle.value == p.title
    ensures it.entry.imageCaption.Some? <==> p.excerpt != ""
    ensures it.entry.imageCaption.Some? ==> it.entry.imageCaption.value == p.excerpt
  {
    Item(
      ImageEntry(
        AttachmentLoc(p.parentPermalink, p.permalink),
        W3cTime(p.modifiedGmt),
        p.attachmentUrl,
        if p.title != "" then Some(p.title) else None,
        if p.excerpt != "" then Some(p.excerpt) else None),
      p.modifiedGmt)
  }

  /** `video_post_to_sitemap_item`: the thumbnail location is always empty. */
  function VideoPostToSitemapItem(p: VideoPost): (it: Item)
    ensures it.lastModified == p.modifiedGmt
    ensures it.entry.VideoEntry? && it.entry.thumbnailLoc == "" && it.entry.contentLoc == p.attachmentUrl
    ensures p.parentPermalink != "" ==> it.entry.loc == p.parentPermalink
    ensures p.parentPermalink == "" ==> it.entry.loc == p.permalink
    ensures it.entry.videoTitle == p.title && it.entry.description == p.content
    ensures it.entry.lastmod == W3cTime(p.modifiedGmt)
  {
    Item(
      VideoEntry(
        AttachmentLoc(p.parentPermalink, p.permalink),
        W3cTime(p.modifiedGmt),
        p.title,
        "",
        p.content,
        p.attachmentUrl),
      p.modifiedGmt)
  }

  /** `sitemap_row_to_index_item`: a pointer to the row's file, dated by its post date. */
  function SitemapRowToIndexItem(r: Row): (it: Item)
    ensures it.entry == SitemapEntry(RowName(r) + ".xml", W3cTime(r.lastmod))
    ensures it.lastModified == r.lastmod
  {
    Item(SitemapEntry(RowName(r) + ".xml", W3cTime(r.lastmod)), r.lastmod)
  }

  /** The pointer an index file numbered `number` > 1 starts with: index file
      `number - 1`, dated by the timestamp the state carried in. */
  function PreviousIndexEntry(indexType: SitemapType, number: nat, timestamp: string): Entry
    requires number > 1
  {
    SitemapEntry(FileName(indexType, number - 1) + ".xml", W3cTime(timestamp))
  }

  /** The news sitemap's language code: the lower-cased locale trimmed to its
      ISO 639 language part, except that Chinese keeps its region as 'zh-cn' or 'zh-tw'. */
  function NewsLanguage(locale: string): (lang: string)
    ensures NoChar(lang, '_')
    ensures forall i :: 0 <= i < |lang| ==> !('A' <= lang[i] <= 'Z')
  {
    var lower := AsciiLower(locale);
    if lower == "zh_tw" || lower == "zh_cn" then ReplaceChar(lower, '_', '-')
    else Before(lower, '_')
  }

  /** Outside the two Chinese locales the code is the lower-cased locale up to its first '_'. */
  lemma NewsLanguageIsPrefix(locale: string)
    requires AsciiLower(locale) != "zh_tw" && AsciiLower(locale) != "zh_cn"
    ensures var lower := AsciiLower(locale);
            var lang := NewsLanguage(locale);
            lang == lower[..|lang|] && (|lang| < |lower| ==> lower[|lang|] == '_')
  {
  }

  /** Mapping an already mapped code changes nothing. */
  lemma NewsLanguageIdempotent(locale: string)
    ensures NewsLanguage(NewsLanguage(locale)) == NewsLanguage(locale)
  {
    var lang := NewsLanguage(locale);
    AsciiLowerIdempotent(lang);
    assert AsciiLower(lang) == lang;
    if lang == "zh-tw" || lang == "zh-cn" {
    } else {
      BeforeAbsent(lang, '_');
    }
  }

  lemma AsciiLowerIdempotent(s: string)
    requires forall i :: 0 <= i < |s| ==> !('A' <= s[i] <= 'Z')
    ensures AsciiLower(s) == s
  {
  }

  lemma {:induction false} BeforeAbsent(s: string, c: char)
    requires NoChar(s, c)
    ensures Before(s, c) == s
  {
    if s != [] {
      BeforeAbsent(s[1..], c);
    }
  }

  /** 'en_US' is published as 'en'. */
  lemma NewsLanguageOfEnUs()
    ensures NewsLanguage("en_US") == "en"
  {
    var lower := AsciiLower("en_US");
    assert lower == "en_us";
    assert Before(lower, '_') == "en" by {
      assert lower[2] == '_';
      assert Before(lower[2..], '_') == [];
      assert Before(lower[1..], '_') == "n";
    }
  }
}
