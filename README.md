# Jetpack sitemap builder and front-page meta description, in Dafny

This project models two parts of the Jetpack WordPress plugin and proves properties of them.

**The sitemap builder** (`Jetpack_Sitemap_Builder`) works in small, resumable steps.
- Each call of `build_next_sitemap_file` checks out a persisted generation state.
- It then does one unit of work for the current phase. The phases run page → page index → image → image index → video → video index → master.
- A leaf phase fills a bounded buffer with the content items after a cursor, in ID order, and stores the buffer as the next numbered sitemap file.
- An index phase does the same over the stored files of its leaf type. It is skipped when its leaf type has at most one file.
- The master phase writes one top-level index from the history, then resets the state.
- When a phase ends, the files of its type numbered above its final count are deleted.

The model follows this structure:
- `SitemapBuilder.SitemapBuilder` is a class. Its fields are the librarian (the table of stored files), the state store and the buffer limits.
- The four `build_one_*` fill loops share one `Fill` method with its loop invariants.
- The item formatters are pure functions in `SitemapFormat`.

What is proved:
- The record a step leaves is `NextRecord` of the record before it.
- The stored files always agree with the state (`StoreMatches`): a finished phase's type holds exactly files 1 to the count its history records, and the last one carries its date.
- The master sitemap names the files the store actually keeps.

**Advanced SEO** (`Advanced_SEO`) decides whether the advanced SEO features are on. It reads the front-page meta description, honouring the option that sites set before the feature required a plan ("grandfathered"). It updates that description, retiring the grandfathered option once the site has the features. `FrontPageUpdate` states the whole effect of an update on the site's options. The method `UpdateFrontPageMetaDescription` performs it step by step on an `OptionStore`.

Files:
- `common.dfy`: decimal numerals, lexicographic timestamp order and string helpers.
- `sitemap_types.dfy`: sitemap types/phases, file names, entries, content records and rows.
- `sitemap_format.dfy`: the formatters and the news language code.
- `sitemap_cursor.dfy`: cursor pagination over an ascending source.
- `sitemap_buffer.dfy`, `sitemap_librarian.dfy`, `sitemap_state.dfy`: the collaborators the builder calls.
- `sitemap_builder.dfy`: the builder.
- `advanced_seo.dfy`: the SEO module.

The buffer, librarian and state store live in sitemap-buffer.php, sitemap-librarian.php and sitemap-state.php. Those files are not part of this model. Each is modelled by the behaviour the builder relies on, stated in the doc comment at the top of its Dafny file.

Edge cases the model follows:
- **An empty leaf type.** A leaf type with no items does not clear its history: the failed first build checks in the index phase (history number 0), which its own `1 >= number` test then skips (sitemap-builder.php:120-126 and 179-200).
- **An item too large for an empty buffer.** It makes the build return `false`: the phase ends there, and the items after it are not published in that cycle (sitemap-builder.php:786-806). `Builds` states this.
- **A rejected item.** The buffer model raises its full flag when it rejects an item, because the builder's fill loops stop only on `is_full()` (sitemap-builder.php:774-783).

## Model

| member | source | states |
|---|---|---|
| SitemapBuilder.SitemapBuilder.BuildNextSitemapFile | modules/sitemaps/sitemap-builder.php:103-576 | A locked state makes the step change nothing. Otherwise the outcome is one the phase allows, the lock is released, and the new record is `NextRecord` of the old one. Only the current phase's files change. The builder invariant (the store matches the state) is kept. After any cleanup, the finished type holds exactly files 1 to the cleanup cutoff. A completed cycle stores master file 0 holding `MasterContent` of the history, with an empty date. A leaf or index step publishes as `StepPublishes` says: the built file holds the phase's head entry and then the source items from the old cursor to the new one; the step ends the phase without a file exactly when the first entry does not fit an empty buffer; `any_left` holds exactly when items follow the new cursor, and then the next one did not fit. |
| SitemapBuilder.SitemapBuilder.BuildStep | modules/sitemaps/sitemap-builder.php:112-173 | A leaf or index phase builds file `number + 1` from cursor `last-added`. It then checks the result in according to `NextRecord` and changes the store as `StoreEffect` says. The file it built, kept by the cleanup, is the one `StepPublishes` describes. |
| SitemapBuilder.SitemapBuilder.Settle | modules/sitemaps/sitemap-builder.php:119-172 | After a phase build (`PhaseBuilt`): checks the result in so the record is `NextRecord`, cleans up as `StoreEffect` says, and leaves the built file as `StepPublishes` describes. |
| SitemapBuilder.SitemapBuilder.CheckInResult | modules/sitemaps/sitemap-builder.php:119-161 | No file: check in the next phase at cursor 0, number 0 and the epoch. Otherwise check in the new cursor, number and timestamp, followed by the next phase when nothing is left. The record equals `NextRecord`. |
| SitemapBuilder.SitemapBuilder.CleanUp | modules/sitemaps/sitemap-builder.php:128-172 | Deletes the files above the old count after a failed build, or above the new count when nothing is left. Leaves the store as `StoreEffect` describes. |
| SitemapBuilder.SitemapBuilder.SkipIndex | modules/sitemaps/sitemap-builder.php:179-200 | An index phase over at most one leaf file moves to the next phase and deletes every file of the index type. |
| SitemapBuilder.SitemapBuilder.FinishCycle | modules/sitemaps/sitemap-builder.php:568-574 | The master phase stores master file 0 holding `MasterContent` of the history, with an empty date, and resets the record to the initial one. No other type's files change. |
| SitemapBuilder.SitemapBuilder.BuildPhaseFile | modules/sitemaps/sitemap-builder.php:112-212 | Dispatches to the leaf or index builder. Its effect is `PhaseBuilt`: the `Builds` relation holds for the phase's head entry (`PhaseHead`), source (`PhaseSource`) and starting time (`PhaseStartTime`). No file leaves the store as it was. A built file holds that content, adds exactly its number to the type's files, with the reported date. Other types are untouched. |
| SitemapBuilder.SitemapBuilder.BuildFromSource | modules/sitemaps/sitemap-builder.php:739-823 | Offers the head entry, fills, and stores unless the buffer is empty. The contract is the `Builds` relation:<br>- no file exactly when the first entry offered does not fit an empty buffer, or there is none;<br>- otherwise the file holds the head and then the source window up to the reported cursor;<br>- it is dated by the latest timestamp seen;<br>- `any_left` holds exactly when items remain, and then the next item did not fit. |
| SitemapBuilder.SitemapBuilder.FillFresh | modules/sitemaps/sitemap-builder.php:739-784 | A fresh buffer offered the head entry and filled from the source reports as `Reports` says, and a non-empty result is the head followed by the source window up to the final cursor. |
| SitemapBuilder.SitemapBuilder.BuildOneLeafSitemap | modules/sitemaps/sitemap-builder.php:691-824 | `Builds` for the page, image or video source, with the epoch as the starting time. Page file 1 starts with the home URL entry. |
| SitemapBuilder.SitemapBuilder.BuildOneSitemapIndex | modules/sitemaps/sitemap-builder.php:1077-1179 | `Builds` over the stored leaf files after the cursor, starting at the state's timestamp. Every index file but the first starts with a pointer to file `number - 1`, dated by that timestamp in W3C form. |
| SitemapBuilder.SitemapBuilder.BuildMasterSitemap | modules/sitemaps/sitemap-builder.php:585-672 | Stores master file 0 holding `MasterContent`, the entries offered in page, image, video order and kept when they fit, with an empty date. Each entry is the corrected `MasterEntry`, dated in W3C form. Other types are untouched. |
| SitemapBuilder.SitemapBuilder.constructor | modules/sitemaps/sitemap-builder.php:62-90 | A builder starts over an empty table and the initial, unlocked state, and satisfies the builder invariant. |
| SitemapBuilder.Fill | modules/sitemaps/sitemap-builder.php:766-784 | The items added are exactly the source window between the start and final cursors, in order. The final cursor is the last added ID, and the timestamp is the latest seen. `any_left` false means the source is exhausted. `any_left` true means the buffer is full and the next item was rejected. |
| SitemapBuilder.AddBatch | modules/sitemaps/sitemap-builder.php:774-783 | One batch adds items in order until one is rejected. The fill account is kept. Either the buffer is full and the item after the cursor does not fit, or the cursor has moved past at least one item. |
| SitemapBuilder.FillStep | modules/sitemaps/sitemap-builder.php:777-780 | Adding the item after the cursor moves the cursor to its ID, extends the window by that item and raises the timestamp to it. |
| SitemapBuilder.FillReports | modules/sitemaps/sitemap-builder.php:739-806 | The fill account of a buffer that started with the head entry gives the `Reports` relation: no file exactly when the first entry does not fit, and otherwise the window, cursor, timestamp and `any_left` as described for `BuildFromSource`. |
| SitemapBuilder.BuildsPublish | modules/sitemaps/sitemap-builder.php:112-173 | A phase build satisfying `PhaseBuilt`, followed by a cleanup that keeps the new file, satisfies `StepPublishes`. |
| SitemapBuilder.BuildsStores | modules/sitemaps/sitemap-builder.php:808-813 | A built file is found under its type and number, with its date and its head entry first. Its number joins the type's numbers, and other types keep their rows. |
| SitemapBuilder.PreviousIndexNamesStoredFile | modules/sitemaps/sitemap-builder.php:1104-1116 | The pointer starting index file `number + 1` names index file `number`, which the store keeps, and carries that file's date in W3C form. |
| SitemapBuilder.LeafSourceAscending | modules/sitemaps/sitemap-builder.php:767-775 | The formatted page, image and video sources keep the ascending ID order of the queries. |
| SitemapBuilder.IndexSourceAscending | modules/sitemaps/sitemap-builder.php:1129-1142 | The stored files of a leaf type, in table order, form an ascending source for the index builder. |
| SitemapBuilder.StepKeepsStoreMatches | modules/sitemaps/sitemap-builder.php:103-576 | Every step keeps the stored files in line with the new record: numbered from 1, finished types with exactly their counted files, and the current phase with files 1 to `number`. |
| SitemapBuilder.ContinueKeepsStoreMatches | modules/sitemaps/sitemap-builder.php:142-153 | A step that stays in its phase stores file `number + 1` and keeps the match. |
| SitemapBuilder.PhaseEndKeepsStoreMatches | modules/sitemaps/sitemap-builder.php:155-172 | A step that ends its phase moves that type into the finished ones with exactly its counted files. |
| SitemapBuilder.PhaseEndFiles | modules/sitemaps/sitemap-builder.php:119-172 | At a phase end, the type keeps exactly files 1 to the cleanup cutoff, and the last one has the history's date. |
| SitemapBuilder.CleanupLeavesFinalFiles | modules/sitemaps/sitemap-builder.php:133-172 | After a cleaning step, the finished type holds exactly files 1 to the cutoff. |
| SitemapBuilder.StepKeepsNumbering | modules/sitemaps/sitemap-builder.php:114-116 | No step stores a file numbered 0 for a numbered type. |
| SitemapBuilder.OtherTypesKept | modules/sitemaps/sitemap-builder.php:133-137 | A step leaves the numbers and files of every type but its own unchanged. |
| SitemapBuilder.MasterTarget | modules/sitemaps/sitemap-builder.php:607-662 | A type gets a master entry exactly when its leaf count is non-zero. The entry names the single leaf file or the last index file. |
| SitemapBuilder.MasterEntryAsWritten | modules/sitemaps/sitemap-builder.php:607-623 | The entry as coded: the raw history timestamp is the `lastmod`. It is present exactly when the leaf count is non-zero. |
| SitemapBuilder.MasterLastmodNotW3c | modules/sitemaps/sitemap-builder.php:607-623 | For a site with a single page file, the entry as coded carries a `lastmod` with a space, so it is not a W3C datetime. |
| SitemapBuilder.MasterEntry | modules/sitemaps/sitemap-builder.php:607-662 | The corrected entry is present exactly when the type has files. Its `lastmod` is in W3C form: no space, ending in 'Z'. |
| SitemapBuilder.MasterEntryNamesStoredFile | modules/sitemaps/sitemap-builder.php:585-662 | At the master phase, a type has no entry exactly when it has no files. A single leaf file is named `FileName(leaf, 1).xml` with that file's date. With several leaf files and at least one index file, the entry names the last stored index file with its date. With several leaf files and no index file (the index phase's first build found nothing that fits), the store keeps no index file, yet the entry names the history's index number, `…index-0.xml` once the index phase was checked in. |
| SitemapBuilder.MasterEntryOfFinished | modules/sitemaps/sitemap-builder.php:607-662 | The same four cases, for any history whose leaf and index types are finished. |
| SitemapBuilder.OfferFits | modules/sitemaps/sitemap-builder.php:616-622 | Offering an entry that fits appends it. |
| SitemapBuilder.OfferThree | modules/sitemaps/sitemap-builder.php:616-661 | Three offers to an empty buffer with room for them keep all three, in order. |
| SitemapBuilder.MasterContentComplete | modules/sitemaps/sitemap-builder.php:605-661 | With room for three entries, the master file lists every type with files, one entry each, in page, image, video order. |
| SitemapState.StateStore.CheckOut | modules/sitemaps/sitemap-builder.php:104-109 | A held lock returns nothing. Otherwise the record is returned and the lock is taken. |
| SitemapState.StateStore.CheckIn | modules/sitemaps/sitemap-builder.php:121-126 | Stores the phase, cursor, number and timestamp, records them in the phase's history entry, and unlocks. |
| SitemapState.StateStore.Reset | modules/sitemaps/sitemap-builder.php:572 | Restores the initial record and unlocks. |
| SitemapState.NextRecord | modules/sitemaps/sitemap-builder.php:112-574 | The record after a step, the `check_in` sequence of each branch. It has no contract of its own; `PhaseChain`, `ContinueKeepsPhase`, `PhaseEndStartsFresh`, `CleanupIsFinalCount` and `NextRecordValid` state its properties. |
| SitemapState.CheckedIn | modules/sitemaps/sitemap-builder.php:143-148 | The checked-in record has the given fields and history entry. The other history entries are unchanged. |
| SitemapState.PhaseChain | modules/sitemaps/sitemap-builder.php:103-576 | A continuing step stays in its phase, and every other step moves to the next phase. The cycle returns to the page phase only after the master phase. |
| SitemapState.ContinueKeepsPhase | modules/sitemaps/sitemap-builder.php:143-153 | A continuing step takes the builder's cursor and timestamp and advances the number by one. |
| SitemapState.PhaseEndStartsFresh | modules/sitemaps/sitemap-builder.php:155-161 | Ending a phase starts the next one at cursor 0, number 0 and the epoch, and asks for a cleanup. Other history entries are kept. |
| SitemapState.CleanupIsFinalCount | modules/sitemaps/sitemap-builder.php:119-172 | The cleanup cutoff is the finished phase's final count as its history records it, dated by the last file's timestamp. |
| SitemapState.NextRecordValid | modules/sitemaps/sitemap-builder.php:103-576 | Steps keep the record consistent with its own history entry. A skipped index phase has not started numbering. |
| SitemapState.LeafHistoryKept | modules/sitemaps/sitemap-builder.php:179-180 | Entering an index phase keeps the leaf's final count that the skip test reads. |
| SitemapState.InitialValid | modules/sitemaps/sitemap-builder.php:572 | The reset record starts the page phase at cursor 0 and number 0, consistently. |
| SitemapBuffer.Buffer.TryToAddItem | modules/sitemaps/sitemap-builder.php:777-783 | Accepts exactly when there is room for one more item and its bytes fit, appending it. A rejection leaves the items as they were and raises the full flag. |
| SitemapBuffer.Buffer.ViewTime | modules/sitemaps/sitemap-builder.php:779 | The buffer's timestamp becomes the later of itself and the time observed. |
| SitemapLibrarian.Librarian.StoreSitemapData | modules/sitemaps/sitemap-builder.php:808-813 | The file of that type and number is created or overwritten. Its number joins the type's numbers, and other types are untouched. |
| SitemapLibrarian.Librarian.DeleteNumberedSitemapRowsAfter | modules/sitemaps/sitemap-builder.php:133-137 | The type keeps exactly its numbers up to the cutoff, and those files are unchanged. Other types are untouched. |
| SitemapLibrarian.DeleteAfterNumbers | modules/sitemaps/sitemap-builder.php:168-172 | The numbers left after a delete are those up to the cutoff. Other types keep their rows. |
| SitemapLibrarian.UpsertStores | modules/sitemaps/sitemap-builder.php:808-813 | After storing, the file of that type and number holds the new content and date, and other numbers are unchanged. |
| SitemapCursor.QueryAfter | modules/sitemaps/sitemap-builder.php:767 | A query returns a prefix of at most 1000 items after the cursor. It is empty exactly when no item follows the cursor. |
| SitemapCursor.WindowStep | modules/sitemaps/sitemap-builder.php:774-780 | Moving the cursor to the next item extends the consumed window by exactly that item. |
| SitemapCursor.WindowThenAfter | modules/sitemaps/sitemap-builder.php:766-784 | The window consumed and the items after the final cursor together are all the items after the starting cursor. |
| SitemapCursor.LatestIsUpperBound | modules/sitemaps/sitemap-builder.php:779 | The reported timestamp is at least the initial one and at least every added item's. |
| SitemapFormat.W3cTime | modules/sitemaps/sitemap-builder.php:1365 | The converted timestamp has no space and ends in 'Z'. |
| SitemapFormat.W3cOfMysqlTime | modules/sitemaps/sitemap-builder.php:1365 | 'date time' becomes 'dateTtimeZ'. |
| SitemapFormat.W3cTimeRoundTrip | modules/sitemaps/sitemap-builder.php:1199 | The conversion loses nothing for a timestamp without a 'T'. |
| SitemapFormat.PostLoc | modules/sitemaps/sitemap-builder.php:1343-1348 | The permalink is used when its UTF-8 encoding has at most 2048 bytes. Otherwise the location is `home_url() . '/?p=' . ID`. |
| SitemapFormat.PostLocFallbackNamesPost | modules/sitemaps/sitemap-builder.php:1346-1348 | The fallback URL ends in the post's own ID in decimal. |
| SitemapFormat.PostLocWithinLimit | modules/sitemaps/sitemap-builder.php:1343-1348 | When the home URL leaves room, the location's UTF-8 encoding obeys the 2048-byte limit. |
| SitemapFormat.PostLocCountsBytes | modules/sitemaps/sitemap-builder.php:1343-1348 | A permalink of 1100 two-byte characters is within 2048 characters but over 2048 bytes, so its post gets the fallback location. |
| Common.Utf8Length | modules/sitemaps/sitemap-builder.php:1347 | `strlen` of the UTF-8 encoding: at least one and at most four bytes per character. |
| Common.Utf8LengthAppend | modules/sitemaps/sitemap-builder.php:1348 | The byte length of a concatenation is the sum of the parts' byte lengths. |
| Common.Utf8LengthAscii | modules/sitemaps/sitemap-builder.php:1348 | An ASCII string, such as '/?p=' and a decimal ID, has one byte per character. |
| SitemapFormat.PostLastModified | modules/sitemaps/sitemap-builder.php:1350-1359 | The result is the post's GMT modification time or its latest approved comment time, and it is no earlier than either. |
| SitemapFormat.PostToSitemapItem | modules/sitemaps/sitemap-builder.php:1322-1385 | The URL entry has the post's location and the W3C form of the reported time. The reported time is the post's last modification. |
| SitemapFormat.HomeEntry | modules/sitemaps/sitemap-builder.php:742-764 | The home URL entry, with no `lastmod`. It has no contract of its own; `BuildOneLeafSitemap` states that page file 1 starts with it. |
| SitemapFormat.ImagePostToSitemapItem | modules/sitemaps/sitemap-builder.php:1399-1466 | The location is the parent's permalink, or the attachment's own when the parent's is empty. Image location, W3C `lastmod` and reported time come from the attachment. Title and caption are present exactly when they are non-empty, and then they are the post's title and excerpt. |
| SitemapFormat.VideoPostToSitemapItem | modules/sitemaps/sitemap-builder.php:1481-1542 | The location is the parent's permalink, or the attachment's own when the parent's is empty. The title and description are the post's title and content. The thumbnail location is empty, the content location is the attachment URL, and the `lastmod` is W3C. |
| SitemapFormat.SitemapRowToIndexItem | modules/sitemaps/sitemap-builder.php:1193-1207 | Points to the row's file `name.xml`, dated in W3C form. The reported time is the row's date. |
| SitemapFormat.PreviousIndexEntry | modules/sitemaps/sitemap-builder.php:1104-1116 | The pointer to index file `number - 1`. It has no contract of its own; `PreviousIndexNamesStoredFile` states what it names and how it is dated. |
| SitemapFormat.NewsLanguage | modules/sitemaps/sitemap-builder.php:1589-1595 | The code has no '_' and no upper-case letter. |
| SitemapFormat.NewsLanguageIsPrefix | modules/sitemaps/sitemap-builder.php:1594 | Outside zh_tw and zh_cn, the code is the lower-cased locale up to its first '_'. |
| SitemapFormat.NewsLanguageIdempotent | modules/sitemaps/sitemap-builder.php:1589-1595 | Mapping a mapped code changes nothing. |
| SitemapFormat.NewsLanguageOfEnUs | modules/sitemaps/sitemap-builder.php:1589-1595 | 'en_US' becomes 'en'. |
| SitemapTypes.Succ | modules/sitemaps/sitemap-builder.php:112-574 | Each phase is followed by the next in rank, a leaf by its index, and the master by the page phase. |
| SitemapTypes.FirstFileName | modules/sitemaps/sitemap-builder.php:608-610 | File 1 of a type is named with its prefix and "1.xml". |
| Common.DecimalRoundTrip | modules/sitemaps/sitemap-builder.php:1348 | The decimal rendering of an ID parses back to the ID. |
| Common.MaxTime | modules/sitemaps/sitemap-builder.php:1355-1358 | `max` of two timestamps is one of them and at least both. |
| AdvancedSeo.EnabledExactly | modules/advanced-seo/advanced-seo.php:24-42 | Outside WordPress.com the features are on. On it, they are on exactly for blogs with the 'unlimited-premium-themes' sticker. |
| AdvancedSeo.IsEnabledAdvancedSeo | modules/advanced-seo/advanced-seo.php:24-42 | The feature test. It has no contract of its own; `EnabledExactly` states it case by case. |
| AdvancedSeo.GrandfatheredExactly | modules/advanced-seo/advanced-seo.php:49-51 | Grandfathering holds exactly when the features are off and the old option is truthy, and never outside WordPress.com. |
| AdvancedSeo.HasGrandfatheredFrontPageMeta | modules/advanced-seo/advanced-seo.php:49-51 | The grandfathering test. It has no contract of its own; `GrandfatheredExactly` states both directions. |
| AdvancedSeo.GetFrontPageMetaDescription | modules/advanced-seo/advanced-seo.php:62-70 | With the features on and a truthy new option, that option is returned. In every other case the old option, or ''. |
| AdvancedSeo.Truncate | modules/advanced-seo/advanced-seo.php:86 | `mb_substr(s, 0, n)` is a prefix: `n` characters, or all but `-n` for a negative `n`. |
| AdvancedSeo.FrontPageUpdate | modules/advanced-seo/advanced-seo.php:81-104 | The target option holds the sanitised, truncated value. The old option is deleted exactly when the write changed something, the old option was truthy and the features are on. Whichever of the two options is not the target keeps its value. Other options are untouched. The result is the value when something changed, and otherwise '' with the options unchanged. |
| AdvancedSeo.StoredWithinLength | modules/advanced-seo/advanced-seo.php:84-86 | The stored description is a prefix of the sanitised value, no longer than the maximum length. |
| AdvancedSeo.GrandfatheredWriteKept | modules/advanced-seo/advanced-seo.php:88-97 | A grandfathered site writes the old option and keeps it. The new option is untouched: present exactly when it was, with its old value. |
| AdvancedSeo.UpdateThenGet | modules/advanced-seo/advanced-seo.php:62-104 | After an update, a grandfathered site reads the value back, and so does an enabled site whose value is truthy. A disabled site without grandfathering reads what it read before. |
| AdvancedSeo.UpdateTwice | modules/advanced-seo/advanced-seo.php:81-104 | Repeating an update with the same value changes nothing and returns ''. The exception is a grandfathered site storing a falsy value. |
| AdvancedSeo.ClearTwiceWritesNewOption | modules/advanced-seo/advanced-seo.php:88-92 | That exception occurs: clearing a grandfathered description twice writes the new option on the second call. |
| AdvancedSeo.OptionStore.UpdateOption | modules/advanced-seo/advanced-seo.php:92 | Stores the value. Reports a change unless the same value was already stored. |
| AdvancedSeo.OptionStore.DeleteOption | modules/advanced-seo/advanced-seo.php:96 | Removes the option. |
| AdvancedSeo.UpdateFrontPageMetaDescription | modules/advanced-seo/advanced-seo.php:81-104 | The step-by-step update leaves the store exactly as `FrontPageUpdate` describes and returns its saved value. |

## Left out

- The news sitemap (`news_sitemap_xml`, `post_to_news_sitemap_item`) and its transient cache are left out, apart from the language mapping. It is not part of the checkpointed cycle.
- `update_sitemap` is not modelled: it only calls `build_next_sitemap_file` 200 times in a bounded loop (sitemap-builder.php:97-101), and each of those calls is the modelled step.
- The XML rendering is not modelled: headers, footers, `array_to_xml_string`, escaping and `esc_html`. Entries are datatypes. The byte size of a fragment is a parameter `size` of the builder, because the renderer is in sitemap-buffer.php.
- The skip filters (`jetpack_sitemap_skip_post` and the image and video ones) and the item filters are taken as the identity. The `jetpack_sitemap_post_types` option written by the constructor is not modelled. These are extension hooks whose behaviour is site code.
- The debug logger is not modelled. It has no effect on state.
- Locking across processes is not modelled. Concurrency is reduced to the `locked` flag of the state store. `die()` after the reset is not modelled.
- A state whose type is none of the seven known ones is not modelled: the code would return without checking in. The type is a closed datatype.
- The librarian, buffer and state store are modelled by the contracts the builder relies on, because their sources are not part of this model. The same holds for the queries (`query_*_after_id` and `query_latest_approved_comment_time_on_post`), `get_permalink`, `home_url` and the finder's URL construction. Formatted content records are inputs, and stored index entries carry file names rather than full URLs.
- `sanitize_text_field` and the `advanced_seo_front_page_description_max_length` filter are parameters. `get_current_blog_id`, `IS_WPCOM` and `has_blog_sticker` are folded into `SeoSite`.
- Options are modelled as strings only. PHP truthiness is modelled for strings: a missing option, '' and "0" are false.
- `mb_substr` is modelled on characters, as PHP's multi-byte functions count them.
- The byte length `strlen` measures is the UTF-8 length of the permalink's characters (`Utf8Length`). A permalink that is not valid UTF-8 is not modelled, since strings are sequences of characters.
- SitemapBuilder.SitemapBuilder.BuildMasterSitemap: stores the corrected `MasterEntry`, whose `lastmod` is in W3C form, not the raw history timestamp the code writes (sitemap-builder.php:610-620). The as-written entry is `MasterEntryAsWritten`, and the Findings table records the difference.
- AdvancedSeo.UpdateTwice: the idempotence is stated only outside the one case where it fails. That case is a grandfathered site whose stored description is falsy, and `ClearTwiceWritesNewOption` exhibits it.

## Findings

| source | as written | input that shows it | evidently intended | confidence | as-written member | corrected member |
|---|---|---|---|---|---|---|
| modules/sitemaps/sitemap-builder.php:607-662 | The master sitemap's `<lastmod>` is the history's raw 'Y-m-d H:i:s' timestamp. | A site with one page sitemap whose history timestamp is "2017-06-01 12:00:00" publishes `lastmod` "2017-06-01 12:00:00", which contains a space. | A W3C datetime ("2017-06-01T12:00:00Z"), as every index entry gets through `str_replace(' ', 'T', …) . 'Z'` (line 1199). | not executed | SitemapBuilder.MasterLastmodNotW3c | SitemapBuilder.MasterEntry |
