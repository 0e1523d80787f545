/** The bounded buffer a sitemap file is filled into. sitemap-buffer.php is not
    part of this model: this class states the contract the builder relies on.
    - An item is accepted exactly when the buffer holds fewer than `maxItems` items
      and the item's bytes fit in what is left of `maxBytes`.
    - A rejected item leaves the items, the byte count and the timestamp as they
      were, and raises the full flag. The fill loops of the builder stop only
      because of that flag: a buffer that rejected an item without reporting
      itself full would make them query the same cursor forever.
    - `view_time` keeps the latest timestamp seen. */
module SitemapBuffer {
  import opened Common
  import opened SitemapTypes

  /** Whether a buffer holding `items` has room for `e`. */
  predicate Accepts(maxItems: nat, maxBytes: nat, size: Entry -> nat, items: seq<Entry>, e: Entry) {
    |items| < maxItems && TotalSize(size, items) + size(e) <= maxBytes
  }

  class Buffer {
    const maxItems: nat
    const maxBytes: nat
    const size: Entry -> nat
    var items: seq<Entry>
    var bytes: nat
    var full: bool
    var lastModified: string

    ghost predicate Valid()
      reads this
    {
      && |items| <= maxItems
      && bytes == TotalSize(size, items)
      && bytes <= maxBytes
    }

    /** An empty buffer whose timestamp starts at `initialTime`. */
    constructor (maxItems: nat, maxBytes: nat, size: Entry -> nat, initialTime: string)
      ensures Valid()
      ensures this.maxItems == maxItems && this.maxBytes == maxBytes && this.size == size
      ensures items == [] && !full && lastModified == initialTime
    {
      this.maxItems := maxItems;
      this.maxBytes := maxBytes;
      this.size := size;
      items := [];
      bytes := 0;
      full := false;
      lastModified := initialTime;
    }

    predicate Fits(e: Entry)
      reads this
    {
      |items| < maxItems && bytes + size(e) <= maxBytes
    }

    /** `try_to_add_item`. */
    method TryToAddItem(e: Entry) returns (added: bool)
      requires Valid()
      modifies this
      ensures Valid()
      ensures added == Accepts(maxItems, maxBytes, size, old(items), e)
      ensures added ==> items == old(items) + [e] && full == old(full)
      ensures !added ==> items == old(items) && full
      ensures lastModified == old(lastModified)
    {
      if Fits(e) {
        TotalSizeAppend(size, items, e);
        items := items + [e];
        bytes := bytes + size(e);
        added := true;
      } else {
        full := true;
        added := false;
      }
    }

    /** `is_full`. */
    predicate IsFull()
      reads this
    {
      full
    }

    /** `is_empty`: nothing has been added. */
    predicate IsEmpty()
      reads this
    {
      items == []
    }

    /** `view_time`: the buffer's timestamp becomes the later of itself and `t`. */
    method ViewTime(t: string)
      modifies this`lastModified
      ensures lastModified == MaxTime(old(lastModified), t)
    {
      if !LexLe(t, lastModified) {
        lastModified := t;
      } else {
        LexLeTotal(lastModified, t);
        if LexLe(lastModified, t) {
          LexLeAntisymmetric(lastModified, t);
        }
      }
    }
  }
}
