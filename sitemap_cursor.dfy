/** Cursor pagination over a source in ascending ID order: what the librarian's
    `query_*_after_id($cursor, $limit)` calls return, and the part of the source
    a fill consumes between two cursor values. */
module SitemapCursor {
  import opened Common
  import opened SitemapTypes

  /** Batch size of every `*_after_id` query in the builder. */
  const QueryLimit: nat := 1000

  /** The items whose ID exceeds the cursor, in source order. */
  function After(s: seq<Candidate>, cursor: nat): (r: seq<Candidate>)
    ensures |r| <= |s|
    ensures forall i :: 0 <= i < |r| ==> cursor < r[i].id
    decreases |s|
  {
    if s == [] then []
    else if cursor < s[0].id then [s[0]] + After(s[1..], cursor)
    else After(s[1..], cursor)
  }

  /** One query: at most `limit` items after the cursor. */
  function QueryAfter(s: seq<Candidate>, cursor: nat, limit: nat): (r: seq<Candidate>)
    ensures |r| <= limit && |r| <= |After(s, cursor)| && r == After(s, cursor)[..|r|]
    ensures r == [] <==> (limit == 0 || After(s, cursor) == [])
  {
    var a := After(s, cursor);
    if |a| <= limit then a else a[..limit]
  }

  /** The items with `lo < ID <= hi`: what a fill from cursor `lo` to cursor `hi` added. */
  function Window(s: seq<Candidate>, lo: nat, hi: nat): seq<Candidate>
    decreases |s|
  {
    if s == [] then []
    else if lo < s[0].id <= hi then [s[0]] + Window(s[1..], lo, hi)
    else Window(s[1..], lo, hi)
  }

  /** The entries of a run of candidates, in order. */
  function Entries(s: seq<Candidate>): (r: seq<Entry>)
    ensures |r| == |s|
    decreases |s|
  {
    if s == [] then [] else Entries(s[..|s| - 1]) + [s[|s| - 1].item.entry]
  }

  lemma EntriesAppend(s: seq<Candidate>, c: Candidate)
    ensures Entries(s + [c]) == Entries(s) + [c.item.entry]
  {
    assert (s + [c])[..|s|] == s;
  }

  /** The timestamp a buffer starting at `t` ends with after observing every item of `s`. */
  function Latest(t: string, s: seq<Candidate>): string
    decreases |s|
  {
    if s == [] then t else MaxTime(Latest(t, s[..|s| - 1]), s[|s| - 1].item.lastModified)
  }

  lemma LatestAppend(t: string, s: seq<Candidate>, c: Candidate)
    ensures Latest(t, s + [c]) == MaxTime(Latest(t, s), c.item.lastModified)
  {
    assert (s + [c])[..|s|] == s;
  }

  /** The timestamp a fill reports is the latest of the initial one and every added item's. */
  lemma {:induction false} LatestIsUpperBound(t: string, s: seq<Candidate>)
    ensures LexLe(t, Latest(t, s))
    ensures forall i :: 0 <= i < |s| ==> LexLe(s[i].item.lastModified, Latest(t, s))
    ensures Latest(t, s) == t || exists i :: 0 <= i < |s| && Latest(t, s) == s[i].item.lastModified
    decreases |s|
  {
    if s == [] {
      LexLeReflexive(t);
    } else {
      var init := s[..|s| - 1];
      LatestIsUpperBound(t, init);
      var m := Latest(t, init);
      var last := s[|s| - 1].item.lastModified;
      assert Latest(t, s) == MaxTime(m, last);
      LexLeTransitive(t, m, Latest(t, s));
      forall i | 0 <= i < |s|
        ensures LexLe(s[i].item.lastModified, Latest(t, s))
      {
        if i < |s| - 1 {
          assert s[i] == init[i];
          LexLeTransitive(s[i].item.lastModified, m, Latest(t, s));
        }
      }
      if Latest(t, s) != t && Latest(t, s) != last {
        assert Latest(t, s) == m;
        var i :| 0 <= i < |init| && m == init[i].item.lastModified;
        assert s[i] == init[i];
      }
    }
  }

  lemma {:induction false} AfterAboveAll(s: seq<Candidate>, c: nat)
    requires forall i :: 0 <= i < |s| ==> c < s[i].id
    ensures After(s, c) == s
    decreases |s|
  {
    if s != [] {
      AfterAboveAll(s[1..], c);
      assert s == [s[0]] + s[1..];
    }
  }

  lemma {:induction false} WindowAboveAll(s: seq<Candidate>, lo: nat, hi: nat)
    requires forall i :: 0 <= i < |s| ==> hi < s[i].id
    ensures Window(s, lo, hi) == []
    decreases |s|
  {
    if s != [] {
      WindowAboveAll(s[1..], lo, hi);
    }
  }

  lemma {:induction false} WindowEmpty(s: seq<Candidate>, c: nat)
    ensures Window(s, c, c) == []
    decreases |s|
  {
    if s != [] {
      WindowEmpty(s[1..], c);
    }
  }

  /** Adding the first item after cursor `c` extends the window by exactly that
      item and moves the rest of the source up by one. */
  lemma {:induction false} WindowStep(s: seq<Candidate>, lo: nat, c: nat)
    requires Ascending(s) && lo <= c && After(s, c) != []
    ensures var x := After(s, c)[0];
            && c < x.id
            && Window(s, lo, x.id) == Window(s, lo, c) + [x]
            && After(s, x.id) == After(s, c)[1..]
    decreases |s|
  {
    var t := s[1..];
    assert Ascending(t) by {
      forall i, j | 0 <= i < j < |t| ensures t[i].id < t[j].id {
        assert t[i] == s[i + 1] && t[j] == s[j + 1];
      }
    }
    var h := s[0];
    assert Above: forall i :: 0 <= i < |t| ==> h.id < t[i].id by {
      forall i | 0 <= i < |t| ensures h.id < t[i].id {
        assert t[i] == s[i + 1];
      }
    }
    if c < h.id {
      assert After(s, c) == [h] + After(t, c);
      AfterAboveAll(t, c);
      AfterAboveAll(t, h.id);
      WindowAboveAll(t, lo, h.id);
      WindowAboveAll(t, lo, c);
    } else {
      assert After(s, c) == After(t, c);
      WindowStep(t, lo, c);
      var x := After(t, c)[0];
      assert Window(s, lo, x.id) == (if lo < h.id then [h] else []) + Window(t, lo, x.id);
      assert Window(s, lo, c) == (if lo < h.id then [h] else []) + Window(t, lo, c);
    }
  }

  /** Nothing is skipped and nothing is taken twice: for cursors `lo <= hi` the
      items after `lo` are those of the window followed by those after `hi`. */
  lemma {:induction false} WindowThenAfter(s: seq<Candidate>, lo: nat, hi: nat)
    requires Ascending(s) && lo <= hi
    ensures Window(s, lo, hi) + After(s, hi) == After(s, lo)
    decreases |s|
  {
    if s != [] {
      var t := s[1..];
      assert Ascending(t) by {
        forall i, j | 0 <= i < j < |t| ensures t[i].id < t[j].id {
          assert t[i] == s[i + 1] && t[j] == s[j + 1];
        }
      }
      WindowThenAfter(t, lo, hi);
      var h := s[0];
      if lo < h.id <= hi {
        assert After(s, hi) == After(t, hi);
      } else if hi < h.id {
        forall i | 0 <= i < |t| ensures hi < t[i].id {
          assert t[i] == s[i + 1];
        }
        WindowAboveAll(t, lo, hi);
      }
    }
  }
}
