/** The librarian: the table of stored sitemap files. sitemap-librarian.php is not
    part of this model; this module states what the builder relies on.
    - Rows are kept in ascending database-ID order and a new row gets an ID above
      every existing one, so `query_sitemaps_after_id` sees them in that order.
    - `store_sitemap_data` overwrites the row with the same type and number, or
      adds one.
    - `delete_numbered_sitemap_rows_after` removes the rows of a type whose number
      exceeds the given one. */
module SitemapLibrarian {
  import opened Common
  import opened SitemapTypes

  /** IDs strictly ascending, above `lo` and below `hi`. */
  ghost predicate Chain(rows: seq<Row>, lo: int, hi: nat)
    decreases |rows|
  {
    rows == [] || (lo < rows[0].id < hi && Chain(rows[1..], rows[0].id, hi))
  }

  /** IDs ascending and below the next ID to be handed out. */
  ghost predicate RowsValid(rows: seq<Row>, nextId: nat) {
    Chain(rows, -1, nextId)
  }

  /** The rows of one type, in table order. */
  function RowsOf(rows: seq<Row>, kind: SitemapType): (r: seq<Row>)
    ensures forall i :: 0 <= i < |r| ==> r[i].kind == kind
    decreases |rows|
  {
    if rows == [] then []
    else if rows[0].kind == kind then [rows[0]] + RowsOf(rows[1..], kind)
    else RowsOf(rows[1..], kind)
  }

  /** The file numbers stored for one type. */
  function Numbers(rows: seq<Row>, kind: SitemapType): set<nat>
    decreases |rows|
  {
    if rows == [] then {}
    else (if rows[0].kind == kind then {rows[0].number} else {}) + Numbers(rows[1..], kind)
  }

  /** The effect of `store_sitemap_data`: the row with this type and number gets
      the new content and date and keeps its ID; without one, a row with ID
      `newId` is added at the end. */
  function Upsert(rows: seq<Row>, newId: nat, kind: SitemapType, number: nat, content: seq<Entry>, lastmod: string): seq<Row>
    decreases |rows|
  {
    if rows == [] then [Row(newId, kind, number, content, lastmod)]
    else if rows[0].kind == kind && rows[0].number == number then
      [rows[0].(content := content, lastmod := lastmod)] + rows[1..]
    else [rows[0]] + Upsert(rows[1..], newId, kind, number, content, lastmod)
  }

  /** The effect of `delete_numbered_sitemap_rows_after`. */
  function DeleteAfter(rows: seq<Row>, kind: SitemapType, after: nat): seq<Row>
    decreases |rows|
  {
    if rows == [] then []
    else if rows[0].kind == kind && rows[0].number > after then DeleteAfter(rows[1..], kind, after)
    else [rows[0]] + DeleteAfter(rows[1..], kind, after)
  }

  /** The numbers of the stored files of a type after storing file `number`. */
  lemma {:induction false} UpsertNumbers(rows: seq<Row>, newId: nat, kind: SitemapType, number: nat, content: seq<Entry>, lastmod: string)
    ensures Numbers(Upsert(rows, newId, kind, number, content, lastmod), kind) == Numbers(rows, kind) + {number}
    ensures forall k :: k != kind ==> RowsOf(Upsert(rows, newId, kind, number, content, lastmod), k) == RowsOf(rows, k)
    decreases |rows|
  {
    var u := Upsert(rows, newId, kind, number, content, lastmod);
    if rows == [] {
    } else if rows[0].kind == kind && rows[0].number == number {
      assert u[1..] == rows[1..];
    } else {
      UpsertNumbers(rows[1..], newId, kind, number, content, lastmod);
      assert u[1..] == Upsert(rows[1..], newId, kind, number, content, lastmod);
    }
  }

  /** The stored file of a type and number, as `read_sitemap_data` finds it. */
  function FindFile(rows: seq<Row>, kind: SitemapType, number: nat): (r: Option<Row>)
    ensures r.Some? ==> r.value in rows && r.value.kind == kind && r.value.number == number
    ensures r.None? <==> number !in Numbers(rows, kind)
    decreases |rows|
  {
    if rows == [] then None
    else if rows[0].kind == kind && rows[0].number == number then Some(rows[0])
    else FindFile(rows[1..], kind, number)
  }

  /** After storing, the file of that type and number holds the new content and date. */
  lemma {:induction false} UpsertStores(rows: seq<Row>, newId: nat, kind: SitemapType, number: nat, content: seq<Entry>, lastmod: string)
    ensures var f := FindFile(Upsert(rows, newId, kind, number, content, lastmod), kind, number);
            f.Some? && f.value.content == content && f.value.lastmod == lastmod
    ensures forall n :: n != number ==>
      FindFile(Upsert(rows, newId, kind, number, content, lastmod), kind, n) == FindFile(rows, kind, n)
    decreases |rows|
  {
    var u := Upsert(rows, newId, kind, number, content, lastmod);
    if rows == [] {
    } else if rows[0].kind == kind && rows[0].number == number {
      assert u[1..] == rows[1..];
    } else {
      UpsertStores(rows[1..], newId, kind, number, content, lastmod);
      assert u[1..] == Upsert(rows[1..], newId, kind, number, content, lastmod);
    }
  }

  /** The file numbers in `ns` up to `c`. */
  function AtMost(ns: set<nat>, c: nat): (r: set<nat>)
    ensures forall n :: n in r <==> n in ns && n <= c
  {
    set n | n in ns && n <= c
  }

  /** After a delete, a type keeps exactly its files numbered up to the cutoff;
      the other types keep all their rows. */
  lemma {:induction false} DeleteAfterNumbers(rows: seq<Row>, kind: SitemapType, after: nat)
    ensures Numbers(DeleteAfter(rows, kind, after), kind) == AtMost(Numbers(rows, kind), after)
    ensures forall k :: k != kind ==> RowsOf(DeleteAfter(rows, kind, after), k) == RowsOf(rows, k)
    decreases |rows|
  {
    if rows != [] {
      DeleteAfterNumbers(rows[1..], kind, after);
      var d := DeleteAfter(rows, kind, after);
      if !(rows[0].kind == kind && rows[0].number > after) {
        assert d[1..] == DeleteAfter(rows[1..], kind, after);
      }
    }
  }

  lemma {:induction false} ChainLower(rows: seq<Row>, lo: int, lo': int, hi: nat)
    requires Chain(rows, lo, hi) && lo' <= lo
    ensures Chain(rows, lo', hi)
  {
  }

  lemma {:induction false} ChainRaise(rows: seq<Row>, lo: int, hi: nat, hi': nat)
    requires Chain(rows, lo, hi) && hi <= hi'
    ensures Chain(rows, lo, hi')
    decreases |rows|
  {
    if rows != [] {
      ChainRaise(rows[1..], rows[0].id, hi, hi');
    }
  }

  /** A chain is ascending in the pairwise sense and bounded. */
  lemma {:induction false} ChainAscending(rows: seq<Row>, lo: int, hi: nat)
    requires Chain(rows, lo, hi)
    ensures forall i :: 0 <= i < |rows| ==> lo < rows[i].id < hi
    ensures forall i, j :: 0 <= i < j < |rows| ==> rows[i].id < rows[j].id
    decreases |rows|
  {
    if rows != [] {
      var t := rows[1..];
      ChainAscending(t, rows[0].id, hi);
      forall i | 0 < i < |rows| ensures rows[i] == t[i - 1] {
      }
    }
  }

  /** Storing with the next ID keeps the table ordered, with the next ID bumped. */
  lemma {:induction false} UpsertValid(rows: seq<Row>, lo: int, nextId: nat, kind: SitemapType, number: nat, content: seq<Entry>, lastmod: string)
    requires Chain(rows, lo, nextId) && lo < nextId
    ensures Chain(Upsert(rows, nextId, kind, number, content, lastmod), lo, nextId + 1)
    decreases |rows|
  {
    var u := Upsert(rows, nextId, kind, number, content, lastmod);
    if rows == [] {
      assert u[1..] == [];
    } else if rows[0].kind == kind && rows[0].number == number {
      assert u[1..] == rows[1..];
      ChainRaise(rows[1..], rows[0].id, nextId, nextId + 1);
    } else {
      UpsertValid(rows[1..], rows[0].id, nextId, kind, number, content, lastmod);
      assert u[1..] == Upsert(rows[1..], nextId, kind, number, content, lastmod);
    }
  }

  /** Deleting keeps the table ordered. */
  lemma {:induction false} DeleteAfterValid(rows: seq<Row>, lo: int, hi: nat, kind: SitemapType, after: nat)
    requires Chain(rows, lo, hi)
    ensures Chain(DeleteAfter(rows, kind, after), lo, hi)
    decreases |rows|
  {
    if rows != [] {
      var d := DeleteAfter(rows, kind, after);
      if rows[0].kind == kind && rows[0].number > after {
        DeleteAfterValid(rows[1..], rows[0].id, hi, kind, after);
        ChainLower(d, rows[0].id, lo, hi);
      } else {
        DeleteAfterValid(rows[1..], rows[0].id, hi, kind, after);
        assert d[1..] == DeleteAfter(rows[1..], kind, after);
      }
    }
  }

  /** The rows of one type are ordered like the table: the order the index
      builders read leaf files in. */
  lemma {:induction false} RowsOfValid(rows: seq<Row>, lo: int, hi: nat, kind: SitemapType)
    requires Chain(rows, lo, hi)
    ensures Chain(RowsOf(rows, kind), lo, hi)
    decreases |rows|
  {
    if rows != [] {
      var r := RowsOf(rows, kind);
      RowsOfValid(rows[1..], rows[0].id, hi, kind);
      if rows[0].kind == kind {
        assert r[1..] == RowsOf(rows[1..], kind);
      } else {
        ChainLower(r, rows[0].id, lo, hi);
      }
    }
  }

  /** The numbers of a type's rows are the numbers of `RowsOf` that type. */
  lemma {:induction false} NumbersOfRowsOf(rows: seq<Row>, kind: SitemapType)
    ensures Numbers(RowsOf(rows, kind), kind) == Numbers(rows, kind)
    decreases |rows|
  {
    if rows != [] {
      NumbersOfRowsOf(rows[1..], kind);
      if rows[0].kind == kind {
        assert RowsOf(rows, kind)[1..] == RowsOf(rows[1..], kind);
      }
    }
  }

  /** A file is found among the rows of its own type. */
  lemma {:induction false} FindFileRowsOf(rows: seq<Row>, kind: SitemapType, number: nat)
    ensures FindFile(RowsOf(rows, kind), kind, number) == FindFile(rows, kind, number)
    decreases |rows|
  {
    if rows != [] {
      FindFileRowsOf(rows[1..], kind, number);
      if rows[0].kind == kind {
        assert RowsOf(rows, kind)[1..] == RowsOf(rows[1..], kind);
      }
    }
  }

  /** A delete leaves the files at or below the cutoff as they were. */
  lemma {:induction false} DeleteAfterKeepsFiles(rows: seq<Row>, kind: SitemapType, after: nat)
    ensures forall n: nat :: n <= after ==> FindFile(DeleteAfter(rows, kind, after), kind, n) == FindFile(rows, kind, n)
    decreases |rows|
  {
    if rows != [] {
      DeleteAfterKeepsFiles(rows[1..], kind, after);
      var d := DeleteAfter(rows, kind, after);
      if !(rows[0].kind == kind && rows[0].number > after) {
        assert d[1..] == DeleteAfter(rows[1..], kind, after);
      }
    }
  }

  /** The stored rows, handed out IDs in ascending order. */
  class Librarian {
    var rows: seq<Row>
    var nextId: nat

    ghost predicate Valid()
      reads this
    {
      RowsValid(rows, nextId)
    }

    /** An empty table. */
    constructor ()
      ensures Valid() && rows == []
    {
      rows := [];
      nextId := 1;
    }

    /** `store_sitemap_data`: create or overwrite the file `FileName(kind, number)`. */
    method StoreSitemapData(kind: SitemapType, number: nat, content: seq<Entry>, lastmod: string)
      requires Valid()
      modifies this
      ensures Valid()
      ensures rows == Upsert(old(rows), old(nextId), kind, number, content, lastmod)
      ensures Numbers(rows, kind) == Numbers(old(rows), kind) + {number}
      ensures forall k :: k != kind ==> RowsOf(rows, k) == RowsOf(old(rows), k)
      ensures var f := FindFile(rows, kind, number);
              f.Some? && f.value.content == content && f.value.lastmod == lastmod
    {
      UpsertStores(rows, nextId, kind, number, content, lastmod);
      UpsertValid(rows, -1, nextId, kind, number, content, lastmod);
      UpsertNumbers(rows, nextId, kind, number, content, lastmod);
      rows := Upsert(rows, nextId, kind, number, content, lastmod);
      nextId := nextId + 1;
    }

    /** `delete_numbered_sitemap_rows_after`: drop the files of `kind` numbered above `after`. */
    method DeleteNumberedSitemapRowsAfter(kind: SitemapType, after: nat)
      requires Valid()
      modifies this
      ensures Valid() && nextId == old(nextId)
      ensures rows == DeleteAfter(old(rows), kind, after)
      ensures Numbers(rows, kind) == AtMost(Numbers(old(rows), kind), after)
      ensures forall k :: k != kind ==> RowsOf(rows, k) == RowsOf(old(rows), k)
      ensures forall n: nat :: n <= after ==> FindFile(rows, kind, n) == FindFile(old(rows), kind, n)
    {
      DeleteAfterKeepsFiles(rows, kind, after);
      DeleteAfterValid(rows, -1, nextId, kind, after);
      DeleteAfterNumbers(rows, kind, after);
      rows := DeleteAfter(rows, kind, after);
    }
  }
}
