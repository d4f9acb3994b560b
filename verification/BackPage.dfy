/** The virtual array of back pages: one page in memory, the others in a file
    (libtrn/backpage.cpp, lines 26-139). */
module BackPage {

  type File = map<nat, seq<int>>

  /** Reading a page: one that was written, zeros in a gap, and nothing past the end of the file,
      where the buffer keeps what is in it. */
  function PageRead(file: File, page: nat, end: nat, buf: seq<int>): (r: seq<int>)
    requires forall p :: p in file ==> |file[p]| == |buf|
    ensures |r| == |buf|
  {
    if page in file then file[page] else if page < end then seq(|buf|, _ => 0) else buf
  }

  /** What has been written to each index, by way of its page and its place there. */
  ghost predicate Holds(written: map<nat, int>, size: nat, page: int, buf: seq<int>, file: File)
    requires size > 0
  {
    && |buf| == size && (forall p :: p in file ==> |file[p]| == size)
    && (forall i :: i in written ==> HoldsAt(i, written[i], size, page, buf, file))
  }

  ghost predicate HoldsAt(i: nat, value: int, size: nat, page: int, buf: seq<int>, file: File)
    requires size > 0 && |buf| == size && forall p :: p in file ==> |file[p]| == size
  {
    if i / size == page then buf[i % size] == value else i / size in file && file[i / size][i % size] == value
  }

  lemma SameCell(i: nat, j: nat, size: nat)
    requires size > 0 && i / size == j / size && i % size == j % size
    ensures i == j
  {
    assert i == i / size * size + i % size && j == j / size * size + j % size;
  }

  /** Another page comes into memory; the one that was there is kept in the file. */
  lemma Switched(written: map<nat, int>, size: nat, page: int, buf: seq<int>, file: File, page': nat, end: nat)
    requires size > 0 && Holds(written, size, page, buf, file) && page' != page && page >= -1
    ensures
      var file' := if page >= 0 then file[page := buf] else file;
      && (forall p :: p in file' ==> |file'[p]| == size)
      && Holds(written, size, page', PageRead(file', page', end, buf), file')
  {
    var file' := if page >= 0 then file[page := buf] else file;
    var buf' := PageRead(file', page', end, buf);
    forall i | i in written ensures HoldsAt(i, written[i], size, page', buf', file') {
      assert HoldsAt(i, written[i], size, page, buf, file);
    }
  }

  class BackPageCache {
    const buf: array<int>
    var page: int               // the page in memory, -1 if there is none
    var file: File
    var end: nat                // pages in the file, gaps included
    ghost var written: map<nat, int>

    ghost predicate Valid()
      reads this, buf
    {
      buf.Length > 0 && page >= -1 && Holds(written, buf.Length, page, buf[..], file)
    }

    constructor (size: nat)
      requires size > 0
      ensures Valid() && fresh(buf) && buf.Length == size && written == map[]
    {
      buf := new int[size](_ => 0);
      page, file, end, written := -1, map[], 0, map[];
    }

    /** Brings the page of `index` into memory. */
    method Load(index: nat)
      requires Valid()
      modifies this`page, this`file, this`end, buf
      ensures Valid() && page == index / buf.Length
    {
      var page' := index / buf.Length;
      if page' != page {
        Switched(written, buf.Length, page, buf[..], file, page', if page >= 0 && end < page + 1 then page + 1 else end);
        if page >= 0 {
          file := file[page := buf[..]];
          end := if end < page + 1 then page + 1 else end;
        }
        var read := PageRead(file, page', end, buf[..]);
        Copy(read);
        page := page';
      }
    }

    method Copy(read: seq<int>)
      requires |read| == buf.Length
      modifies buf
      ensures buf[..] == read
    {
      var i := 0;
      while i < buf.Length
        invariant 0 <= i <= buf.Length && buf[..i] == read[..i]
      {
        buf[i] := read[i];
        i := i + 1;
      }
    }

    /** A negative index reads nothing. */
    method VaryRead(index: int) returns (value: int)
      requires Valid()
      modifies this`page, this`file, this`end, buf
      ensures Valid() && (index < 0 ==> value == 0) && (index in written ==> value == written[index])
    {
      if index < 0 {
        return 0;
      }
      Load(index);
      assert index in written ==> HoldsAt(index, written[index], buf.Length, page, buf[..], file);
      return buf[index % buf.Length];
    }

    method VaryWrite(index: nat, value: int)
      requires Valid()
      modifies this, buf
      ensures Valid() && written == old(written)[index := value]
    {
      Load(index);
      ghost var before := buf[..];
      buf[index % buf.Length] := value;
      written := written[index := value];
      forall i | i in written ensures HoldsAt(i, written[i], buf.Length, page, buf[..], file) {
        if i != index {
          assert HoldsAt(i, written[i], buf.Length, page, before, file);
          if i / buf.Length == page && i % buf.Length == index % buf.Length {
            SameCell(i, index, buf.Length);
          }
        }
      }
    }
  }
}
