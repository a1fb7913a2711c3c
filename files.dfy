/** Record files: a file is the sequence of records it holds. Reads are random access by
    record offset; every write in the sort appends at the end of a file that was opened
    truncated, so a write is modelled as an append. */
module Files {
  import opened SortSpec

  /** A binary file of records, opened for reading and writing. */
  class File {
    var data: seq<Number>

    constructor (contents: seq<Number>)
      ensures data == contents
    {
      data := contents;
    }

    /** Reopening the file truncated for read/write: it becomes empty. */
    method Clear()
      modifies this
      ensures data == []
    {
      data := [];
    }

    /** Writes `count` records of `buf`, starting at `buf[from]`, after the records
        already in the file. */
    method Write(buf: array<Number>, from: nat, count: nat)
      requires from + count <= buf.Length
      modifies this
      ensures data == old(data) + buf[from..from + count]
    {
      data := data + buf[from..from + count];
    }
  }

  /** Copies the `count` records that start at record `fileStart` of `file` into `buf`,
      starting at `buf[bufStart]`; the rest of `buf` is left as it was. */
  method ReadData(file: File, buf: array<Number>, fileStart: nat, bufStart: nat, count: nat)
    requires fileStart + count <= |file.data|
    requires bufStart + count <= buf.Length
    modifies buf
    ensures buf[bufStart..bufStart + count] == file.data[fileStart..fileStart + count]
    ensures buf[..bufStart] == old(buf[..bufStart])
    ensures buf[bufStart + count..] == old(buf[bufStart + count..])
  {
    forall t | bufStart <= t < bufStart + count {
      buf[t] := file.data[fileStart + t - bufStart];
    }
  }
}
