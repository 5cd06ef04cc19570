/**
 * The medical-records picker: a selection whose sizes add up to more than
 * 25 MiB is refused and cleared.
 */
module Uploads {

  /** A selected file: its name and its size in bytes. */
  datatype FileInfo = FileInfo(name: string, size: nat)

  /** MAX_TOTAL_SIZE_MB * 1024 * 1024. */
  const MaxTotalSizeBytes: nat := 25 * 1024 * 1024

  /** `files.reduce((sum, file) => sum + file.size, 0)`. */
  function TotalSize(files: seq<FileInfo>): nat {
    if files == [] then 0 else TotalSize(files[..|files| - 1]) + files[|files| - 1].size
  }

  /** The total of two selections put together is the sum of their totals. */
  lemma {:induction false} TotalSizeAppend(a: seq<FileInfo>, b: seq<FileInfo>)
    ensures TotalSize(a + b) == TotalSize(a) + TotalSize(b)
    decreases |b|
  {
    if b != [] {
      assert (a + b)[..|a + b| - 1] == a + b[..|b| - 1];
      TotalSizeAppend(a, b[..|b| - 1]);
    } else {
      assert a + b == a;
    }
  }

  /** Every file counts towards the total. */
  lemma {:induction false} FileWithinTotal(files: seq<FileInfo>, i: nat)
    requires i < |files|
    ensures files[i].size <= TotalSize(files)
  {
    assert files == files[..i] + [files[i]] + files[i + 1..];
    TotalSizeAppend(files[..i] + [files[i]], files[i + 1..]);
    TotalSizeAppend(files[..i], [files[i]]);
    assert TotalSize([files[i]]) == files[i].size by {
      assert [files[i]][..0] == [];
    }
  }

  /** `handleFileSelection`: the selection the picker keeps. */
  function Accepted(files: seq<FileInfo>): (r: seq<FileInfo>)
    ensures TotalSize(r) <= MaxTotalSizeBytes
    ensures r == files || r == []
    ensures r == files <==> TotalSize(files) <= MaxTotalSizeBytes || files == []
  {
    if TotalSize(files) > MaxTotalSizeBytes then [] else files
  }

  /** A kept selection holds no file larger than the limit. */
  lemma AcceptedFilesFit(files: seq<FileInfo>, i: nat)
    requires i < |Accepted(files)|
    ensures Accepted(files)[i].size <= MaxTotalSizeBytes
  {
    FileWithinTotal(Accepted(files), i);
  }
}
