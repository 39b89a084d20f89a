/** The byte accounting of an upload: files arrive in chunks and are written as they arrive, under a
    limit for each file, one for the batch, and the storage budget.
  */
module Upload {
  import opened Slots

  const MAX_FILE_BYTES: nat := 5 * 1024 * 1024
  const MAX_TOTAL_FILE_BYTES: nat := 25 * 1024 * 1024
  const MAX_FILES: nat := 10

  type Chunk = seq<bv8>

  datatype UploadError = FileTooLarge | UploadTooLarge | BudgetExceeded | EmptyFile | TooManyFiles | MissingFilename | InvalidImage | MissingImages

  /** One image field of the form: whether it came with a file name, and its bytes as they arrive. */
  datatype ImageField = ImageField(named: bool, chunks: seq<Chunk>)

  datatype Outcome<+T> = Staged(value: T) | Rejected(error: UploadError)

  /** The bytes of a file, however they were split. */
  function Content(chunks: seq<Chunk>): Chunk {
    if chunks == [] then [] else Content(chunks[..|chunks| - 1]) + chunks[|chunks| - 1]
  }

  function TotalSize(files: seq<Chunk>): nat {
    if files == [] then 0 else TotalSize(files[..|files| - 1]) + |files[|files| - 1]|
  }

  /** The three bounds on what has been written so far. */
  predicate WithinBounds(files: seq<Chunk>, usage: nat, budget: nat) {
    && (forall k :: 0 <= k < |files| ==> |files[k]| <= MAX_FILE_BYTES)
    && TotalSize(files) <= MAX_TOTAL_FILE_BYTES
    && usage + TotalSize(files) <= budget
  }

  /** u64::checked_add. */
  predicate Overflows(a: nat, b: nat) {
    a + b > U64_MAX
  }

  class Batch {
    const usage: nat
    const budget: nat
    var files: seq<Chunk>
    var totalBytes: nat

    constructor (usage: nat, budget: nat)
      ensures this.usage == usage && this.budget == budget && files == [] && totalBytes == 0
    {
      this.usage, this.budget := usage, budget;
      files, totalBytes := [], 0;
    }

    method CreateFile()
      modifies this`files
      ensures files == old(files) + [[]]
    {
      files := files + [[]];
    }

    /** Appends a chunk to the newest file.  Its precondition is that all bounds hold afterwards, so
        they hold after every single write. */
    method WriteAll(chunk: Chunk)
      requires files != []
      requires WithinBounds(Appended(files, chunk), usage, budget)
      modifies this`files
      ensures files == Appended(old(files), chunk) && WithinBounds(files, usage, budget)
    {
      files := Appended(files, chunk);
    }

    /** Writes one file chunk by chunk.  It succeeds exactly when the whole file is not empty and
        fits the three bounds; whatever happens, what was written stays within them. */
    method WriteImageField(chunks: seq<Chunk>) returns (r: Outcome<nat>)
      requires files != [] && files[|files| - 1] == []
      requires totalBytes == TotalSize(files) && WithinBounds(files, usage, budget) && budget <= U64_MAX
      requires forall k :: 0 <= k < |chunks| ==> |chunks[k]| <= I64_MAX
      modifies this`files, this`totalBytes
      ensures |files| == |old(files)| && files[..|files| - 1] == old(files[..|files| - 1]) && WithinBounds(files, usage, budget)
      ensures r.Staged? <==> Fits(|Content(chunks)|, old(totalBytes), usage, budget)
      ensures r.Staged? ==> r.value == |Content(chunks)| && files[|files| - 1] == Content(chunks) && totalBytes == TotalSize(files)
      ensures r == Verdict(Sizes(chunks), 0, old(totalBytes), usage, budget)
    {
      hide Content, TotalSize, WithinBounds, Verdict, Sizes;
      var fileBytes := 0;
      var k := 0;
      ghost var before := files;
      ghost var base := totalBytes;
      NothingWritten(files, chunks);
      while k < |chunks|
        invariant k <= |chunks| && |files| == |before|
        invariant files == before[|before| - 1 := Content(chunks[..k])]
        invariant fileBytes == |Content(chunks[..k])| && totalBytes == base + fileBytes == TotalSize(files)
        invariant WithinBounds(files, usage, budget)
        invariant |Sizes(chunks)| == |chunks|
        invariant Verdict(Sizes(chunks)[k..], fileBytes, totalBytes, usage, budget) == Verdict(Sizes(chunks), 0, base, usage, budget)
      {
        var chunk := chunks[k];
        ContentGrows(chunks, k);
        OneMoreChunk(files, chunk, usage, budget);
        InBounds(files, usage, budget);
        VerdictStep(chunks, k, fileBytes, totalBytes, usage, budget);
        if Overflows(fileBytes, |chunk|) {
          return Rejected(FileTooLarge);
        }
        fileBytes := fileBytes + |chunk|;
        if fileBytes > MAX_FILE_BYTES {
          return Rejected(FileTooLarge);
        }
        if Overflows(totalBytes, |chunk|) {
          return Rejected(UploadTooLarge);
        }
        totalBytes := totalBytes + |chunk|;
        if Overflows(usage, totalBytes) || usage + totalBytes > budget {
          return Rejected(BudgetExceeded);
        }
        if totalBytes > MAX_TOTAL_FILE_BYTES {
          return Rejected(UploadTooLarge);
        }
        WriteAll(chunk);
        k := k + 1;
      }
      assert chunks[..k] == chunks;
      VerdictAtEnd(chunks, k, fileBytes, totalBytes, usage, budget);
      InBounds(files, usage, budget);
      if fileBytes == 0 {
        return Rejected(EmptyFile);
      }
      return Staged(fileBytes);
    }

    /** Stages all image fields in order, unless the measured usage already fills the budget.  Each
        file is inspected after it was written.  The verdict is a matter of names and contents alone, and a
        rejection is for what is wrong with the first field that cannot be staged. */
    method StageImages(fields: seq<ImageField>, inspect: Chunk -> bool) returns (r: Outcome<seq<nat>>)
      requires files == [] && totalBytes == 0 && budget <= U64_MAX
      requires forall f, k :: 0 <= f < |fields| && 0 <= k < |fields[f].chunks| ==> |fields[f].chunks[k]| <= I64_MAX
      modifies this`files, this`totalBytes
      ensures usage < budget ==> WithinBounds(files, usage, budget)
      ensures usage >= budget ==> files == [] && r == Rejected(BudgetExceeded)
      ensures r.Staged? <==> usage < budget && AllNamed(fields) && BatchFits(Contents(fields), usage, budget, inspect)
      ensures r.Staged? ==> files == Contents(fields) && |r.value| == |fields|
                            && forall k :: 0 <= k < |fields| ==> r.value[k] == |Content(fields[k].chunks)|
      ensures r.Rejected? && usage < budget ==> exists k: nat :: RejectedAt(fields, k, r.error, usage, budget, inspect)
    {
      hide Content, TotalSize, WithinBounds, BatchFits, Fits, Verdict, Sizes;
      if usage >= budget {
        return Rejected(BudgetExceeded);
      }
      ghost var contents := Contents(fields);
      NothingStaged(usage, budget);
      var sizes: seq<nat> := [];
      var k := 0;
      while k < |fields|
        invariant k <= |fields| && |sizes| == k <= MAX_FILES
        invariant files == contents[..k] && totalBytes == TotalSize(files) && WithinBounds(files, usage, budget)
        invariant forall m :: 0 <= m < k ==>
                    fields[m].named && sizes[m] == |Content(fields[m].chunks)| && contents[m] != [] && inspect(contents[m])
      {
        if |sizes| >= MAX_FILES {
          assert RejectedAt(fields, k, TooManyFiles, usage, budget, inspect);
          OutsideCount(contents, usage, budget, inspect);
          return Rejected(TooManyFiles);
        }
        if !fields[k].named {
          assert RejectedAt(fields, k, MissingFilename, usage, budget, inspect);
          return Rejected(MissingFilename);
        }
        CreateFile();
        AppendedNothing(contents[..k], usage, budget);
        assert files[..|files| - 1] == contents[..k];
        var written := WriteImageField(fields[k].chunks);
        NextOfBatch(contents, k, usage, budget, inspect);
        if written.Rejected? {
          VerdictOnOneFile(Sizes(fields[k].chunks), 0, TotalSize(contents[..k]), usage, budget);
          assert RejectedAt(fields, k, written.error, usage, budget, inspect);
          return Rejected(written.error);
        }
        if !inspect(files[|files| - 1]) {
          assert RejectedAt(fields, k, InvalidImage, usage, budget, inspect);
          return Rejected(InvalidImage);
        }
        sizes := sizes + [written.value];
        assert files == contents[..k + 1];
        k := k + 1;
      }
      assert contents[..k] == contents;
      if |sizes| == 0 {
        assert RejectedAt(fields, 0, MissingImages, usage, budget, inspect);
        OutsideCount(contents, usage, budget, inspect);
        return Rejected(MissingImages);
      }
      AllStaged(contents, usage, budget, inspect);
      return Staged(sizes);
    }
  }

  /** The fields before k can be staged, and field k is why the form is rejected. */
  predicate RejectedAt(fields: seq<ImageField>, k: nat, error: UploadError, usage: nat, budget: nat, inspect: Chunk -> bool) {
    && k <= |fields| && k <= MAX_FILES
    && (forall m :: 0 <= m < k ==> fields[m].named && Contents(fields)[m] != [] && inspect(Contents(fields)[m]))
    && WithinBounds(Contents(fields)[..k], usage, budget)
    && match error
       case MissingImages => |fields| == 0
       case TooManyFiles => k == MAX_FILES < |fields|
       case MissingFilename => k < |fields| && k < MAX_FILES && !fields[k].named
       case InvalidImage =>
         && k < |fields| && k < MAX_FILES && fields[k].named && !inspect(Contents(fields)[k])
         && Fits(|Contents(fields)[k]|, TotalSize(Contents(fields)[..k]), usage, budget)
       case _ =>
         && k < |fields| && k < MAX_FILES && fields[k].named
         && Verdict(Sizes(fields[k].chunks), 0, TotalSize(Contents(fields)[..k]), usage, budget) == Rejected(error)
  }

  predicate AllNamed(fields: seq<ImageField>) {
    forall k :: 0 <= k < |fields| ==> fields[k].named
  }

  lemma NothingStaged(usage: nat, budget: nat)
    requires usage <= budget
    ensures TotalSize([]) == 0 && WithinBounds([], usage, budget)
  {
  }

  lemma OutsideCount(contents: seq<Chunk>, usage: nat, budget: nat, inspect: Chunk -> bool)
    requires |contents| == 0 || |contents| > MAX_FILES
    ensures !BatchFits(contents, usage, budget, inspect)
  {
  }

  lemma AllStaged(contents: seq<Chunk>, usage: nat, budget: nat, inspect: Chunk -> bool)
    requires WithinBounds(contents, usage, budget) && 1 <= |contents| <= MAX_FILES
    requires forall k :: 0 <= k < |contents| ==> contents[k] != [] && inspect(contents[k])
    ensures BatchFits(contents, usage, budget, inspect)
  {
  }

  /** A file that does not fit on top of the files before it spoils the batch, and one that does is
      not empty. */
  lemma NextOfBatch(contents: seq<Chunk>, k: nat, usage: nat, budget: nat, inspect: Chunk -> bool)
    requires k < |contents|
    ensures !Fits(|contents[k]|, TotalSize(contents[..k]), usage, budget) || !inspect(contents[k])
            ==> !BatchFits(contents, usage, budget, inspect)
    ensures Fits(|contents[k]|, TotalSize(contents[..k]), usage, budget) ==> contents[k] != []
  {
    PrefixOfBatch(contents, k);
  }

  function Appended(files: seq<Chunk>, chunk: Chunk): seq<Chunk>
    requires files != []
  {
    files[|files| - 1 := files[|files| - 1] + chunk]
  }

  function Contents(fields: seq<ImageField>): seq<Chunk> {
    seq(|fields|, k requires 0 <= k < |fields| => Content(fields[k].chunks))
  }

  /** What one more file of a size must satisfy. */
  predicate Fits(size: nat, total: nat, usage: nat, budget: nat) {
    0 < size <= MAX_FILE_BYTES && total + size <= MAX_TOTAL_FILE_BYTES && usage + total + size <= budget
  }

  /** The verdict on the contents of a batch. */
  predicate BatchFits(contents: seq<Chunk>, usage: nat, budget: nat, inspect: Chunk -> bool) {
    && 1 <= |contents| <= MAX_FILES
    && (forall k :: 0 <= k < |contents| ==> contents[k] != [] && inspect(contents[k]))
    && WithinBounds(contents, usage, budget)
  }

  lemma AppendedSize(files: seq<Chunk>, chunk: Chunk)
    requires files != []
    ensures TotalSize(Appended(files, chunk)) == TotalSize(files) + |chunk|
  {
    assert Appended(files, chunk)[..|files| - 1] == files[..|files| - 1];
  }

  lemma AppendedNothing(files: seq<Chunk>, usage: nat, budget: nat)
    ensures TotalSize(files + [[]]) == TotalSize(files)
    ensures WithinBounds(files, usage, budget) ==> WithinBounds(files + [[]], usage, budget)
  {
    assert (files + [[]])[..|files|] == files;
  }

  /** A prefix of the chunks has no more bytes than all of them. */
  lemma {:induction false} ContentGrows(chunks: seq<Chunk>, k: nat)
    requires k < |chunks|
    ensures Content(chunks[..k + 1]) == Content(chunks[..k]) + chunks[k]
    ensures |Content(chunks[..k + 1])| <= |Content(chunks)|
    decreases |chunks|
  {
    assert chunks[..k + 1][..k] == chunks[..k];
    if k + 1 < |chunks| {
      ContentGrows(chunks[..|chunks| - 1], k);
      assert chunks[..|chunks| - 1][..k + 1] == chunks[..k + 1] && chunks[..|chunks| - 1][..k] == chunks[..k];
    } else {
      assert chunks[..k + 1] == chunks;
    }
  }

  /** A batch that fits has prefixes that fit, and its next file fits on top of them. */
  lemma {:induction false} PrefixOfBatch(contents: seq<Chunk>, k: nat)
    requires k < |contents|
    ensures TotalSize(contents[..k + 1]) == TotalSize(contents[..k]) + |contents[k]|
    ensures TotalSize(contents[..k + 1]) <= TotalSize(contents)
    decreases |contents|
  {
    assert contents[..k + 1][..k] == contents[..k];
    if k + 1 < |contents| {
      PrefixOfBatch(contents[..|contents| - 1], k);
      assert contents[..|contents| - 1][..k + 1] == contents[..k + 1] && contents[..|contents| - 1][..k] == contents[..k];
    } else {
      assert contents[..k + 1] == contents;
    }
  }

  // ---------------------------------------------------------------- what chunking decides

  function Sizes(chunks: seq<Chunk>): seq<nat> {
    seq(|chunks|, k requires 0 <= k < |chunks| => |chunks[k]|)
  }

  function Sum(sizes: seq<nat>): nat {
    if sizes == [] then 0 else sizes[0] + Sum(sizes[1..])
  }

  /** The checks on one file, chunk size by chunk size. */
  function Verdict(sizes: seq<nat>, fileBytes: nat, total: nat, usage: nat, budget: nat): Outcome<nat>
    decreases |sizes|
  {
    if sizes == [] then (if fileBytes == 0 then Rejected(EmptyFile) else Staged(fileBytes))
    else if fileBytes + sizes[0] > MAX_FILE_BYTES then Rejected(FileTooLarge)
    else if usage + total + sizes[0] > budget then Rejected(BudgetExceeded)
    else if total + sizes[0] > MAX_TOTAL_FILE_BYTES then Rejected(UploadTooLarge)
    else Verdict(sizes[1..], fileBytes + sizes[0], total + sizes[0], usage, budget)
  }

  /** What is wrong with one file is never wrong with the form as a whole. */
  lemma {:induction false} VerdictOnOneFile(sizes: seq<nat>, fileBytes: nat, total: nat, usage: nat, budget: nat)
    ensures var v := Verdict(sizes, fileBytes, total, usage, budget);
            v.Rejected? ==> v.error.FileTooLarge? || v.error.UploadTooLarge? || v.error.BudgetExceeded? || v.error.EmptyFile?
    decreases |sizes|
  {
    if sizes != [] {
      VerdictOnOneFile(sizes[1..], fileBytes + sizes[0], total + sizes[0], usage, budget);
    }
  }

  lemma {:induction false} VerdictIsOfTheSum(sizes: seq<nat>, fileBytes: nat, total: nat, usage: nat, budget: nat)
    requires fileBytes <= MAX_FILE_BYTES && total <= MAX_TOTAL_FILE_BYTES && usage + total <= budget
    ensures var v, size := Verdict(sizes, fileBytes, total, usage, budget), Sum(sizes);
            && (v.Staged? <==> 0 < fileBytes + size <= MAX_FILE_BYTES && total + size <= MAX_TOTAL_FILE_BYTES && usage + total + size <= budget)
            && (v.Staged? ==> v.value == fileBytes + size)
    decreases |sizes|
  {
    if sizes != [] {
      if usage + total + sizes[0] <= budget && fileBytes + sizes[0] <= MAX_FILE_BYTES && total + sizes[0] <= MAX_TOTAL_FILE_BYTES {
        VerdictIsOfTheSum(sizes[1..], fileBytes + sizes[0], total + sizes[0], usage, budget);
      }
    }
  }

  /** However the same bytes are split, the file passes or not, with the same size. */
  lemma SplitDoesNotDecide(a: seq<nat>, b: seq<nat>, total: nat, usage: nat, budget: nat)
    requires Sum(a) == Sum(b)
    requires total <= MAX_TOTAL_FILE_BYTES && usage + total <= budget
    ensures var v, w := Verdict(a, 0, total, usage, budget), Verdict(b, 0, total, usage, budget);
            (v.Staged? <==> w.Staged?) && (v.Staged? ==> v == w)
  {
    VerdictIsOfTheSum(a, 0, total, usage, budget);
    VerdictIsOfTheSum(b, 0, total, usage, budget);
  }

  /** A file of this size is told about the same limit however it is split: if it is too large for a
      file, the file limit is the first to be reached, and if it is not, but exceeds the budget, the
      budget is reached no later than the limit of the batch. */
  predicate OneAnswer(size: nat, total: nat, usage: nat, budget: nat) {
    var room, left := budget - usage - total, MAX_TOTAL_FILE_BYTES - total;
    && (size > MAX_FILE_BYTES ==> MAX_FILE_BYTES <= room && MAX_FILE_BYTES <= left)
    && (size <= MAX_FILE_BYTES && size > room ==> room <= left)
  }

  lemma SumOfTwo(a: nat, b: nat)
    ensures Sum([a, b]) == a + b
  {
    assert [a, b][1..] == [b] && [b][1..] == [];
    assert Sum([b]) == b;
  }

  /** A split that shows the difference: just enough to pass the lower of budget and batch limit
      first, and then the rest. */
  function Revealing(size: nat, total: nat, usage: nat, budget: nat): (split: seq<nat>)
    requires total <= MAX_TOTAL_FILE_BYTES && usage + total <= budget && !OneAnswer(size, total, usage, budget)
    ensures Sum(split) == size
  {
    var room, left := budget - usage - total, MAX_TOTAL_FILE_BYTES - total;
    var first := (if room < left then room else left) + 1;
    SumOfTwo(first, size - first);
    [first, size - first]
  }

  /** The answer to a file that arrives in one chunk. */
  lemma OneChunk(size: nat, total: nat, usage: nat, budget: nat)
    ensures Verdict([size], 0, total, usage, budget)
            == if size > MAX_FILE_BYTES then Rejected(FileTooLarge)
               else if usage + total + size > budget then Rejected(BudgetExceeded)
               else if total + size > MAX_TOTAL_FILE_BYTES then Rejected(UploadTooLarge)
               else if size == 0 then Rejected(EmptyFile) else Staged(size)
  {
    assert [size][1..] == [];
  }

  lemma {:induction false} SplitAnswers(sizes: seq<nat>, fileBytes: nat, total: nat, usage: nat, budget: nat)
    requires fileBytes <= MAX_FILE_BYTES && total <= MAX_TOTAL_FILE_BYTES && usage + total <= budget && total >= fileBytes
    requires OneAnswer(fileBytes + Sum(sizes), total - fileBytes, usage, budget)
    ensures Verdict(sizes, fileBytes, total, usage, budget) == Verdict([fileBytes + Sum(sizes)], 0, total - fileBytes, usage, budget)
    decreases |sizes|
  {
    OneChunk(fileBytes + Sum(sizes), total - fileBytes, usage, budget);
    if sizes != [] && fileBytes + sizes[0] <= MAX_FILE_BYTES && usage + total + sizes[0] <= budget && total + sizes[0] <= MAX_TOTAL_FILE_BYTES {
      SplitAnswers(sizes[1..], fileBytes + sizes[0], total + sizes[0], usage, budget);
    }
  }

  /** Exactly when the answer to a file does not depend on how it is split. */
  lemma SplitDecidesExactly(size: nat, total: nat, usage: nat, budget: nat)
    requires total <= MAX_TOTAL_FILE_BYTES && usage + total <= budget
    ensures OneAnswer(size, total, usage, budget)
            <==> forall sizes: seq<nat> :: Sum(sizes) == size ==> Verdict(sizes, 0, total, usage, budget) == Verdict([size], 0, total, usage, budget)
  {
    if OneAnswer(size, total, usage, budget) {
      forall sizes: seq<nat> | Sum(sizes) == size
        ensures Verdict(sizes, 0, total, usage, budget) == Verdict([size], 0, total, usage, budget)
      {
        SplitAnswers(sizes, 0, total, usage, budget);
      }
    } else {
      RevealingAnswer(size, total, usage, budget);
    }
  }

  /** Otherwise that split is told about another limit than the file in one chunk. */
  lemma RevealingAnswer(size: nat, total: nat, usage: nat, budget: nat)
    requires total <= MAX_TOTAL_FILE_BYTES && usage + total <= budget && !OneAnswer(size, total, usage, budget)
    ensures var split := Revealing(size, total, usage, budget);
            var v, w := Verdict(split, 0, total, usage, budget), Verdict([size], 0, total, usage, budget);
            v.Rejected? && w.Rejected? && v.error != w.error
  {
  }

  lemma VerdictStep(chunks: seq<Chunk>, k: nat, fileBytes: nat, total: nat, usage: nat, budget: nat)
    requires k < |chunks|
    ensures |Sizes(chunks)| == |chunks|
    ensures Verdict(Sizes(chunks)[k..], fileBytes, total, usage, budget)
            == var size := |chunks[k]|;
               if fileBytes + size > MAX_FILE_BYTES then Rejected(FileTooLarge)
               else if usage + total + size > budget then Rejected(BudgetExceeded)
               else if total + size > MAX_TOTAL_FILE_BYTES then Rejected(UploadTooLarge)
               else Verdict(Sizes(chunks)[k + 1..], fileBytes + size, total + size, usage, budget)
  {
    assert Sizes(chunks)[k..][0] == |chunks[k]| && Sizes(chunks)[k..][1..] == Sizes(chunks)[k + 1..];
  }

  lemma VerdictAtEnd(chunks: seq<Chunk>, k: nat, fileBytes: nat, total: nat, usage: nat, budget: nat)
    requires k == |chunks|
    ensures |Sizes(chunks)| == |chunks|
    ensures Verdict(Sizes(chunks)[k..], fileBytes, total, usage, budget) == if fileBytes == 0 then Rejected(EmptyFile) else Staged(fileBytes)
  {
  }

  // ---------------------------------------------------------------- one chunk

  lemma NothingWritten(files: seq<Chunk>, chunks: seq<Chunk>)
    requires files != [] && files[|files| - 1] == []
    ensures files[|files| - 1 := Content(chunks[..0])] == files && Content(chunks[..0]) == []
    ensures |Sizes(chunks)| == |chunks| && Sizes(chunks)[0..] == Sizes(chunks)
  {
    assert files[|files| - 1 := []] == files;
  }

  /** Appending a chunk keeps the bounds exactly when the three totals do. */
  lemma OneMoreChunk(files: seq<Chunk>, chunk: Chunk, usage: nat, budget: nat)
    requires files != [] && WithinBounds(files, usage, budget)
    ensures TotalSize(Appended(files, chunk)) == TotalSize(files) + |chunk|
    ensures (&& |files[|files| - 1]| + |chunk| <= MAX_FILE_BYTES
             && TotalSize(files) + |chunk| <= MAX_TOTAL_FILE_BYTES
             && usage + TotalSize(files) + |chunk| <= budget)
            ==> WithinBounds(Appended(files, chunk), usage, budget)
  {
    AppendedSize(files, chunk);
    hide TotalSize;
  }

  lemma InBounds(files: seq<Chunk>, usage: nat, budget: nat)
    requires files != [] && WithinBounds(files, usage, budget)
    ensures |files[|files| - 1]| <= MAX_FILE_BYTES && TotalSize(files) <= MAX_TOTAL_FILE_BYTES && usage + TotalSize(files) <= budget
  {
  }
}
