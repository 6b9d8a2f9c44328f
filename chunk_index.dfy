/**
 * The chunk listings the sync client reads to learn which chunks it already
 * holds: `SELECT DISTINCT(..._chunk_num) ... WHERE list_id = id`, collected
 * into a PHP array and sorted with asort.
 */
module ChunkIndex {
  import opened Wrappers
  import opened Tables
  import opened Sorting

  /** `SELECT DISTINCT(add_chunk_num) FROM gsb_add WHERE list_id = id`. */
  function AddChunkNums(add: set<AddRow>, id: int): (nums: set<int>)
    ensures forall a :: a in add && a.listId == id ==> a.addChunkNum in nums
    ensures forall n :: n in nums ==> exists a :: a in add && a.listId == id && a.addChunkNum == n
  {
    set a | a in add && a.listId == id :: a.addChunkNum
  }

  /** `SELECT DISTINCT(sub_chunk_num) FROM gsb_sub WHERE list_id = id`. */
  function SubChunkNums(sub: set<SubRow>, id: int): (nums: set<int>)
    ensures forall s :: s in sub && s.listId == id ==> s.subChunkNum in nums
    ensures forall n :: n in nums ==> exists s :: s in sub && s.listId == id && s.subChunkNum == n
  {
    set s | s in sub && s.listId == id :: s.subChunkNum
  }

  lemma HasElement(s: set<int>)
    requires s != {}
    ensures exists n :: n in s
  {
    assert (forall n :: n !in s) ==> s == {};
  }

  /**
   * The loop of add_chunk_get_nums followed by asort: the rows of the DISTINCT
   * query, in whatever order the database returns them, are pushed one by one,
   * and the array is then sorted by value. The outcome does not depend on that
   * order: it is the one strictly increasing sequence of the given numbers.
   */
  method ListChunks(rows: set<int>) returns (chunks: seq<int>)
    ensures StrictlyIncreasing(chunks)
    ensures forall n :: n in chunks <==> n in rows
  {
    var pending := rows;
    var pushed: seq<int> := [];
    while pending != {}
      invariant pending <= rows
      invariant forall n :: n in pushed <==> n in rows && n !in pending
      invariant NoDuplicates(pushed)
      decreases |pending|
    {
      HasElement(pending);
      var n :| n in pending;
      assert multiset(pushed)[n] == 0;
      pushed := pushed + [n];
      pending := pending - {n};
    }
    chunks := Sort(pushed);
    assert forall n :: n in chunks <==> n in multiset(pushed);
    SortedWithoutDuplicatesIsStrict(chunks);
  }

  /** The decimal digit a non-negative number is written with first. */
  function LeadingDigit(n: nat): (d: nat)
    ensures d < 10
    ensures n < 10 ==> d == n
    ensures 10 <= n ==> d != n
  {
    if n < 10 then n else LeadingDigit(n / 10)
  }

  /**
   * `(int) $row[0]` where `$row` is one column value of a row, a string: its
   * first character read as an integer ("-" reads as 0).
   */
  function FirstCharAsInt(n: int): (d: int)
    ensures 0 <= d < 10
    ensures 0 <= n < 10 ==> d == n
  {
    if n < 0 then 0 else LeadingDigit(n)
  }

  /**
   * sub_chunk_get_nums as written: `get_row` fetches only the first row of the
   * DISTINCT query (or null when there is none), the foreach then walks that
   * row's single column and indexes its string value, so at most one number
   * comes out, the leading digit of one sub chunk number.
   */
  function SubChunkListingAsWritten(firstRow: Option<int>): (chunks: seq<int>)
    ensures firstRow.None? ==> chunks == []
    ensures firstRow.Some? ==> chunks == [FirstCharAsInt(firstRow.value)]
  {
    match firstRow
    case None => []
    case Some(n) => [FirstCharAsInt(n)]
  }

  /**
   * With one sub row, of sub chunk 17, the listing as written reports chunk 1
   * and not chunk 17, whereas the DISTINCT query returns exactly {17}.
   */
  lemma SubChunkListingLosesChunks()
    ensures SubChunkNums({SubRow(1, 0, 17, "", "")}, 1) == {17}
    ensures SubChunkListingAsWritten(Some(17)) == [1]
    ensures 17 !in SubChunkListingAsWritten(Some(17))
  {
  }

  /** As written the listing never holds more than one chunk, and never a chunk number of 10 or more. */
  lemma SubChunkListingAsWrittenBounds(firstRow: Option<int>)
    ensures |SubChunkListingAsWritten(firstRow)| <= 1
    ensures forall c :: c in SubChunkListingAsWritten(firstRow) ==> 0 <= c < 10
  {
  }
}
