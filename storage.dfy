/**
 * The storage object (class GSB_WP_Storage): the four database tables it
 * reads and writes, held as fields that its methods reassign, and the
 * in-memory retry timeout.
 */
module Storage {
  import opened Wrappers
  import opened ListCatalog
  import opened Tables
  import opened Sorting
  import opened ChunkIndex
  import Fullhash

  /** The `$data` array of add_insert and add_empty. */
  datatype AddData = AddData(listname: string, addChunkNum: int, hostKey: string, prefix: string)

  /** The `$data` array of sub_insert and sub_empty. */
  datatype SubData = SubData(listname: string, addChunkNum: int, subChunkNum: int, hostKey: string, prefix: string)

  /** The `$data` array of add_delete and sub_delete. */
  datatype RangeData = RangeData(listname: string, min: int, max: int)

  /** The `$data` array of fullhash_insert. */
  datatype HashData = HashData(listname: string, addChunkNum: int, hash: string)

  /** How fullhash_exists is told the list: `list_id` when it is set, `listname` otherwise. */
  datatype ListRef = ById(listId: int) | ByName(listname: string)

  /** The gsb_rfd row (its id column is always 1): the retry-and-backoff state. */
  datatype Rfd = Rfd(nextAttempt: int, errorCount: int, lastAttempt: int, lastSuccess: int)

  /** The tables add_delete walks, in the order it walks them. */
  datatype Table = AddTable | SubTable | FullhashTable

  class GsbStorage {
    var add: set<AddRow>
    var sub: set<SubRow>
    var fullhash: Fullhash.Cache
    var rfd: Option<Rfd>
    var timeout: int

    /**
     * Connects to a database holding the given tables; the retry timeout starts at 0.
     */
    constructor (add0: set<AddRow>, sub0: set<SubRow>, fullhash0: Fullhash.Cache, rfd0: Option<Rfd>)
      ensures add == add0 && sub == sub0 && fullhash == fullhash0 && rfd == rfd0
      ensures timeout == 0
    {
      add, sub, fullhash, rfd := add0, sub0, fullhash0, rfd0;
      timeout := 0;
    }

    /** delete_all_data: truncates gsb_add, gsb_sub and gsb_fullhash; the retry state stays. */
    method DeleteAllData()
      modifies this`add, this`sub, this`fullhash
      ensures add == {} && sub == {} && fullhash == map[]
      ensures rfd == old(rfd) && timeout == old(timeout)
    {
      add := {};
      sub := {};
      fullhash := map[];
    }

    /** add_chunk_get_nums: the distinct add chunk numbers of the list, ascending. */
    method AddChunkGetNums(listname: string) returns (chunks: seq<int>)
      ensures StrictlyIncreasing(chunks)
      ensures forall n :: n in chunks <==>
                exists a :: a in add && a.listId == ListIdInQuery(listname) && a.addChunkNum == n
    {
      chunks := ListChunks(AddChunkNums(add, ListIdInQuery(listname)));
    }

    /**
     * sub_chunk_get_nums as written: one arbitrary row of the DISTINCT query is
     * fetched and only the first character of its value is kept.
     */
    method SubChunkGetNumsAsWritten(listname: string) returns (chunks: seq<int>)
      ensures |chunks| <= 1
      ensures SubChunkNums(sub, ListIdInQuery(listname)) == {} ==> chunks == []
      ensures SubChunkNums(sub, ListIdInQuery(listname)) != {} ==>
                exists first :: first in SubChunkNums(sub, ListIdInQuery(listname))
                             && chunks == [FirstCharAsInt(first)]
    {
      var rows := SubChunkNums(sub, ListIdInQuery(listname));
      if rows == {} {
        chunks := SubChunkListingAsWritten(None);
      } else {
        HasElement(rows);
        var first :| first in rows;
        chunks := SubChunkListingAsWritten(Some(first));
      }
    }

    /** sub_chunk_get_nums as intended: the distinct sub chunk numbers of the list, ascending. */
    method SubChunkGetNums(listname: string) returns (chunks: seq<int>)
      ensures StrictlyIncreasing(chunks)
      ensures forall n :: n in chunks <==>
                exists s :: s in sub && s.listId == ListIdInQuery(listname) && s.subChunkNum == n
    {
      chunks := ListChunks(SubChunkNums(sub, ListIdInQuery(listname)));
    }

    /** hostkey_select_prefixes on the current tables. */
    function HostkeySelectPrefixes(keys: HostKeys): (r: set<AddRow>)
      reads this
      ensures r == SelectPrefixes(add, sub, keys)
    {
      SelectPrefixes(add, sub, keys)
    }

    /** add_insert: `INSERT IGNORE INTO gsb_add`; no other table changes. */
    method AddInsert(data: AddData)
      modifies this`add
      ensures add == InsertIgnore(old(add), AddRow(ListIdInQuery(data.listname), data.addChunkNum, data.hostKey, data.prefix))
      ensures sub == old(sub) && fullhash == old(fullhash) && rfd == old(rfd) && timeout == old(timeout)
    {
      add := InsertIgnore(add, AddRow(ListIdInQuery(data.listname), data.addChunkNum, data.hostKey, data.prefix));
    }

    /**
     * The statement add_delete runs on each of its tables:
     * `DELETE FROM table WHERE list_id = id AND add_chunk_num >= min AND add_chunk_num <= max`.
     */
    method DeleteChunkRange(table: Table, id: int, min: int, max: int)
      modifies this`add, this`sub, this`fullhash
      ensures add == if table == AddTable then DeleteAddRange(old(add), id, min, max) else old(add)
      ensures sub == if table == SubTable then DeleteSubRange(old(sub), id, min, max) else old(sub)
      ensures fullhash == if table == FullhashTable then Fullhash.DeleteAddRange(old(fullhash), id, min, max)
                          else old(fullhash)
      ensures rfd == old(rfd) && timeout == old(timeout)
    {
      match table
      case AddTable => add := DeleteAddRange(add, id, min, max);
      case SubTable => sub := DeleteSubRange(sub, id, min, max);
      case FullhashTable => fullhash := Fullhash.DeleteAddRange(fullhash, id, min, max);
    }

    /**
     * add_delete: removes the add chunks [min, max] of the list together with
     * the sub rows and cached full hashes that refer to them.
     */
    method AddDelete(data: RangeData)
      modifies this`add, this`sub, this`fullhash
      ensures add == DeleteAddRange(old(add), ListIdInQuery(data.listname), data.min, data.max)
      ensures sub == DeleteSubRange(old(sub), ListIdInQuery(data.listname), data.min, data.max)
      ensures fullhash == Fullhash.DeleteAddRange(old(fullhash), ListIdInQuery(data.listname), data.min, data.max)
      ensures rfd == old(rfd) && timeout == old(timeout)
    {
      var id := ListIdInQuery(data.listname);
      var tables := [AddTable, SubTable, FullhashTable];
      for i := 0 to |tables|
        invariant add == if 0 < i then DeleteAddRange(old(add), id, data.min, data.max) else old(add)
        invariant sub == if 1 < i then DeleteSubRange(old(sub), id, data.min, data.max) else old(sub)
        invariant fullhash == if 2 < i then Fullhash.DeleteAddRange(old(fullhash), id, data.min, data.max)
                              else old(fullhash)
        invariant rfd == old(rfd) && timeout == old(timeout)
      {
        DeleteChunkRange(tables[i], id, data.min, data.max);
      }
    }

    /** sub_delete: removes the sub rows of the list that refer to add chunks [min, max]. */
    method SubDelete(data: RangeData)
      modifies this`sub
      ensures sub == DeleteSubRange(old(sub), ListIdInQuery(data.listname), data.min, data.max)
      ensures add == old(add) && fullhash == old(fullhash) && rfd == old(rfd) && timeout == old(timeout)
    {
      sub := DeleteSubRange(sub, ListIdInQuery(data.listname), data.min, data.max);
    }

    /**
     * add_empty: blanks the caller's host key and prefix and inserts that row,
     * the marker of an add chunk without entries.
     */
    method AddEmpty(data: AddData) returns (filled: AddData)
      modifies this`add
      ensures filled == AddData(data.listname, data.addChunkNum, "", "")
      ensures add == InsertIgnore(old(add), AddRow(ListIdInQuery(data.listname), data.addChunkNum, "", ""))
      ensures sub == old(sub) && fullhash == old(fullhash) && rfd == old(rfd) && timeout == old(timeout)
    {
      filled := data.(hostKey := "", prefix := "");
      AddInsert(filled);
    }

    /** sub_insert: `INSERT IGNORE INTO gsb_sub`; no other table changes. */
    method SubInsert(data: SubData)
      modifies this`sub
      ensures sub == InsertIgnore(old(sub), SubRow(ListIdInQuery(data.listname), data.addChunkNum, data.subChunkNum,
                                                   data.hostKey, data.prefix))
      ensures add == old(add) && fullhash == old(fullhash) && rfd == old(rfd) && timeout == old(timeout)
    {
      sub := InsertIgnore(sub, SubRow(ListIdInQuery(data.listname), data.addChunkNum, data.subChunkNum,
                                      data.hostKey, data.prefix));
    }

    /**
     * sub_empty: blanks the caller's host key and prefix, forces its add chunk
     * to 0 whatever was passed, and inserts that row.
     */
    method SubEmpty(data: SubData) returns (filled: SubData)
      modifies this`sub
      ensures filled == SubData(data.listname, 0, data.subChunkNum, "", "")
      ensures sub == InsertIgnore(old(sub), SubRow(ListIdInQuery(data.listname), 0, data.subChunkNum, "", ""))
      ensures add == old(add) && fullhash == old(fullhash) && rfd == old(rfd) && timeout == old(timeout)
    {
      filled := data.(hostKey := "", prefix := "");
      filled := filled.(addChunkNum := 0);
      SubInsert(filled);
    }

    /** fullhash_delete_old: drops every cached full hash stored before now - 2700. */
    method FullhashDeleteOld(now: int)
      modifies this`fullhash
      ensures fullhash == Fullhash.DeleteOld(old(fullhash), now)
      ensures add == old(add) && sub == old(sub) && rfd == old(rfd) && timeout == old(timeout)
    {
      fullhash := Fullhash.DeleteOld(fullhash, now);
    }

    /** fullhash_insert: `REPLACE INTO gsb_fullhash`, stamping the row with `now`. */
    method FullhashInsert(data: HashData, now: int)
      modifies this`fullhash
      ensures fullhash == Fullhash.Replace(old(fullhash), ListIdInQuery(data.listname), data.addChunkNum, data.hash, now)
      ensures add == old(add) && sub == old(sub) && rfd == old(rfd) && timeout == old(timeout)
    {
      fullhash := Fullhash.Replace(fullhash, ListIdInQuery(data.listname), data.addChunkNum, data.hash, now);
    }

    /** fullhash_exists: the list is taken from `list_id` when given, from `listname` otherwise. */
    function FullhashExists(list: ListRef, hash: string, now: int): (b: bool)
      reads this
      ensures list.ById? ==> b == Fullhash.Exists(fullhash, list.listId, hash, now)
      ensures list.ByName? ==> b == Fullhash.Exists(fullhash, ListIdInQuery(list.listname), hash, now)
    {
      var id := match list
        case ById(id) => id
        case ByName(name) => ListIdInQuery(name);
      Fullhash.Exists(fullhash, id, hash, now)
    }

    /** rfd_get: the gsb_rfd row, or nothing (PHP's null) before any rfd_set. */
    function RfdGet(): (r: Option<Rfd>)
      reads this
      ensures r == rfd
    {
      rfd
    }

    /** rfd_set: replaces the whole gsb_rfd row and clears the in-memory timeout. */
    method RfdSet(data: Rfd)
      modifies this`rfd, this`timeout
      ensures rfd == Some(data) && timeout == 0
      ensures add == old(add) && sub == old(sub) && fullhash == old(fullhash)
    {
      rfd := Some(data);
      timeout := 0;
    }

    /** set_timeout: keeps the next-attempt time in memory only, until the next rfd_set. */
    method SetTimeout(next: int)
      modifies this`timeout
      ensures timeout == next
      ensures add == old(add) && sub == old(sub) && fullhash == old(fullhash) && rfd == old(rfd)
    {
      timeout := next;
    }

    /** get_timeout: the in-memory next-attempt time. */
    function GetTimeout(): (t: int)
      reads this
      ensures t == timeout
    {
      timeout
    }
  }
}
