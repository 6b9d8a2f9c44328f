/**
 * The prefix tables gsb_add and gsb_sub as finite sets of rows, and the SQL
 * statements the storage runs on them, as functions from table to table or
 * from tables to a query result.
 */
module Tables {

  /** A gsb_add row; all four columns together form the unique key. */
  datatype AddRow = AddRow(listId: int, addChunkNum: int, hostKey: string, prefix: string)

  /** A gsb_sub row; all five columns together form the unique key. */
  datatype SubRow = SubRow(listId: int, addChunkNum: int, subChunkNum: int, hostKey: string, prefix: string)

  /** `INSERT IGNORE`: the row is added, and a row already present is silently kept as it is. */
  function InsertIgnore<T>(table: set<T>, row: T): (r: set<T>)
    ensures row in r && table <= r
    ensures forall x :: x in r ==> x in table || x == row
    ensures row in table ==> r == table
  {
    table + {row}
  }

  /** Inserting the same row twice leaves the table as one insert does. */
  lemma InsertIgnoreIdempotent<T>(table: set<T>, row: T)
    ensures InsertIgnore(InsertIgnore(table, row), row) == InsertIgnore(table, row)
  {
  }

  /** The WHERE clause of the range deletes: `list_id = id AND add_chunk_num BETWEEN min AND max`. */
  predicate InChunkRange(listId: int, addChunkNum: int, id: int, min: int, max: int) {
    listId == id && min <= addChunkNum && addChunkNum <= max
  }

  /** `DELETE FROM gsb_add WHERE list_id = id AND add_chunk_num >= min AND add_chunk_num <= max`. */
  function DeleteAddRange(add: set<AddRow>, id: int, min: int, max: int): (r: set<AddRow>)
    ensures r <= add
    ensures forall a :: a in r ==> !InChunkRange(a.listId, a.addChunkNum, id, min, max)
    ensures forall a :: a in add && !InChunkRange(a.listId, a.addChunkNum, id, min, max) ==> a in r
  {
    set a | a in add && !InChunkRange(a.listId, a.addChunkNum, id, min, max)
  }

  /** The same delete on gsb_sub; the range is on the add chunk a sub row refers to. */
  function DeleteSubRange(sub: set<SubRow>, id: int, min: int, max: int): (r: set<SubRow>)
    ensures r <= sub
    ensures forall s :: s in r ==> !InChunkRange(s.listId, s.addChunkNum, id, min, max)
    ensures forall s :: s in sub && !InChunkRange(s.listId, s.addChunkNum, id, min, max) ==> s in r
  {
    set s | s in sub && !InChunkRange(s.listId, s.addChunkNum, id, min, max)
  }

  /** The join condition: a sub row cancels an add row with the same list, host key, add chunk and prefix. */
  predicate Cancels(s: SubRow, a: AddRow) {
    s.listId == a.listId && s.hostKey == a.hostKey && s.addChunkNum == a.addChunkNum && s.prefix == a.prefix
  }

  /** The LEFT OUTER JOIN finds no sub row for `a`, so `s.sub_chunk_num IS NULL` holds. */
  predicate Live(sub: set<SubRow>, a: AddRow) {
    forall s :: s in sub ==> !Cancels(s, a)
  }

  /** The argument of hostkey_select_prefixes: one host key, or an array of them. */
  datatype HostKeys = Single(key: string) | Several(keys: seq<string>)

  /** PHP's empty(): true of "", of "0" and of an empty array, and of nothing else here. */
  predicate IsEmptyArgument(k: HostKeys): (b: bool)
    ensures k.Single? ==> (b <==> k.key in {"", "0"})
    ensures k.Several? ==> (b <==> |k.keys| == 0)
  {
    match k
    case Single(key) => key == "" || key == "0"
    case Several(keys) => keys == []
  }

  /** The host keys the WHERE clause compares `a.host_key` with. */
  function RequestedKeys(k: HostKeys): (r: set<string>)
    ensures k.Single? ==> r == {k.key}
    ensures k.Several? ==> forall h :: h in r <==> h in k.keys
  {
    match k
    case Single(key) => {key}
    case Several(keys) => set h | h in keys
  }

  /**
   * hostkey_select_prefixes: the add rows for the requested host keys that no
   * sub row cancels; an empty argument returns nothing without querying.
   */
  function SelectPrefixes(add: set<AddRow>, sub: set<SubRow>, keys: HostKeys): (r: set<AddRow>)
    ensures IsEmptyArgument(keys) ==> r == {}
    ensures r <= add
    ensures forall a :: a in r ==> a.hostKey in RequestedKeys(keys) && Live(sub, a)
    ensures !IsEmptyArgument(keys) ==>
              forall a :: a in add && a.hostKey in RequestedKeys(keys) && Live(sub, a) ==> a in r
  {
    if IsEmptyArgument(keys) then {}
    else set a | a in add && a.hostKey in RequestedKeys(keys) && Live(sub, a)
  }

  /**
   * Inserting a sub row removes from the query result exactly the add rows it
   * cancels, and nothing else.
   */
  lemma SelectAfterSubInsert(add: set<AddRow>, sub: set<SubRow>, keys: HostKeys, s: SubRow)
    ensures SelectPrefixes(add, InsertIgnore(sub, s), keys)
         == SelectPrefixes(add, sub, keys) - set a | a in add && Cancels(s, a)
  {
  }

  /**
   * An add row whose add chunk falls in a sub_delete range reappears in the
   * query result once that range of sub rows is deleted.
   */
  lemma SelectAfterSubDelete(add: set<AddRow>, sub: set<SubRow>, keys: HostKeys, min: int, max: int, a: AddRow)
    requires a in add && min <= a.addChunkNum <= max
    requires !IsEmptyArgument(keys) && a.hostKey in RequestedKeys(keys)
    ensures a in SelectPrefixes(add, DeleteSubRange(sub, a.listId, min, max), keys)
  {
  }

  /** After add_delete no add row of the deleted range is ever returned by the query. */
  lemma SelectAfterAddDelete(add: set<AddRow>, sub: set<SubRow>, keys: HostKeys, id: int, min: int, max: int)
    ensures forall a :: a in SelectPrefixes(DeleteAddRange(add, id, min, max), sub, keys) ==>
              !InChunkRange(a.listId, a.addChunkNum, id, min, max)
  {
  }

  /**
   * The scenario of a malware add entry for host key "h1" which a later sub
   * chunk 9 cancels: one result before the sub insert, none after.
   */
  lemma SubInsertHidesScenario()
    ensures var add := {AddRow(1, 1, "h1", "p1")};
            && SelectPrefixes(add, {}, Single("h1")) == add
            && SelectPrefixes(add, InsertIgnore({}, SubRow(1, 1, 9, "h1", "p1")), Single("h1")) == {}
  {
  }
}
