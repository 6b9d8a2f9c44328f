/**
 * Call sequences a sync client makes on the storage, with what the storage's
 * contracts let it conclude about them.
 */
module Scenarios {
  import opened Wrappers
  import opened ListCatalog
  import opened Tables
  import Fullhash
  import opened Storage

  /** Inserting the same add row twice leaves gsb_add as a single insert does. */
  method AddInsertTwice(s: GsbStorage, data: AddData)
    modifies s
    ensures s.add == InsertIgnore(old(s.add), AddRow(ListIdInQuery(data.listname), data.addChunkNum, data.hostKey, data.prefix))
    ensures s.sub == old(s.sub) && s.fullhash == old(s.fullhash)
  {
    s.AddInsert(data);
    s.AddInsert(data);
    InsertIgnoreIdempotent(old(s.add), AddRow(ListIdInQuery(data.listname), data.addChunkNum, data.hostKey, data.prefix));
  }

  /** The same for gsb_sub. */
  method SubInsertTwice(s: GsbStorage, data: SubData)
    modifies s
    ensures s.sub == InsertIgnore(old(s.sub), SubRow(ListIdInQuery(data.listname), data.addChunkNum, data.subChunkNum,
                                                     data.hostKey, data.prefix))
    ensures s.add == old(s.add) && s.fullhash == old(s.fullhash)
  {
    s.SubInsert(data);
    s.SubInsert(data);
    InsertIgnoreIdempotent(old(s.sub), SubRow(ListIdInQuery(data.listname), data.addChunkNum, data.subChunkNum,
                                              data.hostKey, data.prefix));
  }

  /**
   * The in-memory timeout is read back after set_timeout and is back to 0 once
   * rfd_set persists a new retry state, which rfd_get then returns.
   */
  method TimeoutThenRfdSet(s: GsbStorage, next: int, state: Rfd) returns (before: int, after: int)
    modifies s
    ensures before == next && after == 0
    ensures s.RfdGet() == Some(state)
  {
    s.SetTimeout(next);
    before := s.GetTimeout();
    s.RfdSet(state);
    after := s.GetTimeout();
  }

  /** A fresh storage object starts with timeout 0, whatever the tables hold. */
  method FreshTimeout(add: set<AddRow>, sub: set<SubRow>, cache: Fullhash.Cache, rfd: Option<Rfd>) returns (t: int)
    ensures t == 0
  {
    var s := new GsbStorage(add, sub, cache, rfd);
    t := s.GetTimeout();
  }

  /** delete_all_data empties the prefix tables and the cache but keeps the retry state. */
  method ResetKeepsRetryState(s: GsbStorage, state: Rfd)
    modifies s
    ensures s.add == {} && s.sub == {} && s.fullhash == map[]
    ensures s.RfdGet() == Some(state)
  {
    s.RfdSet(state);
    s.DeleteAllData();
  }

  /**
   * A full hash cached at t0 is reported at t0 + 2699, not at t0 + 2700, and a
   * purge at t0 + 2701 removes it.
   */
  method FullhashLifetime(s: GsbStorage, data: HashData, t0: int) returns (inTime: bool, atTtl: bool, afterPurge: bool)
    modifies s
    ensures inTime && !atTtl && !afterPurge
    ensures Fullhash.HashKey(ListIdInQuery(data.listname), data.hash) !in s.fullhash
  {
    s.FullhashInsert(data, t0);
    inTime := s.FullhashExists(ByName(data.listname), data.hash, t0 + 2699);
    atTtl := s.FullhashExists(ByName(data.listname), data.hash, t0 + 2700);
    s.FullhashDeleteOld(t0 + 2701);
    afterPurge := s.FullhashExists(ByName(data.listname), data.hash, t0 - 1);
  }

  /**
   * An add entry of the malware list for host key "h1" is selected until a sub
   * entry for the same chunk and prefix is inserted.
   */
  method SubInsertHides(s: GsbStorage) returns (before: set<AddRow>, after: set<AddRow>)
    requires s.add == {} && s.sub == {}
    modifies s
    ensures |before| == 1 && after == {}
  {
    var name := "goog-malware-shavar";
    assert ListToId(name) == Some(1) by {
      assert ListEnum[0].0 == name;
    }
    s.AddInsert(AddData(name, 1, "h1", "p1"));
    assert s.add == {AddRow(1, 1, "h1", "p1")};
    before := s.HostkeySelectPrefixes(Single("h1"));
    s.SubInsert(SubData(name, 1, 9, "h1", "p1"));
    after := s.HostkeySelectPrefixes(Single("h1"));
    SubInsertHidesScenario();
  }
}
