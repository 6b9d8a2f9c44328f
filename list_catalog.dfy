/**
 * The fixed catalogue of blacklist names and their small integer ids,
 * built by the storage constructor (lib/GSB_WP_Storage.php:14-19).
 */
module ListCatalog {
  import opened Wrappers

  /** The PHP array LIST_ENUM: name => id, in declaration order. */
  const ListEnum: seq<(string, int)> := [
    ("goog-malware-shavar", 1),
    ("goog-regtest-shavar", 2),
    ("goog-whitedomain-shavar", 3),
    ("googpub-phish-shavar", 4)
  ]

  /** What id2list answers for an id no list carries. */
  const UnknownListName: string := "???"

  predicate DistinctKeys(entries: seq<(string, int)>) {
    forall i, j :: 0 <= i < j < |entries| ==> entries[i].0 != entries[j].0
  }

  predicate DistinctValues(entries: seq<(string, int)>) {
    forall i, j :: 0 <= i < j < |entries| ==> entries[i].1 != entries[j].1
  }

  /** `$array[$name]` on an ordered PHP array of pairs: the value stored under the key, or nothing. */
  function KeyLookup(entries: seq<(string, int)>, name: string): (r: Option<int>)
    ensures r.None? <==> forall i :: 0 <= i < |entries| ==> entries[i].0 != name
    ensures r.Some? ==> exists i :: 0 <= i < |entries| && entries[i] == (name, r.value)
  {
    if entries == [] then None
    else if entries[0].0 == name then Some(entries[0].1)
    else
      var r := KeyLookup(entries[1..], name);
      assert forall i :: 1 <= i < |entries| ==> entries[i] == entries[1..][i - 1];
      r
  }

  /**
   * The foreach of id2list: the key of the first pair whose value equals `id`,
   * or "???" when no pair has that value.
   */
  function FirstKeyWithValue(entries: seq<(string, int)>, id: int): (name: string)
    ensures (forall i :: 0 <= i < |entries| ==> entries[i].1 != id) ==> name == UnknownListName
    ensures (exists i :: 0 <= i < |entries| && entries[i].1 == id) ==>
              exists i :: 0 <= i < |entries| && entries[i] == (name, id)
    ensures forall i :: 0 <= i < |entries| && entries[i].1 == id && (forall j :: 0 <= j < i ==> entries[j].1 != id) ==>
              name == entries[i].0
  {
    if entries == [] then UnknownListName
    else if entries[0].1 == id then entries[0].0
    else
      var name := FirstKeyWithValue(entries[1..], id);
      assert forall i :: 1 <= i < |entries| ==> entries[i] == entries[1..][i - 1];
      name
  }

  /** list2id: the id of a catalogue name; an unknown name gives nothing (an undefined index in PHP). */
  function ListToId(name: string): (r: Option<int>)
    ensures r.Some? <==> exists i :: 0 <= i < |ListEnum| && ListEnum[i].0 == name
    ensures r.Some? ==> 1 <= r.value <= 4
  {
    KeyLookup(ListEnum, name)
  }

  /**
   * The list id that ends up in the SQL text when a caller passes a list name:
   * PHP's null for an unknown name is printed as 0 by a %d placeholder and as ''
   * by a %s one, which MySQL compares with the integer column as 0.
   */
  function ListIdInQuery(name: string): (id: int)
    ensures ListToId(name).Some? ==> id == ListToId(name).value
    ensures id == 0 <==> ListToId(name).None?
  {
    match ListToId(name)
    case Some(id) => id
    case None => 0
  }

  /** id2list: scans the catalogue in order and returns the first name whose id matches. */
  method IdToList(id: int) returns (name: string)
    ensures name == FirstKeyWithValue(ListEnum, id)
  {
    var i := 0;
    while i < |ListEnum|
      invariant 0 <= i <= |ListEnum|
      invariant FirstKeyWithValue(ListEnum[i..], id) == FirstKeyWithValue(ListEnum, id)
    {
      if id == ListEnum[i].1 {
        return ListEnum[i].0;
      }
      assert ListEnum[i..][1..] == ListEnum[i + 1..];
      i := i + 1;
    }
    name := UnknownListName;
  }

  lemma ListEnumIsInjective()
    ensures DistinctKeys(ListEnum) && DistinctValues(ListEnum)
  {
  }

  /** Looking up the key that the value search found gives back the value, when keys are distinct. */
  lemma LookupOfFoundKey(entries: seq<(string, int)>, id: int)
    requires DistinctKeys(entries)
    requires exists i :: 0 <= i < |entries| && entries[i].1 == id
    ensures KeyLookup(entries, FirstKeyWithValue(entries, id)) == Some(id)
  {
  }

  /** Searching for the value that the key lookup found gives back the key, when values are distinct. */
  lemma SearchOfFoundValue(entries: seq<(string, int)>, name: string)
    requires DistinctValues(entries)
    requires KeyLookup(entries, name).Some?
    ensures FirstKeyWithValue(entries, KeyLookup(entries, name).value) == name
  {
  }

  /** id2list(list2id(name)) == name for every catalogue name. */
  lemma ListNameOfListToId(name: string)
    requires ListToId(name).Some?
    ensures FirstKeyWithValue(ListEnum, ListToId(name).value) == name
  {
  }

  /** list2id(id2list(id)) == id for every catalogue id 1..4. */
  lemma ListToIdOfListName(id: int)
    requires 1 <= id <= 4
    ensures ListToId(FirstKeyWithValue(ListEnum, id)) == Some(id)
  {
  }

  /** Any id outside 1..4 is reported as "???". */
  lemma ListNameOfUnknownId(id: int)
    requires id < 1 || 4 < id
    ensures FirstKeyWithValue(ListEnum, id) == UnknownListName
  {
  }
}
