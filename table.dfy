/**
 * The inventory table: an ordered sequence of CD records. Duplicate IDs are allowed, and
 * nothing restricts the ID range once a record is in the table.
 */
module Table {

  /** One row of the table: the dictionary `{"ID": int, "Title": str, "Artist": str}`. */
  datatype Record = Record(id: int, title: string, artist: string)

  /**
   * The position of the first record whose ID is `id`, scanning from the front; `|t|` when
   * there is none.
   */
  function FirstIndex(t: seq<Record>, id: int): (k: nat)
    ensures k <= |t|
    ensures k < |t| ==> t[k].id == id
    ensures forall j :: 0 <= j < k ==> t[j].id != id
  {
    if t == [] then 0
    else if t[0].id == id then 0
    else 1 + FirstIndex(t[1..], id)
  }

  predicate HasId(t: seq<Record>, id: int) {
    exists j :: 0 <= j < |t| && t[j].id == id
  }

  lemma FirstIndexFound(t: seq<Record>, id: int)
    ensures FirstIndex(t, id) < |t| <==> HasId(t, id)
  {
    if HasId(t, id) {
      var j :| 0 <= j < |t| && t[j].id == id;
      assert FirstIndex(t, id) <= j;
    }
  }

  /** The table after deleting the first record with ID `id`, if any. */
  function RemoveFirst(t: seq<Record>, id: int): seq<Record> {
    if t == [] then []
    else if t[0].id == id then t[1..]
    else [t[0]] + RemoveFirst(t[1..], id)
  }

  /**
   * Deleting cuts out exactly the first match: the records before it and after it stay, in
   * the same order; with no match the table is unchanged.
   */
  lemma {:induction false} RemoveFirstSplice(t: seq<Record>, id: int)
    ensures var k := FirstIndex(t, id);
      RemoveFirst(t, id) == if k < |t| then t[..k] + t[k + 1..] else t
  {
    if t != [] && t[0].id != id {
      RemoveFirstSplice(t[1..], id);
      var k := FirstIndex(t, id);
      if k < |t| {
        assert t[1..][..k - 1] == t[1..k];
        assert t[1..][k..] == t[k + 1..];
        assert [t[0]] + t[1..k] == t[..k];
      }
    }
  }

  /**
   * Delete of a present ID: the length drops by exactly one, the first match is the record
   * removed, the records before it stay in place and every later record (including later
   * duplicates of the ID) moves up by one, in the same order.
   */
  lemma RemoveFirstPresent(t: seq<Record>, id: int)
    requires HasId(t, id)
    ensures var k := FirstIndex(t, id); var r := RemoveFirst(t, id);
      && k < |t| && t[k].id == id
      && |r| == |t| - 1
      && (forall j :: 0 <= j < k ==> r[j] == t[j])
      && (forall j :: k < j < |t| ==> r[j - 1] == t[j])
  {
    FirstIndexFound(t, id);
    RemoveFirstSplice(t, id);
  }

  /** Delete of a present ID removes exactly one occurrence of the first matching record. */
  lemma {:induction false} RemoveFirstMultiset(t: seq<Record>, id: int)
    requires HasId(t, id)
    ensures multiset(RemoveFirst(t, id)) + multiset{t[FirstIndex(t, id)]} == multiset(t)
  {
    assert t == [t[0]] + t[1..];
    if t[0].id != id {
      var j :| 0 <= j < |t| && t[j].id == id;
      assert t[1..][j - 1].id == id;
      RemoveFirstMultiset(t[1..], id);
    }
  }

  /** Delete of an absent ID leaves the table as it was. */
  lemma RemoveFirstAbsent(t: seq<Record>, id: int)
    requires !HasId(t, id)
    ensures RemoveFirst(t, id) == t
  {
    FirstIndexFound(t, id);
    RemoveFirstSplice(t, id);
  }

  /** Deleting by ID never touches a record with another ID: their multiset is unchanged. */
  lemma {:induction false} RemoveFirstKeepsOthers(t: seq<Record>, id: int, x: Record)
    requires x.id != id
    ensures multiset(RemoveFirst(t, id))[x] == multiset(t)[x]
  {
    if t != [] {
      assert t == [t[0]] + t[1..];
      if t[0].id != id {
        RemoveFirstKeepsOthers(t[1..], id, x);
      }
    }
  }
}
