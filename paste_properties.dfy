/** Properties of the paste slice that relate several operations, or that
    depend on the ids in the collection being distinct. The reducers never
    check that an id is new; uniqueness holds only as long as callers supply
    fresh ids to `addPaste`. */
module PasteProperties {
  import opened PasteSlice

  /** No two records of the collection share an id. */
  ghost predicate UniqueIds(s: seq<Paste>) {
    forall i, j :: 0 <= i < j < |s| ==> s[i].id != s[j].id
  }

  /** Appending keeps ids distinct exactly when the new id is not yet used. */
  lemma AddKeepsUniqueIds(s: seq<Paste>, p: Paste)
    requires UniqueIds(s)
    ensures UniqueIds(s + [p]) <==> !HasId(s, p.id)
  {
    var t := s + [p];
    if HasId(s, p.id) {
      var k :| 0 <= k < |s| && s[k].id == p.id;
      assert t[k].id == t[|s|].id;
    }
  }

  /** After an append, looking the new id up yields the new record when the id
      was fresh, and the older record with that id otherwise. */
  lemma AddThenFind(s: seq<Paste>, p: Paste)
    ensures !HasId(s, p.id) ==> Find(s + [p], p.id) == Some(p)
    ensures HasId(s, p.id) ==> Find(s + [p], p.id) == Find(s, p.id)
  {
    var t := s + [p];
    if HasId(s, p.id) {
      var j := FindIndex(s, p.id);
      assert forall k :: 0 <= k <= j ==> t[k] == s[k];
      FindIndexIsFirstMatch(t, p.id, j);
    } else {
      assert forall k :: 0 <= k < |s| ==> t[k] == s[k];
      FindIndexIsFirstMatch(t, p.id, |s|);
    }
  }

  /** Removing never leaves a record with the removed id behind when ids are
      distinct, and keeps them distinct. */
  lemma RemoveKeepsUniqueIds(s: seq<Paste>, id: string)
    requires UniqueIds(s)
    ensures UniqueIds(Removed(s, id))
    ensures !HasId(Removed(s, id), id)
  {
  }

  /** Removing an id that is present takes exactly the first matching record
      out of the multiset of records. */
  lemma RemovedMultiset(s: seq<Paste>, id: string)
    requires HasId(s, id)
    ensures Find(s, id).Some?
    ensures multiset(Removed(s, id)) + multiset{Find(s, id).value} == multiset(s)
  {
    var i := FindIndex(s, id);
    assert Removed(s, id) == s[..i] + s[i + 1..];
    assert s == s[..i] + [s[i]] + s[i + 1..];
  }

  /** An update keeps ids distinct: the replacement carries the id of the
      record it replaces. */
  lemma UpdateKeepsUniqueIds(s: seq<Paste>, p: Paste)
    requires UniqueIds(s)
    ensures UniqueIds(Updated(s, p))
  {
  }

  /** After an update whose id is present, looking that id up yields the
      replacement record. */
  lemma UpdateThenFind(s: seq<Paste>, p: Paste)
    requires HasId(s, p.id)
    ensures Find(Updated(s, p), p.id) == Some(p)
  {
    var r := Updated(s, p);
    var i :| IsFirstMatch(s, p.id, i) && r == s[i := p];
    assert forall k :: 0 <= k < i ==> r[k] == s[k];
    assert IsFirstMatch(r, p.id, i);
    assert FindIndex(r, p.id) == i;
  }

  /** With a missing id, one of update and remove reports an error and the
      other reports nothing: update emits one error toast, remove emits no
      toast. Both leave the collection and the storage slot as they were. */
  method NotFoundDiffers(stored: Option<seq<Paste>>, p: Paste)
    requires !HasId(Load(stored), p.id)
  {
    var store := new PasteStore(stored);
    store.RemovePaste(p.id);
    assert store.pastes == Load(stored) && store.storage == stored && store.toasts == [];
    store.UpdatePaste(p);
    assert store.pastes == Load(stored) && store.storage == stored;
    assert store.toasts == [Error(NotFoundMessage)];
  }

  /** Create, edit, delete, edit a missing id, create again, reset, and load
      afresh, each step verified against the store's contracts. */
  method Scenario() {
    var a1 := Paste("a1", "T1", "C1", "2024-01-01T00:00:00Z");
    var a1Edited := Paste("a1", "T1-edited", "C1", "2024-01-01T00:00:00Z");
    var zz := Paste("zz", "T", "C", "2024-01-01T00:00:00Z");
    var store := new PasteStore(None);
    store.AddPaste(a1);
    assert store.pastes == [a1];
    assert HasId(store.pastes, "a1") by { assert store.pastes[0].id == "a1"; }
    store.UpdatePaste(a1Edited);
    assert store.pastes == [a1Edited];
    assert HasId(store.pastes, "a1") by { assert store.pastes[0].id == "a1"; }
    store.RemovePaste("a1");
    assert store.pastes == [] && store.storage == Some([]);
    store.UpdatePaste(zz);
    assert store.pastes == [];
    assert store.toasts == [Success(CreatedMessage), Success(UpdatedMessage),
                            Success(DeletedMessage), Error(NotFoundMessage)];
    store.AddPaste(zz);
    store.ResetPastes();
    var reloaded := new PasteStore(store.storage);
    assert reloaded.pastes == [];
  }
}
