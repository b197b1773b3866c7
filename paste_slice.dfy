/** A model of the paste slice of a client-side paste manager: an ordered
    collection of paste records, mirrored to one local-storage slot named
    "pastes", and a log of the toast notifications the reducers emit.

    The browser's local storage is reduced to the one slot the slice uses.
    A stored value is the collection itself: serialising to JSON and parsing
    it back are taken to be the identity. */
module PasteSlice {

  datatype Option<T> = None | Some(value: T)

  /** One paste record; every field is a string, as in the stored JSON. */
  datatype Paste = Paste(id: string, title: string, content: string, createdAt: string)

  /** A toast notification: `toast.success(...)` or `toast.error(...)`. */
  datatype Toast = Success(message: string) | Error(message: string)

  const CreatedMessage := "Paste created successfully"
  const DeletedMessage := "Paste deleted successfully"
  const UpdatedMessage := "Paste updated successfully"
  const NotFoundMessage := "Paste not found"

  /** Some record of `s` has the id `id`. */
  ghost predicate HasId(s: seq<Paste>, id: string) {
    exists k :: 0 <= k < |s| && s[k].id == id
  }

  /** `i` is the first position of `s` whose record has the id `id`. */
  ghost predicate IsFirstMatch(s: seq<Paste>, id: string, i: int) {
    0 <= i < |s| && s[i].id == id && forall k :: 0 <= k < i ==> s[k].id != id
  }

  /** `Array.prototype.findIndex` with the predicate "has id `id`": the first
      matching position, or -1 when no record matches. */
  function FindIndex(s: seq<Paste>, id: string): (r: int)
    ensures -1 <= r < |s|
    ensures r == -1 <==> !HasId(s, id)
    ensures r != -1 ==> IsFirstMatch(s, id, r)
    decreases |s|
  {
    if |s| == 0 then -1
    else if s[0].id == id then 0
    else
      var r := FindIndex(s[1..], id);
      assert forall k :: 1 <= k < |s| ==> s[k] == s[1..][k - 1];
      if r == -1 then -1 else r + 1
  }

  /** The first match is unique, so `FindIndex` is determined by it. */
  lemma FindIndexIsFirstMatch(s: seq<Paste>, id: string, i: int)
    requires IsFirstMatch(s, id, i)
    ensures FindIndex(s, id) == i
  {
  }

  /** `Array.prototype.find` with the predicate "has id `id`", the lookup the
      views use to display or edit one paste. */
  function Find(s: seq<Paste>, id: string): (r: Option<Paste>)
    ensures r.None? <==> !HasId(s, id)
    ensures r.Some? ==> r.value.id == id && exists i :: IsFirstMatch(s, id, i) && s[i] == r.value
  {
    var i := FindIndex(s, id);
    if i == -1 then None else Some(s[i])
  }

  /** The collection the slice starts with, given what the slot holds at
      start-up: the stored collection, or the empty one when the key is
      absent. */
  function Load(slot: Option<seq<Paste>>): seq<Paste> {
    match slot
    case Some(stored) => stored
    case None => []
  }

  /** The collection after `removePaste(id)`: the record at the first matching
      position is spliced out; without a match nothing changes. */
  function Removed(s: seq<Paste>, id: string): (r: seq<Paste>)
    ensures !HasId(s, id) ==> r == s
    ensures HasId(s, id) ==> |r| == |s| - 1
    ensures HasId(s, id) ==> exists i :: IsFirstMatch(s, id, i) && r == s[..i] + s[i + 1..]
  {
    var i := FindIndex(s, id);
    if i >= 0 then s[..i] + s[i + 1..] else s
  }

  /** The collection after `updatePaste(p)`: the record at the first position
      with `p`'s id is replaced by `p`; without a match nothing changes. */
  function Updated(s: seq<Paste>, p: Paste): (r: seq<Paste>)
    ensures |r| == |s|
    ensures !HasId(s, p.id) ==> r == s
    ensures HasId(s, p.id) ==> exists i :: IsFirstMatch(s, p.id, i) && r == s[i := p]
  {
    var i := FindIndex(s, p.id);
    if i != -1 then s[i := p] else s
  }

  /** The slice's state: the in-memory collection, the "pastes" slot of local
      storage, and every toast emitted so far. */
  class PasteStore {
    var pastes: seq<Paste>
    var storage: Option<seq<Paste>>
    var toasts: seq<Toast>

    /** Memory and storage agree: loading the slot afresh would give back
        exactly the in-memory collection. */
    ghost predicate Valid()
      reads this
    {
      Load(storage) == pastes
    }

    /** `initialState`: the collection read from the slot at start-up. */
    constructor (stored: Option<seq<Paste>>)
      ensures storage == stored && toasts == []
      ensures stored.Some? ==> pastes == stored.value
      ensures stored.None? ==> pastes == []
      ensures Valid()
    {
      pastes := Load(stored);
      storage := stored;
      toasts := [];
    }

    /** `addPaste`: append with no duplicate-id check, persist, report. */
    method AddPaste(paste: Paste)
      modifies this
      ensures pastes == old(pastes) + [paste]
      ensures storage == Some(pastes)
      ensures toasts == old(toasts) + [Success(CreatedMessage)]
      ensures Valid()
    {
      pastes := pastes + [paste];
      storage := Some(pastes);
      toasts := toasts + [Success(CreatedMessage)];
    }

    /** `removePaste`: splice out the first record with id `pasteId`, persist
        and report; when no record has that id, do nothing at all. */
    method RemovePaste(pasteId: string)
      modifies this
      ensures pastes == Removed(old(pastes), pasteId)
      ensures HasId(old(pastes), pasteId) ==>
        |pastes| == |old(pastes)| - 1 &&
        storage == Some(pastes) &&
        toasts == old(toasts) + [Success(DeletedMessage)]
      ensures !HasId(old(pastes), pasteId) ==>
        pastes == old(pastes) && storage == old(storage) && toasts == old(toasts)
      ensures old(Valid()) ==> Valid()
    {
      var index := FindIndex(pastes, pasteId);
      if index >= 0 {
        pastes := pastes[..index] + pastes[index + 1..];
        storage := Some(pastes);
        toasts := toasts + [Success(DeletedMessage)];
      }
    }

    /** `updatePaste`: overwrite the first record with `paste`'s id in place,
        persist and report; when no record has that id, leave the collection
        and the slot alone and report "not found". */
    method UpdatePaste(paste: Paste)
      modifies this
      ensures pastes == Updated(old(pastes), paste)
      ensures |pastes| == |old(pastes)|
      ensures HasId(old(pastes), paste.id) ==>
        storage == Some(pastes) &&
        toasts == old(toasts) + [Success(UpdatedMessage)]
      ensures !HasId(old(pastes), paste.id) ==>
        pastes == old(pastes) && storage == old(storage) &&
        toasts == old(toasts) + [Error(NotFoundMessage)]
      ensures old(Valid()) ==> Valid()
    {
      var index := FindIndex(pastes, paste.id);
      if index != -1 {
        pastes := pastes[index := paste];
        storage := Some(pastes);
        toasts := toasts + [Success(UpdatedMessage)];
      } else {
        toasts := toasts + [Error(NotFoundMessage)];
      }
    }

    /** `resetPastes`: empty the collection and delete the storage key (the
        slot becomes absent, not an empty list); no toast. */
    method ResetPastes()
      modifies this
      ensures pastes == [] && storage == None && toasts == old(toasts)
      ensures Valid()
    {
      pastes := [];
      storage := None;
    }
  }
}
