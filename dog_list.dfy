/**
 * The dog list component (webapp/frontend/src/components/DogList.js): a
 * local copy of the dogs it was given, inline editing, and deletion behind
 * a confirmation.
 */
module DogListView {
  import opened Wrappers
  import opened Docs

  /**
   * `prev.map(dog => dog._id === editDogId ? updatedDog : dog)`; with no
   * dog being edited (`null`) nothing matches.
   */
  function ReplaceById(list: seq<Doc>, editId: Option<string>, updated: Doc): seq<Doc>
  {
    seq(|list|, i requires 0 <= i < |list| => if Some(list[i].oid) == editId then updated else list[i])
  }

  /**
   * Every entry with the edited `_id` is replaced by the server's answer, the
   * others are unchanged, and the length is kept.
   */
  lemma ReplaceByIdEffect(list: seq<Doc>, editId: Option<string>, updated: Doc)
    ensures |ReplaceById(list, editId, updated)| == |list|
    ensures forall i :: 0 <= i < |list| && Some(list[i].oid) == editId ==> ReplaceById(list, editId, updated)[i] == updated
    ensures forall i :: 0 <= i < |list| && Some(list[i].oid) != editId ==> ReplaceById(list, editId, updated)[i] == list[i]
  {
  }

  /** When the answer keeps the edited `_id`, submitting it again changes nothing more. */
  lemma ReplaceByIdIdempotent(list: seq<Doc>, editId: Option<string>, updated: Doc)
    requires editId == Some(updated.oid)
    ensures ReplaceById(ReplaceById(list, editId, updated), editId, updated) == ReplaceById(list, editId, updated)
  {
  }

  /** Deleting an `_id` that every entry carries leaves the empty-list message. */
  lemma DeleteAllEmpties(list: seq<Doc>, id: string)
    requires forall d :: d in list ==> d.oid == id
    ensures RemoveByOid(list, id) == []
  {
  }

  /** The text shown instead of the cards. */
  const NoDogsMessage := "No dogs available."

  class DogList {
    var dogList: Option<seq<Doc>>
    var editDogId: Option<string>
    var editForm: Option<Doc>
    var error: string
    var deleteConfirm: Option<string>

    /** The component's initial state: its own copy of the `dogs` prop. */
    constructor (dogs: Option<seq<Doc>>)
      ensures dogList == dogs && editDogId == None && editForm == None
      ensures error == "" && deleteConfirm == None
    {
      dogList := dogs;
      editDogId := None;
      editForm := None;
      error := "";
      deleteConfirm := None;
    }

    /** `!dogList || dogList.length === 0`: the message replaces the cards. */
    function Placeholder(): (r: Option<string>)
      reads this
      ensures r.Some? <==> dogList.None? || dogList.value == []
      ensures r.Some? ==> r.value == NoDogsMessage
    {
      if dogList.None? || |dogList.value| == 0 then Some(NoDogsMessage) else None
    }

    /** `handleEditClick`: edit this dog, starting from a copy of it. */
    method HandleEditClick(dog: Doc)
      modifies this
      ensures editDogId == Some(dog.oid) && editForm == Some(dog)
      ensures dogList == old(dogList) && error == old(error) && deleteConfirm == old(deleteConfirm)
    {
      editDogId := Some(dog.oid);
      editForm := Some(dog);
    }

    /** `cancelEdit`: no dog is being edited. */
    method CancelEdit()
      modifies this
      ensures editDogId == None && editForm == None
      ensures dogList == old(dogList) && error == old(error) && deleteConfirm == old(deleteConfirm)
    {
      editDogId := None;
      editForm := None;
    }

    /**
     * `handleEditSubmit` after `PUT /dogs/:id`; `response` is the updated
     * dog, `None` when the request failed. The edit buttons render only for
     * a list that is present.
     */
    method HandleEditSubmit(response: Option<Doc>)
      requires dogList.Some?
      modifies this
      ensures response.Some? ==> dogList == Some(ReplaceById(old(dogList.value), old(editDogId), response.value))
      ensures response.Some? ==> editDogId == None && editForm == None && error == old(error)
      ensures response.None? ==> dogList == old(dogList) && editDogId == old(editDogId) && editForm == old(editForm)
      ensures response.None? ==> error == "Failed to update dog."
      ensures deleteConfirm == old(deleteConfirm)
    {
      if response.Some? {
        dogList := Some(ReplaceById(dogList.value, editDogId, response.value));
        CancelEdit();
      } else {
        error := "Failed to update dog.";
      }
    }

    /** `confirmDelete`: ask before deleting this `_id`. */
    method ConfirmDelete(id: string)
      modifies this
      ensures deleteConfirm == Some(id)
      ensures dogList == old(dogList) && editDogId == old(editDogId) && editForm == old(editForm) && error == old(error)
    {
      deleteConfirm := Some(id);
    }

    /** `cancelDelete`: no deletion pending. */
    method CancelDelete()
      modifies this
      ensures deleteConfirm == None
      ensures dogList == old(dogList) && editDogId == old(editDogId) && editForm == old(editForm) && error == old(error)
    {
      deleteConfirm := None;
    }

    /**
     * `handleDelete` after `DELETE /dogs/:id`: on success every entry with
     * that `_id` leaves the list, the rest keep their order, and the pending
     * confirmation is cleared; on failure only the error message changes.
     */
    method HandleDelete(id: string, succeeded: bool)
      requires dogList.Some?
      modifies this
      ensures succeeded ==> dogList == Some(RemoveByOid(old(dogList.value), id)) && deleteConfirm == None && error == old(error)
      ensures !succeeded ==> dogList == old(dogList) && deleteConfirm == old(deleteConfirm) && error == "Failed to delete dog."
      ensures editDogId == old(editDogId) && editForm == old(editForm)
    {
      if succeeded {
        dogList := Some(RemoveByOid(dogList.value, id));
        CancelDelete();
      } else {
        error := "Failed to delete dog.";
      }
    }
  }
}
