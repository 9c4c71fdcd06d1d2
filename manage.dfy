/**
 * The roster management page: the add-student form with its blank-field
 * guard, and removal after the confirmation dialog.
 */
module Manage {
  import opened Wrappers
  import opened Text
  import opened Types
  import opened Roster
  import opened Ledger
  import opened Store

  /** The form's three text inputs. */
  datatype Form = Form(name: string, rollNumber: string, photo: string)

  const BlankForm := Form("", "", "")

  /** What the form hands to `addStudent`: a student without an id. */
  datatype NewStudent = NewStudent(name: string, rollNumber: string, photo: Option<string>)

  /**
   * The submit guard: a student is added only when the trimmed name and the
   * trimmed roll are both non-empty; the fields are stored trimmed, and a
   * blank photo becomes no photo.
   */
  function Accept(form: Form): (r: Option<NewStudent>)
    ensures r.Some? <==> Trim(form.name) != [] && Trim(form.rollNumber) != []
    ensures r.Some? ==> r.value.name == Trim(form.name) && r.value.rollNumber == Trim(form.rollNumber)
    ensures r.Some? ==> (r.value.photo.None? <==> Trim(form.photo) == [])
    ensures r.Some? && r.value.photo.Some? ==> r.value.photo.value == Trim(form.photo)
  {
    if Trim(form.name) != [] && Trim(form.rollNumber) != [] then
      var photo := Trim(form.photo);
      Some(NewStudent(Trim(form.name), Trim(form.rollNumber), if photo != [] then Some(photo) else None))
    else None
  }

  /** The form a stored entry would fill in again. */
  function FormOf(d: NewStudent): Form {
    Form(d.name, d.rollNumber, if d.photo.Some? then d.photo.value else "")
  }

  /**
   * An accepted entry is clean: neither field is blank, nothing trims
   * further, and submitting it again gives the same entry.
   */
  lemma AcceptIsIdempotent(form: Form)
    requires Accept(form).Some?
    ensures var d := Accept(form).value;
      && d.name != [] && d.rollNumber != []
      && Trim(d.name) == d.name && Trim(d.rollNumber) == d.rollNumber
      && Accept(FormOf(d)) == Some(d)
  {
    TrimIdempotent(form.name);
    TrimIdempotent(form.rollNumber);
    TrimIdempotent(form.photo);
    assert Trim("") == "";
  }

  /** A form whose name or roll is only whitespace is refused. */
  lemma BlankFieldRefused(form: Form)
    requires forall i :: 0 <= i < |form.name| ==> IsTrimSpace(form.name[i])
    ensures Accept(form).None?
  {
    TrimEmptyIff(form.name);
  }

  class ManageStudentsPage {
    const store: StudentStore
    var form: Form
    var isModalOpen: bool

    constructor (store: StudentStore)
      ensures this.store == store && form == BlankForm && !isModalOpen
    {
      this.store := store;
      form := BlankForm;
      isModalOpen := false;
    }

    /** The "Add Student" button. */
    method OpenModal()
      modifies this
      ensures isModalOpen && form == old(form)
    {
      isModalOpen := true;
    }

    /** Typing into the inputs. */
    method EditForm(f: Form)
      modifies this
      ensures form == f && isModalOpen == old(isModalOpen)
    {
      form := f;
    }

    /**
     * `handleSubmit`: an accepted form adds the student with id `now`, then
     * clears the form and closes the dialog; a refused one changes nothing.
     */
    method HandleSubmit(now: nat)
      modifies this, store
      ensures Accept(old(form)).None? ==>
        form == old(form) && isModalOpen == old(isModalOpen) && store.students == old(store.students)
      ensures Accept(old(form)).Some? ==>
        var d := Accept(old(form)).value;
        store.students == old(store.students) + [Student(NatToString(now), d.name, d.rollNumber, d.photo)] &&
        form == BlankForm && !isModalOpen
      ensures store.attendance == old(store.attendance) && store.selectedDate == old(store.selectedDate)
      ensures store.dataVersion == old(store.dataVersion)
    {
      var accepted := Accept(form);
      if accepted.Some? {
        var d := accepted.value;
        store.AddStudent(d.name, d.rollNumber, d.photo, now);
        form := BlankForm;
        isModalOpen := false;
      }
    }

    /** `handleRemoveStudent`: the student goes, with their records, only when the dialog is confirmed. */
    method HandleRemoveStudent(id: string, confirmed: bool)
      modifies store
      ensures confirmed ==>
        store.students == RemoveById(old(store.students), id) && store.attendance == Cascade(old(store.attendance), id)
      ensures !confirmed ==>
        store.students == old(store.students) && store.attendance == old(store.attendance)
      ensures store.selectedDate == old(store.selectedDate) && store.dataVersion == old(store.dataVersion)
    {
      if confirmed {
        store.RemoveStudent(id);
      }
    }
  }
}
