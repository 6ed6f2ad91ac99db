/** The employees page (`src/pages/Employees.tsx`): the creation form, the
    inline edit with its partial form and patch payload, and the split of the
    staff list by role. */
module Employees {
  import opened Wrappers
  import opened Seqs

  datatype Role = Admin | Driver

  /** An employee as listed; `license` and `notes` may be missing. */
  datatype Employee = Employee(
    id: int, name: string, surname: string, license: Option<string>,
    notes: Option<string>, email: string, role: Role)

  /** The creation form. */
  datatype FormState = FormState(
    name: string, surname: string, license: string, notes: string,
    email: string, password: string, role: Role)

  /** `emptyForm`: every text empty, role driver. */
  const EmptyForm: FormState := FormState("", "", "", "", "", "", Driver)

  /** The edit form, in which any field may be missing. */
  datatype PartialForm = PartialForm(
    name: Option<string>, surname: Option<string>, license: Option<string>,
    notes: Option<string>, email: Option<string>, password: Option<string>,
    role: Option<Role>)

  const NoEdit: PartialForm := PartialForm(None, None, None, None, None, None, None)

  /** The body of the update request: `password` only when a new one is given. */
  datatype EmployeePatch = EmployeePatch(
    name: string, surname: string, email: string, license: string, notes: string,
    role: Role, password: Option<string>)

  predicate Truthy(s: Option<string>) {
    s.Some? && |s.value| > 0
  }

  /** The fields `submit` insists on. */
  predicate CreateComplete(f: FormState) {
    |f.name| > 0 && |f.surname| > 0 && |f.email| > 0 && |f.password| > 0
  }

  /** The fields `saveEdit` insists on. */
  predicate EditComplete(e: PartialForm) {
    Truthy(e.name) && Truthy(e.surname) && Truthy(e.email)
  }

  /** The edit form `startEdit` fills from an employee: missing license and
      notes become empty, the password starts empty. */
  function EditFormOf(emp: Employee): (e: PartialForm)
    ensures e.name == Some(emp.name) && e.surname == Some(emp.surname) && e.email == Some(emp.email)
    ensures e.role == Some(emp.role) && e.password == Some("")
    ensures e.license == Some(emp.license.GetOr("")) && e.notes == Some(emp.notes.GetOr(""))
  {
    PartialForm(Some(emp.name), Some(emp.surname), Some(emp.license.GetOr("")),
                Some(emp.notes.GetOr("")), Some(emp.email), Some(""), Some(emp.role))
  }

  /** The patch `saveEdit` sends: missing license and notes become empty, a
      missing role becomes driver, and the password goes along only when it
      has at least six characters. */
  function EditPayload(e: PartialForm): (p: EmployeePatch)
    requires EditComplete(e)
    ensures p.name == e.name.value && p.surname == e.surname.value && p.email == e.email.value
    ensures p.license == e.license.GetOr("") && p.notes == e.notes.GetOr("")
    ensures p.role == e.role.GetOr(Driver)
    ensures p.password.Some? <==> e.password.Some? && |e.password.value| >= 6
    ensures p.password.Some? ==> p.password == e.password
  {
    var payload := EmployeePatch(e.name.value, e.surname.value, e.email.value,
                                 e.license.GetOr(""), e.notes.GetOr(""), e.role.GetOr(Driver), None);
    if Truthy(e.password) && |e.password.value| >= 6 then payload.(password := e.password) else payload
  }

  /** Opening an employee for editing and saving at once sends the stored
      data back, with the missing texts as empty strings and no password. */
  lemma EditRoundTrip(emp: Employee)
    requires |emp.name| > 0 && |emp.surname| > 0 && |emp.email| > 0
    ensures EditComplete(EditFormOf(emp))
    ensures EditPayload(EditFormOf(emp)) ==
      EmployeePatch(emp.name, emp.surname, emp.email, emp.license.GetOr(""), emp.notes.GetOr(""), emp.role, None)
  {
  }

  /** `admins`: the administrators, in list order. */
  function Admins(list: seq<Employee>): (r: seq<Employee>)
    ensures forall i :: 0 <= i < |r| ==> r[i] in list && r[i].role == Admin
    ensures forall i :: 0 <= i < |list| && list[i].role == Admin ==> list[i] in r
  {
    Filter(list, (e: Employee) => e.role == Admin)
  }

  /** `drivers`: the drivers, in list order. */
  function Drivers(list: seq<Employee>): (r: seq<Employee>)
    ensures forall i :: 0 <= i < |r| ==> r[i] in list && r[i].role == Driver
    ensures forall i :: 0 <= i < |list| && list[i].role == Driver ==> list[i] in r
  {
    Filter(list, (e: Employee) => e.role == Driver)
  }

  /** The two lists keep list order, share no employee, and together hold
      every employee exactly once. */
  lemma RolePartition(list: seq<Employee>)
    ensures IsSubsequence(Admins(list), list) && IsSubsequence(Drivers(list), list)
    ensures forall i, j :: 0 <= i < |Admins(list)| && 0 <= j < |Drivers(list)| ==> Admins(list)[i] != Drivers(list)[j]
    ensures multiset(Admins(list)) + multiset(Drivers(list)) == multiset(list)
    ensures |Admins(list)| + |Drivers(list)| == |list|
  {
    FilterIsSubsequence(list, (e: Employee) => e.role == Admin);
    FilterIsSubsequence(list, (e: Employee) => e.role == Driver);
    FilterPartition(list, (e: Employee) => e.role == Admin, (e: Employee) => e.role == Driver);
  }

  /** The page state: the list, the creation form and the inline edit. */
  class EmployeesPage {
    var list: seq<Employee>
    var form: FormState
    var editingId: Option<int>
    var edit: PartialForm

    constructor ()
      ensures list == [] && form == EmptyForm && editingId == None && edit == NoEdit
    {
      list := [];
      form := EmptyForm;
      editingId := None;
      edit := NoEdit;
    }

    /** `submit`: an incomplete form is not sent and stays as it is; a
        complete one is sent whole, and on success the form resets to
        `EmptyForm` and the list is reloaded. */
    method Submit(serverOk: bool, reloaded: seq<Employee>) returns (sent: Option<FormState>)
      modifies this`form, this`list
      ensures sent.None? <==> !CreateComplete(old(form))
      ensures sent.Some? ==> sent.value == old(form)
      ensures sent.Some? && serverOk ==> form == EmptyForm && list == reloaded
      ensures !(sent.Some? && serverOk) ==> form == old(form) && list == old(list)
    {
      if !CreateComplete(form) {
        return None;
      }
      sent := Some(form);
      if serverOk {
        form := EmptyForm;
        list := reloaded;
      }
    }

    /** `startEdit`. */
    method StartEdit(emp: Employee)
      modifies this`editingId, this`edit
      ensures editingId == Some(emp.id) && edit == EditFormOf(emp)
    {
      editingId := Some(emp.id);
      edit := EditFormOf(emp);
    }

    /** `cancelEdit`. */
    method CancelEdit()
      modifies this`editingId, this`edit
      ensures editingId == None && edit == NoEdit
    {
      editingId := None;
      edit := NoEdit;
    }

    /** `saveEdit`: nothing without a row in edit or with a missing name,
        surname or email; otherwise the patch is sent for the row, and on
        success the edit closes and the list is reloaded. */
    method SaveEdit(serverOk: bool, reloaded: seq<Employee>) returns (sent: Option<(int, EmployeePatch)>)
      modifies this`editingId, this`edit, this`list
      ensures sent.None? <==> old(editingId).None? || !EditComplete(old(edit))
      ensures sent.Some? ==> EditComplete(old(edit)) && sent.value == (old(editingId).value, EditPayload(old(edit)))
      ensures sent.Some? && serverOk ==> editingId == None && edit == NoEdit && list == reloaded
      ensures !(sent.Some? && serverOk) ==> editingId == old(editingId) && edit == old(edit) && list == old(list)
    {
      if editingId.None? {
        return None;
      }
      if !EditComplete(edit) {
        return None;
      }
      var payload := EditPayload(edit);
      sent := Some((editingId.value, payload));
      if serverOk {
        CancelEdit();
        list := reloaded;
      }
    }
  }
}
