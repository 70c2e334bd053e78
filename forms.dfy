/** `FormManager.validateFormData` and the submit gate in front of it (script.js:361-371, 514-554). */
module Forms {
  import opened Wrappers
  import opened Tasks

  /** The properties `validateFormData` requires, in the order it checks them. */
  datatype Field = Title | Description | Priority | Label

  const RequiredFields: seq<Field> := [Title, Description, Priority, Label]

  /** `task[field]`. */
  function FieldValue(task: Patch, f: Field): Option<string> {
    match f
    case Title => task.title
    case Description => task.description
    case Priority => task.priority
    case Label => task.category
  }

  /** JavaScript truthiness of a string property: present and not empty. */
  predicate Truthy(v: Option<string>) {
    v.Some? && v.value != ""
  }

  /** The `for…of` loop over the required fields: it runs to the end only when none is falsy. */
  function AllPresent(fields: seq<Field>, task: Patch): (r: bool)
    ensures r <==> forall i :: 0 <= i < |fields| ==> Truthy(FieldValue(task, fields[i]))
  {
    if fields == [] then true
    else Truthy(FieldValue(task, fields[0])) && AllPresent(fields[1..], task)
  }

  /**
   * `validateFormData(task)` (script.js:533-554). `isValidDate(d)` stands for
   * `!isNaN(new Date(d).getTime())`.
   */
  function ValidateFormData(task: Patch, isValidDate: string -> bool): (ok: bool)
    ensures ok <==>
      Truthy(task.title) && Truthy(task.description) && Truthy(task.priority) && Truthy(task.category) &&
      (Truthy(task.dueDate) ==> isValidDate(task.dueDate.value))
  {
    assert |RequiredFields| == 4 && RequiredFields[0] == Title && RequiredFields[1] == Description;
    assert RequiredFields[2] == Priority && RequiredFields[3] == Label;
    AllPresent(RequiredFields, task) && !(Truthy(task.dueDate) && !isValidDate(task.dueDate.value))
  }

  /**
   * `getFormData()` (script.js:514-531) once the form has been read into `task`: the data when it
   * validates, else null. `handleFormSubmit` (script.js:361-371) dispatches `task-submit` exactly
   * when this is not null, with this as the event's detail.
   */
  function GetFormData(task: Patch, isValidDate: string -> bool): Option<Patch> {
    if ValidateFormData(task, isValidDate) then Some(task) else None
  }

  /** The patch `getFormData` builds: only the five form properties, no id, timestamp or status. */
  predicate FromForm(task: Patch) {
    task.id.None? && task.createdAt.None? && task.status.None?
  }

  /** A stored record whose four required properties are filled in. */
  predicate Complete(t: Task) {
    t.title != "" && t.description != "" && t.priority != "" && t.category != ""
  }

  /** The due-date rule of `validateFormData` on a stored record: no due date, or one `isValidDate` accepts. */
  function DateValid(isValidDate: string -> bool): Task -> bool {
    (t: Task) => t.dueDate != "" ==> isValidDate(t.dueDate)
  }

  /**
   * A record built from, or merged with, data that passed validation has its required properties
   * filled in, and a due date that is absent or valid (when the record's own date was).
   */
  lemma ValidatedMakesComplete(task: Patch, isValidDate: string -> bool, id: int, createdAt: string, status: string, t: Task)
    requires ValidateFormData(task, isValidDate)
    ensures Complete(NewRecord(id, createdAt, status, task))
    ensures Complete(Merge(t, task))
    ensures DateValid(isValidDate)(NewRecord(id, createdAt, status, task))
    ensures DateValid(isValidDate)(t) ==> DateValid(isValidDate)(Merge(t, task))
  {
  }

  /** Data with a missing required property never gets through the gate, whatever the dates. */
  lemma MissingFieldRejected(task: Patch, isValidDate: string -> bool, f: Field)
    requires f in RequiredFields && !Truthy(FieldValue(task, f))
    ensures GetFormData(task, isValidDate) == None
  {
  }
}
