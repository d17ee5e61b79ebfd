/** What the create/edit forms report. A save only waits on a timer, so a
    submission is modelled by the toast it shows and where it navigates,
    with no change to any stored data. */
module Forms {

  /** The result of pressing "save": an error toast and the form stays, or a
      success toast and navigation to `next`. */
  datatype Submission = Rejected(message: string) | Saved(message: string, next: string)

  /** The form an edit route starts from: the record's values, or, when
      the id matches nothing, an error toast and navigation back to the
      list. */
  datatype Init<F> = Ready(form: F) | Missing(message: string, next: string)

  const RequiredFieldsMessage: string := "Please fill in all required fields"
}
