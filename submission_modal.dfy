/** The submission dialog (client/src/components/SubmissionModal.tsx): a
    validation chain on submit, a completion step when the simulated upload
    finishes, and a reset. */
module SubmissionModal {
  import opened Wrappers

  datatype SubmissionType = Pdf | Repo

  const ParticipantIdRequired := "Participant ID is required"
  const PdfRequired := "Please upload a PDF file"
  const InvalidUrl := "Please enter a valid URL"
  const UrlPrefix := "http"

  /** The first failing check, in the order the handler tests them. `file`
      is the chosen file's name, `None` when no file is chosen. */
  function Validate(kind: SubmissionType, participantId: string, file: Option<string>, repoLink: string)
    : (err: Option<string>)
    ensures participantId == "" ==> err == Some(ParticipantIdRequired)
    ensures participantId != "" && kind == Pdf ==> (err.None? <==> file.Some?)
    ensures participantId != "" && kind == Pdf && err.Some? ==> err.value == PdfRequired
    ensures participantId != "" && kind == Repo ==> (err.None? <==> UrlPrefix <= repoLink)
    ensures participantId != "" && kind == Repo && err.Some? ==> err.value == InvalidUrl
  {
    if participantId == "" then Some(ParticipantIdRequired)
    else if kind == Pdf && file.None? then Some(PdfRequired)
    else if kind == Repo && !(UrlPrefix <= repoLink) then Some(InvalidUrl)
    else None
  }

  /** A PDF submission ignores the link and a repository submission ignores
      the file. */
  lemma IrrelevantFieldsIgnored(participantId: string, file: Option<string>, file': Option<string>,
                                link: string, link': string)
    ensures Validate(Pdf, participantId, file, link) == Validate(Pdf, participantId, file, link')
    ensures Validate(Repo, participantId, file, link) == Validate(Repo, participantId, file', link)
  {
  }

  class Modal {
    const kind: SubmissionType
    var isSubmitting: bool
    var isSuccess: bool
    var participantId: string
    var file: Option<string>
    var repoLink: string

    constructor (kind: SubmissionType)
      ensures this.kind == kind
      ensures !isSubmitting && !isSuccess && participantId == "" && file.None? && repoLink == ""
    {
      this.kind := kind;
      isSubmitting, isSuccess := false, false;
      participantId, file, repoLink := "", None, "";
    }

    /** `handleSubmit`: on a failed check `isSubmitting` ends false and the
        error is returned; when every check passes the upload is pending and
        `isSubmitting` stays true. The form fields and `isSuccess` are kept. */
    method Submit() returns (err: Option<string>)
      modifies this
      ensures err == Validate(kind, participantId, file, repoLink)
      ensures isSubmitting <==> err.None?
      ensures isSuccess == old(isSuccess)
      ensures participantId == old(participantId) && file == old(file) && repoLink == old(repoLink)
    {
      isSubmitting := true;
      err := Validate(kind, participantId, file, repoLink);
      if err.Some? {
        isSubmitting := false;
      }
    }

    /** The delayed completion after a successful submit. */
    method Complete()
      modifies this
      ensures !isSubmitting && isSuccess
      ensures participantId == old(participantId) && file == old(file) && repoLink == old(repoLink)
    {
      isSubmitting := false;
      isSuccess := true;
    }

    /** `handleReset`: clears the success flag and the three fields;
        `isSubmitting` is left as it is. */
    method Reset()
      modifies this
      ensures !isSuccess && participantId == "" && file.None? && repoLink == ""
      ensures isSubmitting == old(isSubmitting)
    {
      isSuccess := false;
      participantId, file, repoLink := "", None, "";
    }
  }
}
