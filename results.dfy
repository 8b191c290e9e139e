/**
 * The result vocabulary of rpminspect (lib/results.h and the result types):
 * severities, waiver authorities, one record per finding, and the string
 * constants the distribution-tag inspection uses.
 */
module Results {

  datatype Option<T> = None | Some(value: T)

  /** RESULT_OK < RESULT_INFO < RESULT_VERIFY < RESULT_BAD */
  datatype Severity = Ok | Info | Verify | Bad

  /** Who may waive a finding; orthogonal to its severity. */
  datatype WaiverAuth = NotWaivable | WaivableByAnyone | WaivableBySecurity

  /**
   * The messages the distribution-tag inspection passes to `add_result`,
   * as tags; `Text` gives each literal byte for byte as the source holds it
   * (it is stored unformatted, so "%s" and "%%" stay as written).
   */
  datatype Message = MissingRelease | WrongForm | MissingDist | NotSource {
    function Text(): string {
      match this
      case MissingRelease => "The %s file is missing the Release: tag."
      case WrongForm => "The dist tag should be of the form '%%{?dist}' in the Release tag."
      case MissingDist => "The Release: tag does not seem to contain a '%%{?dist}' tag."
      case NotSource => "Specified package is not a source RPM, cannot run disttag inspection."
    }
  }

  /** The remedy strings of lib/results.h that this model uses. */
  datatype Remedy = RemedyDisttag {
    /** REMEDY_DISTTAG, kept byte for byte as the C literal spells it. */
    function Text(): string {
      "The Release: tag in the spec file must include a '%%{?dist}' string.  Please add this to the spec file per the distribution packaging guidelines."
    }
  }

  /**
   * One entry of the result list.  A C NULL message, detail line or
   * remedy is `None`.
   */
  datatype Result = Result(
    severity: Severity,
    waiverAuth: WaiverAuth,
    header: string,
    message: Option<Message>,
    details: Option<string>,
    remedy: Option<Remedy>)

  /** HEADER_DISTTAG */
  const HeaderDisttag: string := "dist-tag"

  /** Process exit codes (RI_INSPECTION_SUCCESS, RI_INSPECTION_FAILURE, RI_PROGRAM_ERROR). */
  const InspectionSuccess: nat := 0
  const InspectionFailure: nat := 1
  const ProgramError: nat := 2

  /** Appending to a result list in two steps is appending once. */
  lemma AppendTwice(a: seq<Result>, b: seq<Result>, c: seq<Result>)
    ensures (a + b) + c == a + (b + c)
  {
  }

  /** Turns an optional result into the zero or one entries it appends. */
  function Appended(r: Option<Result>): (s: seq<Result>)
    ensures |s| <= 1
    ensures s == [] <==> r.None?
    ensures r.Some? ==> s == [r.value]
  {
    match r
    case None => []
    case Some(x) => [x]
  }
}
