/** Which table the dashboard shows: the default dataset, unless the session
    holds a user upload, which replaces it only when it carries every required
    column. */
module DataSource {
  import opened Insights

  datatype Option<T> = None | Some(value: T)

  /** A loaded CSV file: its column names and its numeric rows. The i-th name
      of header labels position i of every row, the index the insight engine
      uses for a column. */
  datatype Dataset = Dataset(header: seq<string>, rows: Table)

  /** The columns an uploaded file must carry, matched by exact name. */
  const RequiredColumns: seq<string> :=
    ["Date", "Steps", "Calories", "WorkoutMinutes", "SleepHours", "WaterIntake(L)", "HeartRate"]

  /** The metric columns the dashboard offers for display. */
  const AllMetrics: seq<string> :=
    ["Steps", "Calories", "WorkoutMinutes", "SleepHours", "WaterIntake(L)", "HeartRate"]

  /** Every name of names is a column of header. */
  function AllPresent(names: seq<string>, header: seq<string>): (ok: bool)
    ensures ok <==> forall i :: 0 <= i < |names| ==> names[i] in header
  {
    if names == [] then true
    else names[0] in header && AllPresent(names[1..], header)
  }

  datatype UploadResult =
    | Accepted
    | Rejected(required: seq<string>)  // the message lists every required column

  /** The outcome of uploading a file whose columns are header. */
  function Validate(header: seq<string>): (r: UploadResult)
    ensures r.Accepted? <==> forall name :: name in RequiredColumns ==> name in header
    ensures r.Rejected? ==> r.required == RequiredColumns
  {
    if AllPresent(RequiredColumns, header) then Accepted else Rejected(RequiredColumns)
  }

  /** A file without a HeartRate column is refused. */
  lemma MissingHeartRateRejected(header: seq<string>)
    requires "HeartRate" !in header
    ensures Validate(header) == Rejected(RequiredColumns)
  {
  }

  /** An accepted file carries every metric the dashboard displays. */
  lemma AcceptedHasMetrics(header: seq<string>)
    requires Validate(header).Accepted?
    ensures forall m :: m in AllMetrics ==> m in header
  {
  }

  /** One user session: the default dataset and the optional upload that
      overrides it. */
  class Session {
    const default: Dataset
    var userData: Option<Dataset>

    constructor (default: Dataset)
      ensures this.default == default && userData == None
      ensures Active() == default
    {
      this.default := default;
      userData := None;
    }

    /** The table every view of the dashboard is computed from. */
    function Active(): Dataset
      reads this
    {
      match userData
      case Some(d) => d
      case None => default
    }

    /** Upload a file: stored as the session's override when it has every
        required column, ignored otherwise. */
    method Upload(file: Dataset) returns (result: UploadResult)
      modifies this
      ensures result == Validate(file.header)
      ensures result.Accepted? ==> userData == Some(file) && Active() == file
      ensures result.Rejected? ==> userData == old(userData) && Active() == old(Active())
    {
      result := Validate(file.header);
      if result.Accepted? {
        userData := Some(file);
      }
    }
  }
}
