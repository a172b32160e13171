/** The travel log form's submit handler: the checks it makes before it
    stores a trip, the distance it stores, and how the form changes. */
module TravelLogForm {
  import opened Optional
  import opened Emissions
  import opened DistanceCalculator
  import opened DistanceTableFacts

  /** The form's fields; the mode radio group only offers the six modes. */
  datatype Form = Form(date: string, origin: string, destination: string, transportMode: Mode, notes: string)

  /** The form opens on today's date (supplied by the caller), empty
      places and notes, and the car mode. */
  function InitialForm(today: string): Form {
    Form(today, "", "", Car, "")
  }

  /** The row inserted into travel_logs. */
  datatype NewTravelLog = NewTravelLog(
    userId: string,
    date: string,
    origin: string,
    destination: string,
    distance: real,
    transportMode: string,
    notes: string)

  /** The toast the handler ends with. */
  datatype Outcome =
    | MissingInformation
    | AuthenticationRequired
    | LogFailed(message: string)
    | Logged(row: NewTravelLog)

  datatype Submission = Submission(outcome: Outcome, form: Form)

  const DefaultDistance: real := 5.0
  const DefaultFailureMessage: string := "Failed to log your travel data"

  /** `if (!distance) distance = 5`: both a miss (`null`) and a distance of
      0 are falsy and become 5 km. */
  function LoggedDistance(origin: string, destination: string): real {
    var distance := NaviMumbaiDistance(origin, destination).GetOr(0.0);
    if distance == 0.0 then DefaultDistance else distance
  }

  /** Submitting the form. `user` is the signed-in user's id, if any, and
      `insertError` the error the insert reports, if any. */
  function HandleSubmit(form: Form, user: Option<string>, insertError: Option<string>): Submission {
    if form.origin == "" || form.destination == "" then
      Submission(MissingInformation, form)
    else
      var distance := LoggedDistance(form.origin, form.destination);
      match user
      case None => Submission(AuthenticationRequired, form)
      case Some(id) =>
        var row := NewTravelLog(id, form.date, form.origin, form.destination, distance,
                                ModeName(form.transportMode), form.notes);
        match insertError
        case Some(message) =>
          Submission(LogFailed(if message == "" then DefaultFailureMessage else message), form)
        case None =>
          Submission(Logged(row), form.(origin := "", destination := "", notes := ""))
  }

  /** The stored distance is the looked-up one when that is non-zero and
      5 km otherwise, so it is always positive and at most 29.7 km. */
  lemma LoggedDistanceRange(origin: string, destination: string)
    ensures 0.0 < LoggedDistance(origin, destination) <= 29.7
    ensures LoggedDistance(origin, destination) == DefaultDistance <==>
              NaviMumbaiDistance(origin, destination) in {None, Some(0.0), Some(DefaultDistance)}
    ensures NaviMumbaiDistance(origin, destination).Some? && NaviMumbaiDistance(origin, destination).value != 0.0 ==>
              LoggedDistance(origin, destination) == NaviMumbaiDistance(origin, destination).value
  {
    NaviMumbaiDistanceInRange(origin, destination);
  }

  /** A trip is rejected before anything else exactly when a place is
      empty; whitespace counts as filled in. */
  lemma MissingPlaceRejected(form: Form, user: Option<string>, insertError: Option<string>)
    ensures HandleSubmit(form, user, insertError).outcome == MissingInformation <==>
              form.origin == "" || form.destination == ""
  {
  }

  /** A trip is stored exactly when both places are filled in, a user is
      signed in and the insert reports no error; the row carries the form's
      fields, the user and the defaulted distance. */
  lemma LoggedExactly(form: Form, user: Option<string>, insertError: Option<string>)
    ensures HandleSubmit(form, user, insertError).outcome.Logged? <==>
              form.origin != "" && form.destination != "" && user.Some? && insertError.None?
    ensures HandleSubmit(form, user, insertError).outcome.Logged? ==>
              HandleSubmit(form, user, insertError).outcome.row ==
                NewTravelLog(user.value, form.date, form.origin, form.destination,
                             LoggedDistance(form.origin, form.destination),
                             ModeName(form.transportMode), form.notes)
  {
  }

  /** Signing in matters only once both places are filled in, and a failed
      insert is reported with its message, or a default for an empty one. */
  lemma FailuresReported(form: Form, user: Option<string>, insertError: Option<string>)
    ensures HandleSubmit(form, user, insertError).outcome == AuthenticationRequired <==>
              form.origin != "" && form.destination != "" && user.None?
    ensures HandleSubmit(form, user, insertError).outcome.LogFailed? <==>
              form.origin != "" && form.destination != "" && user.Some? && insertError.Some?
    ensures HandleSubmit(form, user, insertError).outcome.LogFailed? ==>
              HandleSubmit(form, user, insertError).outcome.message != ""
  {
  }

  /** Only a stored trip changes the form, and it clears the places and the
      notes while keeping the date and the mode. */
  lemma FormAfterSubmit(form: Form, user: Option<string>, insertError: Option<string>)
    ensures var after := HandleSubmit(form, user, insertError);
              after.form.date == form.date && after.form.transportMode == form.transportMode
    ensures var after := HandleSubmit(form, user, insertError);
              !after.outcome.Logged? ==> after.form == form
    ensures var after := HandleSubmit(form, user, insertError);
              after.outcome.Logged? ==>
                after.form.origin == "" && after.form.destination == "" && after.form.notes == ""
  {
  }

  /** Submitting again straight after a stored trip is rejected. */
  lemma ResubmitRejected(form: Form, user: Option<string>, insertError: Option<string>,
                         user2: Option<string>, insertError2: Option<string>)
    requires HandleSubmit(form, user, insertError).outcome.Logged?
    ensures HandleSubmit(HandleSubmit(form, user, insertError).form, user2, insertError2).outcome
            == MissingInformation
  {
  }

  /** The form as it opens cannot be submitted: both places are empty. */
  lemma InitialFormRejected(today: string, user: Option<string>, insertError: Option<string>)
    ensures HandleSubmit(InitialForm(today), user, insertError).outcome == MissingInformation
    ensures HandleSubmit(InitialForm(today), user, insertError).form == InitialForm(today)
  {
  }

  /** ("Vashi", "Nerul") stores 5.2 km. */
  lemma VashiToNerulLogged()
    ensures LoggedDistance("Vashi", "Nerul") == 5.2
  {
    VashiToNerul();
  }

  /** ("Belapur", "CBD Belapur") is found at 0 km, which is falsy, so 5 km
      is stored. */
  lemma BelapurToCbdBelapurLogged()
    ensures LoggedDistance("Belapur", "CBD Belapur") == DefaultDistance
  {
    BelapurToCbdBelapur();
  }

  /** A pair the table does not know stores 5 km. */
  lemma SamePlaceLogged()
    ensures LoggedDistance("Vashi", "Vashi") == DefaultDistance
  {
    VashiToVashi();
  }
}
