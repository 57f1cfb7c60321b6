/** The demographics form that ends the rating flow
    (app/demographics/page.tsx): validate the form, keep the data in the
    store, then save the rating answers. */
module DemographicsPage {
  import opened Types
  import opened Store
  import Supabase

  const MIN_AGE := 1
  const MAX_AGE := 120

  /** The form's validation failures, in the order they are checked. */
  datatype FormError = InvalidAge | MissingGender | MissingOccupation

  /** What the page shows: a form error or a failed save. */
  datatype PageError = Form(e: FormError) | SaveFailed(cause: Supabase.SaveError)

  predicate AgeAccepted(age: Option<int>) {
    age.Some? && MIN_AGE <= age.value <= MAX_AGE
  }

  /** validateForm: age first, then gender, then occupation; the first
      failing check is reported, and nothing only when all three pass. The
      age is the already-parsed field, None when it is empty. */
  function ValidateForm(age: Option<int>, gender: string, occupation: string): (r: Option<FormError>)
    ensures r.None? <==> AgeAccepted(age) && gender != "" && occupation != ""
    ensures r == Some(InvalidAge) <==> !AgeAccepted(age)
    ensures r == Some(MissingGender) <==> AgeAccepted(age) && gender == ""
    ensures r == Some(MissingOccupation) <==> AgeAccepted(age) && gender != "" && occupation == ""
  {
    if age.None? || age.value < MIN_AGE || age.value > MAX_AGE then Some(InvalidAge)
    else if gender == "" then Some(MissingGender)
    else if occupation == "" then Some(MissingOccupation)
    else None
  }

  /** The age bounds are inclusive: 0 and 150 are refused, 1 and 120 pass. */
  lemma AgeBoundsInclusive(gender: string, occupation: string)
    requires gender != "" && occupation != ""
    ensures ValidateForm(Some(0), gender, occupation) == Some(InvalidAge)
    ensures ValidateForm(Some(150), gender, occupation) == Some(InvalidAge)
    ensures ValidateForm(None, gender, occupation) == Some(InvalidAge)
    ensures ValidateForm(Some(1), gender, occupation).None?
    ensures ValidateForm(Some(120), gender, occupation).None?
  {
  }

  class Page {
    const store: SurveyStore
    var age: Option<int>
    var gender: string
    var occupation: string
    var error: Option<PageError>
    var isSubmitting: bool
    /** Where the page sent the browser, if anywhere. */
    var route: Option<string>

    /** The form starts from the demographics already in the store, if any. */
    constructor (store: SurveyStore)
      ensures this.store == store
      ensures store.demographics.Some? ==>
                age == Some(store.demographics.value.age) &&
                gender == store.demographics.value.gender &&
                occupation == store.demographics.value.occupation
      ensures store.demographics.None? ==> age == None && gender == "" && occupation == ""
      ensures error == None && !isSubmitting && route == None
    {
      this.store := store;
      if store.demographics.Some? {
        age := Some(store.demographics.value.age);
        gender := store.demographics.value.gender;
        occupation := store.demographics.value.occupation;
      } else {
        age, gender, occupation := None, "", "";
      }
      error, isSubmitting, route := None, false, None;
    }

    /** handleSubmit: an invalid form shows the first error and neither
        stores nor saves anything. A valid one is stored first, then the
        rating answers are saved with the number of selected items as the
        count; the demographics are not passed on, since the save takes only
        three arguments. Success goes to the thank-you page; a failed save
        shows the error and leaves the stored answers as they were. */
    method HandleSubmit(db: Supabase.Database, surveyReply: Supabase.Reply, answersReply: Supabase.Reply)
      requires store.Valid() && store.sessionId.Some?
      modifies this, store, db
      ensures store.Valid() && store.sessionId == old(store.sessionId)
      ensures age == old(age) && gender == old(gender) && occupation == old(occupation)
      ensures var v := ValidateForm(age, gender, occupation);
        if v.Some? then
          && error == Some(Form(v.value)) && route == old(route) && isSubmitting == old(isSubmitting)
          && store.State() == old(store.State())
          && db.requests == old(db.requests)
          && db.surveyResponses == old(db.surveyResponses)
          && db.compareAnswers == old(db.compareAnswers)
          && db.ratingAnswers == old(db.ratingAnswers)
        else
          var sid := store.sessionId.value;
          var record := Supabase.SurveyRecord(sid, Rate, |store.selectedNews|);
          && store.State() == old(store.State()).(demographics := Some(Demographics(age.value, gender, occupation)))
          && db.requests == old(db.requests) + [Supabase.SurveyResponses] +
               (if surveyReply.Ok? then [Supabase.RatingAnswers] else [])
          && db.surveyResponses == old(db.surveyResponses) + (if surveyReply.Ok? then [record] else [])
          && db.ratingAnswers == old(db.ratingAnswers) +
               (if surveyReply.Ok? && answersReply.Ok? then Supabase.RatingRows(sid, store.ratingAnswers) else [])
          && db.compareAnswers == old(db.compareAnswers)
          && !isSubmitting
          && if surveyReply.Ok? && answersReply.Ok? then
               route == Some("/thank-you") && error == None
             else
               route == old(route) &&
               error == Some(SaveFailed(if surveyReply.Error? then Supabase.SurveyResponseFailed(surveyReply.message)
                                        else Supabase.AnswersFailed(answersReply.message)))
    {
      error := None;
      var validationError := ValidateForm(age, gender, occupation);
      if validationError.Some? {
        error := Some(Form(validationError.value));
        return;
      }
      isSubmitting := true;
      var demographicsData := Demographics(age.value, gender, occupation);
      store.SetDemographics(demographicsData);
      var saved := Supabase.SaveRatingResponse(db, store.sessionId.value, |store.selectedNews|,
                                               store.ratingAnswers, surveyReply, answersReply);
      if saved.Success? {
        route := Some("/thank-you");
      } else {
        error := Some(SaveFailed(saved.error));
      }
      isSubmitting := false;
    }
  }
}
