/** The submissions endpoint: `POST` validates a vote and upserts it by exact email into the
    module's own list; `GET` is refused. */
module SubmissionsApi {
  import opened Wrappers
  import opened Types
  import opened JsStrings
  import opened Validation

  /** The outcome of `request.json()` and the destructuring of `name`, `email`, `language` and
      `reason`. `Malformed` is a JSON parse failure or a `null` body, the two cases that throw
      there. Any other body gives each field absent or a string; a body that is not an object
      (a number, a string, a boolean, an array) is `Fields(None, None, None, None)`. */
  datatype RequestBody =
    | Malformed
    | Fields(name: Option<string>, email: Option<string>, language: Option<string>, reason: Option<string>)

  /** A JSON reply: an error object with its status, or a 200 success object. */
  datatype Response =
    | Failure(status: int, error: string)
    | Success(message: string, submissionId: string)

  const AllFieldsRequired := "All fields are required"
  const InvalidEmailFormat := "Invalid email format"
  const InternalError := "Internal server error"
  const MethodNotAllowed := "Method not allowed"
  const VoteUpdated := "Your vote has been updated successfully!"
  const VoteSubmitted := "Your vote has been submitted successfully!"

  /** JavaScript truthiness of an absent-or-string value. */
  predicate Truthy(v: Option<string>) {
    v.Some? && v.value != ""
  }

  predicate AllPresent(body: RequestBody) {
    body.Fields? && Truthy(body.name) && Truthy(body.email) && Truthy(body.language) && Truthy(body.reason)
  }

  /** `findIndex(sub => sub.email === email)`: the first exact match, or -1. */
  function EmailIndex(subs: seq<Submission>, email: string): (r: int)
    ensures -1 <= r < |subs|
    ensures r == -1 <==> forall i :: 0 <= i < |subs| ==> subs[i].email != email
    ensures r >= 0 ==> subs[r].email == email && forall i :: 0 <= i < r ==> subs[i].email != email
  {
    if subs == [] then -1
    else if subs[0].email == email then 0
    else
      var k := EmailIndex(subs[1..], email);
      if k < 0 then -1 else k + 1
  }

  /** Reference definition of `POST`: the reply and the list afterwards, for the list before,
      the request body, the value of `Date.now().toString()` and the current time. */
  function PostOutcome(subs: seq<Submission>, body: RequestBody, freshId: string, now: int)
    : (Response, seq<Submission>)
  {
    if body.Malformed? then (Failure(500, InternalError), subs)
    else if !AllPresent(body) then (Failure(400, AllFieldsRequired), subs)
    else if !IsValidEmail(body.email.value) then (Failure(400, InvalidEmailFormat), subs)
    else
      var k := EmailIndex(subs, body.email.value);
      var rec := Submission(if k >= 0 then subs[k].id else freshId, Trim(body.name.value),
                            Trim(body.email.value), body.language.value, Trim(body.reason.value), now);
      if k >= 0 then (Success(VoteUpdated, rec.id), subs[k := rec])
      else (Success(VoteSubmitted, rec.id), subs + [rec])
  }

  /** The record an accepted body describes, under the given id: name and reason trimmed,
      email and language as sent. */
  function Accepted(body: RequestBody, id: string, now: int): Submission
    requires body.Fields? && body.name.Some? && body.email.Some? && body.language.Some? && body.reason.Some?
  {
    Submission(id, Trim(body.name.value), body.email.value, body.language.value, Trim(body.reason.value), now)
  }

  /** A body that does not parse, lacks a field, or has an empty one, or whose email fails the
      pattern, is refused with the matching status and message and leaves the list alone;
      every other body succeeds. */
  lemma PostRefusals(subs: seq<Submission>, body: RequestBody, freshId: string, now: int)
    ensures var (resp, after) := PostOutcome(subs, body, freshId, now);
            && (resp.Failure? <==> !AllPresent(body) || !IsValidEmail(body.email.value))
            && (body.Malformed? ==> resp == Failure(500, InternalError))
            && (body.Fields? && !AllPresent(body) ==> resp == Failure(400, AllFieldsRequired))
            && (AllPresent(body) && !IsValidEmail(body.email.value) ==> resp == Failure(400, InvalidEmailFormat))
            && (resp.Failure? ==> after == subs)
  {
  }

  /** An accepted vote whose email is already stored replaces the first such record in place,
      keeps its id, and answers with the "updated" message. */
  lemma PostUpdates(subs: seq<Submission>, body: RequestBody, freshId: string, now: int, k: int)
    requires AllPresent(body) && IsValidEmail(body.email.value)
    requires 0 <= k < |subs| && subs[k].email == body.email.value
    requires forall i :: 0 <= i < k ==> subs[i].email != body.email.value
    ensures var (resp, after) := PostOutcome(subs, body, freshId, now);
            && resp == Success(VoteUpdated, subs[k].id)
            && |after| == |subs|
            && after[k] == Accepted(body, subs[k].id, now)
            && forall i :: 0 <= i < |subs| && i != k ==> after[i] == subs[i]
  {
    ValidEmailHasNoSpace(body.email.value);
  }

  /** An accepted vote with a new email is appended under the fresh id and answered with the
      "submitted" message. */
  lemma PostAppends(subs: seq<Submission>, body: RequestBody, freshId: string, now: int)
    requires AllPresent(body) && IsValidEmail(body.email.value)
    requires forall i :: 0 <= i < |subs| ==> subs[i].email != body.email.value
    ensures var (resp, after) := PostOutcome(subs, body, freshId, now);
            && resp == Success(VoteSubmitted, freshId)
            && after == subs + [Accepted(body, freshId, now)]
  {
    ValidEmailHasNoSpace(body.email.value);
  }

  /** The `submissionId` of a success is the id of a stored record holding the sent email. */
  lemma PostReportsStoredId(subs: seq<Submission>, body: RequestBody, freshId: string, now: int)
    ensures var (resp, after) := PostOutcome(subs, body, freshId, now);
            resp.Success? ==> exists i :: 0 <= i < |after| && after[i].id == resp.submissionId
                                          && after[i].email == body.email.value
  {
    if AllPresent(body) && IsValidEmail(body.email.value) {
      var k := EmailIndex(subs, body.email.value);
      if k >= 0 {
        PostUpdates(subs, body, freshId, now, k);
      } else {
        PostAppends(subs, body, freshId, now);
        assert (subs + [Accepted(body, freshId, now)])[|subs|].id == freshId;
      }
    }
  }

  /** No two records share an email, compared exactly. */
  predicate DistinctEmails(subs: seq<Submission>) {
    forall i, j :: 0 <= i < j < |subs| ==> subs[i].email != subs[j].email
  }

  /** `POST` keeps emails distinct. */
  lemma PostKeepsDistinct(subs: seq<Submission>, body: RequestBody, freshId: string, now: int)
    requires DistinctEmails(subs)
    ensures DistinctEmails(PostOutcome(subs, body, freshId, now).1)
  {
    if AllPresent(body) && IsValidEmail(body.email.value) {
      var k := EmailIndex(subs, body.email.value);
      if k >= 0 {
        PostUpdates(subs, body, freshId, now, k);
      } else {
        PostAppends(subs, body, freshId, now);
      }
    }
  }

  /** The emptiness check comes before trimming, so a name of blanks is accepted and stored
      empty. */
  lemma BlankNameStoredEmpty(subs: seq<Submission>, email: string, now: int)
    requires IsValidEmail(email) && forall i :: 0 <= i < |subs| ==> subs[i].email != email
    ensures var body := Fields(Some("  "), Some(email), Some("python"), Some("Readable."));
            PostOutcome(subs, body, "42", now).1 == subs + [Submission("42", "", email, "python", "Readable.", now)]
  {
    var body := Fields(Some("  "), Some(email), Some("python"), Some("Readable."));
    PostAppends(subs, body, "42", now);
    assert AllSpace("  ");
    TrimUnchanged("Readable.");
  }

  class SubmissionsRoute {
    var submissions: seq<Submission>

    /** The module-level list, seeded with the demonstration records. */
    constructor (now: int)
      ensures submissions == SeedSubmissions(now)
    {
      submissions := SeedSubmissions(now);
    }

    /** `POST`: the early-return checks, then the assignment at the found index or the push. */
    method Post(body: RequestBody, freshId: string, now: int) returns (resp: Response)
      modifies this
      ensures (resp, submissions) == PostOutcome(old(submissions), body, freshId, now)
    {
      if body.Malformed? {
        return Failure(500, InternalError);
      }
      if !Truthy(body.name) || !Truthy(body.email) || !Truthy(body.language) || !Truthy(body.reason) {
        return Failure(400, AllFieldsRequired);
      }
      var name, email, language, reason := body.name.value, body.email.value, body.language.value, body.reason.value;
      if !IsValidEmail(email) {
        return Failure(400, InvalidEmailFormat);
      }
      var existingIndex := EmailIndex(submissions, email);
      var id := if existingIndex >= 0 then submissions[existingIndex].id else freshId;
      var newSubmission := Submission(id, Trim(name), Trim(email), language, Trim(reason), now);
      if existingIndex >= 0 {
        submissions := submissions[existingIndex := newSubmission];
        resp := Success(VoteUpdated, newSubmission.id);
      } else {
        submissions := submissions + [newSubmission];
        resp := Success(VoteSubmitted, newSubmission.id);
      }
    }

    /** `GET` is not supported. */
    method Get() returns (resp: Response)
      ensures resp == Failure(405, MethodNotAllowed)
    {
      resp := Failure(405, MethodNotAllowed);
    }
  }
}
