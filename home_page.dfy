/** The submission page: the school-address check, the submit handler (its guards, the
    request, the choice of error message and the record it stores for the results page),
    and the rotating loading message shown while the request is in flight. */
module HomePage {
  import opened Wrappers
  import opened JsString
  import opened Feedback
  import RoastRoute

  // ---------------------------------------------------------------------------------------
  // Email check

  const Domain := "@friendsbalt.org"

  /** `validateEmail`: the lower-cased address ends with the school domain. */
  predicate ValidateEmail(email: string) {
    EndsWith(ToLower(email), Domain)
  }

  /** An address passes exactly when its last |Domain| characters, lower-cased, are the
      domain. */
  lemma ValidateEmailIff(email: string)
    ensures ValidateEmail(email) <==>
      |email| >= |Domain| && ToLower(email[|email| - |Domain|..]) == Domain
  {
    if |email| >= |Domain| {
      var n := |email| - |Domain|;
      assert ToLower(email)[n..] == ToLower(email[n..]);
    }
  }

  /** Letter case never matters: addresses that agree once lower-cased are judged alike. */
  lemma ValidateEmailIgnoresCase(e1: string, e2: string)
    requires |e1| == |e2|
    requires forall k :: 0 <= k < |e1| ==> LowerChar(e1[k]) == LowerChar(e2[k])
    ensures ValidateEmail(e1) == ValidateEmail(e2)
  {
    assert ToLower(e1) == ToLower(e2);
  }

  /** Any local part followed by the domain, in any letter case, passes. */
  lemma ValidateEmailAcceptsDomain(local: string, domain: string)
    requires |domain| == |Domain|
    requires forall k :: 0 <= k < |domain| ==> LowerChar(domain[k]) == Domain[k]
    ensures ValidateEmail(local + domain)
  {
    var e := local + domain;
    var n := |local|;
    forall k | 0 <= k < |Domain| ensures ToLower(e)[n + k] == Domain[k] {
      assert e[n + k] == domain[k];
    }
    assert ToLower(e)[n..] == Domain;
  }

  /** The domain is written in lower case, so the bare domain itself passes. */
  lemma BareDomainAccepted()
    ensures ValidateEmail(Domain)
  {
    assert forall k :: 0 <= k < |Domain| ==> LowerChar(Domain[k]) == Domain[k];
    ValidateEmailAcceptsDomain("", Domain);
    assert "" + Domain == Domain;
  }

  // ---------------------------------------------------------------------------------------
  // Response handling

  /** What the page reads from the roast route's reply: the status (`response.ok` is a
      status in 200..299), and the `error`, `success` and `feedback` fields of the body. */
  datatype ServerReply = ServerReply(status: int, error: Option<string>, success: bool, feedback: Option<Record>) {
    predicate Ok() { 200 <= status <= 299 }
  }

  const ServerErrorPrefix := "Server error: "
  const InvalidResponse := "Invalid response from server"

  /** The error thrown after the reply arrives, if any: a non-2xx status gives the body's
      error or "Server error: <status>"; a 2xx reply without success or feedback gives the
      body's error or InvalidResponse. */
  function ResponseError(reply: ServerReply): (err: Option<string>)
    ensures err.None? <==> reply.Ok() && reply.success && reply.feedback.Some?
    ensures err.Some? ==> err.value != ""
    ensures err.Some? && Truthy(reply.error) ==> err.value == reply.error.value
    ensures reply.Ok() && err.Some? && !Truthy(reply.error) ==> err.value == InvalidResponse
  {
    if !reply.Ok() then
      Some(if Truthy(reply.error) then reply.error.value else ServerErrorPrefix + IntToDecimal(reply.status))
    else if !reply.success || reply.feedback.None? then
      Some(if Truthy(reply.error) then reply.error.value else InvalidResponse)
    else None
  }

  /** A failed status without an error text names the status, which can be read back. */
  lemma ServerErrorNamesStatus(reply: ServerReply)
    requires !reply.Ok() && !Truthy(reply.error)
    ensures var m := ResponseError(reply).value;
      |m| > |ServerErrorPrefix| && m[..|ServerErrorPrefix|] == ServerErrorPrefix &&
      var digits := m[|ServerErrorPrefix|..];
      (forall k :: 0 < k < |digits| ==> IsDigit(digits[k])) &&
      (digits[0] == '-' || IsDigit(digits[0])) && ReadDecimal(digits) == reply.status
  {
    var m := ResponseError(reply).value;
    assert m[|ServerErrorPrefix|..] == IntToDecimal(reply.status);
    IntToDecimalRoundTrip(reply.status);
  }

  /** How a response of the roast route reads on this page. */
  function AsReply(resp: RoastRoute.Response): ServerReply {
    match resp.body
    case Failure(error, _) => ServerReply(resp.status, Some(error), false, None)
    case Success(record) => ServerReply(resp.status, None, true, Some(record))
  }

  /** Against the roast route's replies that carry a parsed record, the page proceeds
      exactly on a 200 response, and otherwise alerts the route's own error message. */
  lemma RoastResponseDecision(resp: RoastRoute.Response)
    requires resp.status == 200 <==> resp.body.Success?
    requires resp.body.Failure? ==> resp.body.error != ""
    ensures ResponseError(AsReply(resp)).None? <==> resp.status == 200
    ensures resp.status != 200 ==> ResponseError(AsReply(resp)) == Some(resp.body.error)
  {
  }

  // ---------------------------------------------------------------------------------------
  // The record stored for the results page

  /** `{ ...feedback, studentInfo: { ...feedback.studentInfo, gradeLevel } }`. */
  function WithGradeLevel(r: Record, g: GradeLevel): Record {
    r.(studentInfo := r.studentInfo.(gradeLevel := g))
  }

  /** The merge replaces the grade level and keeps every other field. */
  lemma WithGradeLevelChangesOnlyGrade(r: Record, g: GradeLevel)
    ensures var m := WithGradeLevel(r, g);
      m.studentInfo.gradeLevel == g &&
      m.studentInfo.firstName == r.studentInfo.firstName &&
      m.studentInfo.lastName == r.studentInfo.lastName &&
      m.studentInfo.schoolName == r.studentInfo.schoolName &&
      m.studentInfo.graduationYear == r.studentInfo.graduationYear &&
      m.roast == r.roast && m.scores == r.scores && m.focus == r.focus && m.notes == r.notes
  {
  }

  /** Records that differ at most in the grade level merge to the same record, and a record
      that already has the grade level is left as it is. */
  lemma WithGradeLevelOverrides(r: Record, s: Record, g: GradeLevel)
    requires r.(studentInfo := r.studentInfo.(gradeLevel := s.studentInfo.gradeLevel)) == s
    ensures WithGradeLevel(r, g) == WithGradeLevel(s, g)
    ensures r.studentInfo.gradeLevel == g ==> WithGradeLevel(r, g) == r
  {
  }

  /** Merging twice is merging with the later grade. */
  lemma WithGradeLevelLastWins(r: Record, g: GradeLevel, h: GradeLevel)
    ensures WithGradeLevel(WithGradeLevel(r, g), h) == WithGradeLevel(r, h)
  {
  }

  // ---------------------------------------------------------------------------------------
  // Loading messages

  /** Entry 0 of the message list applied to a file name. */
  function Opening(fileName: string): string {
    OpeningPrefix + fileName + "... this should be good..."
  }

  const OpeningPrefix := "Opening "

  /** Entries 1 to 9 of the message list. */
  const FixedMessages: seq<string> := [
    "Analyzing activities... or lack thereof...",
    "Hmm... I'm not a fan of the formatting...",
    "Pretty good for a high schooler... I guess...",
    "Wow, I'm impressed... by how much padding there is",
    "They're definitely lying about these achievements...",
    "Is this really all true? Let me fact check...",
    "Running it through the embellishment detector...",
    "Comparing to Harvard admits... oh dear...",
    "Calculating chances of success... error: divide by zero"]

  /** Length of the message list: entry 0 and the fixed entries. */
  const MessageCount := 1 + |FixedMessages|

  /** Advancing the index modulo the list length keeps it equal to the tick count modulo
      the list length. */
  lemma NextIndex(t: nat)
    ensures (t % MessageCount + 1) % MessageCount == (t + 1) % MessageCount
  {
  }

  /** The message one tick of the interval leaves in the `loadingMessage` state at index i.
      Entry 0 is a function: with a file it is applied to the file name; without one the
      function itself goes to the state setter, which React runs as an updater on the
      message shown before. */
  function MessageAt(i: nat, fileName: Option<string>, previous: string): (m: string)
    requires i < MessageCount
    ensures 0 < i ==> m in FixedMessages
    ensures i == 0 ==> |m| >= |OpeningPrefix| && m[..|OpeningPrefix|] == OpeningPrefix
    ensures i == 0 && fileName.Some? ==>
      |m| >= |OpeningPrefix| + |fileName.value| &&
      m[|OpeningPrefix|..|OpeningPrefix| + |fileName.value|] == fileName.value
    ensures i == 0 && fileName.None? ==>
      |m| >= |OpeningPrefix| + |previous| && m[|OpeningPrefix|..|OpeningPrefix| + |previous|] == previous
  {
    if i == 0 then Opening(if fileName.Some? then fileName.value else previous)
    else FixedMessages[i - 1]
  }

  /** Only index 0 depends on the file and on the previous message: every other index shows
      its fixed text. */
  lemma MessageAtIgnoresFile(i: nat, f: Option<string>, g: Option<string>, p: string, q: string)
    requires 0 < i < MessageCount
    ensures MessageAt(i, f, p) == MessageAt(i, g, q) == FixedMessages[i - 1]
  {
  }

  /** Without a file, each pass through index 0 wraps the message shown before, so the
      message grows by the opening's fixed text on every round. */
  lemma OpeningWrapsPrevious(previous: string)
    ensures |MessageAt(0, None, previous)| == |previous| + |Opening("")|
  {
  }

  /** The interval started while loading: `currentIndex` walks round the ten entries.
      `ticks` counts the callbacks so far. */
  class LoadingTicker {
    const fileName: Option<string>
    var currentIndex: nat
    var message: string
    ghost var ticks: nat

    ghost predicate Valid()
      reads this
    {
      currentIndex == ticks % MessageCount
    }

    constructor (fileName: Option<string>, message: string)
      ensures Valid() && ticks == 0 && currentIndex == 0
      ensures this.fileName == fileName && this.message == message
    {
      this.fileName := fileName;
      this.message := message;
      currentIndex := 0;
      ticks := 0;
    }

    /** One callback: set the message from the entry at the index (and, without a file at
        index 0, from the message before), then advance the index modulo the list length. */
    method Tick()
      requires Valid()
      modifies this`currentIndex, this`message, this`ticks
      ensures Valid() && ticks == old(ticks) + 1
      ensures currentIndex < MessageCount
      ensures message == MessageAt(old(ticks) % MessageCount, fileName, old(message))
    {
      NextIndex(ticks);
      var shown := MessageAt(currentIndex, fileName, message);
      message := shown;
      currentIndex := (currentIndex + 1) % MessageCount;
      ticks := ticks + 1;
    }
  }

  // ---------------------------------------------------------------------------------------
  // Submit

  const EmailAlert := "Please use your @friendsbalt.org email address"
  const ResumeAlert := "Please provide a resume"
  const SomethingWrong := "Something went wrong. Please try again."

  /** The multipart request sent to the roast route. */
  datatype RoastRequest = RoastRequest(email: string, resume: RoastRoute.Upload, careerGoals: string, gradeLevel: GradeLevel)

  /** The request: it throws (network failure, or a body that is not JSON), or a reply comes. */
  datatype FetchOutcome = FetchThrew(reason: Thrown) | Replied(reply: ServerReply)

  datatype Location = Home | Results

  /** How a request that got past the guards ends: an alert with this message, or the
      merged record stored under the storage key and a move to the results page. */
  datatype Settled = Alerted(message: string) | Navigated(item: string)

  /** The `try`/`catch` of `handleSubmit` after the request is sent. */
  function Settle(outcome: FetchOutcome, gradeLevel: GradeLevel, stringify: Record -> string): (r: Settled)
    ensures r.Navigated? <==> outcome.Replied? && ResponseError(outcome.reply).None?
    ensures outcome.FetchThrew? ==> r == Alerted(ErrorMessage(outcome.reason, SomethingWrong))
    ensures outcome.Replied? && ResponseError(outcome.reply).Some? ==>
      r == Alerted(ResponseError(outcome.reply).value)
    ensures r.Navigated? ==>
      r.item == stringify(WithGradeLevel(outcome.reply.feedback.value, gradeLevel))
  {
    match outcome
    case FetchThrew(reason) => Alerted(ErrorMessage(reason, SomethingWrong))
    case Replied(reply) =>
      match ResponseError(reply)
      case Some(message) => Alerted(message)
      case None => Navigated(stringify(WithGradeLevel(reply.feedback.value, gradeLevel)))
  }

  /** The form's state variables, the alerts shown, the requests sent, the storage item the
      results page reads, and where the router went. */
  class HomeForm {
    var email: string
    var file: Option<RoastRoute.Upload>
    var careerGoals: string
    var gradeLevel: GradeLevel
    var isLoading: bool
    var loadingMessage: string
    var alerts: seq<string>
    var requests: seq<RoastRequest>
    var stored: Option<string>
    var location: Location

    constructor (item: Option<string>)
      ensures email == "" && file == None && careerGoals == "" && gradeLevel == Freshman
      ensures !isLoading && loadingMessage == ""
      ensures alerts == [] && requests == [] && stored == item && location == Home
    {
      email, file, careerGoals, gradeLevel := "", None, "", Freshman;
      isLoading, loadingMessage := false, "";
      alerts, requests, stored, location := [], [], item, Home;
    }

    /** The effect of how the request settled: an alert, or the stored record and the move
        to the results page. */
    method Conclude(settled: Settled)
      modifies this`alerts, this`stored, this`location
      ensures settled.Alerted? ==>
        alerts == old(alerts) + [settled.message] && stored == old(stored) && location == old(location)
      ensures settled.Navigated? ==>
        alerts == old(alerts) && stored == Some(settled.item) && location == Results
    {
      match settled {
        case Alerted(message) =>
          alerts := alerts + [message];
        case Navigated(item) =>
          stored := Some(item);
          location := Results;
      }
    }

    /** `handleSubmit`. `fetch` gives the outcome of sending a request, `stringify` is
        `JSON.stringify`. */
    method HandleSubmit(fetch: RoastRequest -> FetchOutcome, stringify: Record -> string)
      modifies this`isLoading, this`loadingMessage, this`alerts, this`requests, this`stored, this`location
      // The email is checked first: a bad address stops here, file or no file.
      ensures !ValidateEmail(email) ==>
        alerts == old(alerts) + [EmailAlert] && requests == old(requests) &&
        isLoading == old(isLoading) && loadingMessage == old(loadingMessage) &&
        stored == old(stored) && location == old(location)
      ensures ValidateEmail(email) && file.None? ==>
        alerts == old(alerts) + [ResumeAlert] && requests == old(requests) &&
        isLoading == old(isLoading) && loadingMessage == old(loadingMessage) &&
        stored == old(stored) && location == old(location)
      // Past the guards: one request, and loading is over whatever happens.
      ensures ValidateEmail(email) && file.Some? ==>
        var req := RoastRequest(email, file.value, careerGoals, gradeLevel);
        requests == old(requests) + [req] && !isLoading && loadingMessage == "" &&
        match Settle(fetch(req), gradeLevel, stringify)
        case Alerted(message) =>
          alerts == old(alerts) + [message] && stored == old(stored) && location == old(location)
        case Navigated(item) =>
          alerts == old(alerts) && stored == Some(item) && location == Results
    {
      var validEmail := ValidateEmail(email);
      Submit(validEmail, fetch, stringify);
    }

    /** `handleSubmit` once the address has been judged: `validEmail` is the verdict of
        `validateEmail`. */
    method Submit(validEmail: bool, fetch: RoastRequest -> FetchOutcome, stringify: Record -> string)
      modifies this`isLoading, this`loadingMessage, this`alerts, this`requests, this`stored, this`location
      ensures !validEmail ==>
        alerts == old(alerts) + [EmailAlert] && requests == old(requests) &&
        isLoading == old(isLoading) && loadingMessage == old(loadingMessage) &&
        stored == old(stored) && location == old(location)
      ensures validEmail && file.None? ==>
        alerts == old(alerts) + [ResumeAlert] && requests == old(requests) &&
        isLoading == old(isLoading) && loadingMessage == old(loadingMessage) &&
        stored == old(stored) && location == old(location)
      ensures validEmail && file.Some? ==>
        var req := RoastRequest(email, file.value, careerGoals, gradeLevel);
        requests == old(requests) + [req] && !isLoading && loadingMessage == "" &&
        match Settle(fetch(req), gradeLevel, stringify)
        case Alerted(message) =>
          alerts == old(alerts) + [message] && stored == old(stored) && location == old(location)
        case Navigated(item) =>
          alerts == old(alerts) && stored == Some(item) && location == Results
    {
      if !validEmail {
        alerts := alerts + [EmailAlert];
        return;
      }
      if file.None? {
        alerts := alerts + [ResumeAlert];
        return;
      }
      isLoading := true;
      loadingMessage := Opening(file.value.name);
      var req := RoastRequest(email, file.value, careerGoals, gradeLevel);
      requests := requests + [req];
      Conclude(Settle(fetch(req), gradeLevel, stringify));
      isLoading := false;
      loadingMessage := "";
    }
  }
}
