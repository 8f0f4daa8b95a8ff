/** The `POST` handler of the roast route: a chain of guards over the submitted form, the PDF
    text, the language-model call and `JSON.parse`, ending in one response. The route keeps
    the last parsed record in a module-level slot, written only when every stage succeeds.

    The foreign work is abstract: `extract` stands for reading the upload and running the PDF
    parser, `generate` for the model request (given the resume text and the career goals
    that the prompt embeds), and `parse` for `JSON.parse` followed by the unchecked cast. */
module RoastRoute {
  import opened Wrappers
  import opened JsString
  import opened Feedback
  import opened FenceExtraction

  /** An uploaded file: its name and its bytes. */
  datatype Upload = Upload(name: string, content: seq<bv8>)

  /** The outcome of `req.formData()` and the three `get` calls; a missing entry is `None`. */
  datatype FormOutcome =
    | FormRejected(reason: Thrown)
    | Form(email: Option<string>, resume: Option<Upload>, careerGoals: Option<string>)

  /** Reading the upload into a buffer and running the PDF parser on it. */
  datatype PdfOutcome = BufferFailed | PdfFailed | PdfText(text: string)

  /** The model request: it throws, or its reply has this text. */
  datatype AiOutcome = AiThrew(reason: Thrown) | AiReplied(text: string)

  /** The foreign calls the handler makes, in order. */
  datatype Call = ReadUpload | ParsePdf | Generate(resumeText: string, careerGoals: string) | ParseJson(text: string)

  /** The JSON body of a response: an error object (with optional `details`), or
      `{ success: true, feedback }`. */
  datatype Body = Failure(error: string, details: Option<string>) | Success(feedback: Record)

  datatype Response = Response(status: int, body: Body)

  const MissingFields := "Missing required fields"
  const EmptyPdf := "Could not extract text from PDF. The file might be empty or corrupted."
  const BadPdf := "Failed to parse PDF file. Please ensure it is a valid PDF document."
  const BadUpload := "Failed to process the uploaded file."
  const BadJson := "Failed to parse AI response. The model returned invalid JSON."
  const AiFailure := "Failed to generate feedback from AI."
  const RequestFailure := "Failed to process request"

  /** The three fields the handler insists on are all truthy (a `File` object always is). */
  predicate Complete(form: FormOutcome)
    requires form.Form?
  {
    Truthy(form.email) && form.resume.Some? && Truthy(form.careerGoals)
  }

  /** The extracted PDF text is unusable: empty, or whitespace only. */
  predicate Blank(text: string) {
    AllWhitespace(text, 0, |text|)
  }

  /** The handler's test `!resumeText || resumeText.trim().length === 0` holds exactly for
      blank text. */
  lemma BlankIffTrimsToEmpty(text: string)
    ensures (text == "" || |Trim(text)| == 0) <==> Blank(text)
  {
    TrimRemovesPadding(text);
    TrimIsInfix(text);
    if Trim(text) != "" {
      assert Trim(text)[0] == text[Lead(text)];
    }
  }

  class RoastHandler {
    /** The module-level `lastFeedback` slot of the roast route. */
    var lastFeedback: Option<Record>

    constructor ()
      ensures lastFeedback == None
    {
      lastFeedback := None;
    }

    method Post(req: FormOutcome, extract: seq<bv8> -> PdfOutcome,
                generate: (string, string) -> AiOutcome, parse: string -> Parsed<Record>)
      returns (resp: Response, calls: seq<Call>)
      modifies this
      // A rejected form body: 500, nothing else is attempted.
      ensures req.FormRejected? ==>
        resp == Response(500, Failure(RequestFailure, Some(ErrorMessage(req.reason, "Unknown error")))) &&
        calls == []
      // A missing or empty field: 400, and no PDF or model work.
      ensures req.Form? && !Complete(req) ==>
        resp == Response(400, Failure(MissingFields, None)) && calls == []
      // The upload stage.
      ensures req.Form? && Complete(req) ==>
        var pdf := extract(req.resume.value.content);
        (pdf.BufferFailed? ==> resp == Response(400, Failure(BadUpload, None)) && calls == [ReadUpload]) &&
        (pdf.PdfFailed? ==> resp == Response(400, Failure(BadPdf, None)) && calls == [ReadUpload, ParsePdf]) &&
        (pdf.PdfText? && Blank(pdf.text) ==>
          resp == Response(400, Failure(EmptyPdf, None)) && calls == [ReadUpload, ParsePdf])
      // The model and parsing stages, once the resume text is usable.
      ensures req.Form? && Complete(req) && extract(req.resume.value.content).PdfText? &&
              !Blank(extract(req.resume.value.content).text) ==>
        var text := extract(req.resume.value.content).text;
        var ai := generate(text, req.careerGoals.value);
        (ai.AiThrew? ==>
          resp == Response(500, Failure(AiFailure, Some(ErrorMessage(ai.reason, "Unknown AI error")))) &&
          calls == [ReadUpload, ParsePdf, Generate(text, req.careerGoals.value)]) &&
        (ai.AiReplied? ==>
          calls == [ReadUpload, ParsePdf, Generate(text, req.careerGoals.value), ParseJson(ExtractJson(ai.text))] &&
          match parse(ExtractJson(ai.text))
          case Parsed(record) => resp == Response(200, Success(record))
          case SyntaxError(message) => resp == Response(500, Failure(BadJson, Some(message))))
      // Success: every stage went through, and the record is what `parse` made of the
      // extracted reply.
      ensures resp.status == 200 <==>
        req.Form? && Complete(req) &&
        var pdf := extract(req.resume.value.content);
        pdf.PdfText? && !Blank(pdf.text) &&
        var ai := generate(pdf.text, req.careerGoals.value);
        ai.AiReplied? && parse(ExtractJson(ai.text)).Parsed?
      // The slot is written on success only, and then holds what the response carries.
      ensures resp.status == 200 ==> resp.body.Success? && lastFeedback == Some(resp.body.feedback)
      ensures resp.status != 200 ==> lastFeedback == old(lastFeedback)
    {
      calls := [];
      if req.FormRejected? {
        return Response(500, Failure(RequestFailure, Some(ErrorMessage(req.reason, "Unknown error")))), calls;
      }
      if !Truthy(req.email) || req.resume.None? || !Truthy(req.careerGoals) {
        return Response(400, Failure(MissingFields, None)), calls;
      }
      var resumeText := "";
      calls := calls + [ReadUpload];
      var pdf := extract(req.resume.value.content);
      if pdf.BufferFailed? {
        return Response(400, Failure(BadUpload, None)), calls;
      }
      calls := calls + [ParsePdf];
      if pdf.PdfFailed? {
        return Response(400, Failure(BadPdf, None)), calls;
      }
      resumeText := pdf.text;
      BlankIffTrimsToEmpty(resumeText);
      if resumeText == "" || |Trim(resumeText)| == 0 {
        return Response(400, Failure(EmptyPdf, None)), calls;
      }
      var careerGoals := req.careerGoals.value;
      calls := calls + [Generate(resumeText, careerGoals)];
      var ai := generate(resumeText, careerGoals);
      if ai.AiThrew? {
        return Response(500, Failure(AiFailure, Some(ErrorMessage(ai.reason, "Unknown AI error")))), calls;
      }
      var jsonText := ExtractJson(ai.text);
      calls := calls + [ParseJson(jsonText)];
      var parsed := parse(jsonText);
      if parsed.SyntaxError? {
        return Response(500, Failure(BadJson, Some(parsed.message))), calls;
      }
      lastFeedback := Some(parsed.value);
      resp := Response(200, Success(parsed.value));
    }
  }
}
