/** The itinerary page (app/itinerary/page.tsx): a three-step form wizard
    whose submit reads the generation stream into the list of thoughts and
    the itinerary text. */
module ItineraryPage {

  import opened Wrappers
  import opened JsonPayload
  import opened EventFrame
  import opened StreamDecoder

  datatype FormData = FormData(
    destination: string,
    startDate: string,
    endDate: string,
    budget: string,
    travelers: string,
    interests: string,
    accommodation: string,
    pace: string,
    additionalNotes: string)

  /** The `name` of the input an event comes from. */
  datatype Field =
    | Destination | StartDate | EndDate | Budget | Travelers
    | Interests | Accommodation | Pace | AdditionalNotes

  const EmptyForm: FormData := FormData("", "", "", "", "", "", "", "", "")

  function Get(form: FormData, field: Field): string {
    match field
    case Destination => form.destination
    case StartDate => form.startDate
    case EndDate => form.endDate
    case Budget => form.budget
    case Travelers => form.travelers
    case Interests => form.interests
    case Accommodation => form.accommodation
    case Pace => form.pace
    case AdditionalNotes => form.additionalNotes
  }

  /** `{...formData, [name]: value}`: the named field takes the value and
      every other field keeps its own. */
  function WithField(form: FormData, field: Field, value: string): (r: FormData)
    ensures Get(r, field) == value
    ensures forall g: Field :: g != field ==> Get(r, g) == Get(form, g)
  {
    match field
    case Destination => form.(destination := value)
    case StartDate => form.(startDate := value)
    case EndDate => form.(endDate := value)
    case Budget => form.(budget := value)
    case Travelers => form.(travelers := value)
    case Interests => form.(interests := value)
    case Accommodation => form.(accommodation := value)
    case Pace => form.(pace := value)
    case AdditionalNotes => form.(additionalNotes := value)
  }

  /** The fields each guard reads. */
  predicate Step1Field(field: Field) {
    field == Destination || field == StartDate || field == EndDate
  }

  predicate Step2Field(field: Field) {
    field == Budget || field == Travelers || field == Accommodation
  }

  /** canProceedStep1: destination, start date and end date all non-empty. */
  predicate CanProceedStep1(form: FormData) {
    form.destination != "" && form.startDate != "" && form.endDate != ""
  }

  /** canProceedStep2: budget, travelers and accommodation all non-empty. */
  predicate CanProceedStep2(form: FormData) {
    form.budget != "" && form.travelers != "" && form.accommodation != ""
  }

  /** The Next button, shown on steps 1 and 2. */
  predicate NextDisabled(step: int, form: FormData) {
    if step == 1 then !CanProceedStep1(form) else !CanProceedStep2(form)
  }

  /** The submit button, shown on step 3. */
  predicate SubmitDisabled(form: FormData) {
    form.interests == ""
  }

  /** Each guard is exactly "its three fields are filled in". */
  lemma GuardsReadTheirFields(form: FormData)
    ensures CanProceedStep1(form) <==> forall f: Field :: Step1Field(f) ==> Get(form, f) != ""
    ensures CanProceedStep2(form) <==> forall f: Field :: Step2Field(f) ==> Get(form, f) != ""
    ensures !SubmitDisabled(form) <==> Get(form, Interests) != ""
  {
    if !CanProceedStep1(form) {
      if form.destination == "" {
        assert Get(form, Destination) == "";
      } else if form.startDate == "" {
        assert Get(form, StartDate) == "";
      } else {
        assert Get(form, EndDate) == "";
      }
    }
    if !CanProceedStep2(form) {
      if form.budget == "" {
        assert Get(form, Budget) == "";
      } else if form.travelers == "" {
        assert Get(form, Travelers) == "";
      } else {
        assert Get(form, Accommodation) == "";
      }
    }
  }

  /** Editing a field a guard does not read leaves that guard as it was. */
  lemma EditOutsideGuardKeepsIt(form: FormData, field: Field, value: string)
    ensures !Step1Field(field) ==> (CanProceedStep1(WithField(form, field, value)) <==> CanProceedStep1(form))
    ensures !Step2Field(field) ==> (CanProceedStep2(WithField(form, field, value)) <==> CanProceedStep2(form))
    ensures field != Interests ==> (SubmitDisabled(WithField(form, field, value)) <==> SubmitDisabled(form))
  {
    var r := WithField(form, field, value);
    assert Get(r, Destination) == r.destination && Get(r, StartDate) == r.startDate && Get(r, EndDate) == r.endDate;
    assert Get(r, Budget) == r.budget && Get(r, Travelers) == r.travelers && Get(r, Accommodation) == r.accommodation;
    assert Get(r, Interests) == r.interests;
  }

  function NextStep(step: int): int {
    if step < 3 then step + 1 else step
  }

  function PrevStep(step: int): int {
    if step > 1 then step - 1 else step
  }

  /** Next and Previous keep the step within 1..3, move it by one when they
      can and are inverse to each other. */
  lemma StepStaysInRange(step: int)
    requires 1 <= step <= 3
    ensures 1 <= NextStep(step) <= 3 && 1 <= PrevStep(step) <= 3
    ensures step < 3 <==> NextStep(step) == step + 1
    ensures step > 1 <==> PrevStep(step) == step - 1
    ensures step < 3 ==> PrevStep(NextStep(step)) == step
    ensures step > 1 ==> NextStep(PrevStep(step)) == step
  {
  }

  /** What the fetch of the generation route gives the page: a thrown error,
      a response without a body, or the chunks its reader returns before
      `done` (or before a read fails, which the outer catch only logs). */
  datatype StreamResponse =
    | FetchFailed
    | NoBody
    | Chunks(chunks: seq<string>)

  class Page {
    var step: int
    var form: FormData
    var isGenerating: bool
    var itinerary: string
    var chainOfThought: seq<string>
    var showResult: bool

    ghost predicate Valid()
      reads this
    {
      1 <= step <= 3
    }

    constructor ()
      ensures Valid()
      ensures step == 1 && form == EmptyForm && !isGenerating && !showResult
      ensures itinerary == "" && chainOfThought == []
    {
      step := 1;
      form := EmptyForm;
      isGenerating := false;
      itinerary := "";
      chainOfThought := [];
      showResult := false;
    }

    /** The effect that copies a non-empty `destination` URL parameter. */
    method PrefillDestination(param: Option<string>)
      modifies this
      ensures form == if param.Some? && param.value != "" then WithField(old(form), Destination, param.value) else old(form)
      ensures step == old(step) && isGenerating == old(isGenerating) && showResult == old(showResult)
      ensures itinerary == old(itinerary) && chainOfThought == old(chainOfThought)
    {
      if param.Some? && param.value != "" {
        form := WithField(form, Destination, param.value);
      }
    }

    method HandleInputChange(field: Field, value: string)
      modifies this
      ensures form == WithField(old(form), field, value)
      ensures step == old(step) && isGenerating == old(isGenerating) && showResult == old(showResult)
      ensures itinerary == old(itinerary) && chainOfThought == old(chainOfThought)
    {
      form := WithField(form, field, value);
    }

    method HandleNextStep()
      requires Valid()
      modifies this
      ensures Valid() && step == NextStep(old(step))
      ensures form == old(form) && isGenerating == old(isGenerating) && showResult == old(showResult)
      ensures itinerary == old(itinerary) && chainOfThought == old(chainOfThought)
    {
      if step < 3 {
        step := step + 1;
      }
    }

    method HandlePrevStep()
      requires Valid()
      modifies this
      ensures Valid() && step == PrevStep(old(step))
      ensures form == old(form) && isGenerating == old(isGenerating) && showResult == old(showResult)
      ensures itinerary == old(itinerary) && chainOfThought == old(chainOfThought)
    {
      if step > 1 {
        step := step - 1;
      }
    }

    /** A click on the Next button: it exists only on the form (steps 1 and
      2) and does nothing while it is disabled. */
    method ClickNext()
      requires Valid()
      modifies this
      ensures Valid()
      ensures step == old(step) + 1 <==> !old(showResult) && old(step) < 3 && !NextDisabled(old(step), old(form))
      ensures step == old(step) || step == old(step) + 1
      ensures form == old(form) && showResult == old(showResult)
    {
      if !showResult && step < 3 && !NextDisabled(step, form) {
        HandleNextStep();
      }
    }

    /** onNewItinerary: back to the first step with nothing generated. */
    method NewItinerary()
      modifies this
      ensures Valid() && step == 1 && !showResult && itinerary == "" && chainOfThought == []
      ensures form == old(form) && isGenerating == old(isGenerating)
    {
      showResult := false;
      step := 1;
      itinerary := "";
      chainOfThought := [];
    }

    /** onItineraryUpdate: the result view replaces the text. */
    method UpdateItinerary(text: string)
      modifies this
      ensures itinerary == text
      ensures step == old(step) && form == old(form) && isGenerating == old(isGenerating)
      ensures showResult == old(showResult) && chainOfThought == old(chainOfThought)
    {
      itinerary := text;
    }

    /** One line of a chunk, as the inner loop body handles it. */
    method ReadLine(line: string, fullResponse: string) returns (fullResponse': string)
      requires itinerary == fullResponse
      modifies this
      ensures Received(chainOfThought, fullResponse') == HandleLine(Received(old(chainOfThought), fullResponse), line)
      ensures itinerary == fullResponse'
      ensures step == old(step) && form == old(form) && isGenerating == old(isGenerating)
      ensures showResult == old(showResult)
    {
      fullResponse' := fullResponse;
      if StartsWithData(line) {
        var data := line[|DataPrefix|..];
        if data != DoneToken {
          var parsed := ParseObject(data);
          if parsed.Some? {
            var kind := Lookup(parsed.value, "type");
            if kind == Some("thought") {
              var content := Lookup(parsed.value, "content");
              if content.Some? {
                chainOfThought := chainOfThought + [content.value];
              }
            } else if kind == Some("content") {
              fullResponse' := fullResponse + AsText(Lookup(parsed.value, "content"));
              itinerary := fullResponse';
            }
          }
        }
      }
    }

    /** handleSubmit: reset the result, then read the stream chunk by chunk,
      splitting each chunk on its own, and finally stop generating. */
    method HandleSubmit(response: StreamResponse)
      modifies this
      ensures showResult && !isGenerating
      ensures response.Chunks? ==> Received(chainOfThought, itinerary) == Decode(response.chunks)
      ensures !response.Chunks? ==> chainOfThought == [] && itinerary == ""
      ensures step == old(step) && form == old(form)
    {
      isGenerating := true;
      showResult := true;
      itinerary := "";
      chainOfThought := [];
      if response.Chunks? {
        var chunks := response.chunks;
        var fullResponse := "";
        var i := 0;
        while i < |chunks|
          invariant 0 <= i <= |chunks|
          invariant Received(chainOfThought, fullResponse) == HandleChunks(Nothing, chunks[..i])
          invariant itinerary == fullResponse && showResult
          invariant step == old(step) && form == old(form)
        {
          ghost var before := Received(chainOfThought, fullResponse);
          var lines := Split(chunks[i]);
          var j := 0;
          while j < |lines|
            invariant 0 <= j <= |lines|
            invariant Received(chainOfThought, fullResponse) == HandleLines(before, lines[..j])
            invariant itinerary == fullResponse && showResult
            invariant step == old(step) && form == old(form)
          {
            ghost var r := Received(chainOfThought, fullResponse);
            fullResponse := ReadLine(lines[j], fullResponse);
            HandleLinesSnoc(before, lines[..j], lines[j]);
            assert lines[..j + 1] == lines[..j] + [lines[j]];
            j := j + 1;
          }
          assert lines[..j] == lines;
          HandleChunksSnoc(Nothing, chunks[..i], chunks[i]);
          assert chunks[..i + 1] == chunks[..i] + [chunks[i]];
          i := i + 1;
        }
        assert chunks[..i] == chunks;
      }
      isGenerating := false;
    }
  }

  lemma HandleLinesSnoc(r: Received, lines: seq<string>, line: string)
    ensures HandleLines(r, lines + [line]) == HandleLine(HandleLines(r, lines), line)
  {
    HandleLinesAppend(r, lines, [line]);
    assert [line][1..] == [];
  }

  lemma HandleChunksSnoc(r: Received, chunks: seq<string>, chunk: string)
    ensures HandleChunks(r, chunks + [chunk]) == HandleChunk(HandleChunks(r, chunks), chunk)
  {
    HandleChunksAppend(r, chunks, [chunk]);
    assert [chunk][1..] == [];
  }
}
