/**
  The idea submission page: the route guard that resolves the field and
  subcategory from the path, and the form as a state machine — typing into a
  field, choosing an image, and the guarded submit.
 */
module IdeaSubmission {
  import opened Wrappers
  import opened Fields
  import opened Taxonomy
  import opened Routes

  /** The nine inputs of the form. */
  datatype FormField =
    | Title | ProblemStatement | Intuition | Approach | Solution
    | ExpectedOutcome | Timeline | Resources | ContactEmail

  /** The `name` attribute of each input, which is also its key in the form data. */
  function FieldName(f: FormField): string
  {
    match f
    case Title => "title"
    case ProblemStatement => "problemStatement"
    case Intuition => "intuition"
    case Approach => "approach"
    case Solution => "solution"
    case ExpectedOutcome => "expectedOutcome"
    case Timeline => "timeline"
    case Resources => "resources"
    case ContactEmail => "contactEmail"
  }

  /** The input an event's `name` refers to, if it is one of the nine. */
  function FieldNamed(name: string): (r: Option<FormField>)
    ensures r.Some? ==> FieldName(r.value) == name
    ensures r.None? ==> forall f: FormField :: FieldName(f) != name
  {
    if name == "title" then Some(Title)
    else if name == "problemStatement" then Some(ProblemStatement)
    else if name == "intuition" then Some(Intuition)
    else if name == "approach" then Some(Approach)
    else if name == "solution" then Some(Solution)
    else if name == "expectedOutcome" then Some(ExpectedOutcome)
    else if name == "timeline" then Some(Timeline)
    else if name == "resources" then Some(Resources)
    else if name == "contactEmail" then Some(ContactEmail)
    else None
  }

  /** Each input has a name of its own, and its name leads back to it. */
  lemma FieldNamedRoundTrip(f: FormField)
    ensures FieldNamed(FieldName(f)) == Some(f)
  {
  }

  datatype FormData = FormData(
    title: string,
    problemStatement: string,
    intuition: string,
    approach: string,
    solution: string,
    expectedOutcome: string,
    timeline: string,
    resources: string,
    contactEmail: string)

  /** The form as the page first shows it and as a successful submit leaves it. */
  const EmptyForm := FormData("", "", "", "", "", "", "", "", "")

  function Get(d: FormData, f: FormField): string
  {
    match f
    case Title => d.title
    case ProblemStatement => d.problemStatement
    case Intuition => d.intuition
    case Approach => d.approach
    case Solution => d.solution
    case ExpectedOutcome => d.expectedOutcome
    case Timeline => d.timeline
    case Resources => d.resources
    case ContactEmail => d.contactEmail
  }

  /** `{ ...prev, [name]: value }` for one of the nine names. */
  function Set(d: FormData, f: FormField, value: string): (r: FormData)
    ensures Get(r, f) == value
    ensures forall g :: g != f ==> Get(r, g) == Get(d, g)
  {
    match f
    case Title => d.(title := value)
    case ProblemStatement => d.(problemStatement := value)
    case Intuition => d.(intuition := value)
    case Approach => d.(approach := value)
    case Solution => d.(solution := value)
    case ExpectedOutcome => d.(expectedOutcome := value)
    case Timeline => d.(timeline := value)
    case Resources => d.(resources := value)
    case ContactEmail => d.(contactEmail := value)
  }

  /** Form data is determined by what its nine inputs hold. */
  lemma FormDataExtensional(a: FormData, b: FormData)
    requires forall f :: Get(a, f) == Get(b, f)
    ensures a == b
  {
    assert Get(a, Title) == Get(b, Title);
    assert Get(a, ProblemStatement) == Get(b, ProblemStatement);
    assert Get(a, Intuition) == Get(b, Intuition);
    assert Get(a, Approach) == Get(b, Approach);
    assert Get(a, Solution) == Get(b, Solution);
    assert Get(a, ExpectedOutcome) == Get(b, ExpectedOutcome);
    assert Get(a, Timeline) == Get(b, Timeline);
    assert Get(a, Resources) == Get(b, Resources);
    assert Get(a, ContactEmail) == Get(b, ContactEmail);
  }

  /** The form data and the chosen image, of which only the file name is kept. */
  datatype FormState = FormState(data: FormData, imageFile: Option<string>)

  const InitialState := FormState(EmptyForm, None)

  /**
    A change event from the input called `name`. A name outside the nine
    only adds a key no input shows and the submit never reads, so the
    visible state stays as it was.
   */
  function HandleInputChange(st: FormState, name: string, value: string): (r: FormState)
    ensures r.imageFile == st.imageFile
    ensures forall f :: Get(r.data, f) == if FieldName(f) == name then value else Get(st.data, f)
  {
    match FieldNamed(name)
    case Some(f) => st.(data := Set(st.data, f, value))
    case None => st
  }

  /** A change of the file input; `files` lists the chosen files, usually none or one. */
  function HandleImageChange(st: FormState, files: seq<string>): (r: FormState)
    ensures r.data == st.data
    ensures |files| > 0 ==> r.imageFile == Some(files[0])
    ensures |files| == 0 ==> r == st
  {
    if |files| > 0 then st.(imageFile := Some(files[0])) else st
  }

  const MissingFieldsAlert := "Please fill in all required fields."
  const ThanksAlert := "Thank you for submitting your innovative idea! We will review it and get back to you soon."

  datatype SubmitOutcome =
    | Rejected(alert: string)
    | Accepted(alert: string, next: FormState, goto: string)

  /** The fields whose emptiness blocks a submit: title, problem statement and solution. */
  predicate Guarded(f: FormField)
  {
    f == Title || f == ProblemStatement || f == Solution
  }

  /**
    The submit handler: with an empty title, problem statement or solution it
    only alerts; otherwise it thanks the author, clears the form and the
    image, and goes to the community feed.
   */
  function HandleSubmit(st: FormState): (r: SubmitOutcome)
    ensures r.Rejected? <==> exists f :: Guarded(f) && Get(st.data, f) == ""
    ensures r.Rejected? ==> r.alert == MissingFieldsAlert
    ensures r.Accepted? ==> r.alert == ThanksAlert && r.goto == CommunityPath
    ensures r.Accepted? ==> r.next.imageFile.None? && forall f :: Get(r.next.data, f) == ""
  {
    if st.data.title == "" || st.data.problemStatement == "" || st.data.solution == "" then
      assert Guarded(Title) && Guarded(ProblemStatement) && Guarded(Solution);
      Rejected(MissingFieldsAlert)
    else
      Accepted(ThanksAlert, InitialState, CommunityPath)
  }

  /** The guard looks only for empty values: a value of spaces is enough. */
  lemma WhitespaceIsAccepted(st: FormState)
    requires st.data.title == " " && st.data.problemStatement == " " && st.data.solution == " "
    ensures HandleSubmit(st).Accepted?
  {
  }

  /** The fields outside the guard, the approach among them, never block a submit. */
  lemma UnguardedFieldsDoNotBlock(st: FormState, f: FormField, value: string)
    requires !Guarded(f)
    ensures HandleSubmit(st.(data := Set(st.data, f, value))).Accepted? <==> HandleSubmit(st).Accepted?
  {
    var d := Set(st.data, f, value);
    assert Get(d, Title) == Get(st.data, Title);
    assert Get(d, ProblemStatement) == Get(st.data, ProblemStatement);
    assert Get(d, Solution) == Get(st.data, Solution);
  }

  /** The form reset by a submit is the form the page starts with. */
  lemma AcceptedResetsToInitial(st: FormState)
    requires HandleSubmit(st).Accepted?
    ensures HandleSubmit(st).next == InitialState
  {
    FormDataExtensional(HandleSubmit(st).next.data, EmptyForm);
  }

  datatype Event =
    | Input(name: string, value: string)
    | ImageChosen(files: seq<string>)
    | Submit

  /** What one event leaves behind: the next state, an alert shown, a navigation made. */
  datatype Effect = Effect(next: FormState, alert: Option<string>, goto: Option<string>)

  /** The form's transition for any event. */
  function Step(st: FormState, ev: Event): (r: Effect)
    ensures !ev.Submit? ==> r.alert.None? && r.goto.None?
    ensures ev.Submit? ==> r.alert.Some?
    ensures ev.Submit? && r.goto.None? ==> r.next == st && r.alert == Some(MissingFieldsAlert)
    ensures r.goto.Some? ==> ev.Submit? && r.goto == Some(CommunityPath) && r.next.imageFile.None?
    ensures ev.ImageChosen? ==> r.next.data == st.data
    ensures ev.Input? ==> r.next.imageFile == st.imageFile
  {
    match ev
    case Input(name, value) => Effect(HandleInputChange(st, name, value), None, None)
    case ImageChosen(files) => Effect(HandleImageChange(st, files), None, None)
    case Submit =>
      match HandleSubmit(st)
      case Rejected(alert) => Effect(st, Some(alert), None)
      case Accepted(alert, next, goto) => Effect(next, Some(alert), Some(goto))
  }

  /** The state after a sequence of events, ignoring alerts and navigation. */
  function Run(st: FormState, events: seq<Event>): (r: FormState)
    decreases |events|
  {
    if |events| == 0 then st else Run(Step(st, events[0]).next, events[1..])
  }

  /** A submit is accepted exactly when it navigates, and then the form is back at its start. */
  lemma SubmitNavigatesIffAccepted(st: FormState)
    ensures Step(st, Submit).goto.Some? <==> forall f :: Guarded(f) ==> Get(st.data, f) != ""
    ensures Step(st, Submit).goto.Some? ==> Step(st, Submit).next == InitialState
  {
    if HandleSubmit(st).Accepted? {
      AcceptedResetsToInitial(st);
    }
  }

  /** Right after a successful submit, submitting again is rejected: the form is empty. */
  lemma ResubmitRejected(st: FormState)
    requires Step(st, Submit).goto.Some?
    ensures Step(Step(st, Submit).next, Submit).goto.None?
  {
    AcceptedResetsToInitial(st);
  }

  /** Filling the three guarded fields of a fresh form and submitting reaches the feed. */
  lemma FillAndSubmit(title: string, problem: string, solution: string)
    requires title != "" && problem != "" && solution != ""
    ensures var st := Run(InitialState, [Input("title", title), Input("problemStatement", problem), Input("solution", solution)]);
      Step(st, Submit).goto == Some(CommunityPath)
  {
    var events := [Input("title", title), Input("problemStatement", problem), Input("solution", solution)];
    var s1 := Step(InitialState, events[0]).next;
    var s2 := Step(s1, events[1]).next;
    var s3 := Step(s2, events[2]).next;
    assert events[1..][1..] == events[2..];
    assert Run(InitialState, events) == s3 by {
      assert Run(InitialState, events) == Run(s1, events[1..]);
      assert Run(s1, events[1..]) == Run(s2, events[2..]);
      assert Run(s2, events[2..]) == Run(s3, events[3..]);
    }
    assert Get(s3.data, Title) == title && Get(s3.data, ProblemStatement) == problem && Get(s3.data, Solution) == solution;
  }

  /** What the page shows once the route resolves. */
  datatype SubmissionView = SubmissionView(field: Field, subcategory: Subcategory)

  predicate NoSubcategoryWithId(field: Field, subcategoryId: string)
  {
    forall i :: 0 <= i < |field.subcategories| ==> field.subcategories[i].id != subcategoryId
  }

  /**
    The route guard: redirect home unless the field exists and one of its
    subcategories has the requested id; otherwise show the first such
    subcategory.
   */
  function SubmissionPage(fields: map<string, Field>, fieldId: string, subcategoryId: string): (r: Outcome<SubmissionView>)
    ensures !r.Throws?
    ensures r.Redirect? ==> r.to == HomePath
    ensures r.Redirect? <==> (fieldId !in fields || NoSubcategoryWithId(fields[fieldId], subcategoryId))
    ensures r.Render? ==> fieldId in fields && r.view.field == fields[fieldId]
    ensures r.Render? ==> exists i :: FirstWithId(r.view.field.subcategories, subcategoryId, i) && r.view.subcategory == r.view.field.subcategories[i]
  {
    match LookupField(fields, fieldId)
    case None => Redirect(HomePath)
    case Some(field) =>
      match FindSubcategory(field.subcategories, subcategoryId)
      case None => Redirect(HomePath)
      case Some(sub) => Render(SubmissionView(field, sub))
  }

  /**
    The page as written: `innovationFields[fieldId]` also finds the keys every
    object inherits. Such a value is truthy but has no `subcategories`, so
    `field?.subcategories.find(...)` throws a `TypeError`.
   */
  function SubmissionPageAsWritten(fields: map<string, Field>, fieldId: string, subcategoryId: string): (r: Outcome<SubmissionView>)
    ensures r.Throws? <==> fieldId !in fields && fieldId in ObjectPrototypeKeys
    ensures !r.Throws? ==> r == SubmissionPage(fields, fieldId, subcategoryId)
  {
    match LookupAsWritten(fields, fieldId)
    case Undefined => Redirect(HomePath)
    case Inherited(_) => Throws
    case Own(field) =>
      match FindSubcategory(field.subcategories, subcategoryId)
      case None => Redirect(HomePath)
      case Some(sub) => Render(SubmissionView(field, sub))
  }
}
