/** The detail pane of the course explorer
    (src/components/course/DetailView.tsx): the PDF viewer's page and zoom
    controls, the sample assessment's answer map and submitted flag, the
    edit flag, and the choice of viewer for the selected item. */
module DetailView {
  import opened Wrappers
  import opened CourseData
  import opened Seqs

  /** `SAMPLE_CONTENT.pdf.pages`. */
  const PDF_PAGES: int := 14
  const FIRST_PAGE: int := 1
  const INITIAL_ZOOM: int := 100
  const MIN_ZOOM: int := 50
  const MAX_ZOOM: int := 200
  const ZOOM_STEP: int := 25

  // ---------------------------------------------------------------------
  // PDF page and zoom
  // ---------------------------------------------------------------------

  function Max(a: int, b: int): int {
    if a >= b then a else b
  }

  function Min(a: int, b: int): int {
    if a <= b then a else b
  }

  /** "Previous": one page back, never before the first. */
  function PrevPage(page: int): (r: int)
    ensures r >= FIRST_PAGE
    ensures page > FIRST_PAGE ==> r == page - 1
    ensures page <= FIRST_PAGE ==> r == FIRST_PAGE
  {
    Max(FIRST_PAGE, page - 1)
  }

  /** "Next": one page on, never past the last. */
  function NextPage(page: int, pages: int): (r: int)
    ensures r <= pages
    ensures page < pages ==> r == page + 1
    ensures page >= pages ==> r == pages
  {
    Min(pages, page + 1)
  }

  /** Zoom "-": 25 points down, never below 50. */
  function ZoomOut(zoom: int): (r: int)
    ensures r >= MIN_ZOOM
    ensures zoom - ZOOM_STEP >= MIN_ZOOM ==> r == zoom - ZOOM_STEP
    ensures zoom - ZOOM_STEP < MIN_ZOOM ==> r == MIN_ZOOM
  {
    Max(MIN_ZOOM, zoom - ZOOM_STEP)
  }

  /** Zoom "+": 25 points up, never above 200. */
  function ZoomIn(zoom: int): (r: int)
    ensures r <= MAX_ZOOM
    ensures zoom + ZOOM_STEP <= MAX_ZOOM ==> r == zoom + ZOOM_STEP
    ensures zoom + ZOOM_STEP > MAX_ZOOM ==> r == MAX_ZOOM
  {
    Min(MAX_ZOOM, zoom + ZOOM_STEP)
  }

  /** The four toolbar buttons. */
  datatype PdfControl = Previous | Next | ZoomMinus | ZoomPlus

  /** The page and zoom after a series of button presses. */
  function RunControls(page: int, zoom: int, controls: seq<PdfControl>): (int, int)
    decreases |controls|
  {
    if controls == [] then (page, zoom)
    else
      var (p, z) := match controls[0]
        case Previous => (PrevPage(page), zoom)
        case Next => (NextPage(page, PDF_PAGES), zoom)
        case ZoomMinus => (page, ZoomOut(zoom))
        case ZoomPlus => (page, ZoomIn(zoom));
      RunControls(p, z, controls[1..])
  }

  predicate InRange(page: int, zoom: int) {
    FIRST_PAGE <= page <= PDF_PAGES && MIN_ZOOM <= zoom <= MAX_ZOOM
  }

  /** From page 1 at 100%, or any page and zoom in range, no series of
      presses leaves the document's pages or the zoom range. */
  lemma {:induction false} ControlsStayInRange(page: int, zoom: int, controls: seq<PdfControl>)
    requires InRange(page, zoom)
    ensures var (p, z) := RunControls(page, zoom, controls); InRange(p, z)
    decreases |controls|
  {
    if controls != [] {
      var (p, z) := match controls[0]
        case Previous => (PrevPage(page), zoom)
        case Next => (NextPage(page, PDF_PAGES), zoom)
        case ZoomMinus => (page, ZoomOut(zoom))
        case ZoomPlus => (page, ZoomIn(zoom));
      ControlsStayInRange(p, z, controls[1..]);
    }
  }

  // ---------------------------------------------------------------------
  // Assessment answers
  // ---------------------------------------------------------------------

  /** An answer: the chosen option of a multiple-choice question, the
      checked options of a multiple-select one, or open-ended text. */
  datatype Answer = Choice(index: int) | Selection(indices: seq<int>) | Text(text: string)

  /** The option indices checked so far for a multiple-select question
      (`assessmentAnswers[id] || []`). */
  function CurrentSelection(answers: map<int, Answer>, questionId: int): seq<int> {
    if questionId in answers && answers[questionId].Selection? then answers[questionId].indices else []
  }

  /** A checkbox change: checking appends the option index, unchecking
      removes every occurrence of it. */
  function CheckboxSelection(current: seq<int>, index: int, checked: bool): (r: seq<int>)
    ensures checked ==> r == current + [index]
    ensures !checked ==> index !in r && forall x :: x in r <==> x in current && x != index
  {
    if checked then current + [index] else RemoveAll(current, index)
  }

  /** Unchecking an option that was just checked leaves none of its
      occurrences, and restores a selection that did not hold it. */
  lemma CheckThenUncheck(current: seq<int>, index: int)
    ensures index !in CheckboxSelection(CheckboxSelection(current, index, true), index, false)
    ensures index !in current ==>
      CheckboxSelection(CheckboxSelection(current, index, true), index, false) == current
  {
    if index !in current {
      AppendThenRemove(current, index);
    }
  }

  /** `{...assessmentAnswers, [id]: answer}`: that question's answer is
      replaced and every other one kept. */
  function SetAnswer(answers: map<int, Answer>, questionId: int, answer: Answer): (r: map<int, Answer>)
    ensures r.Keys == answers.Keys + {questionId}
    ensures r[questionId] == answer
    ensures forall q :: q in answers && q != questionId ==> r[q] == answers[q]
  {
    answers[questionId := answer]
  }

  // ---------------------------------------------------------------------
  // Viewer choice
  // ---------------------------------------------------------------------

  /** What `renderSlideContent` shows for a slide. */
  datatype SlideViewer =
    | PdfViewer
    | VideoPlayer
    | DocumentViewer
    | AssessmentViewer
    | ComingSoon(name: string, kind: string)

  /** The viewer for each slide type; `text`, `code`, `html` and any other
      type get the "implemented soon" card. */
  function RenderSlideContent(slide: CourseSlide): (r: SlideViewer)
    ensures r.VideoPlayer? <==> slide.kind == "video" || slide.kind == "youtube"
    ensures r.PdfViewer? <==> slide.kind == "pdf"
    ensures r.DocumentViewer? <==> slide.kind == "document"
    ensures r.AssessmentViewer? <==> slide.kind == "assessment"
    ensures r.ComingSoon? ==> r == ComingSoon(slide.name, slide.kind)
  {
    match slide.kind
    case "pdf" => PdfViewer
    case "video" => VideoPlayer
    case "document" => DocumentViewer
    case "assessment" => AssessmentViewer
    case "youtube" => VideoPlayer
    case _ => ComingSoon(slide.name, slide.kind)
  }

  /** Every type the course data declares except the four with a viewer of
      their own falls to the placeholder card. */
  lemma PlaceholderTypes(slide: CourseSlide)
    ensures RenderSlideContent(slide).ComingSoon? <==>
      slide.kind !in {"pdf", "video", "youtube", "document", "assessment"}
  {
  }

  /** `selectedItem`: which kind of tree row is selected, with its data. */
  datatype SelectedItem =
    | SubjectSelected(subject: Subject)
    | ModuleSelected(courseModule: CourseModule)
    | ChapterSelected(chapter: Chapter)
    | SlideSelected(slide: CourseSlide)

  /** What the pane shows below the view-mode toggle. */
  datatype Pane =
    | NothingSelected
    | SlideContent(viewer: SlideViewer)
    | Summary(itemType: string, name: string, childCount: int)

  /** A slide gets its viewer; another row gets a summary card with its
      number of children; no selection gets the prompt. */
  function RenderPane(selected: Option<SelectedItem>): (r: Pane)
    ensures r.NothingSelected? <==> selected.None?
    ensures r.SlideContent? <==> selected.Some? && selected.value.SlideSelected?
    ensures selected.Some? && selected.value.SlideSelected? ==>
      r == SlideContent(RenderSlideContent(selected.value.slide))
    ensures selected.Some? && selected.value.SubjectSelected? ==>
      r == Summary("subject", selected.value.subject.name, |selected.value.subject.modules|)
    ensures selected.Some? && selected.value.ModuleSelected? ==>
      r == Summary("module", selected.value.courseModule.name, |selected.value.courseModule.chapters|)
    ensures selected.Some? && selected.value.ChapterSelected? ==>
      r == Summary("chapter", selected.value.chapter.name, |selected.value.chapter.slides|)
  {
    match selected
    case None => NothingSelected
    case Some(SlideSelected(s)) => SlideContent(RenderSlideContent(s))
    case Some(SubjectSelected(s)) => Summary("subject", s.name, |s.modules|)
    case Some(ModuleSelected(m)) => Summary("module", m.name, |m.chapters|)
    case Some(ChapterSelected(c)) => Summary("chapter", c.name, |c.slides|)
  }

  // ---------------------------------------------------------------------
  // The component's state
  // ---------------------------------------------------------------------

  datatype ViewMode = Admin | Student

  class DetailViewState {
    var viewMode: ViewMode
    var isEditing: bool
    var editContent: string
    var pdfCurrentPage: int
    var pdfZoom: int
    var assessmentAnswers: map<int, Answer>
    var assessmentSubmitted: bool

    /** The page lies within the document and the zoom within its range. */
    ghost predicate Valid()
      reads this
    {
      InRange(pdfCurrentPage, pdfZoom)
    }

    constructor ()
      ensures Valid()
      ensures viewMode == Student && !isEditing && editContent == ""
      ensures pdfCurrentPage == FIRST_PAGE && pdfZoom == INITIAL_ZOOM
      ensures assessmentAnswers == map[] && !assessmentSubmitted
    {
      viewMode := Student;
      isEditing := false;
      editContent := "";
      pdfCurrentPage := 1;
      pdfZoom := 100;
      assessmentAnswers := map[];
      assessmentSubmitted := false;
    }

    method SetViewMode(mode: ViewMode)
      modifies this
      ensures viewMode == mode
      ensures isEditing == old(isEditing) && editContent == old(editContent)
      ensures pdfCurrentPage == old(pdfCurrentPage) && pdfZoom == old(pdfZoom)
      ensures assessmentAnswers == old(assessmentAnswers) && assessmentSubmitted == old(assessmentSubmitted)
    {
      viewMode := mode;
    }

    method PressControl(control: PdfControl)
      requires Valid()
      modifies this
      ensures Valid()
      ensures (pdfCurrentPage, pdfZoom) == RunControls(old(pdfCurrentPage), old(pdfZoom), [control])
      ensures viewMode == old(viewMode) && isEditing == old(isEditing) && editContent == old(editContent)
      ensures assessmentAnswers == old(assessmentAnswers) && assessmentSubmitted == old(assessmentSubmitted)
    {
      match control {
        case Previous => pdfCurrentPage := PrevPage(pdfCurrentPage);
        case Next => pdfCurrentPage := NextPage(pdfCurrentPage, PDF_PAGES);
        case ZoomMinus => pdfZoom := ZoomOut(pdfZoom);
        case ZoomPlus => pdfZoom := ZoomIn(pdfZoom);
      }
    }

    /** A radio button or the open-ended text box: only that question's
        answer changes. */
    method AnswerQuestion(questionId: int, answer: Answer)
      requires answer.Choice? || answer.Text?
      modifies this
      ensures assessmentAnswers == SetAnswer(old(assessmentAnswers), questionId, answer)
      ensures viewMode == old(viewMode) && isEditing == old(isEditing) && editContent == old(editContent)
      ensures pdfCurrentPage == old(pdfCurrentPage) && pdfZoom == old(pdfZoom)
      ensures assessmentSubmitted == old(assessmentSubmitted)
    {
      assessmentAnswers := assessmentAnswers[questionId := answer];
    }

    /** A checkbox of a multiple-select question. */
    method CheckOption(questionId: int, index: int, checked: bool)
      modifies this
      ensures assessmentAnswers == SetAnswer(old(assessmentAnswers), questionId,
        Selection(CheckboxSelection(CurrentSelection(old(assessmentAnswers), questionId), index, checked)))
      ensures viewMode == old(viewMode) && isEditing == old(isEditing) && editContent == old(editContent)
      ensures pdfCurrentPage == old(pdfCurrentPage) && pdfZoom == old(pdfZoom)
      ensures assessmentSubmitted == old(assessmentSubmitted)
    {
      var current := CurrentSelection(assessmentAnswers, questionId);
      if checked {
        assessmentAnswers := assessmentAnswers[questionId := Selection(current + [index])];
      } else {
        assessmentAnswers := assessmentAnswers[questionId := Selection(RemoveAll(current, index))];
      }
    }

    /** "Submit Assessment" (`submitted`) and "Review Answers" (`!submitted`)
        flip only the flag; the answers stay. */
    method SetSubmitted(submitted: bool)
      modifies this
      ensures assessmentSubmitted == submitted
      ensures assessmentAnswers == old(assessmentAnswers)
      ensures viewMode == old(viewMode) && isEditing == old(isEditing) && editContent == old(editContent)
      ensures pdfCurrentPage == old(pdfCurrentPage) && pdfZoom == old(pdfZoom)
    {
      assessmentSubmitted := submitted;
    }

    /** `handleEdit`: editing starts, and a selected slide's name becomes the
        text being edited. */
    method HandleEdit(selected: Option<SelectedItem>)
      modifies this
      ensures isEditing
      ensures selected.Some? && selected.value.SlideSelected? ==> editContent == selected.value.slide.name
      ensures !(selected.Some? && selected.value.SlideSelected?) ==> editContent == old(editContent)
      ensures viewMode == old(viewMode)
      ensures pdfCurrentPage == old(pdfCurrentPage) && pdfZoom == old(pdfZoom)
      ensures assessmentAnswers == old(assessmentAnswers) && assessmentSubmitted == old(assessmentSubmitted)
    {
      isEditing := true;
      if selected.Some? && selected.value.SlideSelected? {
        editContent := selected.value.slide.name;
      }
    }

    /** `handleSave` and "Cancel" both leave editing and keep the text. */
    method StopEditing()
      modifies this
      ensures !isEditing && editContent == old(editContent)
      ensures viewMode == old(viewMode)
      ensures pdfCurrentPage == old(pdfCurrentPage) && pdfZoom == old(pdfZoom)
      ensures assessmentAnswers == old(assessmentAnswers) && assessmentSubmitted == old(assessmentSubmitted)
    {
      isEditing := false;
    }
  }
}
