/** The content script: the job-description extractor, the question finder,
    and the page state (`activeField`, the floating button, the modal) that the
    focus, blur, scroll, open, close, generate and insert handlers update. The
    DOM is reduced to the parts those handlers read or write; the runtime
    message round trip is split into the request it sends and the response it
    receives. */
module ContentScript {
  import opened Js
  import opened Text
  import Background

  const MaxContextChars: nat := 4000
  const DefaultQuestion: string := "Job application response"
  const FallbackError: string := "Something went wrong."

  // ---------------------------------------------------------------------------
  // extractJobDescription

  /** `mainText` is the innerText of the first `main` or `article` element, or
      of the body when there is none. */
  function ExtractJobDescription(mainText: Option<string>): (r: string)
    ensures r <= Collapse(Or(mainText, ""))
    ensures |r| == if |Collapse(Or(mainText, ""))| <= MaxContextChars then |Collapse(Or(mainText, ""))| else MaxContextChars
    ensures OnlyPlainSpaces(r) && NoRun(r, Space, 2) && (r == [] || !IsSpace(r[0]))
  {
    ClippedCollapseShape(Or(mainText, ""), MaxContextChars);
    Take(Collapse(Or(mainText, "")), MaxContextChars)
  }

  /** A page text that fits once collapsed loses no visible character. */
  lemma JobDescriptionKeepsShortText(mainText: string)
    requires |Collapse(mainText)| <= MaxContextChars
    ensures Visible(ExtractJobDescription(Some(mainText))) == Visible(mainText)
    ensures Trimmed(ExtractJobDescription(Some(mainText)))
    ensures Words(ExtractJobDescription(Some(mainText))) == Words(mainText)
  {
    ClippedCollapseShape(mainText, MaxContextChars);
  }

  // ---------------------------------------------------------------------------
  // getQuestionText

  /** What a form field exposes to the question finder: its two aria
      attributes (absent is None), its id and placeholder properties, and the
      innerText of its nearest enclosing section, form or div, if any. */
  datatype Attributes = Attributes(ariaLabel: Option<string>, ariaLabelledBy: Option<string>,
                                   id: string, placeholder: string, enclosingText: Option<string>)

  /** The document as the finder queries it: the innerText of the element with
      a given id, and the innerText of the first `label` whose `for` is a given id. */
  datatype Document = Document(textById: map<string, string>, labelTextFor: map<string, string>)

  /** The innerText of the element with the given id, or "" when there is
      none or it is empty; no element has the empty id. */
  function IdText(doc: Document, id: string): string
  {
    if id == "" then "" else Or(Get(doc.textById, id), "")
  }

  function LookUpIds(doc: Document, ids: seq<string>): (texts: seq<string>)
    ensures |texts| == |ids| && forall i :: 0 <= i < |ids| ==> texts[i] == IdText(doc, ids[i])
  {
    seq(|ids|, i requires 0 <= i < |ids| => IdText(doc, ids[i]))
  }

  /** The ids the aria branch looks up: those listed in `aria-label` when it is
      non-empty, otherwise those in `aria-labelledby`, split on single spaces. */
  function AriaIds(a: Attributes): seq<string>
  {
    var aria := if Truthy(a.ariaLabel) then a.ariaLabel else a.ariaLabelledBy;
    if Truthy(aria) then Split(aria.value, ' ') else []
  }

  function AriaText(doc: Document, a: Attributes): (r: string)
    ensures Trimmed(r)
    ensures AriaIds(a) == [] ==> r == ""
  {
    if AriaIds(a) == [] then "" else Trim(Join(LookUpIds(doc, AriaIds(a)), " "))
  }

  /** The first three lines of the enclosing text, joined by spaces and trimmed. */
  function EnclosingLines(a: Attributes): (r: string)
    ensures Trimmed(r)
  {
    Trim(Join(Take(Split(Or(a.enclosingText, ""), '\n'), 3), " "))
  }

  /** A label for the field's id exists and its text is not empty. */
  predicate LabelHasText(doc: Document, a: Attributes)
  {
    a.id in doc.labelTextFor && doc.labelTextFor[a.id] != []
  }

  function GetQuestionText(doc: Document, a: Attributes): (r: string)
    ensures Trimmed(r)
  {
    var labelled := AriaText(doc, a);
    var labelText := Get(doc.labelTextFor, a.id);
    if labelled != "" then labelled
    else if Truthy(labelText) then Trim(labelText.value)
    else if a.placeholder != "" then Trim(a.placeholder)
    else EnclosingLines(a)
  }

  /** The aria branch wins whenever one of the referenced elements has visible
      text, and the question is then the texts of the referenced elements, in
      the order their ids are listed. */
  lemma QuestionFromAria(doc: Document, a: Attributes)
    requires VisibleAll(LookUpIds(doc, AriaIds(a))) != []
    ensures var r := GetQuestionText(doc, a);
      r != "" && Visible(r) == VisibleAll(LookUpIds(doc, AriaIds(a)))
  {
    var joined := Join(LookUpIds(doc, AriaIds(a)), " ");
    VisibleJoin(LookUpIds(doc, AriaIds(a)), " ");
    VisibleTrim(joined);
    assert AriaIds(a) != [] by {
      assert LookUpIds(doc, []) == [];
    }
    assert Trim(joined) != [] by {
      assert Visible([]) == [];
    }
  }

  /** When no referenced element has visible text, the aria attributes are
      ignored: this is also the case when `aria-label` holds ordinary words
      that are not element ids. */
  lemma AriaWithoutTextFallsThrough(doc: Document, a: Attributes)
    requires VisibleAll(LookUpIds(doc, AriaIds(a))) == []
    ensures AriaText(doc, a) == ""
  {
    if AriaIds(a) != [] {
      var joined := Join(LookUpIds(doc, AriaIds(a)), " ");
      VisibleJoin(LookUpIds(doc, AriaIds(a)), " ");
      VisibleTrim(joined);
    }
  }

  /** A label with text ends the search, even when that text is blank: the
      question is then empty although a placeholder or enclosing text exists. */
  lemma BlankLabelEndsSearch(doc: Document, a: Attributes)
    requires AriaText(doc, a) == ""
    requires a.id in doc.labelTextFor && doc.labelTextFor[a.id] != []
    requires AllIn(doc.labelTextFor[a.id], Space)
    ensures GetQuestionText(doc, a) == ""
  {
    var lo, hi := TrimSlice(doc.labelTextFor[a.id]);
    VisibleTrim(doc.labelTextFor[a.id]);
    VisibleBlank(doc.labelTextFor[a.id]);
  }

  /** The sources are tried in a fixed order, each only when all earlier ones
      gave nothing: the aria text, then the text of a label for the field's
      id (any non-empty text, even blank), then a non-empty placeholder, and
      only then the enclosing lines. */
  lemma QuestionOrder(doc: Document, a: Attributes)
    ensures AriaText(doc, a) != "" ==> GetQuestionText(doc, a) == AriaText(doc, a)
    ensures AriaText(doc, a) == "" && LabelHasText(doc, a) ==>
      GetQuestionText(doc, a) == Trim(doc.labelTextFor[a.id])
    ensures AriaText(doc, a) == "" && !LabelHasText(doc, a) && a.placeholder != "" ==>
      GetQuestionText(doc, a) == Trim(a.placeholder)
    ensures AriaText(doc, a) == "" && !LabelHasText(doc, a) && a.placeholder == "" ==>
      GetQuestionText(doc, a) == EnclosingLines(a)
  {
  }

  /** Likewise a placeholder ends the search when no label has text, even when
      the placeholder is blank: the question is then empty although enclosing
      text exists. */
  lemma BlankPlaceholderEndsSearch(doc: Document, a: Attributes)
    requires AriaText(doc, a) == ""
    requires !LabelHasText(doc, a)
    requires a.placeholder != [] && AllIn(a.placeholder, Space)
    ensures GetQuestionText(doc, a) == ""
  {
    var lo, hi := TrimSlice(a.placeholder);
    VisibleTrim(a.placeholder);
    VisibleBlank(a.placeholder);
  }

  /** The enclosing-text branch never yields a line break, and when the
      enclosing text has at most three lines it keeps all of that text's
      visible characters. */
  lemma EnclosingLinesShape(a: Attributes)
    ensures '\n' !in EnclosingLines(a)
    ensures |Split(Or(a.enclosingText, ""), '\n')| <= 3 ==>
      Visible(EnclosingLines(a)) == Visible(Or(a.enclosingText, ""))
  {
    var p := Or(a.enclosingText, "");
    var lines := Take(Split(p, '\n'), 3);
    SplitPiecesFree(p, '\n');
    forall i | 0 <= i < |lines|
      ensures '\n' !in lines[i]
    {
      assert lines[i] == Split(p, '\n')[i];
    }
    JoinAvoids(lines, " ", '\n');
    TrimAvoids(Join(lines, " "), '\n');
    VisibleTrim(Join(lines, " "));
    VisibleJoin(lines, " ");
    if |Split(p, '\n')| <= 3 {
      SplitJoin(p, '\n');
      VisibleJoin(Split(p, '\n'), "\n");
    }
  }

  /** The question shown in the modal: never empty. */
  function ShownQuestion(found: string): (q: string)
    ensures q != ""
    ensures found != "" ==> q == found
  {
    if found == "" then DefaultQuestion else found
  }

  /** The text the modal shows for a failed generation: the response's error
      when there is a non-empty one, otherwise a fixed fallback; never empty. */
  function ShownError(response: Option<Background.Response>): (e: string)
    ensures e != ""
    ensures response.Some? && response.value.Err? && response.value.error != "" ==> e == response.value.error
  {
    if response.Some? && response.value.Err? && response.value.error != "" then response.value.error
    else FallbackError
  }

  // ---------------------------------------------------------------------------
  // Page state

  /** What kind of element received focus. */
  datatype ElementKind = TextArea | Input(inputType: string) | OtherElement

  /** The handlers act only on a textarea or on an input whose type is "text". */
  predicate IsTextField(kind: ElementKind)
  {
    kind.TextArea? || (kind.Input? && kind.inputType == "text")
  }

  /** A focusable element of the page. */
  class Field {
    const kind: ElementKind
    const attrs: Attributes
    var value: string
    /** Bubbling `input` events dispatched on the element. */
    var inputEvents: nat

    constructor(kind: ElementKind, attrs: Attributes, value: string)
      ensures this.kind == kind && this.attrs == attrs && this.value == value && inputEvents == 0
    {
      this.kind := kind;
      this.attrs := attrs;
      this.value := value;
      inputEvents := 0;
    }
  }

  /** The "Fill with AI" button. */
  class FloatingButton {
    var hidden: bool

    constructor()
      ensures !hidden
    {
      hidden := false;
    }
  }

  /** The draft-answer modal: its question, its answer textarea, its error
      area and the state of its Generate button. */
  class Modal {
    const question: string
    const output: Field
    var errorHidden: bool
    var errorText: string
    /** The Generate button is disabled and reads "Working...". */
    var working: bool

    constructor(question: string)
      ensures this.question == question && fresh(output)
      ensures output.kind == TextArea && output.value == "" && output.inputEvents == 0
      ensures errorHidden && errorText == "" && !working
    {
      this.question := question;
      output := new Field(TextArea, Attributes(None, None, "", "Generate a response...", None), "");
      errorHidden := true;
      errorText := "";
      working := false;
    }
  }

  /** The script's `state` object together with the floating buttons and
      modals it has appended to the document body. */
  class Page {
    var activeField: Field?
    var button: FloatingButton?
    var modal: Modal?
    var buttonsInBody: seq<FloatingButton>
    var modalsInBody: seq<Modal>

    /** At most one floating button and at most one modal are in the body,
        they are the ones `state` refers to, and a modal is open only for an
        active field. */
    predicate Valid()
      reads this
    {
      && (if button == null then buttonsInBody == [] else buttonsInBody == [button])
      && (if modal == null then modalsInBody == [] else modalsInBody == [modal])
      && (modal != null ==> activeField != null)
    }

    /** The field the modal will insert into is a page field, not the
        modal's own answer textarea. */
    predicate AnswerTargetsPage()
      reads this
    {
      modal == null || activeField != modal.output
    }

    constructor()
      ensures Valid() && AnswerTargetsPage()
      ensures activeField == null && button == null && modal == null
    {
      activeField := null;
      button := null;
      modal := null;
      buttonsInBody := [];
      modalsInBody := [];
    }

    /** ensureButton: creates and appends the button on the first call only. */
    method EnsureButton() returns (b: FloatingButton)
      requires Valid()
      modifies this
      ensures Valid() && button == b
      ensures old(button) != null ==> b == old(button) && buttonsInBody == old(buttonsInBody)
      ensures old(button) == null ==> fresh(b) && !b.hidden
      ensures activeField == old(activeField) && modal == old(modal) && modalsInBody == old(modalsInBody)
    {
      if button != null {
        return button;
      }
      b := new FloatingButton();
      buttonsInBody := buttonsInBody + [b];
      button := b;
    }

    /** positionButton: the button exists afterwards and is shown. */
    method PositionButton()
      requires Valid()
      modifies this, button
      ensures Valid() && button != null && !button.hidden
      ensures old(button) != null ==> button == old(button) && buttonsInBody == old(buttonsInBody)
      ensures old(button) == null ==> fresh(button)
      ensures activeField == old(activeField) && modal == old(modal) && modalsInBody == old(modalsInBody)
    {
      var b := EnsureButton();
      b.hidden := false;
    }

    /** closeModal: removes the current modal, if any, from the body. */
    method CloseModal()
      requires Valid()
      modifies this
      ensures Valid() && AnswerTargetsPage() && modal == null && modalsInBody == []
      ensures activeField == old(activeField) && button == old(button) && buttonsInBody == old(buttonsInBody)
    {
      modal := null;
      modalsInBody := [];
    }

    /** openModal: closes the current modal first; with an active field, opens
        a fresh one whose question is what the finder reports for that field
        in `doc`, or the default question when that is empty. */
    method OpenModal(doc: Document)
      requires Valid()
      modifies this
      ensures Valid() && AnswerTargetsPage()
      ensures old(activeField) == null ==> modal == null
      ensures old(activeField) != null ==>
        && modal != null && fresh(modal) && fresh(modal.output)
        && modal.question == ShownQuestion(GetQuestionText(doc, old(activeField).attrs))
        && modal.output.kind == TextArea && modal.output.value == "" && modal.errorHidden && !modal.working
      ensures activeField == old(activeField) && button == old(button) && buttonsInBody == old(buttonsInBody)
    {
      CloseModal();
      if activeField == null {
        return;
      }
      var question := GetQuestionText(doc, activeField.attrs);
      if question == "" {
        question := DefaultQuestion;
      }
      var m := new Modal(question);
      modalsInBody := modalsInBody + [m];
      modal := m;
    }

    /** The Generate click, up to the message it sends: the answer box is
        cleared, the error hidden and the button disabled; the message carries
        the modal's question, the active field's value read after the answer
        box was cleared, and the page's job description. */
    method StartGenerate(mainText: Option<string>) returns (msg: Background.Message)
      requires Valid() && modal != null
      modifies modal, modal.output
      ensures modal.output.value == "" && modal.errorHidden && modal.working
      ensures modal.errorText == old(modal.errorText) && modal.output.inputEvents == old(modal.output.inputEvents)
      ensures msg == Background.Message(Some("generateAnswer"), Some(modal.question),
                                        Some(activeField.value), Some(ExtractJobDescription(mainText)))
    {
      modal.errorHidden := true;
      modal.output.value := "";
      modal.working := true;
      msg := Background.Message(Some("generateAnswer"), Some(modal.question),
                                Some(activeField.value), Some(ExtractJobDescription(mainText)));
    }

    /** The rest of the Generate click, once the response (None when there is
        none) arrives for modal `m`: the button is enabled again; a successful
        answer fills the answer box, anything else shows an error. */
    method FinishGenerate(m: Modal, response: Option<Background.Response>)
      modifies m, m.output
      ensures !m.working && m.output.inputEvents == old(m.output.inputEvents)
      ensures response.Some? && response.value.Ok? ==>
        m.output.value == response.value.answer && m.errorHidden == old(m.errorHidden) && m.errorText == old(m.errorText)
      ensures !(response.Some? && response.value.Ok?) ==>
        !m.errorHidden && m.errorText == ShownError(response) && m.output.value == old(m.output.value)
    {
      m.working := false;
      if !(response.Some? && response.value.Ok?) {
        m.errorHidden := false;
        m.errorText := ShownError(response);
        return;
      }
      m.output.value := response.value.answer;
    }

    /** The Insert click: nothing happens when the trimmed answer is empty;
        otherwise the active field receives the trimmed answer and one input
        event, and the modal closes. */
    method Insert()
      requires Valid() && modal != null
      modifies this, activeField
      ensures Valid() && activeField == old(activeField) && button == old(button) && buttonsInBody == old(buttonsInBody)
      ensures Trim(old(modal.output.value)) == "" ==>
        && modal == old(modal) && modalsInBody == old(modalsInBody)
        && activeField.value == old(activeField.value) && activeField.inputEvents == old(activeField.inputEvents)
      ensures Trim(old(modal.output.value)) != "" ==>
        && modal == null && modalsInBody == []
        && activeField.value == Trim(old(modal.output.value))
        && activeField.inputEvents == old(activeField.inputEvents) + 1
    {
      var answer := Trim(modal.output.value);
      if answer == "" {
        return;
      }
      activeField.value := answer;
      activeField.inputEvents := activeField.inputEvents + 1;
      CloseModal();
    }

    /** The focusin listener: a textarea or text input becomes the active
        field and gets the button; focus on anything else changes nothing. */
    method HandleFocus(target: Field)
      requires Valid()
      modifies this, button
      ensures Valid() && modal == old(modal) && modalsInBody == old(modalsInBody)
      ensures IsTextField(target.kind) ==>
        && activeField == target && button != null && !button.hidden
        && (old(button) != null ==> button == old(button))
        && (old(button) == null ==> fresh(button))
      ensures !IsTextField(target.kind) ==> unchanged(this) && (button != null ==> unchanged(button))
    {
      if !IsTextField(target.kind) {
        return;
      }
      activeField := target;
      PositionButton();
    }

    /** The focusout listener: hides the button and keeps the active field. */
    method HandleBlur()
      modifies button
      ensures unchanged(this) && (button != null ==> button.hidden)
    {
      if button != null {
        button.hidden := true;
      }
    }

    /** The scroll and resize listeners: with an active field, the button is
        shown again next to it. */
    method HandleScrollOrResize()
      requires Valid()
      modifies this, button
      ensures Valid() && activeField == old(activeField) && modal == old(modal) && modalsInBody == old(modalsInBody)
      ensures old(activeField) != null ==> button != null && !button.hidden
      ensures old(activeField) == null ==> unchanged(this) && (button != null ==> unchanged(button))
    {
      if activeField != null {
        PositionButton();
      }
    }

    /** The focusin listener with focus inside the modal ignored: the
        modal's own answer textarea never becomes the active field. */
    method HandleFocusOutsideModal(target: Field)
      requires Valid() && AnswerTargetsPage()
      modifies this, button
      ensures Valid() && AnswerTargetsPage() && modal == old(modal) && modalsInBody == old(modalsInBody)
      ensures IsTextField(target.kind) && (modal == null || target != modal.output) ==>
        && activeField == target && button != null && !button.hidden
        && (old(button) != null ==> button == old(button))
        && (old(button) == null ==> fresh(button))
      ensures !IsTextField(target.kind) || (modal != null && target == modal.output) ==>
        unchanged(this) && (button != null ==> unchanged(button))
    {
      if modal != null && target == modal.output {
        return;
      }
      HandleFocus(target);
    }
  }

  // ---------------------------------------------------------------------------
  // Where an inserted answer goes

  /** The answer the background returns in the scenarios below. */
  const SampleAnswer := "Hello"

  lemma SampleAnswerTrimmed()
    ensures Trim(SampleAnswer) == SampleAnswer
  {
    TrimIdentity(SampleAnswer);
  }

  /** A user who clicks into the answer box before pressing Insert: the
      focusin listener makes the answer box the active field, so the answer
      is written into the answer box, which then closes, and the page field
      the modal was opened for is left as it was. */
  method InsertAfterFocusingAnswerBox() returns (pageValue: string, pageEvents: nat, modalOpen: bool)
    ensures pageValue == "" && pageEvents == 0 && !modalOpen
  {
    var page := new Page();
    var blank := Attributes(None, None, "", "", None);
    var field := new Field(TextArea, blank, "");
    page.HandleFocus(field);
    assert page.activeField == field;
    page.OpenModal(Document(map[], map[]));
    var m := page.modal;
    assert m != null && m.output != field;
    page.FinishGenerate(m, Some(Background.Ok(SampleAnswer)));
    assert m.output.value == SampleAnswer && field.value == "";
    page.HandleFocus(m.output);
    assert page.activeField == m.output && page.modal == m && field.value == "";
    SampleAnswerTrimmed();
    page.Insert();
    assert field.value == "" && field.inputEvents == 0;
    pageValue, pageEvents, modalOpen := field.value, field.inputEvents, page.modal != null;
  }

  /** The same clicks with focus inside the modal ignored: the answer reaches
      the page field with one input event. */
  method InsertAfterFocusingAnswerBoxFixed() returns (pageValue: string, pageEvents: nat, modalOpen: bool)
    ensures pageValue == SampleAnswer && pageEvents == 1 && !modalOpen
  {
    var page := new Page();
    var blank := Attributes(None, None, "", "", None);
    var field := new Field(TextArea, blank, "");
    page.HandleFocusOutsideModal(field);
    assert page.activeField == field;
    page.OpenModal(Document(map[], map[]));
    var m := page.modal;
    assert m != null && m.output != field;
    page.FinishGenerate(m, Some(Background.Ok(SampleAnswer)));
    assert m.output.value == SampleAnswer && field.value == "";
    page.HandleFocusOutsideModal(m.output);
    assert page.activeField == field && page.modal == m;
    SampleAnswerTrimmed();
    page.Insert();
    pageValue, pageEvents, modalOpen := field.value, field.inputEvents, page.modal != null;
  }
}
