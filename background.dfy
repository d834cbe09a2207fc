/** The background service script: the answer normaliser, the prompt builder
    and the `generateAnswer` branch of the runtime message listener. Storage,
    the HTTP exchange with the chat-completions endpoint and any exception they
    raise are inputs of the model rather than calls. */
module Background {
  import opened Js
  import opened Text

  // ---------------------------------------------------------------------------
  // normalizeAnswer

  const EmDash: char := '\U{2014}'
  const EnDash: char := '\U{2013}'

  predicate IsDash(c: char)
  {
    c == EmDash || c == EnDash
  }

  predicate NoDash(s: string)
  {
    forall i :: 0 <= i < |s| ==> !IsDash(s[i])
  }

  /** No whitespace character stands immediately before a comma. */
  predicate NoSpaceBeforeComma(s: string)
  {
    forall i :: 1 <= i < |s| && s[i] == ',' ==> !IsSpace(s[i - 1])
  }

  /** Every em dash and en dash replaced by a comma. */
  function DashesToCommas(s: string): (r: string)
    ensures |r| == |s| && NoDash(r)
    ensures forall i :: 0 <= i < |s| ==> r[i] == (if IsDash(s[i]) then ',' else s[i])
    decreases |s|
  {
    if s == [] then [] else [if IsDash(s[0]) then ',' else s[0]] + DashesToCommas(s[1..])
  }

  /** The whitespace run at the start of `s` is followed by a comma. */
  predicate CommaAfterRun(s: string)
  {
    var k := RunLength(s, Space);
    k < |s| && s[k] == ','
  }

  /** Whitespace directly before a comma deleted. A match of the pattern is a
      maximal whitespace run followed by a comma (a shorter run inside it
      cannot match either, since the character after it is whitespace), so a
      whitespace character is removed exactly when the rest of its run is
      followed by a comma. */
  function DropSpaceBeforeComma(s: string): (r: string)
    ensures |s| > 0 && !(IsSpace(s[0]) && CommaAfterRun(s)) ==> |r| > 0 && r[0] == s[0]
    decreases |s|
  {
    if s == [] then []
    else if IsSpace(s[0]) && CommaAfterRun(s) then DropSpaceBeforeComma(s[1..])
    else [s[0]] + DropSpaceBeforeComma(s[1..])
  }

  /** Every run of two or more whitespace characters replaced by one space. */
  function SqueezeSpace(s: string): string
  {
    ReplaceRuns(s, Space, 2, " ")
  }

  /** normalizeAnswer: the four rewrites in the order the source applies them. */
  function NormalizeAnswer(text: string): (r: string)
    ensures Trimmed(r)
  {
    Trim(SqueezeSpace(DropSpaceBeforeComma(DashesToCommas(text))))
  }

  // ---------------------------------------------------------------------------
  // Lemmas about the rewrites

  lemma NoSpaceBeforeCommaConcat(a: string, b: string)
    requires NoSpaceBeforeComma(a) && NoSpaceBeforeComma(b)
    requires a == [] || b == [] || !IsSpace(a[|a| - 1]) || b[0] != ','
    ensures NoSpaceBeforeComma(a + b)
  {
    var s := a + b;
    forall i | 1 <= i < |s| && s[i] == ','
      ensures !IsSpace(s[i - 1])
    {
      if i < |a| {
        assert s[i] == a[i] && s[i - 1] == a[i - 1];
      } else if i > |a| {
        assert s[i] == b[i - |a|] && s[i - 1] == b[i - 1 - |a|];
      }
    }
  }

  lemma NoSpaceBeforeCommaSuffix(s: string, k: nat)
    requires k <= |s| && NoSpaceBeforeComma(s)
    ensures NoSpaceBeforeComma(s[k..])
  {
    var t := s[k..];
    forall i | 1 <= i < |t| && t[i] == ','
      ensures !IsSpace(t[i - 1])
    {
      assert t[i] == s[k + i] && t[i - 1] == s[k + i - 1];
    }
  }

  /** The run at a whitespace character reaches the comma exactly when the
      next character is the comma or starts a run that reaches it. */
  lemma CommaAfterRunStep(s: string)
    requires s != [] && IsSpace(s[0])
    ensures CommaAfterRun(s) <==> |s| >= 2 && (s[1] == ',' || (IsSpace(s[1]) && CommaAfterRun(s[1..])))
  {
    assert RunLength(s, Space) == 1 + RunLength(s[1..], Space);
  }

  lemma {:induction false} DropLeavesNoSpaceBeforeComma(s: string)
    ensures NoSpaceBeforeComma(DropSpaceBeforeComma(s))
    decreases |s|
  {
    if s != [] {
      DropLeavesNoSpaceBeforeComma(s[1..]);
      if !(IsSpace(s[0]) && CommaAfterRun(s)) {
        if IsSpace(s[0]) {
          CommaAfterRunStep(s);
        }
        NoSpaceBeforeCommaConcat([s[0]], DropSpaceBeforeComma(s[1..]));
      }
    }
  }

  /** A whitespace run that reaches a comma puts whitespace right before it. */
  lemma SpaceBeforeCommaAt(s: string)
    requires s != [] && IsSpace(s[0]) && CommaAfterRun(s)
    ensures !NoSpaceBeforeComma(s)
  {
    var k := RunLength(s, Space);
    assert s[..k][k - 1] == s[k - 1];
  }

  lemma {:induction false} DropIdentity(s: string)
    requires NoSpaceBeforeComma(s)
    ensures DropSpaceBeforeComma(s) == s
    decreases |s|
  {
    if s != [] {
      if IsSpace(s[0]) && CommaAfterRun(s) {
        SpaceBeforeCommaAt(s);
      }
      NoSpaceBeforeCommaSuffix(s, 1);
      DropIdentity(s[1..]);
      assert s == [s[0]] + s[1..];
    }
  }

  lemma {:induction false} DropAvoids(s: string, c: char)
    requires c !in s && c != ','
    ensures c !in DropSpaceBeforeComma(s)
    decreases |s|
  {
    if s != [] {
      assert s == [s[0]] + s[1..];
      DropAvoids(s[1..], c);
    }
  }

  lemma {:induction false} VisibleDrop(s: string)
    ensures Visible(DropSpaceBeforeComma(s)) == Visible(s)
    decreases |s|
  {
    if s != [] {
      var d := DropSpaceBeforeComma(s[1..]);
      VisibleDrop(s[1..]);
      if !(IsSpace(s[0]) && CommaAfterRun(s)) {
        assert ([s[0]] + d)[1..] == d;
      }
    }
  }

  /** Squeezing whitespace runs cannot put whitespace before a comma: a run
      that is squeezed is followed by the same non-comma character as before. */
  lemma {:induction false} SqueezeKeepsNoSpaceBeforeComma(s: string)
    requires NoSpaceBeforeComma(s)
    ensures NoSpaceBeforeComma(SqueezeSpace(s))
    decreases |s|
  {
    if s == [] {
    } else if !IsSpace(s[0]) {
      NoSpaceBeforeCommaSuffix(s, 1);
      SqueezeKeepsNoSpaceBeforeComma(s[1..]);
      NoSpaceBeforeCommaConcat([s[0]], SqueezeSpace(s[1..]));
    } else {
      var k := RunLength(s, Space);
      var piece := if k >= 2 then " " else s[..k];
      assert k >= 1 && IsSpace(s[k - 1]) by { assert s[..k][k - 1] == s[k - 1]; }
      NoSpaceBeforeCommaSuffix(s, k);
      SqueezeKeepsNoSpaceBeforeComma(s[k..]);
      assert forall i :: 0 <= i < |piece| ==> piece[i] != ',';
      NoSpaceBeforeCommaConcat(piece, SqueezeSpace(s[k..]));
    }
  }

  lemma NoSpaceBeforeCommaPrefix(s: string, k: nat)
    requires k <= |s| && NoSpaceBeforeComma(s)
    ensures NoSpaceBeforeComma(s[..k])
  {
    var t := s[..k];
    forall i | 1 <= i < |t| && t[i] == ','
      ensures !IsSpace(t[i - 1])
    {
      assert t[i] == s[i] && t[i - 1] == s[i - 1];
    }
  }

  lemma TrimKeepsNoSpaceBeforeComma(s: string)
    requires NoSpaceBeforeComma(s)
    ensures NoSpaceBeforeComma(Trim(s))
  {
    var lo, hi := TrimSlice(s);
    NoSpaceBeforeCommaSuffix(s, lo);
    NoSpaceBeforeCommaPrefix(s[lo..], hi - lo);
    assert s[lo..hi] == s[lo..][..hi - lo];
  }

  lemma {:induction false} VisibleDashes(s: string)
    ensures Visible(DashesToCommas(s)) == DashesToCommas(Visible(s))
    decreases |s|
  {
    if s != [] {
      var c := if IsDash(s[0]) then ',' else s[0];
      assert IsSpace(c) == IsSpace(s[0]);
      var d := DashesToCommas(s[1..]);
      var v := Visible(s[1..]);
      VisibleDashes(s[1..]);
      DashesCons(s[0], s[1..]);
      VisibleCons(c, d);
      VisibleCons(s[0], s[1..]);
      assert s == [s[0]] + s[1..];
      if IsSpace(s[0]) {
        assert Visible(s) == v && Visible(DashesToCommas(s)) == Visible(d);
      } else {
        DashesCons(s[0], v);
        assert Visible(s) == [s[0]] + v && Visible(DashesToCommas(s)) == [c] + Visible(d);
      }
    }
  }

  lemma DashesCons(x: char, t: string)
    ensures DashesToCommas([x] + t) == [if IsDash(x) then ',' else x] + DashesToCommas(t)
  {
    assert ([x] + t)[1..] == t;
  }

  lemma {:induction false} DashesIdentity(s: string)
    requires NoDash(s)
    ensures DashesToCommas(s) == s
    decreases |s|
  {
    if s != [] {
      DashesIdentity(s[1..]);
      assert s == [s[0]] + s[1..];
    }
  }

  /** What normalizeAnswer guarantees about its result: no em or en dash, no
      whitespace before a comma, no two adjacent whitespace characters, nothing
      to trim, and the non-whitespace characters of the input in order with
      every dash turned into a comma. */
  lemma NormalizeAnswerShape(text: string)
    ensures var r := NormalizeAnswer(text);
      NoDash(r) && NoSpaceBeforeComma(r) && NoRun(r, Space, 2) && Trimmed(r)
      && Visible(r) == DashesToCommas(Visible(text))
  {
    var d := DashesToCommas(text);
    var e := DropSpaceBeforeComma(d);
    var f := SqueezeSpace(e);
    forall c | IsDash(c)
      ensures c !in NormalizeAnswer(text)
    {
      DropAvoids(d, c);
      ReplaceRunsAvoids(e, Space, 2, " ", c);
      TrimAvoids(f, c);
    }
    DropLeavesNoSpaceBeforeComma(d);
    SqueezeKeepsNoSpaceBeforeComma(e);
    TrimKeepsNoSpaceBeforeComma(f);
    ReplaceRunsNoRun(e, Space, 2, " ", 2);
    TrimNoRun(f, Space, 2);
    VisibleTrim(f);
    VisibleReplaceRuns(e, Space, 2, " ");
    VisibleDrop(d);
    VisibleDashes(text);
  }

  /** Squeezing whitespace runs and trimming keep the words that the first
      two rewrites leave: a whitespace run between two words becomes one
      space and never disappears, so words are not glued together. */
  lemma NormalizeAnswerKeepsWords(text: string)
    ensures Words(NormalizeAnswer(text)) == Words(DropSpaceBeforeComma(DashesToCommas(text)))
  {
    var e := DropSpaceBeforeComma(DashesToCommas(text));
    ReplaceRunsKeepsWords(e, 2, " ");
    TrimKeepsWords(SqueezeSpace(e));
  }

  /** An answer with no dash, no whitespace before a comma, no whitespace
      run and nothing to trim is left as it is. */
  lemma NormalizedIsFixed(r: string)
    requires NoDash(r) && NoSpaceBeforeComma(r) && NoRun(r, Space, 2) && Trimmed(r)
    ensures NormalizeAnswer(r) == r
  {
    DashesIdentity(r);
    DropIdentity(r);
    ReplaceRunsIdentity(r, Space, 2, " ");
    TrimIdentity(r);
  }

  /** Normalising an already normalised answer changes nothing: no step can
      reintroduce a dash, whitespace before a comma or a whitespace run. */
  lemma NormalizeAnswerIdempotent(text: string)
    ensures NormalizeAnswer(NormalizeAnswer(text)) == NormalizeAnswer(text)
  {
    NormalizeAnswerShape(text);
    NormalizedIsFixed(NormalizeAnswer(text));
  }

  /** A dash between spaces becomes a comma directly after the preceding word. */
  lemma NormalizeDashExample()
    ensures NormalizeAnswer("a \U{2014} b") == "a, b"
  {
    DashExampleStep1();
    DashExampleStep2();
    DashExampleStep3();
    TrimIdentity("a, b");
  }

  lemma DashExampleStep1()
    ensures DashesToCommas("a \U{2014} b") == "a , b"
  {
    var t := "a \U{2014} b";
    assert t[1..] == " \U{2014} b" && t[2..] == "\U{2014} b" && t[3..] == " b" && t[4..] == "b";
  }

  lemma DashExampleStep2()
    ensures DropSpaceBeforeComma("a , b") == "a, b"
  {
    var d := "a , b";
    assert d[1..] == " , b" && d[3..] == " b" && d[4..] == "b";
    assert RunLength(d[1..], Space) == 1 by { assert d[1..][1..] == ", b"; }
    assert RunLength(d[3..], Space) == 1 by { assert d[3..][1..] == "b"; }
    assert d[1..][2..] == " b";
  }

  lemma DashExampleStep3()
    ensures SqueezeSpace("a, b") == "a, b"
  {
    var e := "a, b";
    assert !IsSpace(e[0]) && !IsSpace(e[1]) && !IsSpace(e[3]);
    NoRunOfPairs(e, Space);
    ReplaceRunsIdentity(e, Space, 2, " ");
  }

  /** Only whitespace before a comma is removed: a space before any other
      punctuation mark stays. */
  lemma NormalizeKeepsSpaceBeforeBang()
    ensures NormalizeAnswer("hi !") == "hi !"
  {
    var t := "hi !";
    assert !IsSpace(t[0]) && !IsSpace(t[1]) && !IsSpace(t[3]);
    assert forall i :: 0 <= i < |t| ==> t[i] != ',' && !IsDash(t[i]);
    NoRunOfPairs(t, Space);
    NormalizedIsFixed(t);
  }

  // ---------------------------------------------------------------------------
  // buildPrompt

  const SystemText: string :=
    "You are a writing assistant for job applications."
    + " Write concise, professional, human-sounding answers with specific details."
    + " Use plain punctuation only. Never use em dashes."
    + " Avoid generic AI phrasing and filler."
    + " Keep the response focused and personalized to the job description and resume."

  datatype Prompt = Prompt(system: string, user: string)

  const ResumeHeading: string := "Resume:\n"
  const NoResume: string := "(none provided)"
  const JobHeading: string := "\nJob description context:\n"
  const QuestionHeading: string := "\nQuestion or prompt:\n"
  const FieldHeading: string := "\nCurrent field value (if any):\n"
  const EmptyField: string := "(empty)"
  const Closing: string := "\nWrite the best possible answer."
  const SectionBreak: string := "\n\n"

  /** The five sections of the user text, in order. */
  function UserSections(resumeText: Option<string>, jobDescription: Option<string>,
                        question: Option<string>, fieldValue: Option<string>): seq<string>
  {
    [ ResumeHeading + Or(resumeText, NoResume),
      JobHeading + Render(jobDescription),
      QuestionHeading + Render(question),
      FieldHeading + Or(fieldValue, EmptyField),
      Closing ]
  }

  function BuildPrompt(resumeText: Option<string>, jobDescription: Option<string>,
                       question: Option<string>, fieldValue: Option<string>): (p: Prompt)
    ensures p.system == SystemText
    ensures ResumeHeading + Or(resumeText, NoResume) <= p.user
  {
    JoinStartsWith(UserSections(resumeText, jobDescription, question, fieldValue), SectionBreak);
    Prompt(SystemText, Join(UserSections(resumeText, jobDescription, question, fieldValue), SectionBreak))
  }

  /** The system text is the same whatever the inputs. */
  lemma SystemTextIsFixed(a: Prompt, b: Prompt,
                          r1: Option<string>, j1: Option<string>, q1: Option<string>, f1: Option<string>,
                          r2: Option<string>, j2: Option<string>, q2: Option<string>, f2: Option<string>)
    requires a == BuildPrompt(r1, j1, q1, f1) && b == BuildPrompt(r2, j2, q2, f2)
    ensures a.system == b.system
  {
  }

  lemma JoinFive(a: string, b: string, c: string, d: string, e: string, sep: string)
    ensures Join([a, b, c, d, e], sep) == a + sep + b + sep + c + sep + d + sep + e
  {
    var p := [a, b, c, d, e];
    assert p[1..] == [b, c, d, e] && p[1..][1..] == [c, d, e];
    assert p[1..][1..][1..] == [d, e] && p[1..][1..][1..][1..] == [e];
    assert Join([d, e], sep) == d + sep + e;
    assert Join([c, d, e], sep) == c + sep + (d + sep + e);
    assert Join([b, c, d, e], sep) == b + sep + (c + sep + (d + sep + e));
    assert Join(p, sep) == a + sep + (b + sep + (c + sep + (d + sep + e)));
  }

  /** The user text is the five sections in fixed order, with a blank line
      between consecutive sections: the resume (or "(none provided)"), the job
      description verbatim, the question, the field value (or "(empty)") and
      the closing instruction. */
  lemma UserTextLayout(resumeText: Option<string>, jobDescription: Option<string>,
                       question: Option<string>, fieldValue: Option<string>)
    ensures var s := UserSections(resumeText, jobDescription, question, fieldValue);
      && BuildPrompt(resumeText, jobDescription, question, fieldValue).user ==
         s[0] + SectionBreak + s[1] + SectionBreak + s[2] + SectionBreak + s[3] + SectionBreak + s[4]
      && s[0] == ResumeHeading + Or(resumeText, NoResume)
      && s[1] == JobHeading + Render(jobDescription)
      && s[2] == QuestionHeading + Render(question)
      && s[3] == FieldHeading + Or(fieldValue, EmptyField)
      && s[4] == Closing
  {
    var s := UserSections(resumeText, jobDescription, question, fieldValue);
    JoinFive(s[0], s[1], s[2], s[3], s[4], SectionBreak);
    assert s == [s[0], s[1], s[2], s[3], s[4]];
  }

  /** The user text starts with its first section. */
  lemma UserStartsWithResume(resumeText: Option<string>, jobDescription: Option<string>,
                             question: Option<string>, fieldValue: Option<string>)
    ensures UserSections(resumeText, jobDescription, question, fieldValue)[0]
      <= BuildPrompt(resumeText, jobDescription, question, fieldValue).user
  {
    JoinStartsWith(UserSections(resumeText, jobDescription, question, fieldValue), SectionBreak);
  }

  /** A missing or empty resume shows as "(none provided)" right after the
      first heading; a present one is inserted verbatim there. */
  lemma ResumePlaceholder(resumeText: Option<string>, jobDescription: Option<string>,
                          question: Option<string>, fieldValue: Option<string>)
    ensures var user := BuildPrompt(resumeText, jobDescription, question, fieldValue).user;
      && (!Truthy(resumeText) ==> ResumeHeading + NoResume <= user)
      && (Truthy(resumeText) ==> ResumeHeading + resumeText.value <= user)
  {
    UserStartsWithResume(resumeText, jobDescription, question, fieldValue);
  }

  /** A missing or empty field value shows as "(empty)" right before the
      closing instruction, at the end of the user text. */
  lemma FieldValuePlaceholder(resumeText: Option<string>, jobDescription: Option<string>,
                              question: Option<string>, fieldValue: Option<string>)
    requires !Truthy(fieldValue)
    ensures EndsWith(BuildPrompt(resumeText, jobDescription, question, fieldValue).user,
                     FieldHeading + EmptyField + SectionBreak + Closing)
  {
    var s := UserSections(resumeText, jobDescription, question, fieldValue);
    JoinEndsWith(s, SectionBreak, 3);
    assert s[3..] == [s[3], s[4]] && s[3..][1..] == [s[4]];
    assert Join(s[3..], SectionBreak) == s[3] + SectionBreak + s[4];
    assert s[3] == FieldHeading + EmptyField && s[4] == Closing;
  }

  // ---------------------------------------------------------------------------
  // The generateAnswer message handler

  const Endpoint: string := "https://api.openai.com/v1/chat/completions"
  const ModelName: string := "gpt-5-nano"
  const MissingKeyError: string := "Missing API key. Add it in the extension options."
  const RequestFailedPrefix: string := "OpenAI request failed: "
  const NoAnswerError: string := "No answer returned."
  const GenerateAnswerKind: string := "generateAnswer"
  const ApiKeyEntry: string := "apiKey"
  const ResumeEntry: string := "resumeText"
  const BearerPrefix: string := "Bearer "

  /** A runtime message; absent properties are None. */
  datatype Message = Message(kind: Option<string>, question: Option<string>,
                             fieldValue: Option<string>, jobDescription: Option<string>)

  /** What the handler sends back through `sendResponse`. */
  datatype Response = Ok(answer: string) | Err(error: string)

  /** The POST request to the chat-completions endpoint (the constant
      temperature of the request body is not modelled). */
  datatype Request = Request(endpoint: string, authorization: string, model: string, prompt: Prompt)

  /** How the network exchange ends, once the request is sent: an exception
      (from fetch, from reading the body or from calling trim on a non-string
      content), a non-OK status with its body text, or an OK status with the
      string at choices[0].message.content, if there is one. */
  datatype Exchange = Threw(message: string) | NotOk(body: string) | Answered(content: Option<string>)

  /** The request the handler makes, if any, and its one response. */
  datatype Outcome = Outcome(request: Option<Request>, response: Response)

  /** The listener's return value, the request made and the response sent, if any. */
  datatype Handling = Handling(keepsChannelOpen: bool, request: Option<Request>, response: Option<Response>)

  /** The async body of the listener for a generateAnswer message: `stored` is
      the result of reading ApiKeyEntry and ResumeEntry from local storage, and
      `exchange` how the request ends if it is made. */
  function GenerateAnswer(msg: Message, stored: Result<map<string, string>>, exchange: Exchange): (o: Outcome)
    ensures stored.Thrown? ==> o == Outcome(None, Err(stored.message))
    ensures stored.Returned? && !Truthy(Get(stored.value, ApiKeyEntry)) ==> o == Outcome(None, Err(MissingKeyError))
    ensures o.request.Some? <==> stored.Returned? && Truthy(Get(stored.value, ApiKeyEntry))
    ensures o.request.Some? ==> o.request.value == Request(Endpoint, BearerPrefix + stored.value[ApiKeyEntry], ModelName,
      BuildPrompt(Get(stored.value, ResumeEntry), msg.jobDescription, msg.question, msg.fieldValue))
    ensures o.request.Some? && exchange.Threw? ==> o.response == Err(exchange.message)
    ensures o.request.Some? && exchange.NotOk? ==> o.response == Err(RequestFailedPrefix + exchange.body)
    ensures o.response.Ok? <==>
      (o.request.Some? && exchange.Answered? && exchange.content.Some? && Trim(exchange.content.value) != "")
    ensures o.request.Some? && exchange.Answered? && !o.response.Ok? ==> o.response == Err(NoAnswerError)
  {
    match stored
    case Thrown(m) => Outcome(None, Err(m))
    case Returned(entries) =>
      var apiKey := Get(entries, ApiKeyEntry);
      if !Truthy(apiKey) then Outcome(None, Err(MissingKeyError))
      else
        var prompt := BuildPrompt(Get(entries, ResumeEntry), msg.jobDescription, msg.question, msg.fieldValue);
        var request := Request(Endpoint, BearerPrefix + apiKey.value, ModelName, prompt);
        var response :=
          match exchange
          case Threw(m) => Err(m)
          case NotOk(body) => Err(RequestFailedPrefix + body)
          case Answered(content) =>
            var answer := if content.Some? then Trim(content.value) else "";
            if answer == "" then Err(NoAnswerError) else Ok(NormalizeAnswer(answer));
        Outcome(Some(request), response)
  }

  /** The runtime message listener: any message other than generateAnswer is
      left alone (the listener returns false and never responds); a
      generateAnswer message keeps the channel open and gets exactly one response. */
  function OnMessage(msg: Message, stored: Result<map<string, string>>, exchange: Exchange): (h: Handling)
    ensures h.keepsChannelOpen <==> msg.kind == Some(GenerateAnswerKind)
    ensures h.response.Some? <==> h.keepsChannelOpen
    ensures h.request.Some? ==> h.keepsChannelOpen
  {
    if msg.kind != Some(GenerateAnswerKind) then Handling(false, None, None)
    else
      var o := GenerateAnswer(msg, stored, exchange);
      Handling(true, o.request, Some(o.response))
  }

  /** An answer comes from content that is not blank after trimming. */
  lemma AnswerFromContent(msg: Message, stored: Result<map<string, string>>, exchange: Exchange)
    requires GenerateAnswer(msg, stored, exchange).response.Ok?
    ensures exchange.Answered? && exchange.content.Some?
    ensures var t := Trim(exchange.content.value);
      t != "" && GenerateAnswer(msg, stored, exchange).response.answer == NormalizeAnswer(t)
  {
  }

  /** An answer the handler returns is never empty, is normalised, and keeps
      the non-whitespace characters of the model's content with dashes turned
      into commas. */
  lemma AnswerShape(msg: Message, stored: Result<map<string, string>>, exchange: Exchange)
    requires GenerateAnswer(msg, stored, exchange).response.Ok?
    ensures var a := GenerateAnswer(msg, stored, exchange).response.answer;
      && a != []
      && NoDash(a) && NoSpaceBeforeComma(a) && NoRun(a, Space, 2) && Trimmed(a)
      && Visible(a) == DashesToCommas(Visible(exchange.content.value))
      && NormalizeAnswer(a) == a
  {
    AnswerFromContent(msg, stored, exchange);
    NormalizedContent(exchange.content.value);
  }

  lemma NormalizedContent(content: string)
    requires Trim(content) != ""
    ensures var a := NormalizeAnswer(Trim(content));
      && a != []
      && NoDash(a) && NoSpaceBeforeComma(a) && NoRun(a, Space, 2) && Trimmed(a)
      && Visible(a) == DashesToCommas(Visible(content))
      && NormalizeAnswer(a) == a
  {
    var t := Trim(content);
    NormalizeAnswerShape(t);
    NormalizedIsFixed(NormalizeAnswer(t));
    VisibleTrim(content);
    VisibleStartsAtFirst(t);
  }
}
