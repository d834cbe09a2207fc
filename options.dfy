/** The options page: text sanitising, the mode badge, the settings it loads
    from and saves to local storage, and the decisions of the file-upload
    handler. Storage is a string map held by the page; the PDF extractor and
    `file.text()` are reduced to the text they return or the error they raise. */
module Options {
  import opened Js
  import opened Text

  const MaxResumeChars: nat := 8000
  const MinPdfChars: nat := 50
  const ApiKeyRequired: string := "API key is required."
  const SettingsSaved: string := "Settings saved."
  const PdfParserMissing: string := "PDF parser not loaded. Please refresh the page."
  const PdfTooShort: string := "Could not extract text from PDF. Try a text file instead."
  const ProcessingFailedPrefix: string := "Failed to process file: "

  // ---------------------------------------------------------------------------
  // sanitizeText

  /** The text with each whitespace run made one space and the ends trimmed,
      cut to its first `maxChars` characters. */
  function SanitizeText(text: string, maxChars: nat): (r: string)
    ensures r <= Collapse(text)
    ensures |r| == if |Collapse(text)| <= maxChars then |Collapse(text)| else maxChars
    ensures OnlyPlainSpaces(r) && NoRun(r, Space, 2) && (r == [] || !IsSpace(r[0]))
  {
    ClippedCollapseShape(text, maxChars);
    Take(Collapse(text), maxChars)
  }

  /** Text that fits once collapsed keeps every visible character, in order,
      and comes out trimmed. */
  lemma SanitizeKeepsShortText(text: string, maxChars: nat)
    requires |Collapse(text)| <= maxChars
    ensures SanitizeText(text, maxChars) == Collapse(text)
    ensures Visible(SanitizeText(text, maxChars)) == Visible(text)
    ensures Trimmed(SanitizeText(text, maxChars))
    ensures Words(SanitizeText(text, maxChars)) == Words(text)
  {
    ClippedCollapseShape(text, maxChars);
  }

  /** Text that is already single-spaced is left alone by the whitespace rewrite. */
  lemma {:induction false} CollapseRewriteIdentity(s: string)
    requires OnlyPlainSpaces(s) && NoRun(s, Space, 2)
    ensures ReplaceRuns(s, Space, 1, " ") == s
    decreases |s|
  {
    if s != [] {
      var k := if IsSpace(s[0]) then RunLength(s, Space) else 1;
      if IsSpace(s[0]) {
        RunBelow(s, Space, 2);
        assert s[..1] == " ";
      }
      NoRunSlice(s, Space, 2, k, |s|);
      OnlyPlainSpacesSlice(s, k, |s|);
      assert s[k..|s|] == s[k..];
      CollapseRewriteIdentity(s[k..]);
      assert s == s[..k] + s[k..];
    }
  }

  /** Sanitising a second time, as saving does with uploaded text, only drops
      the single trailing space a cut may have left. */
  lemma SanitizeAgain(text: string, maxChars: nat)
    ensures var r := SanitizeText(text, maxChars);
      && SanitizeText(r, maxChars) == Trim(r)
      && (Trim(r) == r || r == Trim(r) + " ")
  {
    var r := SanitizeText(text, maxChars);
    CollapseRewriteIdentity(r);
    AtMostOneTrailingSpace(r);
  }

  /** Single-spaced text without leading whitespace ends in one space at most. */
  lemma AtMostOneTrailingSpace(r: string)
    requires OnlyPlainSpaces(r) && NoRun(r, Space, 2) && (r == [] || !IsSpace(r[0]))
    ensures Trim(r) == r || r == Trim(r) + " "
  {
    var lo, hi := TrimSlice(r);
    if r != [] {
      assert RunLength(r, Space) == 0;
    }
    assert forall k :: hi <= k < |r| ==> r[hi..][k - hi] == r[k];
    if hi < |r| {
      assert !RunAt(r, Space, 2, hi);
      assert r[hi..][0] == r[hi];
      assert r == r[..hi] + [r[hi]];
    }
  }

  /** Sample text whose cut at two characters ends right after a space. */
  const CutAfterSpace := "a b"
  const CutWithSpace := "a "
  const CutTrimmed := "a"

  /** A cut right after a space leaves a trailing space that a second call removes. */
  lemma SanitizeNotIdempotent()
    ensures SanitizeText(CutAfterSpace, 2) == CutWithSpace
    ensures SanitizeText(CutWithSpace, 2) == CutTrimmed
  {
    SanitizeCutsAfterSpace();
    SanitizeAgain(CutAfterSpace, 2);
    assert Trim(CutWithSpace) == CutTrimmed by {
      assert RunLength(CutWithSpace, Space) == 0;
      assert CutWithSpace[..1] == CutTrimmed;
    }
  }

  lemma SanitizeCutsAfterSpace()
    ensures SanitizeText(CutAfterSpace, 2) == CutWithSpace
  {
    var once := CutAfterSpace;
    assert once[1..] == " b" && once[1..][1..] == "b";
    assert RunLength(once[1..], Space) == 1;
    assert ReplaceRuns(once, Space, 1, " ") == once;
    assert RunLength(once, Space) == 0;
    TrimIdentity(once);
  }

  // ---------------------------------------------------------------------------
  // updateModeBadge

  /** The mode badge text: the known modes by name, anything else as General. */
  function ModeBadge(mode: string): (text: string)
    ensures text == "Active: Job" <==> mode == "job"
    ensures text == "Active: Social" <==> mode == "social"
    ensures text == "Active: General" <==> mode != "job" && mode != "social"
  {
    var name := if mode == "job" then "Job" else if mode == "social" then "Social" else "General";
    "Active: " + name
  }

  // ---------------------------------------------------------------------------
  // Save and load

  /** The values of the page's inputs and selects. */
  datatype Form = Form(openaiKey: string, anthropicKey: string, geminiKey: string,
                       openaiModel: string, anthropicModel: string, geminiModel: string,
                       resumeText: string, generalText: string, socialText: string, systemPrompt: string)

  /** The page's active provider, mode and social style and its form values. */
  datatype Settings = Settings(provider: string, mode: string, socialStyle: string, form: Form)

  /** The storage entry that holds the key of a provider; any provider other
      than anthropic and gemini uses the OpenAI key. */
  function KeyEntry(provider: string): string
  {
    if provider == "anthropic" then "anthropicKey" else if provider == "gemini" then "geminiKey" else "openaiKey"
  }

  /** The trimmed key of the active provider. */
  function ActiveKey(provider: string, form: Form): (k: string)
    ensures Trimmed(k)
  {
    if provider == "anthropic" then Trim(form.anthropicKey)
    else if provider == "gemini" then Trim(form.geminiKey)
    else Trim(form.openaiKey)
  }

  /** The model select of the active provider; an unknown provider has none. */
  function ModelFor(provider: string, form: Form): Option<string>
  {
    if provider == "openai" then Some(form.openaiModel)
    else if provider == "anthropic" then Some(form.anthropicModel)
    else if provider == "gemini" then Some(form.geminiModel)
    else None
  }

  const TextEntries: set<string> := {"resumeText", "generalContextText", "socialContextText", "systemPrompt"}

  /** The entries every accepted save writes; "model" is added when the
      active provider has a model select. */
  const SavedEntries: set<string> := {"provider", "mode", "socialStyle", "openaiKey", "anthropicKey", "geminiKey"}
    + TextEntries

  /** The value a save writes under a storage entry. */
  function SavedValue(s: Settings, entry: string): string
  {
    var f := s.form;
    if entry == "provider" then s.provider
    else if entry == "mode" then s.mode
    else if entry == "socialStyle" then s.socialStyle
    else if entry == "openaiKey" then Trim(f.openaiKey)
    else if entry == "anthropicKey" then Trim(f.anthropicKey)
    else if entry == "geminiKey" then Trim(f.geminiKey)
    else if entry == "resumeText" then SanitizeText(f.resumeText, MaxResumeChars)
    else if entry == "generalContextText" then SanitizeText(f.generalText, MaxResumeChars)
    else if entry == "socialContextText" then SanitizeText(f.socialText, MaxResumeChars)
    else if entry == "systemPrompt" then SanitizeText(f.systemPrompt, MaxResumeChars)
    else if entry == "model" && ModelFor(s.provider, f).Some? then ModelFor(s.provider, f).value
    else ""
  }

  lemma SavedTexts(s: Settings)
    ensures TextEntries <= SavedEntries
    ensures forall k :: k in TextEntries ==>
      |SavedValue(s, k)| <= MaxResumeChars && OnlyPlainSpaces(SavedValue(s, k))
  {
    forall k | k in TextEntries
      ensures |SavedValue(s, k)| <= MaxResumeChars && OnlyPlainSpaces(SavedValue(s, k))
    {
      if k == "resumeText" {
      } else if k == "generalContextText" {
      } else if k == "socialContextText" {
      } else {
        assert k == "systemPrompt";
      }
    }
  }

  lemma SavedKeyEntry(s: Settings)
    ensures KeyEntry(s.provider) in SavedEntries && "apiKey" !in SavedEntries + {"model"}
    ensures "model" !in SavedEntries
    ensures ModelFor(s.provider, s.form).Some? <==> s.provider in {"openai", "anthropic", "gemini"}
    ensures SavedValue(s, KeyEntry(s.provider)) == ActiveKey(s.provider, s.form)
  {
  }

  /** The entries an accepted save writes to storage. An undefined model is
      not written, which leaves a stored model in place. */
  function SaveEntries(s: Settings): (m: map<string, string>)
    ensures "apiKey" !in m && KeyEntry(s.provider) in m
  {
    SavedKeyEntry(s);
    var keys := if ModelFor(s.provider, s.form).Some? then SavedEntries + {"model"} else SavedEntries;
    map k | k in keys :: SavedValue(s, k)
  }

  /** A save never writes "apiKey"; it writes the active provider's trimmed
      key under that provider's entry, a model exactly when the provider has
      a model select, and every text clipped and with plain spaces only. */
  lemma SaveEntriesShape(s: Settings)
    ensures "apiKey" !in SaveEntries(s)
    ensures KeyEntry(s.provider) in SaveEntries(s)
    ensures SaveEntries(s)[KeyEntry(s.provider)] == ActiveKey(s.provider, s.form)
    ensures "model" in SaveEntries(s) <==> s.provider in {"openai", "anthropic", "gemini"}
    ensures forall k :: k in TextEntries ==>
      k in SaveEntries(s) && |SaveEntries(s)[k]| <= MaxResumeChars && OnlyPlainSpaces(SaveEntries(s)[k])
  {
    SavedTexts(s);
    SavedKeyEntry(s);
  }

  datatype SaveResult = Rejected(status: string) | Written(entries: map<string, string>)

  /** The save click: refused without a key for the active provider,
      otherwise the entries written to storage. */
  function SaveSettings(s: Settings): (r: SaveResult)
    ensures r.Rejected? <==> ActiveKey(s.provider, s.form) == ""
    ensures r.Rejected? ==> r.status == ApiKeyRequired
    ensures r.Written? ==> r.entries == SaveEntries(s) && r.entries[KeyEntry(s.provider)] != ""
  {
    if ActiveKey(s.provider, s.form) == "" then Rejected(ApiKeyRequired)
    else
      SaveEntriesShape(s);
      Written(SaveEntries(s))
  }

  /** Local storage after a save. */
  function AfterSave(stored: map<string, string>, r: SaveResult): map<string, string>
  {
    if r.Written? then stored + r.entries else stored
  }

  /** The written entries replace the stored ones under the same names, the
      other stored entries stay, and a refused save writes nothing. */
  lemma AfterSaveMerges(stored: map<string, string>, r: SaveResult)
    ensures r.Rejected? ==> AfterSave(stored, r) == stored
    ensures r.Written? ==> AfterSave(stored, r).Keys == stored.Keys + r.entries.Keys
    ensures r.Written? ==> forall k :: k in AfterSave(stored, r) ==>
      AfterSave(stored, r)[k] == if k in r.entries then r.entries[k] else stored[k]
  {
  }

  /** The status line a save shows. */
  function SaveStatus(r: SaveResult): string
  {
    if r.Rejected? then ApiKeyRequired else SettingsSaved
  }

  /** The status line tells a refused save from an accepted one. */
  lemma SaveStatusShown(r: SaveResult)
    ensures SaveStatus(r) == ApiKeyRequired <==> r.Rejected?
    ensures SaveStatus(r) == SettingsSaved <==> r.Written?
  {
  }

  /** loadSettings over the stored entries: unset or empty provider, mode and
      style default to openai, general and genz; keys and texts default to
      empty; a non-empty stored model goes to the select of the STORED
      provider only, and the other selects keep their values. */
  function LoadSettings(data: map<string, string>, current: Form): (l: Settings)
    ensures l.provider != "" && l.mode != "" && l.socialStyle != ""
  {
    var filled := current.(
      openaiKey := Or(Get(data, "openaiKey"), ""),
      anthropicKey := Or(Get(data, "anthropicKey"), ""),
      geminiKey := Or(Get(data, "geminiKey"), ""),
      resumeText := Or(Get(data, "resumeText"), ""),
      generalText := Or(Get(data, "generalContextText"), ""),
      socialText := Or(Get(data, "socialContextText"), ""),
      systemPrompt := Or(Get(data, "systemPrompt"), ""));
    var model := Get(data, "model");
    var stored := Get(data, "provider");
    var form :=
      if !Truthy(model) then filled
      else if stored == Some("openai") then filled.(openaiModel := model.value)
      else if stored == Some("anthropic") then filled.(anthropicModel := model.value)
      else if stored == Some("gemini") then filled.(geminiModel := model.value)
      else filled;
    Settings(Or(stored, "openai"), Or(Get(data, "mode"), "general"), Or(Get(data, "socialStyle"), "genz"), form)
  }

  /** With nothing stored the page shows the defaults and empty fields, and
      the model selects keep their values. */
  lemma LoadDefaults(current: Form)
    ensures var l := LoadSettings(map[], current);
      && l.provider == "openai" && l.mode == "general" && l.socialStyle == "genz"
      && l.form == current.(openaiKey := "", anthropicKey := "", geminiKey := "",
                            resumeText := "", generalText := "", socialText := "", systemPrompt := "")
  {
  }

  /** A stored model is applied to one select at most, the one of the stored
      provider; with no provider stored it is ignored, even though the page
      then shows OpenAI as the active provider. */
  lemma StoredModelGoesToStoredProvider(data: map<string, string>, current: Form)
    ensures var l := LoadSettings(data, current);
      && (l.form.openaiModel != current.openaiModel ==>
            Get(data, "provider") == Some("openai") && l.form.openaiModel == data["model"])
      && (l.form.anthropicModel != current.anthropicModel ==>
            Get(data, "provider") == Some("anthropic") && l.form.anthropicModel == data["model"])
      && (l.form.geminiModel != current.geminiModel ==>
            Get(data, "provider") == Some("gemini") && l.form.geminiModel == data["model"])
      && ("provider" !in data ==> l.provider == "openai" && l.form.openaiModel == current.openaiModel)
  {
  }

  /** Two forms agree on the keys and the texts (the model selects aside). */
  predicate SameKeysAndTexts(a: Form, b: Form)
  {
    && a.openaiKey == b.openaiKey && a.anthropicKey == b.anthropicKey && a.geminiKey == b.geminiKey
    && a.resumeText == b.resumeText && a.generalText == b.generalText
    && a.socialText == b.socialText && a.systemPrompt == b.systemPrompt
  }

  /** The form as a save stores it: trimmed keys and sanitised texts. */
  function StoredForm(f: Form): Form
  {
    f.(openaiKey := Trim(f.openaiKey), anthropicKey := Trim(f.anthropicKey), geminiKey := Trim(f.geminiKey),
       resumeText := SanitizeText(f.resumeText, MaxResumeChars),
       generalText := SanitizeText(f.generalText, MaxResumeChars),
       socialText := SanitizeText(f.socialText, MaxResumeChars),
       systemPrompt := SanitizeText(f.systemPrompt, MaxResumeChars))
  }

  /** A saved entry reads back from storage as the value the save wrote. */
  lemma SavedRead(s: Settings, stored: map<string, string>, k: string)
    requires k in SavedEntries
    ensures Get(stored + SaveEntries(s), k) == Some(SavedValue(s, k))
  {
  }

  lemma SaveStoresChoices(s: Settings, stored: map<string, string>)
    ensures Get(stored + SaveEntries(s), "provider") == Some(s.provider)
    ensures Get(stored + SaveEntries(s), "mode") == Some(s.mode)
    ensures Get(stored + SaveEntries(s), "socialStyle") == Some(s.socialStyle)
  {
    SavedRead(s, stored, "provider");
    SavedRead(s, stored, "mode");
    SavedRead(s, stored, "socialStyle");
  }

  lemma SaveStoresKeys(s: Settings, stored: map<string, string>)
    ensures Get(stored + SaveEntries(s), "openaiKey") == Some(StoredForm(s.form).openaiKey)
    ensures Get(stored + SaveEntries(s), "anthropicKey") == Some(StoredForm(s.form).anthropicKey)
    ensures Get(stored + SaveEntries(s), "geminiKey") == Some(StoredForm(s.form).geminiKey)
  {
    SavedRead(s, stored, "openaiKey");
    SavedRead(s, stored, "anthropicKey");
    SavedRead(s, stored, "geminiKey");
  }

  lemma SaveStoresTexts(s: Settings, stored: map<string, string>)
    ensures Get(stored + SaveEntries(s), "resumeText") == Some(StoredForm(s.form).resumeText)
    ensures Get(stored + SaveEntries(s), "generalContextText") == Some(StoredForm(s.form).generalText)
    ensures Get(stored + SaveEntries(s), "socialContextText") == Some(StoredForm(s.form).socialText)
    ensures Get(stored + SaveEntries(s), "systemPrompt") == Some(StoredForm(s.form).systemPrompt)
  {
    SavedRead(s, stored, "resumeText");
    SavedRead(s, stored, "generalContextText");
    SavedRead(s, stored, "socialContextText");
    SavedRead(s, stored, "systemPrompt");
  }

  lemma SaveStoresModel(s: Settings, stored: map<string, string>)
    ensures ModelFor(s.provider, s.form).Some? ==>
      Get(stored + SaveEntries(s), "model") == ModelFor(s.provider, s.form)
  {
    if ModelFor(s.provider, s.form).Some? {
      assert "model" in SaveEntries(s);
    }
  }

  /** Loading storage that holds a provider, mode, style, keys and texts
      reads them back, empty choices as their defaults. */
  lemma LoadStored(t: Settings, data: map<string, string>, current: Form)
    requires Get(data, "provider") == Some(t.provider) && Get(data, "mode") == Some(t.mode)
    requires Get(data, "socialStyle") == Some(t.socialStyle)
    requires Get(data, "openaiKey") == Some(t.form.openaiKey)
    requires Get(data, "anthropicKey") == Some(t.form.anthropicKey)
    requires Get(data, "geminiKey") == Some(t.form.geminiKey)
    requires Get(data, "resumeText") == Some(t.form.resumeText)
    requires Get(data, "generalContextText") == Some(t.form.generalText)
    requires Get(data, "socialContextText") == Some(t.form.socialText)
    requires Get(data, "systemPrompt") == Some(t.form.systemPrompt)
    requires ModelFor(t.provider, t.form).Some? ==> Get(data, "model") == ModelFor(t.provider, t.form)
    ensures LoadSettings(data, current).provider == (if t.provider != "" then t.provider else "openai")
    ensures LoadSettings(data, current).mode == (if t.mode != "" then t.mode else "general")
    ensures LoadSettings(data, current).socialStyle == (if t.socialStyle != "" then t.socialStyle else "genz")
    ensures SameKeysAndTexts(LoadSettings(data, current).form, t.form)
    ensures ModelFor(t.provider, t.form).Some? && ModelFor(t.provider, t.form).value != "" ==>
      ModelFor(LoadSettings(data, current).provider, LoadSettings(data, current).form) == ModelFor(t.provider, t.form)
  {
  }

  /** What a save writes, a later load reads back: the provider, mode and
      style (empty ones as their defaults), the trimmed keys, the sanitised
      texts, and a non-empty model in the active provider's select. */
  lemma LoadAfterSave(s: Settings, stored: map<string, string>, current: Form)
    requires SaveSettings(s).Written?
    ensures var l := LoadSettings(stored + SaveSettings(s).entries, current);
      && l.provider == (if s.provider != "" then s.provider else "openai")
      && l.mode == (if s.mode != "" then s.mode else "general")
      && l.socialStyle == (if s.socialStyle != "" then s.socialStyle else "genz")
      && SameKeysAndTexts(l.form, StoredForm(s.form))
      && (ModelFor(s.provider, s.form).Some? && ModelFor(s.provider, s.form).value != "" ==>
            ModelFor(l.provider, l.form) == ModelFor(s.provider, s.form))
  {
    var data := stored + SaveEntries(s);
    var t := s.(form := StoredForm(s.form));
    assert t.provider == s.provider && t.mode == s.mode && t.socialStyle == s.socialStyle;
    assert t.form == StoredForm(s.form);
    SaveStoresChoices(s, stored);
    SaveStoresKeys(s, stored);
    SaveStoresTexts(s, stored);
    assert ModelFor(t.provider, t.form) == ModelFor(s.provider, s.form);
    SaveStoresModel(s, stored);
    LoadStored(t, data, current);
  }

  /** Saving again right after loading what a save wrote is accepted: the
      active provider's key survives the round trip. */
  lemma SaveAfterReload(s: Settings, stored: map<string, string>, current: Form)
    requires SaveSettings(s).Written?
    ensures SaveSettings(LoadSettings(stored + SaveSettings(s).entries, current)).Written?
  {
    LoadAfterSave(s, stored, current);
    var l := LoadSettings(stored + SaveSettings(s).entries, current);
    ReloadedKey(s.provider, s.form, l.form);
  }

  /** A form read back from what a save stored has the same active key. */
  lemma ReloadedKey(provider: string, f: Form, g: Form)
    requires SameKeysAndTexts(g, StoredForm(f))
    ensures ActiveKey(if provider != "" then provider else "openai", g) == ActiveKey(provider, f)
  {
    if provider == "anthropic" {
      TrimIdentity(Trim(f.anthropicKey));
    } else if provider == "gemini" {
      TrimIdentity(Trim(f.geminiKey));
    } else {
      var chosen := if provider != "" then provider else "openai";
      assert chosen != "anthropic" && chosen != "gemini";
      TrimIdentity(Trim(f.openaiKey));
    }
  }

  // ---------------------------------------------------------------------------
  // handleFileUpload

  /** The three upload areas: resume, general context and social context. */
  datatype Target = ResumeArea | GeneralArea | SocialArea

  function FileNameKey(t: Target): string
  {
    match t
    case ResumeArea => "resumeFileName"
    case GeneralArea => "generalFileName"
    case SocialArea => "socialFileName"
  }

  function SuccessLabel(t: Target): string
  {
    match t
    case ResumeArea => "Resume"
    case GeneralArea => "General context"
    case SocialArea => "Social context"
  }

  /** The status line after an accepted upload: the area's name and the
      number of characters that went into it. */
  function UploadedStatus(t: Target, text: string): string
  {
    SuccessLabel(t) + " loaded: " + Decimal(|text|) + " characters extracted."
  }

  /** The form with the text area of an upload target replaced. */
  function WithText(form: Form, t: Target, text: string): Form
  {
    match t
    case ResumeArea => form.(resumeText := text)
    case GeneralArea => form.(generalText := text)
    case SocialArea => form.(socialText := text)
  }

  function LowerAscii(s: string): (r: string)
    ensures |r| == |s|
    decreases |s|
  {
    if s == [] then []
    else [if 'A' <= s[0] <= 'Z' then (s[0] as int + 32) as char else s[0]] + LowerAscii(s[1..])
  }

  /** A PDF is recognised by its MIME type or by a name ending in ".pdf" in
      any letter case. Lower-casing only ASCII letters decides the suffix the
      same way: no other character lower-cases to '.', 'p', 'd' or 'f'. */
  predicate IsPdf(name: string, mimeType: string)
  {
    mimeType == "application/pdf" || (|name| >= 4 && LowerAscii(name)[|name| - 4..] == ".pdf")
  }

  datatype UploadOutcome = Accepted(text: string) | Refused(status: string)

  /** What handleFileUpload decides for a file: `extractorLoaded` says
      whether the PDF extractor is present, and `read` is the text that the
      extractor (for a PDF) or `file.text()` (for anything else) gives, or the
      message of the error it raises. */
  function UploadDecision(name: string, mimeType: string, extractorLoaded: bool,
                          read: Result<string>, maxChars: nat): (o: UploadOutcome)
    ensures IsPdf(name, mimeType) && !extractorLoaded ==> o == Refused(PdfParserMissing)
    ensures (!IsPdf(name, mimeType) || extractorLoaded) && read.Thrown? ==>
      o == Refused(ProcessingFailedPrefix + read.message)
    ensures IsPdf(name, mimeType) && o.Accepted? ==> read.Returned? && |read.value| >= MinPdfChars
    ensures IsPdf(name, mimeType) && extractorLoaded && read.Returned? && |read.value| < MinPdfChars ==>
      o == Refused(PdfTooShort)
    ensures o.Accepted? ==> read.Returned? && o.text == SanitizeText(read.value, maxChars)
    ensures !IsPdf(name, mimeType) && read.Returned? ==> o.Accepted?
    ensures o.Accepted? <==>
      read.Returned? && (!IsPdf(name, mimeType) || (extractorLoaded && |read.value| >= MinPdfChars))
  {
    if IsPdf(name, mimeType) && !extractorLoaded then Refused(PdfParserMissing)
    else
      match read
      case Thrown(m) => Refused(ProcessingFailedPrefix + m)
      case Returned(text) =>
        if IsPdf(name, mimeType) && |text| < MinPdfChars then Refused(PdfTooShort)
        else Accepted(SanitizeText(text, maxChars))
  }

  /** The value of a decimal digit; any other character counts as zero. */
  function DigitValue(c: char): nat
  {
    if '0' <= c <= '9' then c as int - '0' as int else 0
  }

  /** The number a string of decimal digits denotes, most significant first. */
  function DigitsValue(s: string): nat
  {
    if s == [] then 0 else 10 * DigitsValue(s[..|s| - 1]) + DigitValue(s[|s| - 1])
  }

  /** The decimal digits of a count, as a template literal prints it: digits
      only, no leading zero, and they denote the count. */
  function Decimal(n: nat): (s: string)
    ensures s != [] && forall i :: 0 <= i < |s| ==> '0' <= s[i] <= '9'
    ensures |s| > 1 ==> s[0] != '0'
    ensures DigitsValue(s) == n
  {
    var d := ['0' + (n % 10) as char];
    if n < 10 then d
    else
      var x := Decimal(n / 10);
      assert (x + d)[..|x + d| - 1] == x;
      x + d
  }

  /** An upper-case ".PDF" name counts as a PDF. */
  lemma UpperCaseSuffixIsPdf()
    ensures IsPdf("CV.PDF", "")
  {
    var n := "CV.PDF";
    assert n[1..] == "V.PDF" && n[2..] == ".PDF" && n[3..] == "PDF" && n[4..] == "DF" && n[5..] == "F";
    assert LowerAscii(n) == "cv.pdf";
  }

  // ---------------------------------------------------------------------------
  // The page

  /** The page's module-level state, its form, the two texts it shows (the
      mode badge and the status line) and local storage. */
  class OptionsPage {
    var activeProvider: string
    var activeMode: string
    var activeSocialStyle: string
    var form: Form
    var modeBadge: string
    var status: string
    var statusIsError: bool
    var stored: map<string, string>

    /** The page before loading: the initial provider, mode and style, the
        form as the markup fills it and whatever storage holds. */
    constructor(form: Form, stored: map<string, string>)
      ensures activeProvider == "openai" && activeMode == "general" && activeSocialStyle == "genz"
      ensures this.form == form && this.stored == stored && status == "" && !statusIsError
    {
      activeProvider := "openai";
      activeMode := "general";
      activeSocialStyle := "genz";
      this.form := form;
      modeBadge := "";
      status := "";
      statusIsError := false;
      this.stored := stored;
    }

    function Current(): Settings
      reads this
    {
      Settings(activeProvider, activeMode, activeSocialStyle, form)
    }

    /** loadSettings. */
    method Load()
      modifies this
      ensures Current() == LoadSettings(old(stored), old(form))
      ensures modeBadge == ModeBadge(activeMode)
      ensures stored == old(stored) && status == old(status) && statusIsError == old(statusIsError)
    {
      var s := LoadSettings(stored, form);
      activeProvider := s.provider;
      activeMode := s.mode;
      activeSocialStyle := s.socialStyle;
      modeBadge := ModeBadge(activeMode);
      form := s.form;
    }

    /** The save click: the settings on the page are saved. */
    method Save()
      modifies this`stored, this`status, this`statusIsError
      ensures stored == AfterSave(old(stored), SaveSettings(old(Current())))
      ensures status == SaveStatus(SaveSettings(old(Current())))
      ensures statusIsError == SaveSettings(old(Current())).Rejected?
    {
      var r := SaveSettings(Current());
      stored := AfterSave(stored, r);
      status, statusIsError := SaveStatus(r), r.Rejected?;
    }

    /** A provider tab click. */
    method SelectProvider(provider: string)
      modifies this`activeProvider
      ensures activeProvider == provider
      ensures activeMode == old(activeMode) && activeSocialStyle == old(activeSocialStyle) && form == old(form)
      ensures stored == old(stored) && modeBadge == old(modeBadge)
      ensures status == old(status) && statusIsError == old(statusIsError)
    {
      activeProvider := provider;
    }

    /** A mode tab click. */
    method SelectMode(mode: string)
      modifies this`activeMode, this`modeBadge
      ensures activeMode == mode && modeBadge == ModeBadge(mode)
      ensures activeProvider == old(activeProvider) && activeSocialStyle == old(activeSocialStyle) && form == old(form)
      ensures stored == old(stored)
      ensures status == old(status) && statusIsError == old(statusIsError)
    {
      activeMode := mode;
      modeBadge := ModeBadge(mode);
    }

    /** A style tab click. */
    method SelectStyle(style: string)
      modifies this`activeSocialStyle
      ensures activeSocialStyle == style
      ensures activeProvider == old(activeProvider) && activeMode == old(activeMode) && form == old(form)
      ensures stored == old(stored) && modeBadge == old(modeBadge)
      ensures status == old(status) && statusIsError == old(statusIsError)
    {
      activeSocialStyle := style;
    }

    /** handleFileUpload for one upload area: an accepted file sets the
        area's text and stores the file name; a refused one changes neither
        and shows the reason as an error. */
    method HandleFileUpload(target: Target, name: string, mimeType: string, extractorLoaded: bool,
                            read: Result<string>, maxChars: nat)
      modifies this`form, this`stored, this`status, this`statusIsError
      ensures var o := UploadDecision(name, mimeType, extractorLoaded, read, maxChars);
        && (o.Refused? ==> form == old(form) && stored == old(stored) && status == o.status && statusIsError)
        && (o.Accepted? ==>
              && form == WithText(old(form), target, o.text)
              && stored == old(stored)[FileNameKey(target) := name]
              && status == UploadedStatus(target, o.text)
              && !statusIsError)
    {
      var o := UploadDecision(name, mimeType, extractorLoaded, read, maxChars);
      match o
      case Refused(message) =>
        status, statusIsError := message, true;
      case Accepted(text) =>
        form := WithText(form, target, text);
        stored := stored[FileNameKey(target) := name];
        status := UploadedStatus(target, text);
        statusIsError := false;
    }
  }
}
