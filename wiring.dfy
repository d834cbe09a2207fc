/** How the options page and the background script meet in local storage: the
    page writes one entry per provider key, while the message handler reads a
    single "apiKey" entry that the page never writes. */
module Wiring {
  import opened Js
  import Background
  import Options

  /** After an accepted save into storage that holds no "apiKey" entry, a
      generateAnswer request is answered with the missing-key error and no
      request is sent, whatever key the user entered. */
  lemma SavedKeyIsNotSeen(s: Options.Settings, stored: map<string, string>,
                          msg: Background.Message, exchange: Background.Exchange)
    requires Options.SaveSettings(s).Written?
    requires Background.ApiKeyEntry !in stored
    ensures Background.GenerateAnswer(msg, Returned(stored + Options.SaveSettings(s).entries), exchange)
         == Background.Outcome(None, Background.Err(Background.MissingKeyError))
  {
    Options.SaveEntriesShape(s);
    assert Background.ApiKeyEntry !in stored + Options.SaveSettings(s).entries;
  }

  /** When "apiKey" holds a key from elsewhere, the request is authorised with
      that key, not with the one just saved, and the prompt carries the resume
      text as the save sanitised it. */
  lemma RequestUsesSavedResume(s: Options.Settings, stored: map<string, string>,
                               msg: Background.Message, exchange: Background.Exchange)
    requires Options.SaveSettings(s).Written?
    requires Truthy(Get(stored, Background.ApiKeyEntry))
    ensures var o := Background.GenerateAnswer(msg, Returned(stored + Options.SaveSettings(s).entries), exchange);
      && o.request.Some?
      && o.request.value.authorization == Background.BearerPrefix + stored[Background.ApiKeyEntry]
      && o.request.value.prompt == Background.BuildPrompt(
           Some(Options.SanitizeText(s.form.resumeText, Options.MaxResumeChars)),
           msg.jobDescription, msg.question, msg.fieldValue)
  {
    var data := stored + Options.SaveSettings(s).entries;
    Options.SaveEntriesShape(s);
    Options.SaveStoresTexts(s, stored);
    assert Get(data, Background.ApiKeyEntry) == Get(stored, Background.ApiKeyEntry);
    assert Background.ResumeEntry == "resumeText";
  }
}
