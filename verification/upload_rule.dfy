/** The direct-link upload rule dialog (`DirectLinkUploadConfig`): the form
    fields, filling them from a rule, and reading a rule back with validation. */
module DirectLinkUpload {
  import opened Wrappers
  import opened Text

  /** `DirectLinkUpload.Rule`. */
  datatype Rule = Rule(uploadUrl: string, downloadUrlRule: string, summary: string, compress: bool)

  /** The dialog's inputs: three text fields (whose text may be absent) and a checkbox. */
  datatype Form = Form(uploadUrl: Option<string>, downloadUrlRule: Option<string>, summary: Option<string>, compress: bool)

  /** Which field the dialog complains about. */
  datatype RuleError = UploadUrlEmpty | DownloadUrlRuleEmpty | SummaryEmpty

  /** `getRule`: the three text fields are checked in order and the first blank
      one is reported; otherwise the rule carries the form's values. */
  function GetRule(f: Form): (r: Result<Rule, RuleError>)
    ensures r.Success? <==> !IsNullOrBlank(f.uploadUrl) && !IsNullOrBlank(f.downloadUrlRule) && !IsNullOrBlank(f.summary)
    ensures IsNullOrBlank(f.uploadUrl) ==> r == Failure(UploadUrlEmpty)
    ensures !IsNullOrBlank(f.uploadUrl) && IsNullOrBlank(f.downloadUrlRule) ==> r == Failure(DownloadUrlRuleEmpty)
    ensures !IsNullOrBlank(f.uploadUrl) && !IsNullOrBlank(f.downloadUrlRule) && IsNullOrBlank(f.summary) ==>
              r == Failure(SummaryEmpty)
    ensures r.Success? ==>
              && Some(r.value.uploadUrl) == f.uploadUrl
              && Some(r.value.downloadUrlRule) == f.downloadUrlRule
              && Some(r.value.summary) == f.summary
              && r.value.compress == f.compress
  {
    if IsNullOrBlank(f.uploadUrl) then Failure(UploadUrlEmpty)
    else if IsNullOrBlank(f.downloadUrlRule) then Failure(DownloadUrlRuleEmpty)
    else if IsNullOrBlank(f.summary) then Failure(SummaryEmpty)
    else Success(Rule(f.uploadUrl.value, f.downloadUrlRule.value, f.summary.value, f.compress))
  }

  /** `upView`: show a rule in the form. */
  function UpView(rule: Rule): Form {
    Form(Some(rule.uploadUrl), Some(rule.downloadUrlRule), Some(rule.summary), rule.compress)
  }

  /** Reading back a rule just shown gives the rule itself exactly when its
      three text fields are non-blank. */
  lemma UpViewGetRule(rule: Rule)
    ensures GetRule(UpView(rule)) == Success(rule) <==>
              !IsBlank(rule.uploadUrl) && !IsBlank(rule.downloadUrlRule) && !IsBlank(rule.summary)
  {
  }

  /** A rule read from the form shows the same form again. */
  lemma GetRuleUpView(f: Form)
    requires GetRule(f).Success?
    ensures UpView(GetRule(f).value) == f
  {
  }

  /** The OK button: a valid form replaces the stored rule and closes the
      dialog; an invalid one leaves both as they are. */
  function Confirm(stored: Rule, f: Form): (r: (Rule, bool))
    ensures r.1 <==> GetRule(f).Success?
    ensures r.1 ==> UpView(r.0) == f
    ensures !r.1 ==> r.0 == stored
  {
    match GetRule(f)
    case Success(rule) => (rule, true)
    case Failure(_) => (stored, false)
  }
}
