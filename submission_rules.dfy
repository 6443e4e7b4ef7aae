/**
  The rule set of the submission validator as pure functions: for one file,
  the exact sequence of errors `SubmissionValidator.validate_file` collects,
  in the order it collects them, and a declarative description of a
  well-formed submission that the lemmas connect to it.
 */
module SubmissionRules {
  import opened Text
  import opened Values
  import opened Paths

  /** The fields required when no override list (or an empty one) is given. */
  const DefaultRequiredFields: seq<string> :=
    ["username", "paper_title", "paper_pdf", "identifier", "claim_type", "claims"]
  const AllowedExtensions: seq<string> := [".json", ".yaml", ".yml"]
  const ClaimTypes: seq<string> := ["custom_code", "pip_libraries"]
  const UrlFields: seq<string> := ["paper_pdf", "code_url", "data_url"]
  /** GitHub's limit on the length of a user name. */
  const MaxUsernameLength: nat := 39

  /** What is found at the path handed to the validator. */
  datatype FileState = Missing | Present(load: LoadOutcome)

  /** One entry of the validator's error list; each carries what its message
      names: a path, an extension, a field, or a claim and step number
      (counted from 1). */
  datatype ValidationError =
    | FileNotFound(path: string)
    | InvalidExtension(ext: string)
    | InvalidJson(detail: string)
    | InvalidYaml(detail: string)
    | ReadFailure(detail: string)
    | NotAnObject
    | FieldMissing(field: string)
    | FieldEmpty(field: string)
    | UsernameEmpty
    | UsernameCharacters
    | UsernameTooLong
    | ClaimTypeInvalid
    | CodeUrlRequiredForCustomCode
    | CodeUrlRequired
    | PaperTitleInvalid
    | UrlInvalid(field: string)
    | IdentifierEmpty
    | ClaimsNotList
    | ClaimsEmpty
    | ClaimNotObject(claim: nat)
    | ClaimTextMissing(claim: nat)
    | InstructionMissing(claim: nat)
    | InstructionNotList(claim: nat)
    | InstructionEmpty(claim: nat)
    | StepInvalid(claim: nat, step: nat)
  {
    /** An error about one numbered claim. */
    predicate IsClaimError() {
      ClaimNotObject? || ClaimTextMissing? || InstructionMissing? || InstructionNotList?
      || InstructionEmpty? || StepInvalid?
    }
  }

  /** The text the validator reports for an error. The word a message is
      recognised by (a field name, "Username", "instruction") is written as a
      piece of its own; the text is the same. */
  function Message(e: ValidationError): string {
    match e
    case FileNotFound(path) => "File not found: " + path
    case InvalidExtension(ext) => "Invalid file extension: " + ext + ". Must be .json, .yaml, or .yml"
    case InvalidJson(detail) => "Invalid JSON format: " + detail
    case InvalidYaml(detail) => "Invalid YAML format: " + detail
    case ReadFailure(detail) => "Error reading file: " + detail
    case NotAnObject => "Data must be a JSON/YAML object (dictionary)"
    case FieldMissing(field) => "Required field missing: '" + field + "'"
    case FieldEmpty(field) => "Required field '" + field + "' cannot be empty"
    case UsernameEmpty => "Username" + " cannot be empty"
    case UsernameCharacters => "Username" + " can only contain letters, numbers, hyphens, and underscores"
    case UsernameTooLong => "Username" + " is too long (max 39 characters)"
    case ClaimTypeInvalid => "claim_type" + " must be either 'custom_code' or 'pip_libraries'"
    case CodeUrlRequiredForCustomCode => "code_url" + " is required for custom_code claim type"
    case CodeUrlRequired =>
      "code_url" + " is required (or specify claim_type as 'pip_libraries' if using standard libraries)"
    case PaperTitleInvalid => "Paper title must be a non-empty string"
    case UrlInvalid(field) => field + " must be a valid URL starting with http:// or https://"
    case IdentifierEmpty => "Identifier cannot be empty"
    case ClaimsNotList => "Claims must be a list"
    case ClaimsEmpty => "At least one claim" + " is required"
    case ClaimNotObject(i) => "Claim " + NatToString(i) + " must be a dictionary"
    case ClaimTextMissing(i) => "Claim " + NatToString(i) + " must have a non-empty 'claim' field"
    case InstructionMissing(i) => "Claim " + NatToString(i) + " must have an '" + "instruction" + "' field"
    case InstructionNotList(i) =>
      "Claim " + NatToString(i) + " '" + "instruction" + "' field must be a list of strings"
    case InstructionEmpty(i) => "Claim " + NatToString(i) + " '" + "instruction" + "' list cannot be empty"
    case StepInvalid(i, j) =>
      "Claim " + NatToString(i) + " " + "instruction" + " step " + NatToString(j) + " must be a non-empty string"
  }

  // ---------------------------------------------------------------------
  // The checks, in the order the validator runs them. The validator's
  // `not s.strip()` is written `IsBlank(s)`: by the contract of `Strip`,
  // the stripped string is empty exactly when s is all whitespace; and
  // `str(v).strip()` is `StrippedText(v)` (see `Values.TextRendering`).
  // ---------------------------------------------------------------------

  /** `Path(filepath).suffix.lower()`. */
  function Extension(path: string): string {
    Lower(Suffix(FileName(path)))
  }

  /** `data.get(key)` is truthy. */
  predicate HasTruthy(data: map<string, Value>, key: string) {
    key in data && Truthy(data[key])
  }

  function RequiredFieldError(field: string, data: map<string, Value>): seq<ValidationError> {
    if field !in data then [FieldMissing(field)]
    else if data[field].Null? || (data[field].Str? && IsBlank(data[field].s)) then [FieldEmpty(field)]
    else []
  }

  /** The errors of the loop over the required fields, for the fields given. */
  function RequiredFieldErrors(fields: seq<string>, data: map<string, Value>): seq<ValidationError> {
    if fields == [] then []
    else RequiredFieldErrors(fields[..|fields| - 1], data) + RequiredFieldError(fields[|fields| - 1], data)
  }

  function UsernameErrors(data: map<string, Value>): seq<ValidationError> {
    if "username" !in data then []
    else
      var username := StrippedText(data["username"]);
      if username == "" then [UsernameEmpty]
      else if !IsAlnumString(Without(Without(username, '-'), '_')) then [UsernameCharacters]
      else if |username| > MaxUsernameLength then [UsernameTooLong]
      else []
  }

  /** `str(data['claim_type']).strip()`. */
  function ClaimTypeOf(data: map<string, Value>): string
    requires "claim_type" in data
  {
    StrippedText(data["claim_type"])
  }

  function ClaimTypeErrors(data: map<string, Value>): seq<ValidationError> {
    if "claim_type" in data then
      var claimType := ClaimTypeOf(data);
      (if claimType !in ClaimTypes then [ClaimTypeInvalid] else [])
      + (if claimType == "custom_code" && !HasTruthy(data, "code_url") then [CodeUrlRequiredForCustomCode] else [])
    else if !HasTruthy(data, "code_url") then [CodeUrlRequired]
    else []
  }

  function TitleErrors(data: map<string, Value>): seq<ValidationError> {
    if "paper_title" in data && (!data["paper_title"].Str? || IsBlank(data["paper_title"].s)) then
      [PaperTitleInvalid]
    else []
  }

  predicate IsHttpUrl(url: string) {
    StartsWith(url, "http://") || StartsWith(url, "https://")
  }

  function UrlError(field: string, data: map<string, Value>): seq<ValidationError> {
    if HasTruthy(data, field) && !IsHttpUrl(StrippedText(data[field])) then [UrlInvalid(field)] else []
  }

  /** The errors of the loop over the URL fields, for the fields given. */
  function UrlErrors(fields: seq<string>, data: map<string, Value>): seq<ValidationError> {
    if fields == [] then []
    else UrlErrors(fields[..|fields| - 1], data) + UrlError(fields[|fields| - 1], data)
  }

  function IdentifierErrors(data: map<string, Value>): seq<ValidationError> {
    if "identifier" in data && IsBlankText(data["identifier"]) then [IdentifierEmpty] else []
  }

  /** The errors of `for j, item in enumerate(items, 1)` over the first n
      items, where `check(j, item)` gives the errors for item number j. */
  function Numbered(check: (nat, Value) -> seq<ValidationError>, items: seq<Value>, n: nat): seq<ValidationError>
    requires n <= |items|
  {
    if n == 0 then [] else Numbered(check, items, n - 1) + check(n, items[n - 1])
  }

  /** The error for instruction step number j of claim number k. */
  function StepError(k: nat, j: nat, step: Value): seq<ValidationError> {
    if !step.Str? || IsBlank(step.s) then [StepInvalid(k, j)] else []
  }

  /** The check of claim number k's loop over its instruction steps. */
  function StepCheck(k: nat): (nat, Value) -> seq<ValidationError> {
    (j: nat, step: Value) => StepError(k, j, step)
  }

  function ClaimTextErrors(k: nat, claim: map<string, Value>): seq<ValidationError> {
    if "claim" !in claim || IsBlankText(claim["claim"]) then [ClaimTextMissing(k)] else []
  }

  function InstructionErrors(k: nat, claim: map<string, Value>): seq<ValidationError> {
    if "instruction" !in claim then [InstructionMissing(k)]
    else if !claim["instruction"].List? then [InstructionNotList(k)]
    else
      var steps := claim["instruction"].items;
      if steps == [] then [InstructionEmpty(k)] else Numbered(StepCheck(k), steps, |steps|)
  }

  /** The errors for one element of `claims`, claim number k. */
  function ClaimErrors(k: nat, claim: Value): seq<ValidationError> {
    if claim.Obj? then ClaimTextErrors(k, claim.fields) + InstructionErrors(k, claim.fields)
    else [ClaimNotObject(k)]
  }


  function ClaimsErrors(data: map<string, Value>): seq<ValidationError> {
    if "claims" !in data then []
    else if !data["claims"].List? then [ClaimsNotList]
    else
      var claims := data["claims"].items;
      if claims == [] then [ClaimsEmpty] else Numbered(ClaimErrors, claims, |claims|)
  }

  /** `_validate_data_structure`: the checks after the required fields. */
  function StructureErrors(data: map<string, Value>): seq<ValidationError> {
    UsernameErrors(data) + ClaimTypeErrors(data) + TitleErrors(data)
    + UrlErrors(UrlFields, data) + IdentifierErrors(data) + ClaimsErrors(data)
  }

  /** All errors for a document that parsed to a mapping. */
  function DocumentErrors(required: seq<string>, data: map<string, Value>): seq<ValidationError> {
    RequiredFieldErrors(required, data) + StructureErrors(data)
  }

  /** All errors `validate_file` reports for the file at `path`. */
  function FileErrors(required: seq<string>, path: string, file: FileState): seq<ValidationError> {
    match file
    case Missing => [FileNotFound(path)]
    case Present(load) =>
      var ext := Extension(path);
      if ext !in AllowedExtensions then [InvalidExtension(ext)]
      else match load
        case SyntaxError(detail) => if ext == ".json" then [InvalidJson(detail)] else [InvalidYaml(detail)]
        case ReadError(detail) => [ReadFailure(detail)]
        case Parsed(v) => if v.Obj? then DocumentErrors(required, v.fields) else [NotAnObject]
  }

  // ---------------------------------------------------------------------
  // What a well-formed submission is, stated rule by rule
  // ---------------------------------------------------------------------

  /** `None` or a whitespace-only string. */
  predicate IsEmptyValue(v: Value) {
    v.Null? || (v.Str? && IsBlank(v.s))
  }

  predicate HasRequiredFields(required: seq<string>, data: map<string, Value>) {
    forall f :: f in required ==> f in data && !IsEmptyValue(data[f])
  }

  predicate IsUsernameChar(c: char) {
    IsAlnum(c) || c == '-' || c == '_'
  }

  /** Only letters, digits, '-' and '_', with at least one letter or digit. */
  predicate UsernameCharset(u: string) {
    && (forall i :: 0 <= i < |u| ==> IsUsernameChar(u[i]))
    && (exists i :: 0 <= i < |u| && IsAlnum(u[i]))
  }

  predicate IsUsername(u: string) {
    UsernameCharset(u) && |u| <= MaxUsernameLength
  }

  predicate UsernameOk(data: map<string, Value>) {
    "username" in data ==> IsUsername(StrippedText(data["username"]))
  }

  /** A `custom_code` claim type, or a missing one (legacy documents), needs `code_url`. */
  predicate RequiresCodeUrl(data: map<string, Value>) {
    "claim_type" !in data || ClaimTypeOf(data) == "custom_code"
  }

  predicate ClaimTypeOk(data: map<string, Value>) {
    && ("claim_type" in data ==> ClaimTypeOf(data) in ClaimTypes)
    && (RequiresCodeUrl(data) ==> HasTruthy(data, "code_url"))
  }

  predicate TitleOk(data: map<string, Value>) {
    "paper_title" in data ==> data["paper_title"].Str? && !IsBlank(data["paper_title"].s)
  }

  predicate UrlOk(data: map<string, Value>, field: string) {
    HasTruthy(data, field) ==> IsHttpUrl(StrippedText(data[field]))
  }

  predicate UrlsOk(fields: seq<string>, data: map<string, Value>) {
    forall f :: f in fields ==> UrlOk(data, f)
  }

  predicate IdentifierOk(data: map<string, Value>) {
    "identifier" in data ==> !IsBlankText(data["identifier"])
  }

  predicate StepOk(step: Value) {
    step.Str? && !IsBlank(step.s)
  }

  predicate StepsOk(steps: seq<Value>) {
    forall j :: 0 <= j < |steps| ==> StepOk(steps[j])
  }

  /** A mapping with non-blank `claim` text and a non-empty list of
      non-blank instruction strings. */
  predicate ClaimOk(claim: Value) {
    && claim.Obj?
    && "claim" in claim.fields && !IsBlankText(claim.fields["claim"])
    && "instruction" in claim.fields && claim.fields["instruction"].List?
    && claim.fields["instruction"].items != []
    && StepsOk(claim.fields["instruction"].items)
  }

  predicate ClaimsOk(data: map<string, Value>) {
    "claims" in data ==>
      && data["claims"].List? && data["claims"].items != []
      && forall i :: 0 <= i < |data["claims"].items| ==> ClaimOk(data["claims"].items[i])
  }

  predicate WellFormed(required: seq<string>, data: map<string, Value>) {
    && HasRequiredFields(required, data)
    && UsernameOk(data)
    && ClaimTypeOk(data)
    && TitleOk(data)
    && UrlsOk(UrlFields, data)
    && IdentifierOk(data)
    && ClaimsOk(data)
  }
}
